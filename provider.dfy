/**
 * The handlers as the provider runs them: each one takes a fresh credentials
 * manager from the client, sets its folder, makes its client calls against the
 * Jenkins store and writes the resource's attributes in place. Each handler is
 * proved to do exactly what the matching function of `Reconcile` describes.
 */
module Provider {
  import opened Results
  import opened CredentialId
  import opened ImportId
  import opened Remote
  import opened Reconcile

  /** The Jenkins server, reduced to its credential store. */
  class Jenkins {
    var credentials: Store

    constructor (credentials: Store)
      ensures this.credentials == credentials
    {
      this.credentials := credentials;
    }
  }

  /** `gojenkins.CredentialsManager`: every call is scoped by `folder`. */
  class CredentialsManager {
    const jenkins: Jenkins
    var folder: string

    /** `client.Credentials()`: a manager on the root folder. */
    constructor (jenkins: Jenkins)
      ensures this.jenkins == jenkins && folder == ""
    {
      this.jenkins := jenkins;
      folder := "";
    }

    method GetSingle(domain: string, name: string, fault: Option<string>)
      returns (cred: StringCredentials, err: Option<string>)
      ensures var r := Remote.GetSingle(jenkins.credentials, folder, domain, name, fault);
              (err.None? <==> r.Ok?) && (r.Ok? ==> cred == r.value) && (r.Err? ==> err == Some(r.error))
    {
      cred := StringCredentials("", "", "", "");
      var r := Remote.GetSingle(jenkins.credentials, folder, domain, name, fault);
      match r
      case Ok(found) => cred, err := found, None;
      case Err(e) => err := Some(e);
    }

    method Add(domain: string, cred: StringCredentials, fault: Option<string>) returns (err: Option<string>)
      modifies jenkins
      ensures var r := Remote.Add(old(jenkins.credentials), folder, domain, cred, fault);
              && (r.Ok? ==> err.None? && jenkins.credentials == r.value)
              && (r.Err? ==> err == Some(r.error) && jenkins.credentials == old(jenkins.credentials))
    {
      match Remote.Add(jenkins.credentials, folder, domain, cred, fault)
      case Ok(updated) => jenkins.credentials := updated; err := None;
      case Err(e) => err := Some(e);
    }

    method Update(domain: string, name: string, cred: StringCredentials, fault: Option<string>)
      returns (err: Option<string>)
      modifies jenkins
      ensures var r := Remote.Update(old(jenkins.credentials), folder, domain, name, cred, fault);
              && (r.Ok? ==> err.None? && jenkins.credentials == r.value)
              && (r.Err? ==> err == Some(r.error) && jenkins.credentials == old(jenkins.credentials))
    {
      match Remote.Update(jenkins.credentials, folder, domain, name, cred, fault)
      case Ok(updated) => jenkins.credentials := updated; err := None;
      case Err(e) => err := Some(e);
    }

    method Delete(domain: string, name: string, fault: Option<string>) returns (err: Option<string>)
      modifies jenkins
      ensures var r := Remote.Delete(old(jenkins.credentials), folder, domain, name, fault);
              && (r.Ok? ==> err.None? && jenkins.credentials == r.value)
              && (r.Err? ==> err == Some(r.error) && jenkins.credentials == old(jenkins.credentials))
    {
      match Remote.Delete(jenkins.credentials, folder, domain, name, fault)
      case Ok(updated) => jenkins.credentials := updated; err := None;
      case Err(e) => err := Some(e);
    }
  }

  /** `schema.ResourceData` of one instance: its id and attributes, written in place. */
  class ResourceData {
    var id: string
    var name: string
    var domain: string
    var folder: string
    var scope: string
    var description: string
    var secret: string

    constructor (r: Resource)
      ensures State() == r
    {
      id, name, domain, folder := r.id, r.name, r.domain, r.folder;
      scope, description, secret := r.scope, r.description, r.secret;
    }

    /** The attributes as a value. */
    function State(): Resource
      reads this
    {
      Resource(id, name, domain, folder, scope, description, secret)
    }
  }

  /** `resourceJenkinsCredentialStringRead`. */
  method ResourceRead(d: ResourceData, client: Jenkins, format: string -> string, getFault: Option<string>)
    returns (diag: Option<Diagnostic>)
    modifies d
    ensures var s := ReadStep(old(d.State()), client.credentials, format, getFault);
            d.State() == s.res && diag == s.diag
  {
    var cm := new CredentialsManager(client);
    cm.folder := format(d.folder);
    var cred, err := cm.GetSingle(d.domain, d.name, getFault);
    if err.Some? {
      if IsNotFound(err.value) {
        d.id := "";
        return None;
      }
      return Some(CouldNotRead(err.value));
    }
    d.id := GenerateCredentialId(d.folder, cred.id);
    d.scope := cred.scope;
    d.description := cred.description;
    diag := None;
  }

  /** `resourceJenkinsCredentialStringCreate`. */
  method ResourceCreate(d: ResourceData, client: Jenkins, format: string -> string,
                        folderCheck: Option<string>, addFault: Option<string>, getFault: Option<string>)
    returns (diag: Option<Diagnostic>)
    modifies d, client
    ensures var s := CreateStep(old(d.State()), old(client.credentials), format, folderCheck, addFault, getFault);
            d.State() == s.res && client.credentials == s.store && diag == s.diag
  {
    var cm := new CredentialsManager(client);
    cm.folder := format(d.folder);
    if folderCheck.Some? {
      return Some(InvalidFolder(cm.folder, folderCheck.value));
    }
    var cred := StringCredentials(d.name, d.scope, d.description, d.secret);
    var err := cm.Add(d.domain, cred, addFault);
    if err.Some? {
      return Some(CouldNotCreate(err.value));
    }
    d.id := GenerateCredentialId(d.folder, cred.id);
    diag := ResourceRead(d, client, format, getFault);
  }

  /** `resourceJenkinsCredentialStringUpdate`. */
  method ResourceUpdate(d: ResourceData, client: Jenkins, format: string -> string,
                        updateFault: Option<string>, getFault: Option<string>)
    returns (diag: Option<Diagnostic>)
    modifies d, client
    ensures var s := UpdateStep(old(d.State()), old(client.credentials), format, updateFault, getFault);
            d.State() == s.res && client.credentials == s.store && diag == s.diag
  {
    var cm := new CredentialsManager(client);
    cm.folder := format(d.folder);
    var cred := StringCredentials(d.name, d.scope, d.description, "");
    if d.secret != "" {
      cred := cred.(secret := d.secret);
    }
    var err := cm.Update(d.domain, d.name, cred, updateFault);
    if err.Some? {
      return Some(CouldNotUpdate(err.value));
    }
    d.id := GenerateCredentialId(d.folder, cred.id);
    diag := ResourceRead(d, client, format, getFault);
  }

  /** `resourceJenkinsCredentialStringDelete`. */
  method ResourceDelete(d: ResourceData, client: Jenkins, format: string -> string, fault: Option<string>)
    returns (diag: Option<Diagnostic>)
    modifies client
    ensures var s := DeleteStep(d.State(), old(client.credentials), format, fault);
            client.credentials == s.store && diag == s.diag
  {
    var cm := new CredentialsManager(client);
    cm.folder := format(d.folder);
    var err := cm.Delete(d.domain, d.name, fault);
    if err.Some? {
      return Some(DeleteFailed(err.value));
    }
    diag := None;
  }

  /**
   * `resourceJenkinsCredentialStringImport`: the id the instance holds is the
   * import id. A malformed one is an error and nothing is set; otherwise name,
   * domain and folder are set and the id becomes `folder + "/" + name`.
   */
  method ResourceImport(d: ResourceData) returns (err: Option<ImportError>)
    modifies d
    ensures '/' !in old(d.id) ==> err == Some(ImproperlyFormatted) && d.State() == old(d.State())
    ensures '/' in old(d.id) ==>
              var p := ParseImportId(old(d.id)).value;
              && err.None?
              && d.State() == old(d.State()).(id := GenerateCredentialId(p.folder, p.name),
                                              name := p.name, domain := p.domain, folder := p.folder)
  {
    match ParseImportId(d.id)
    case Err(e) =>
      err := Some(e);
    case Ok(p) =>
      d.name := p.name;
      d.domain := p.domain;
      d.folder := p.folder;
      d.id := p.id;
      err := None;
  }

  /** `dataSourceJenkinsCredentialStringRead`. */
  method DataSourceRead(d: ResourceData, client: Jenkins, format: string -> string, getFault: Option<string>)
    returns (diag: Option<Diagnostic>)
    modifies d
    ensures var s := DataSourceReadStep(old(d.State()), client.credentials, format, getFault);
            d.State() == s.res && diag == s.diag
  {
    d.id := format(d.folder + "/" + d.name);
    diag := ResourceRead(d, client, format, getFault);
  }
}
