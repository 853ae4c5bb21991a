/**
 * The create, read, update and delete handlers of the `jenkins_credential_string`
 * resource, and the read of its data source, as transitions over the resource's
 * attributes and the credential store. `format` stands for `formatFolderName`,
 * whose definition is not part of this model; `folderCheck` is the error
 * `folderExists` returns for the formatted folder, if any; the `...Fault`
 * parameters are the errors the client calls fail with for reasons outside the
 * store.
 */
module Reconcile {
  import opened Results
  import opened GoStrings
  import opened CredentialId
  import opened Remote
  import opened ImportId

  /** Schema defaults of the resource. */
  const DefaultDomain: string := "_"
  const DefaultScope: string := "GLOBAL"
  const DefaultDescription: string := "Managed by Terraform"

  /** The attributes of one resource (or data source) instance, `id` included. */
  datatype Resource = Resource(id: string, name: string, domain: string, folder: string,
                               scope: string, description: string, secret: string)

  /** The diagnostics the handlers return, each carrying the error text it wraps. */
  datatype Diagnostic =
    | InvalidFolder(folder: string, cause: string)
    | CouldNotCreate(cause: string)
    | CouldNotRead(cause: string)
    | CouldNotUpdate(cause: string)
    | DeleteFailed(cause: string)

  /** The attributes and the store after a handler, and the diagnostic it returned (`None`: none). */
  datatype Step = Step(res: Resource, store: Store, diag: Option<Diagnostic>)

  /**
   * Where the resource's credential lives in the store: the manager's folder is
   * the formatted folder attribute, and the calls pass the domain and the name.
   */
  function KeyOf(r: Resource, format: string -> string): (k: StoreKey)
    ensures k.folder == format(r.folder) && k.domain == r.domain && k.name == r.name
  {
    StoreKey(format(r.folder), r.domain, r.name)
  }

  /**
   * The key does not depend on the id or on the payload, so the read-back after
   * `SetId` addresses the key that `Add` or `Update` wrote.
   */
  lemma KeyOfIgnoresPayload(r: Resource, id: string, scope: string, description: string, secret: string,
                            format: string -> string)
    ensures KeyOf(r.(id := id, scope := scope, description := description, secret := secret), format)
         == KeyOf(r, format)
  {
  }

  /** A client error is read as "the credential does not exist" when its text ends in `404`. */
  predicate IsNotFound(err: string)
    ensures IsNotFound(err) <==> exists p :: err == p + "404"
  {
    HasSuffix(err, "404")
  }

  /**
   * `resourceJenkinsCredentialStringRead`. A credential that exists gives the id
   * built from the folder attribute as written and the scope and description
   * stored remotely; a 404 clears the id without a diagnostic; any other error
   * is a diagnostic and changes nothing. The secret is never read back.
   */
  function ReadStep(r: Resource, store: Store, format: string -> string, fault: Option<string>): (s: Step)
    ensures s.store == store
    ensures s.res.secret == r.secret
    ensures fault.None? && KeyOf(r, format) in store ==>
              && s.diag.None?
              && s.res == r.(id := GenerateCredentialId(r.folder, r.name),
                             scope := store[KeyOf(r, format)].scope,
                             description := store[KeyOf(r, format)].description)
    ensures fault.None? && KeyOf(r, format) !in store ==> s.diag.None? && s.res == r.(id := "")
    ensures fault.Some? && IsNotFound(fault.value) ==> s.diag.None? && s.res == r.(id := "")
    ensures fault.Some? && !IsNotFound(fault.value) ==> s.diag == Some(CouldNotRead(fault.value)) && s.res == r
  {
    match GetSingle(store, format(r.folder), r.domain, r.name, fault)
    case Err(e) =>
      if IsNotFound(e) then Step(r.(id := ""), store, None)
      else Step(r, store, Some(CouldNotRead(e)))
    case Ok(cred) =>
      Step(r.(id := GenerateCredentialId(r.folder, cred.id), scope := cred.scope, description := cred.description),
           store, None)
  }

  /**
   * `resourceJenkinsCredentialStringCreate`. The folder is checked before
   * anything is added; a failed check or a failed Add leaves the store and the
   * attributes (the id included) as they were. Otherwise the credential is
   * stored, the id is set and the resource is read back.
   */
  function CreateStep(r: Resource, store: Store, format: string -> string, folderCheck: Option<string>,
                      addFault: Option<string>, getFault: Option<string>): (s: Step)
    ensures folderCheck.Some? ==>
              s.store == store && s.res == r && s.diag == Some(InvalidFolder(format(r.folder), folderCheck.value))
    ensures folderCheck.None? && addFault.Some? ==>
              s.store == store && s.res == r && s.diag == Some(CouldNotCreate(addFault.value))
    ensures folderCheck.None? && addFault.None? ==>
              s.store == store[KeyOf(r, format) := Stored(r.scope, r.description, r.secret)]
    ensures folderCheck.None? && addFault.None? ==>
              s == ReadStep(r.(id := GenerateCredentialId(r.folder, r.name)),
                            store[KeyOf(r, format) := Stored(r.scope, r.description, r.secret)], format, getFault)
    ensures folderCheck.None? && addFault.None? && getFault.None? ==>
              s.res == r.(id := GenerateCredentialId(r.folder, r.name)) && s.diag.None?
    ensures s.res.secret == r.secret
  {
    var folder := format(r.folder);
    if folderCheck.Some? then Step(r, store, Some(InvalidFolder(folder, folderCheck.value)))
    else
      var cred := StringCredentials(r.name, r.scope, r.description, r.secret);
      match Add(store, folder, r.domain, cred, addFault)
      case Err(e) => Step(r, store, Some(CouldNotCreate(e)))
      case Ok(added) => ReadStep(r.(id := GenerateCredentialId(r.folder, cred.id)), added, format, getFault)
  }

  /** The record Update sends: name, scope and description always, the secret only when it is not empty. */
  function UpdatePayload(r: Resource): (cred: StringCredentials)
    ensures cred.id == r.name && cred.scope == r.scope && cred.description == r.description
    ensures r.secret != "" ==> cred.secret == r.secret
    ensures r.secret == "" ==> cred.secret == ""
  {
    var cred := StringCredentials(r.name, r.scope, r.description, "");
    if r.secret != "" then cred.(secret := r.secret) else cred
  }

  /**
   * `resourceJenkinsCredentialStringUpdate`. Scope and description are always
   * pushed; the stored secret is replaced only by a non-empty secret. A failed
   * update is a diagnostic and changes nothing; a successful one sets the id
   * and reads the resource back.
   */
  function UpdateStep(r: Resource, store: Store, format: string -> string, updateFault: Option<string>,
                      getFault: Option<string>): (s: Step)
    ensures updateFault.Some? ==>
              s.store == store && s.res == r && s.diag == Some(CouldNotUpdate(updateFault.value))
    ensures updateFault.None? && KeyOf(r, format) !in store ==>
              s.store == store && s.res == r && s.diag == Some(CouldNotUpdate(NotFound))
    ensures updateFault.None? && KeyOf(r, format) in store ==>
              var key := KeyOf(r, format);
              s.store == store[key := Stored(r.scope, r.description,
                                             if r.secret == "" then store[key].secret else r.secret)]
    ensures updateFault.None? && KeyOf(r, format) in store ==>
              var key := KeyOf(r, format);
              s == ReadStep(r.(id := GenerateCredentialId(r.folder, r.name)),
                            store[key := Stored(r.scope, r.description,
                                                if r.secret == "" then store[key].secret else r.secret)],
                            format, getFault)
    ensures updateFault.None? && KeyOf(r, format) in store && getFault.None? ==>
              s.res == r.(id := GenerateCredentialId(r.folder, r.name)) && s.diag.None?
    ensures s.res.secret == r.secret
  {
    var cred := UpdatePayload(r);
    match Update(store, format(r.folder), r.domain, r.name, cred, updateFault)
    case Err(e) => Step(r, store, Some(CouldNotUpdate(e)))
    case Ok(updated) => ReadStep(r.(id := GenerateCredentialId(r.folder, cred.id)), updated, format, getFault)
  }

  /**
   * `resourceJenkinsCredentialStringDelete`. Every client error, a 404
   * included, is returned as it is; the attributes never change.
   */
  function DeleteStep(r: Resource, store: Store, format: string -> string, fault: Option<string>): (s: Step)
    ensures s.res == r
    ensures fault.Some? ==> s.store == store && s.diag == Some(DeleteFailed(fault.value))
    ensures fault.None? && KeyOf(r, format) !in store ==> s.store == store && s.diag == Some(DeleteFailed(NotFound))
    ensures fault.None? && KeyOf(r, format) in store ==> s.store == store - {KeyOf(r, format)} && s.diag.None?
  {
    match Delete(store, format(r.folder), r.domain, r.name, fault)
    case Err(e) => Step(r, store, Some(DeleteFailed(e)))
    case Ok(removed) => Step(r, removed, None)
  }

  /**
   * `dataSourceJenkinsCredentialStringRead`: sets the provisional id
   * `format(folder + "/" + name)`, then reads as the resource does. Name,
   * domain and folder come back as given; scope and description come only from
   * the store; the provisional id survives only a read that fails with an error
   * other than a 404.
   */
  function DataSourceReadStep(r: Resource, store: Store, format: string -> string, fault: Option<string>): (s: Step)
    ensures s.store == store
    ensures s.res.name == r.name && s.res.domain == r.domain && s.res.folder == r.folder
    ensures fault.None? && KeyOf(r, format) in store ==>
              && s.diag.None?
              && s.res.id == GenerateCredentialId(r.folder, r.name)
              && s.res.scope == store[KeyOf(r, format)].scope
              && s.res.description == store[KeyOf(r, format)].description
    ensures (fault.None? && KeyOf(r, format) !in store) || (fault.Some? && IsNotFound(fault.value)) ==>
              s.diag.None? && s.res == r.(id := "")
    ensures fault.Some? && !IsNotFound(fault.value) ==>
              s.diag == Some(CouldNotRead(fault.value)) && s.res == r.(id := format(r.folder + "/" + r.name))
  {
    ReadStep(r.(id := format(r.folder + "/" + r.name)), store, format, fault)
  }

  /**
   * Whenever the data-source read does not end in a diagnostic it agrees with
   * the resource read, whatever id the instance held before.
   */
  lemma DataSourceAgreesWithRead(r: Resource, store: Store, format: string -> string, fault: Option<string>)
    requires DataSourceReadStep(r, store, format, fault).diag.None?
    ensures DataSourceReadStep(r, store, format, fault) == ReadStep(r, store, format, fault)
  {
  }

  /**
   * With no folder the data source ends with the id `/` + name, as for the
   * credential `tf-acc-test-...` the acceptance test reads.
   */
  lemma DataSourceRootFolderId(r: Resource, store: Store, format: string -> string)
    requires r.folder == "" && KeyOf(r, format) in store
    ensures DataSourceReadStep(r, store, format, None).res.id == "/" + r.name
  {
  }

  /** Reading twice without a fault gives what reading once gave. */
  lemma ReadIdempotent(r: Resource, store: Store, format: string -> string)
    ensures var once := ReadStep(r, store, format, None);
            ReadStep(once.res, once.store, format, None) == once
  {

  }

  /** An update that pushes the values a fresh read returned leaves the store as it was. */
  lemma UpdateWithReadValuesIsNoOp(r: Resource, store: Store, format: string -> string)
    requires KeyOf(r, format) in store && r.secret == ""
    ensures var read := ReadStep(r, store, format, None);
            UpdateStep(read.res, store, format, None, None).store == store
  {

  }

  /** A delete that succeeds makes the next read report the credential as gone, without a diagnostic. */
  lemma ReadAfterDelete(r: Resource, store: Store, format: string -> string)
    requires DeleteStep(r, store, format, None).diag.None?
    ensures var deleted := DeleteStep(r, store, format, None);
            ReadStep(r, deleted.store, format, None) == Step(r.(id := ""), deleted.store, None)
  {
  }

  /**
   * The first step of the basic acceptance test and its destroy check: the
   * credential `test-username` with secret `bar`, the defaults and no folder is
   * created with id `/test-username`; after the delete, the lookup the destroy
   * check makes fails, the store is as before, and a read clears the id.
   */
  lemma CreateReadDeleteScenario(store: Store, format: string -> string)
    requires StoreKey(format(""), DefaultDomain, "test-username") !in store
    ensures var r := Resource("", "test-username", DefaultDomain, "", DefaultScope, DefaultDescription, "bar");
            var created := CreateStep(r, store, format, None, None, None);
            var deleted := DeleteStep(created.res, created.store, format, None);
            && created.diag.None?
            && created.res.id == "/test-username"
            && deleted.diag.None?
            && GetSingle(deleted.store, format(""), DefaultDomain, "test-username", None).Err?
            && deleted.store == store
            && ReadStep(deleted.res, deleted.store, format, None).res.id == ""
  {
  }

  /**
   * The first acceptance test: `test-username` created with no folder, with
   * any domain, scope, description and secret, gets the id `/test-username`.
   */
  lemma RootFolderCreateId(r: Resource, store: Store, format: string -> string)
    requires r.folder == "" && r.name == "test-username"
    ensures CreateStep(r, store, format, None, None, None).res.id == "/test-username"
  {
  }

  /**
   * The folder acceptance test: `test-username` created under the folder
   * resource's id `/job/tf-acc-test-<x>/job/subfolder` gets the id
   * `/job/tf-acc-test-<x>/job/subfolder/test-username`.
   */
  lemma NestedFolderCreateId(x: string, r: Resource, store: Store, format: string -> string)
    requires r.folder == "/job/tf-acc-test-" + x + "/job/subfolder" && r.name == "test-username"
    ensures CreateStep(r, store, format, None, None, None).res.id
         == "/job/tf-acc-test-" + x + "/job/subfolder/test-username"
  {
  }

  /**
   * Folder ids of the folder resource start with `/` (`/job/...`), and the
   * import trims it: importing `/<folder>/<domain>/<name>` for a folder with no
   * `/` at either end yields `folder` and the id `folder/name`, while a create
   * of the same credential under the folder attribute `/<folder>` sets the id
   * `/folder/name`.
   */
  lemma {:induction false} ImportTrimsFolderIdSlash(f: string, d: string, n: string, r: Resource,
                                                    store: Store, format: string -> string)
    requires f != [] && NoEdge(f, '/') && '/' !in d && '/' !in n
    requires r.folder == "/" + f && r.domain == d && r.name == n
    ensures ParseImportId("/" + f + "/" + d + "/" + n) == Ok(Imported(f, d, n, f + "/" + n))
    ensures CreateStep(r, store, format, None, None, None).res.id == "/" + f + "/" + n
  {
    var g := "/" + f;
    assert g[1..] == f;
    assert TrimLeft(g, '/') == TrimLeft(f, '/') == f;
    TrimNoEdge(f, '/');
    assert Trim(g, '/') == f;
    assert "/" + f + "/" + d + "/" + n == g + "/" + d + "/" + n;
    ParseWithFolderText(g, d, n);
    assert GenerateCredentialId(g, n) == "/" + f + "/" + n;
  }
}
