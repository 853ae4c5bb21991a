/**
 * The Jenkins credential store as the gojenkins client sees it: a map from
 * (folder, domain, credential id) to the stored record. Each client call is an
 * operation on that map; whatever else can make the call fail (the network,
 * authentication, the server) is an optional error text supplied by the caller.
 * A call on a key the store does not hold fails with the text `404`.
 */
module Remote {
  import opened Results

  /** `gojenkins.StringCredentials`: the record sent with Add and Update and filled by GetSingle. */
  datatype StringCredentials = StringCredentials(id: string, scope: string, description: string, secret: string)

  /** The address of a credential: the folder (in Jenkins' own form), the domain, the id. */
  datatype StoreKey = StoreKey(folder: string, domain: string, name: string)

  /** What the store keeps for one credential. */
  datatype Stored = Stored(scope: string, description: string, secret: string)

  type Store = map<StoreKey, Stored>

  /** The error text of a call on a credential the store does not hold. */
  const NotFound: string := "404"

  /** `CredentialsManager.GetSingle`: the record stored under the key, with its id. */
  function GetSingle(store: Store, folder: string, domain: string, name: string, fault: Option<string>)
    : (r: Result<StringCredentials, string>)
    ensures r.Ok? <==> fault.None? && StoreKey(folder, domain, name) in store
    ensures r.Ok? ==> r.value.id == name
                      && Stored(r.value.scope, r.value.description, r.value.secret)
                         == store[StoreKey(folder, domain, name)]
    ensures r.Err? ==> r.error == if fault.Some? then fault.value else NotFound
  {
    var key := StoreKey(folder, domain, name);
    if fault.Some? then Err(fault.value)
    else if key !in store then Err(NotFound)
    else Ok(StringCredentials(name, store[key].scope, store[key].description, store[key].secret))
  }

  /** `CredentialsManager.Add`: stores the record under its id; no other key changes. */
  function Add(store: Store, folder: string, domain: string, cred: StringCredentials, fault: Option<string>)
    : (r: Result<Store, string>)
    ensures r.Ok? <==> fault.None?
    ensures r.Err? ==> r.error == fault.value
    ensures r.Ok? ==> var key := StoreKey(folder, domain, cred.id);
                      && key in r.value
                      && r.value[key] == Stored(cred.scope, cred.description, cred.secret)
                      && r.value.Keys == store.Keys + {key}
                      && forall k :: k in store && k != key ==> r.value[k] == store[k]
  {
    if fault.Some? then Err(fault.value)
    else Ok(store[StoreKey(folder, domain, cred.id) := Stored(cred.scope, cred.description, cred.secret)])
  }

  /**
   * `CredentialsManager.Update`: replaces scope and description of the stored
   * credential `name`; an empty secret in the record leaves the stored secret
   * as it was. No other key changes.
   */
  function Update(store: Store, folder: string, domain: string, name: string, cred: StringCredentials,
                  fault: Option<string>): (r: Result<Store, string>)
    ensures r.Ok? <==> fault.None? && StoreKey(folder, domain, name) in store
    ensures r.Err? ==> r.error == if fault.Some? then fault.value else NotFound
    ensures r.Ok? ==> var key := StoreKey(folder, domain, name);
                      && r.value.Keys == store.Keys
                      && r.value[key].scope == cred.scope
                      && r.value[key].description == cred.description
                      && r.value[key].secret == (if cred.secret == "" then store[key].secret else cred.secret)
                      && forall k :: k in store && k != key ==> r.value[k] == store[k]
  {
    var key := StoreKey(folder, domain, name);
    if fault.Some? then Err(fault.value)
    else if key !in store then Err(NotFound)
    else
      var secret := if cred.secret == "" then store[key].secret else cred.secret;
      Ok(store[key := Stored(cred.scope, cred.description, secret)])
  }

  /** `CredentialsManager.Delete`: removes the credential `name`; no other key changes. */
  function Delete(store: Store, folder: string, domain: string, name: string, fault: Option<string>)
    : (r: Result<Store, string>)
    ensures r.Ok? <==> fault.None? && StoreKey(folder, domain, name) in store
    ensures r.Err? ==> r.error == if fault.Some? then fault.value else NotFound
    ensures r.Ok? ==> && r.value.Keys == store.Keys - {StoreKey(folder, domain, name)}
                      && forall k :: k in r.value ==> r.value[k] == store[k]
  {
    var key := StoreKey(folder, domain, name);
    if fault.Some? then Err(fault.value)
    else if key !in store then Err(NotFound)
    else Ok(store - {key})
  }
}
