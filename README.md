# jenkins_credential_string, modelled in Dafny

This project models the Terraform resource and data source
`jenkins_credential_string` of a Jenkins provider: a "secret text" credential
kept in a Jenkins credential store, addressed by folder, domain and name.

It has two parts.

- The **import-id parser**. An id of the form `[<folder>/]<domain>/<name>` is
  split on `/`. The last token is the name and the one before it the domain.
  The tokens before those, re-joined with `/` and trimmed of `/` at both ends,
  are the folder. The stored id becomes `folder + "/" + name`.
  Go's `strings.Split`, `strings.Join`, `strings.Trim` and `strings.HasSuffix`
  are written out over `seq<char>` (module `GoStrings`), with lemmas that split
  and join are inverses.
- The **credential reconciler**. The create, read, update and delete handlers
  and the data source's read are transitions over the instance's attributes
  (`id`, `name`, `domain`, `folder`, `scope`, `description`, `secret`) and an
  abstract store keyed by (formatted folder, domain, name).
  Module `Reconcile` states each handler as a function and proves its rules.
  Module `Provider` is the imperative form: classes for the store, the gojenkins
  credentials manager (whose `folder` field each handler sets) and the
  instance's attributes, and one method per handler that is proved to do what
  the matching `Reconcile` function says.

Modules: `Results` (Option, Result), `GoStrings`, `CredentialId`
(`generateCredentialID`), `ImportId`, `Remote` (the gojenkins client calls as
map operations), `Reconcile`, `Provider`.

Foreign parts become parameters:

- `formatFolderName` is a function parameter `format: string -> string`. Its
  definition is not part of this model.
- The error `folderExists` returns is a parameter `folderCheck: Option<string>`.
- The error each gojenkins call fails with, other than "not in the store", is a
  parameter `...Fault: Option<string>`.
- The store answers a call on a key it does not hold with the error text
  `404`. The source only relies on the suffix `404`.

How the id is built:

- Create (`:92`), Read (`:117`), Update (`:147`) and Import (`:183`) of
  `jenkins/resource_jenkins_credential_string.go` build the id from the folder
  attribute as written (`d.Get("folder")`), or from the trimmed import text, and
  never from `formatFolderName`'s result. So importing `/job/f/_/c` gives the
  folder `job/f` and the id `job/f/c`, while a create with the folder attribute
  `/job/f` (the form a folder resource's id takes) sets `/job/f/c`
  (`Reconcile.ImportTrimsFolderIdSlash`).
- The live definition of `generateCredentialID` is not in the files modelled.
  A commented-out copy sits beside the handlers (`:196-198`) and reads
  `folder + "/" + name`. The model follows that copy; the ids
  the acceptance tests expect (`/test-username` at
  `resource_jenkins_credential_string_test.go:28`, and
  `/job/tf-acc-test-<x>/job/subfolder/test-username` at `:80`) agree with it
  (`Reconcile.RootFolderCreateId`, `Reconcile.NestedFolderCreateId`).

## Model

| member | source | states |
|---|---|---|
| GoStrings.Split | jenkins/resource_jenkins_credential_string.go:169 | `strings.Split` on `/` gives one more piece than there are `/`s, so fewer than two pieces exactly when the id has no `/` |
| GoStrings.SplitPiecesWithoutSep | jenkins/resource_jenkins_credential_string.go:169 | no piece of a split holds a `/` |
| GoStrings.SplitAround | jenkins/resource_jenkins_credential_string.go:169 | splitting `a + "/" + b` gives the pieces of `a` followed by the pieces of `b` |
| GoStrings.SplitWithoutSep | jenkins/resource_jenkins_credential_string.go:169 | a string with no `/` splits into itself alone |
| GoStrings.JoinSplit | jenkins/resource_jenkins_credential_string.go:169-180 | joining the pieces of a split with `/` gives back the string |
| GoStrings.SplitJoin | jenkins/resource_jenkins_credential_string.go:169-180 | splitting a join of `/`-free pieces gives back the pieces |
| GoStrings.LeadingRun | jenkins/resource_jenkins_credential_string.go:180 | the leading run of `/` is no longer than the string |
| GoStrings.TrailingRun | jenkins/resource_jenkins_credential_string.go:180 | the trailing run of `/` is no longer than the string |
| GoStrings.LeadingRunIsRun | jenkins/resource_jenkins_credential_string.go:180 | the leading run is all `/` and is followed by another character or by the end |
| GoStrings.TrailingRunIsRun | jenkins/resource_jenkins_credential_string.go:180 | the trailing run is all `/` and is preceded by another character or by the start |
| GoStrings.TrimLeft | jenkins/resource_jenkins_credential_string.go:180 | the left trim is the string after its leading run of `/` |
| GoStrings.TrimRight | jenkins/resource_jenkins_credential_string.go:180 | the right trim is the string before its trailing run of `/` |
| GoStrings.Trim | jenkins/resource_jenkins_credential_string.go:180 | `strings.Trim(s, "/")` neither starts nor ends with `/` |
| GoStrings.TrimEdges | jenkins/resource_jenkins_credential_string.go:180 | trimming left then right leaves no `/` at either end |
| GoStrings.TrimIsSlice | jenkins/resource_jenkins_credential_string.go:180 | the trim is the slice of `s` after its leading run of `/`, and everything of `s` before and after that slice is `/` |
| GoStrings.TrimNoEdge | jenkins/resource_jenkins_credential_string.go:180 | a folder with no `/` at either end is left as it is by the trim |
| GoStrings.TrimIdempotent | jenkins/resource_jenkins_credential_string.go:180 | trimming twice is trimming once |
| GoStrings.Join | jenkins/resource_jenkins_credential_string.go:180 | `strings.Join` starts with the first piece; with `JoinCount`, `JoinSplit` and `SplitJoin` it is pinned down as the inverse of `Split` |
| GoStrings.JoinCount | jenkins/resource_jenkins_credential_string.go:180 | `strings.Join` of `/`-free pieces holds one `/` fewer than there are pieces |
| GoStrings.CountAppend | jenkins/resource_jenkins_credential_string.go:180 | the `/`s of a concatenation are those of its two parts |
| GoStrings.HasSuffix | jenkins/resource_jenkins_credential_string.go:108 | `strings.HasSuffix(s, x)` holds exactly when `s` is some text followed by `x` |
| GoStrings.Count | jenkins/resource_jenkins_credential_string.go:169-170 | a character occurs zero times exactly when it is absent |
| CredentialId.GenerateCredentialId | jenkins/resource_jenkins_credential_string.go:196-198 | the id is the folder, one `/`, then the name, with the folder and name recoverable at those positions |
| CredentialId.LastSlashOfId | jenkins/resource_jenkins_credential_string.go:196-198 | in `folder + "/" + name` with a `/`-free name, the `/` after the folder is the last one |
| CredentialId.GenerateCredentialIdInjective | jenkins/resource_jenkins_credential_string.go:196-198 | for `/`-free names, equal ids have equal folders and equal names |
| ImportId.ParseImportId | jenkins/resource_jenkins_credential_string.go:166-185 | fails exactly when the id has no `/` (fewer than two tokens); otherwise name and domain hold no `/`, the folder neither starts nor ends with `/`, and the id is `folder/name` |
| ImportId.ParseWithFolderText | jenkins/resource_jenkins_credential_string.go:174-183 | parsing `f/d/n` for `/`-free `d` and `n` gives domain `d`, name `n`, folder `f` trimmed of `/`, id `trim(f)/n` |
| ImportId.ParseWithoutFolder | jenkins/resource_jenkins_credential_string.go:174-183 | parsing `d/n` gives the empty folder, domain `d`, name `n`, id `/n` |
| ImportId.ParseImportString | jenkins/resource_jenkins_credential_string.go:174-183 | round trip: for a folder with no `/` at either end and `/`-free domain and name, parsing the import string returns all three and the id `folder/name` |
| ImportId.ParseImportIdStable | jenkins/resource_jenkins_credential_string.go:166-185 | re-encoding a parsed import id and parsing it again gives the same result |
| ImportId.SingleTokenRefused | jenkins/resource_jenkins_credential_string.go:169-172 | an id with no `/` is refused with the format error |
| ImportId.NestedFolderExample | jenkins/resource_jenkins_credential_string.go:174-183 | `teamA/teamB/_/mycred` gives folder `teamA/teamB`, domain `_`, name `mycred` |
| ImportId.DomainAndNameExample | jenkins/resource_jenkins_credential_string.go:180 | `_/c` gives the empty folder, domain `_`, name `c`, id `/c` |
| ImportId.LeadingSlashExample | jenkins/resource_jenkins_credential_string.go:180 | `/_/c` gives the same as `_/c`: the empty leading token is trimmed away |
| Reconcile.ImportTrimsFolderIdSlash | jenkins/resource_jenkins_credential_string.go:180-183 | importing `/f/d/n` yields folder `f` and id `f/n`, while `CreateStep` with no fault for the same credential under the folder attribute `/f` sets the id `/f/n` |
| Remote.GetSingle | jenkins/resource_jenkins_credential_string.go:101-105 | the record stored under (folder, domain, name), its id being the name; a missing key fails with `404`, an injected fault with its own text |
| Remote.Add | jenkins/resource_jenkins_credential_string.go:87 | stores the record under its id in (folder, domain); no other key changes; an injected fault changes nothing |
| Remote.Update | jenkins/resource_jenkins_credential_string.go:142 | replaces scope and description of an existing key and the secret only with a non-empty one; no other key changes; a missing key fails with `404` |
| Remote.Delete | jenkins/resource_jenkins_credential_string.go:155-158 | removes an existing key and nothing else; a missing key fails with `404` |
| Reconcile.KeyOf | jenkins/resource_jenkins_credential_string.go:72 | the store key of a resource is its formatted folder, its domain and its name, as `cm.Folder` and the calls' arguments set them |
| Reconcile.KeyOfIgnoresPayload | jenkins/resource_jenkins_credential_string.go:92-98 | the store key ignores the id, scope, description and secret, so the read-back after `SetId` addresses the key that `Add` wrote |
| Reconcile.IsNotFound | jenkins/resource_jenkins_credential_string.go:108 | an error counts as "not found" exactly when its text is some text followed by `404` |
| Reconcile.ReadStep | jenkins/resource_jenkins_credential_string.go:96-124 | an existing credential sets the id to the raw folder attribute `/` name and copies scope and description from the store; a missing one or an error ending in `404` clears the id with no diagnostic; any other error is a diagnostic and changes nothing; the secret and the store never change |
| Reconcile.CreateStep | jenkins/resource_jenkins_credential_string.go:69-94 | a failed folder check returns the invalid-folder diagnostic (with the formatted folder) before any Add; a failed Add returns a diagnostic with the store and the id unchanged; otherwise the credential is stored with the configured fields, the outcome is exactly `ReadStep` on the resource with id `folder/name` over that store, and with a clean read back the id is `folder/name` |
| Reconcile.UpdatePayload | jenkins/resource_jenkins_credential_string.go:131-140 | the update record always carries name, scope and description, and the secret only when it is non-empty |
| Reconcile.UpdateStep | jenkins/resource_jenkins_credential_string.go:126-149 | a failed update is a diagnostic and changes nothing; a successful one stores scope and description, replaces the stored secret only with a non-empty secret, the outcome is exactly `ReadStep` over that store, and after a clean read back the id is `folder/name` |
| Reconcile.DeleteStep | jenkins/resource_jenkins_credential_string.go:151-164 | never changes the attributes; every client error, `404` included, is returned as a diagnostic; on success only the key is removed |
| Reconcile.DataSourceReadStep | jenkins/data_source_jenkins_credential_string.go:43-49 | name, domain and folder come back as given; scope and description only from the store; success overwrites the provisional id with `folder/name`; a missing credential or a `404` clears it with no diagnostic and leaves every other attribute as given; any other error leaves the provisional id `format(folder/name)` and is a diagnostic |
| Reconcile.DataSourceAgreesWithRead | jenkins/data_source_jenkins_credential_string.go:48 | when the data-source read returns no diagnostic its outcome is the resource read's, whatever id was held before |
| Reconcile.DataSourceRootFolderId | jenkins/data_source_jenkins_credential_string_test.go:31-32 | with no folder a successful data-source read ends with the id `/` + name |
| Reconcile.ReadIdempotent | jenkins/resource_jenkins_credential_string.go:96-124 | reading again without a fault gives the same attributes, store and diagnostic |
| Reconcile.UpdateWithReadValuesIsNoOp | jenkins/resource_jenkins_credential_string.go:126-149 | pushing what a read returned, with an empty secret, leaves the store unchanged |
| Reconcile.ReadAfterDelete | jenkins/resource_jenkins_credential_string.go:107-115 | after a successful delete a read reports the credential gone: id cleared, no diagnostic |
| Reconcile.RootFolderCreateId | jenkins/resource_jenkins_credential_string_test.go:22-28 | creating `test-username` with no folder and no fault sets the id `/test-username` |
| Reconcile.NestedFolderCreateId | jenkins/resource_jenkins_credential_string_test.go:74-80 | creating `test-username` under the folder `/job/tf-acc-test-<x>/job/subfolder` with no fault sets the id `/job/tf-acc-test-<x>/job/subfolder/test-username` |
| Reconcile.CreateReadDeleteScenario | jenkins/resource_jenkins_credential_string_test.go:19-28 | creating `test-username` with secret `bar`, the defaults and no folder gives the id `/test-username` with no diagnostic; after the delete, the destroy check's lookup (`:145-165`) fails, the store is as before the create, and a read clears the id |
| Provider.CredentialsManager.GetSingle | jenkins/resource_jenkins_credential_string.go:101-105 | returns the record or the error that `Remote.GetSingle` gives for the manager's folder |
| Provider.CredentialsManager.Add | jenkins/resource_jenkins_credential_string.go:87 | the store afterwards is `Remote.Add`'s, or unchanged with the error returned |
| Provider.CredentialsManager.Update | jenkins/resource_jenkins_credential_string.go:142 | the store afterwards is `Remote.Update`'s, or unchanged with the error returned |
| Provider.CredentialsManager.Delete | jenkins/resource_jenkins_credential_string.go:155-158 | the store afterwards is `Remote.Delete`'s, or unchanged with the error returned |
| Provider.ResourceRead | jenkins/resource_jenkins_credential_string.go:96-124 | the attributes afterwards and the diagnostic are `ReadStep`'s; the store is not modified |
| Provider.ResourceCreate | jenkins/resource_jenkins_credential_string.go:69-94 | attributes, store and diagnostic afterwards are `CreateStep`'s |
| Provider.ResourceUpdate | jenkins/resource_jenkins_credential_string.go:126-149 | attributes, store and diagnostic afterwards are `UpdateStep`'s |
| Provider.ResourceDelete | jenkins/resource_jenkins_credential_string.go:151-164 | store and diagnostic afterwards are `DeleteStep`'s; the attributes are not modified |
| Provider.ResourceImport | jenkins/resource_jenkins_credential_string.go:166-185 | an id with no `/` is a format error and sets nothing; otherwise name, domain and folder are set from `ParseImportId` and the id becomes `folder/name` |
| Provider.DataSourceRead | jenkins/data_source_jenkins_credential_string.go:43-49 | sets the provisional id, then reads; attributes and diagnostic afterwards are `DataSourceReadStep`'s |

## Left out

- The Terraform schema declarations. Only the defaults are kept, as constants: domain `_`, scope `GLOBAL`, description `Managed by Terraform`. `ForceNew`, `Sensitive` and the rest are framework mechanics.
- `formatFolderName`, `folderExists` and `validateCredentialScope` have no body in the files modelled. The first is a function parameter and the second an error parameter; scope validation is not modelled.
- The gojenkins client and its HTTP transport. Each call is a map operation whose failure text is an input. What Jenkins does on a duplicate Add (here it overwrites) and the exact text of its not-found error (here `404`) are assumptions. So is that `GetSingle` returns a record whose id is the requested name, which the id Read sets from `cred.ID` (`:117`) depends on, and through the read-back at `:93` the id Create ends with.
- GenerateCredentialId: the live definition of `generateCredentialID` is not in the files modelled. The model assumes it equals the commented-out copy at `:196-198`, `folder + "/" + name`, which the test ids at `resource_jenkins_credential_string_test.go:28` and `:80` agree with.
- Remote.Update: the rule that an empty secret keeps the stored one is how the store is assumed to read an empty secret in the update record, as the attribute's description ("If left empty will be unmanaged") says. It is not shown in the source.
- The `meta.(jenkinsClient)` type assertion, `context.Context` and the exact `fmt` text of diagnostics. A diagnostic is a datatype carrying the raw error text and, for the folder check, the formatted folder.
- What the framework does around a handler (removing the instance from state after a successful Delete, planning, `d.Set` errors, which are ignored in the source too).
- The acceptance tests. They need a live Jenkins; a few of their expected ids and values are stated as lemmas.
