/**
 * The stored Terraform id of a credential: the folder attribute as written,
 * a `/`, and the credential's name (`generateCredentialID`). Its live
 * definition is not in the files modelled; this model follows the commented-out
 * copy kept beside the handlers, which agrees with the ids the acceptance tests
 * expect (`/test-username`, and the nested `/job/.../job/subfolder/test-username`).
 */
module CredentialId {

  /** `generateCredentialID(folder, name)`: the folder, then one `/`, then the name. */
  function GenerateCredentialId(folder: string, name: string): (id: string)
    ensures |id| == |folder| + 1 + |name|
    ensures id[..|folder|] == folder && id[|folder|] == '/' && id[|folder| + 1..] == name
  {
    folder + "/" + name
  }

  /** The `/` after the folder is the id's last `/` when the name has none. */
  lemma LastSlashOfId(folder: string, name: string)
    requires '/' !in name
    ensures var id := GenerateCredentialId(folder, name);
            id[|folder|] == '/' && forall i :: |folder| < i < |id| ==> id[i] != '/'
  {

  }

  /**
   * A name never holds a `/` when it comes from an import, so the id determines
   * folder and name: the name is what follows the last `/`.
   */
  lemma GenerateCredentialIdInjective(f1: string, n1: string, f2: string, n2: string)
    requires '/' !in n1 && '/' !in n2
    requires GenerateCredentialId(f1, n1) == GenerateCredentialId(f2, n2)
    ensures f1 == f2 && n1 == n2
  {
  }
}
