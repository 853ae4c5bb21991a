/**
 * The import-id parser of the credential resource
 * (`resourceJenkinsCredentialStringImport`): an id of the form
 * `[<folder>/]<domain>/<name>` is split on `/` into the three attributes, and
 * the stored id is rebuilt from the folder and the name.
 */
module ImportId {
  import opened Results
  import opened GoStrings
  import opened CredentialId

  /** The attributes an import sets, and the id it stores. */
  datatype Imported = Imported(folder: string, domain: string, name: string, id: string)

  /** The only way an import fails: fewer than two `/`-separated tokens. */
  datatype ImportError = ImproperlyFormatted

  /**
   * Parses an import id. The last token is the name, the one before it the
   * domain, and the tokens before those, joined by `/` and trimmed of `/` at
   * both ends, are the folder.
   */
  function ParseImportId(importId: string): (r: Result<Imported, ImportError>)
    ensures r.Err? <==> '/' !in importId
    ensures r.Ok? ==> '/' !in r.value.name && '/' !in r.value.domain
    ensures r.Ok? ==> NoEdge(r.value.folder, '/')
    ensures r.Ok? ==> r.value.id == GenerateCredentialId(r.value.folder, r.value.name)
  {
    var splitId := Split(importId, '/');
    SplitPiecesWithoutSep(importId, '/');
    if |splitId| < 2 then Err(ImproperlyFormatted)
    else
      var name := splitId[|splitId| - 1];
      var domain := splitId[|splitId| - 2];
      var folder := Trim(Join(splitId[0..|splitId| - 2], '/'), '/');
      Ok(Imported(folder, domain, name, GenerateCredentialId(folder, name)))
  }

  /**
   * The import id format the parser's error message documents,
   * `[<folder>/]<domain>/<name>`: the folder part is omitted when it is empty.
   */
  function ImportString(folder: string, domain: string, name: string): string
  {
    if folder == [] then domain + "/" + name else folder + "/" + domain + "/" + name
  }

  /**
   * Whatever text stands before `<domain>/<name>`, the folder imported is that
   * text trimmed of `/` at both ends.
   */
  lemma {:induction false} ParseWithFolderText(f: string, d: string, n: string)
    requires '/' !in d && '/' !in n
    ensures ParseImportId(f + "/" + d + "/" + n)
         == Ok(Imported(Trim(f, '/'), d, n, GenerateCredentialId(Trim(f, '/'), n)))
  {
    var s := f + "/" + d + "/" + n;
    assert s == f + ['/'] + (d + ['/'] + n);
    SplitAround(f, '/', d + ['/'] + n);
    SplitAround(d, '/', n);
    SplitWithoutSep(d, '/');
    SplitWithoutSep(n, '/');
    var parts := Split(s, '/');
    assert parts == Split(f, '/') + [d, n];
    assert parts[0..|parts| - 2] == Split(f, '/');
    JoinSplit(f, '/');
  }

  /** Parsing `<domain>/<name>` alone yields the empty folder. */
  lemma {:induction false} ParseWithoutFolder(d: string, n: string)
    requires '/' !in d && '/' !in n
    ensures ParseImportId(d + "/" + n) == Ok(Imported("", d, n, GenerateCredentialId("", n)))
  {
    var s := d + "/" + n;
    SplitAround(d, '/', n);
    SplitWithoutSep(d, '/');
    SplitWithoutSep(n, '/');
    var parts := Split(s, '/');
    assert parts == [d, n];
    assert parts[0..0] == [];
  }

  /**
   * Round trip: for a folder with no `/` at either end and a domain and name
   * with no `/` at all, parsing the import string gives back all three and the
   * id `folder + "/" + name`.
   */
  lemma ParseImportString(f: string, d: string, n: string)
    requires NoEdge(f, '/') && '/' !in d && '/' !in n
    ensures ParseImportId(ImportString(f, d, n)) == Ok(Imported(f, d, n, f + "/" + n))
  {
    if f == [] {
      ParseWithoutFolder(d, n);
    } else {
      ParseWithFolderText(f, d, n);
      TrimNoEdge(f, '/');
    }
  }

  /** Re-encoding what an import parsed and parsing it again changes nothing. */
  lemma ParseImportIdStable(importId: string)
    requires ParseImportId(importId).Ok?
    ensures var p := ParseImportId(importId).value;
            ParseImportId(ImportString(p.folder, p.domain, p.name)) == ParseImportId(importId)
  {
    var p := ParseImportId(importId).value;
    ParseImportString(p.folder, p.domain, p.name);
  }

  /** An id with no `/` is refused. */
  lemma SingleTokenRefused()
    ensures ParseImportId("mycred") == Err(ImproperlyFormatted)
  {

  }

  /** `teamA/teamB/_/mycred` is folder `teamA/teamB`, domain `_`, name `mycred`. */
  lemma NestedFolderExample()
    ensures ParseImportId("teamA/teamB/_/mycred")
         == Ok(Imported("teamA/teamB", "_", "mycred", "teamA/teamB/mycred"))
  {
    var f, d, n := "teamA/teamB", "_", "mycred";
    assert NoEdge(f, '/') && '/' !in d && '/' !in n;
    assert ImportString(f, d, n) == "teamA/teamB/_/mycred";
    assert f + "/" + n == "teamA/teamB/mycred";
    ParseImportString(f, d, n);
  }

  /** `_/c` has no folder: the folder is empty and the id is `/c`. */
  lemma DomainAndNameExample()
    ensures ParseImportId("_/c") == Ok(Imported("", "_", "c", "/c"))
  {
    assert "_" + "/" + "c" == "_/c";
    assert GenerateCredentialId("", "c") == "/c";
    ParseWithoutFolder("_", "c");
  }

  /** A leading `/` before the domain is trimmed away with the empty folder. */
  lemma LeadingSlashExample()
    ensures ParseImportId("/_/c") == Ok(Imported("", "_", "c", "/c"))
  {
    assert "" + "/" + "_" + "/" + "c" == "/_/c";
    assert Trim("", '/') == "";
    assert GenerateCredentialId("", "c") == "/c";
    ParseWithFolderText("", "_", "c");
  }
}
