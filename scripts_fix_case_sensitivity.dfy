/** The build-time script under `scripts/`: walk three directories, rewrite
    each file with the replacement list, count the files fixed. Every error
    while processing a file is caught and makes that file count as not fixed. */
module ScriptsFixCaseSensitivity {
  import opened Values
  import opened CaseRewrite
  import opened FileTree
  import opened FixRun

  const SEARCH_DIRS: seq<string> := ["components", "pages", "layouts"]

  /** `fixImports(filePath)`: apply each replacement whose pattern matches the
      current content, then write when some did. A read or write that throws
      makes it return false; only a completed write returns true. */
  method FixImports(file: SourceFile) returns (fixed: bool, written: Option<string>)
    ensures fixed <==> Fixes(file)
    ensures fixed ==> written == Some(NewText(file))
    ensures !fixed ==> written == None
  {
    if file.body.text.None? {
      return false, None;
    }
    var content := file.body.text.value;
    var modified := false;
    for i := 0 to |REPLACEMENTS|
      invariant content == Rewrite(file.body.text.value, REPLACEMENTS[..i])
      invariant modified == Matched(file.body.text.value, REPLACEMENTS[..i])
    {
      var rep := REPLACEMENTS[i];
      assert REPLACEMENTS[..i + 1][..i] == REPLACEMENTS[..i];
      if Contains(content, rep.from) {
        content := ReplaceAll(content, rep.from, rep.to);
        modified := true;
      }
    }
    assert REPLACEMENTS[..|REPLACEMENTS|] == REPLACEMENTS;
    if modified {
      if !file.body.writable {
        return false, None;
      }
      return true, Some(content);
    }
    return false, None;
  }

  /** `main`: gather the files of every search directory, then process each,
      counting those for which `fixImports` returned true. */
  method Run(roots: Roots) returns (fixedCount: nat, writes: seq<Write>)
    ensures fixedCount == NumFixed(Found(roots, SEARCH_DIRS))
    ensures writes == Writes(Found(roots, SEARCH_DIRS))
  {
    var allFiles := FindAll(roots, SEARCH_DIRS);
    fixedCount := 0;
    writes := [];
    for i := 0 to |allFiles|
      invariant fixedCount == NumFixed(allFiles[..i])
      invariant writes == Writes(allFiles[..i])
    {
      var file := allFiles[i];
      var fixed, written := FixImports(file);
      if fixed {
        fixedCount := fixedCount + 1;
        writes := writes + [Write(file.path, written.value)];
      }
      assert allFiles[..i + 1][..i] == allFiles[..i];
    }
    assert allFiles[..|allFiles|] == allFiles;
  }
}
