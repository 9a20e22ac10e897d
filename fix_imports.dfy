/** The top-level `fix-imports.js`: like the build-time script, but the
    `EXamples` step is written out before a loop over the other four, and
    the run stages its changes when it fixed at least one file. */
module FixImportsScript {
  import opened Values
  import opened CaseRewrite
  import opened FileTree
  import opened FixRun

  const SEARCH_DIRS: seq<string> := ["components", "pages", "layouts"]

  /** `fixImports(filePath)`: the `EXamples` step, then each of the other
      replacements in turn; write when some guard held. Any error is caught
      and the file counts as not fixed. */
  method FixImports(file: SourceFile) returns (fixed: bool, written: Option<string>)
    ensures fixed <==> Fixes(file)
    ensures fixed ==> written == Some(NewText(file))
    ensures !fixed ==> written == None
  {
    if file.body.text.None? {
      return false, None;
    }
    ghost var text := file.body.text.value;
    var content := file.body.text.value;
    var modified := false;

    NextStep(text, REPLACEMENTS, 0);
    if Contains(content, "EXamples") {
      content := ReplaceAll(content, "EXamples", "examples");
      modified := true;
    }

    var replacements := REPLACEMENTS[1..];
    for i := 0 to |replacements|
      invariant content == Rewrite(text, REPLACEMENTS[..1 + i])
      invariant modified == Matched(text, REPLACEMENTS[..1 + i])
    {
      var rep := replacements[i];
      NextStep(text, REPLACEMENTS, 1 + i);
      if Contains(content, rep.from) {
        content := ReplaceAll(content, rep.from, rep.to);
        modified := true;
      }
    }
    assert REPLACEMENTS[..1 + |replacements|] == REPLACEMENTS;
    if modified {
      if !file.body.writable {
        return false, None;
      }
      return true, Some(content);
    }
    return false, None;
  }

  /** `main`: gather the files of every search directory, process each,
      count those fixed, and stage the changes exactly when the count is
      positive. */
  method Run(roots: Roots) returns (fixedCount: nat, writes: seq<Write>, staged: bool)
    ensures fixedCount == NumFixed(Found(roots, SEARCH_DIRS))
    ensures writes == Writes(Found(roots, SEARCH_DIRS))
    ensures staged <==> fixedCount > 0
  {
    var allFiles := FindAll(roots, SEARCH_DIRS);
    fixedCount := 0;
    writes := [];
    for i := 0 to |allFiles|
      invariant fixedCount == NumFixed(allFiles[..i])
      invariant writes == Writes(allFiles[..i])
    {
      var file := allFiles[i];
      var fixed, written := FixImports(file);
      if fixed {
        fixedCount := fixedCount + 1;
        writes := writes + [Write(file.path, written.value)];
      }
      assert allFiles[..i + 1][..i] == allFiles[..i];
    }
    assert allFiles[..|allFiles|] == allFiles;
    staged := fixedCount > 0;
  }

  /** A run stages exactly when some file found was fixed, and then it has
      written something. */
  lemma StagesIffSomeFix(roots: Roots)
    ensures NumFixed(Found(roots, SEARCH_DIRS)) > 0 <==>
              exists i :: 0 <= i < |Found(roots, SEARCH_DIRS)| && Fixes(Found(roots, SEARCH_DIRS)[i])
    ensures NumFixed(Found(roots, SEARCH_DIRS)) > 0 ==> Writes(Found(roots, SEARCH_DIRS)) != []
  {
    NumFixedCounts(Found(roots, SEARCH_DIRS));
  }
}
