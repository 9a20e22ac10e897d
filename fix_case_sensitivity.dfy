/** The top-level `fix-case-sensitivity.js`: walk `components`, rewrite each
    file with five guarded steps, count the files fixed, then stage. Nothing
    here catches a file error: a read or write that throws rejects `main`,
    which stops the run before the count is reported or anything is staged. */
module FixCaseSensitivity {
  import opened Values
  import opened CaseRewrite
  import opened FileTree
  import opened FixRun

  const SEARCH_DIR: string := "components"

  /** How `fixImportsInFile` ends: it returns its flag (with the text it
      wrote), or it throws. */
  datatype FileOutcome = Returned(fixed: bool, written: Option<string>) | Threw

  /** A read that fails, or a needed write that fails. */
  predicate Throws(f: SourceFile)
  {
    f.body.text.None? || (NeedsFix(f) && !f.body.writable)
  }

  /** How `main()`'s promise settles: resolved after counting, or rejected by
      an error from a file or from the directory walk. */
  datatype RunOutcome = Completed(fixedCount: nat) | Rejected

  /** One of the five written-out steps: `if (content.includes(from))`,
      replace every occurrence and set `modified`. */
  method Fix(content: string, modified: bool, from: Pattern, to: string)
    returns (content': string, modified': bool)
    ensures content' == ApplyStep(content, Replacement(from, to))
    ensures modified' == (modified || Contains(content, from))
  {
    content', modified' := content, modified;
    if Contains(content, from) {
      content' := ReplaceAll(content, from, to);
      modified' := true;
    }
  }

  /** `fixImportsInFile(filePath)`: five guarded steps in order, each testing
      the content the earlier ones left; write when some guard held. */
  method FixImportsInFile(file: SourceFile) returns (outcome: FileOutcome)
    ensures outcome.Threw? <==> Throws(file)
    ensures !Throws(file) ==> outcome.fixed == NeedsFix(file) && outcome.fixed == Fixes(file)
    ensures !Throws(file) ==>
              outcome.written == (if NeedsFix(file) then Some(NewText(file)) else None)
  {
    if file.body.text.None? {
      return Threw;
    }
    ghost var text := file.body.text.value;
    var content := file.body.text.value;
    var modified := false;

    NextStep(text, REPLACEMENTS, 0);
    content, modified := Fix(content, modified, "EXamples", "examples");
    NextStep(text, REPLACEMENTS, 1);
    content, modified := Fix(content, modified, "/UI/", "/ui/");
    NextStep(text, REPLACEMENTS, 2);
    content, modified := Fix(content, modified, "/Matter/", "/matter/");
    NextStep(text, REPLACEMENTS, 3);
    content, modified := Fix(content, modified, "/M-Cards/", "/m-cards/");
    NextStep(text, REPLACEMENTS, 4);
    content, modified := Fix(content, modified, "liquidcard.vue", "LiquidCard.vue");
    assert REPLACEMENTS[..5] == REPLACEMENTS;
    assert content == NewText(file) && modified == NeedsFix(file);

    if modified {
      if !file.body.writable {
        return Threw;
      }
      return Returned(true, Some(content));
    }
    return Returned(false, None);
  }

  /** The index of the first file whose processing throws, or the number of
      files when none does. */
  function FirstThrow(files: seq<SourceFile>): (k: nat)
    ensures k <= |files|
    ensures forall j :: 0 <= j < k ==> !Throws(files[j])
    ensures k < |files| ==> Throws(files[k])
  {
    if files == [] then 0
    else if Throws(files[0]) then 0
    else 1 + FirstThrow(files[1..])
  }

  /** The files the walk of `components` finds. */
  function ComponentFiles(roots: Roots): seq<SourceFile>
    requires SEARCH_DIR in roots
  {
    CollectAll(SEARCH_DIR, roots[SEARCH_DIR])
  }

  /** The `forEach` of `main` over the files found: process them in order;
      the first that throws rejects the run, keeping the writes before it. */
  method ProcessAll(vueFiles: seq<SourceFile>) returns (run: RunOutcome, writes: seq<Write>)
    ensures run.Completed? <==> FirstThrow(vueFiles) == |vueFiles|
    ensures writes == Writes(vueFiles[..FirstThrow(vueFiles)])
    ensures run.Completed? ==> run.fixedCount == NumFixed(vueFiles)
  {
    var fixedCount := 0;
    writes := [];
    for i := 0 to |vueFiles|
      invariant i <= FirstThrow(vueFiles)
      invariant fixedCount == NumFixed(vueFiles[..i])
      invariant writes == Writes(vueFiles[..i])
    {
      var file := vueFiles[i];
      var outcome := FixImportsInFile(file);
      if outcome.Threw? {
        return Rejected, writes;
      }
      if outcome.fixed {
        fixedCount := fixedCount + 1;
        writes := writes + [Write(file.path, outcome.written.value)];
      }
      assert vueFiles[..i + 1][..i] == vueFiles[..i];
    }
    assert vueFiles[..|vueFiles|] == vueFiles;
    run := Completed(fixedCount);
  }

  /** `main`: a missing `components` directory rejects at once; otherwise the
      files are processed in order until one throws. Completing, it has
      counted the files fixed and stages unconditionally. */
  method Run(roots: Roots) returns (run: RunOutcome, writes: seq<Write>, staged: bool)
    ensures SEARCH_DIR !in roots ==> run == Rejected && writes == [] && !staged
    ensures SEARCH_DIR in roots ==>
              (run.Completed? <==> FirstThrow(ComponentFiles(roots)) == |ComponentFiles(roots)|)
              && writes == Writes(ComponentFiles(roots)[..FirstThrow(ComponentFiles(roots))])
    ensures run.Completed? ==> run.fixedCount == NumFixed(ComponentFiles(roots)) && staged
    ensures run.Rejected? ==> !staged
  {
    if SEARCH_DIR !in roots {
      return Rejected, [], false;
    }
    var vueFiles := Walk(SEARCH_DIR, Dir(SEARCH_DIR, roots[SEARCH_DIR]), []);
    assert vueFiles == ComponentFiles(roots);
    run, writes := ProcessAll(vueFiles);
    staged := run.Completed?;
  }
}
