/** What a run of a case-sensitivity script does to the files it found:
    which files it fixes, what it writes, and how it counts. */
module FixRun {
  import opened Values
  import opened CaseRewrite
  import opened FileTree

  /** A file written by a run, with its new text. */
  datatype Write = Write(path: string, text: string)

  /** The file can be read and some guard held on its text. */
  predicate NeedsFix(f: SourceFile)
  {
    f.body.text.Some? && FixContent(f.body.text.value).1
  }

  /** The file's processing returns true: it needed a fix and the write went
      through. */
  predicate Fixes(f: SourceFile)
  {
    NeedsFix(f) && f.body.writable
  }

  /** The new text of a file that can be read. */
  function NewText(f: SourceFile): string
    requires f.body.text.Some?
  {
    FixContent(f.body.text.value).0
  }

  /** The number of files among `files` whose processing returns true. */
  function NumFixed(files: seq<SourceFile>): nat
  {
    if files == [] then 0
    else NumFixed(files[..|files| - 1]) + (if Fixes(files[|files| - 1]) then 1 else 0)
  }

  /** The writes made while processing `files`, in order. */
  function Writes(files: seq<SourceFile>): seq<Write>
  {
    if files == [] then []
    else Writes(files[..|files| - 1])
         + (var f := files[|files| - 1]; if Fixes(f) then [Write(f.path, NewText(f))] else [])
  }

  /** The count never exceeds the number of files, is zero exactly when no
      file is fixed, and is the number of files written. */
  lemma {:induction false} NumFixedCounts(files: seq<SourceFile>)
    ensures NumFixed(files) <= |files|
    ensures NumFixed(files) == 0 <==> forall i :: 0 <= i < |files| ==> !Fixes(files[i])
    ensures |Writes(files)| == NumFixed(files)
  {
    if files != [] {
      var pre := files[..|files| - 1];
      NumFixedCounts(pre);
      assert forall i :: 0 <= i < |pre| ==> pre[i] == files[i];
    }
  }

  /** Every write is of a file that needed a fix, with its rewritten text;
      a file none of whose guards held is never written. */
  lemma {:induction false} WritesAreFixes(files: seq<SourceFile>, w: Write)
    requires w in Writes(files)
    ensures exists i :: 0 <= i < |files| && Fixes(files[i])
                        && w == Write(files[i].path, NewText(files[i]))
  {
    var n := |files| - 1;
    var pre := files[..n];
    if w in Writes(pre) {
      WritesAreFixes(pre, w);
      var i :| 0 <= i < |pre| && Fixes(pre[i]) && w == Write(pre[i].path, NewText(pre[i]));
      assert pre[i] == files[i];
    } else {
      assert Fixes(files[n]) && w == Write(files[n].path, NewText(files[n]));
    }
  }
}
