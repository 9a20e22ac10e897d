/** The part of the file system the maintenance scripts see: top-level
    directories holding trees of files and sub-directories. Reading or
    writing a file may fail; that is part of the file. */
module FileTree {
  import opened Values

  /** A file's text (`None` when reading it throws) and whether writing it
      succeeds. */
  datatype Body = Body(text: Option<string>, writable: bool)

  datatype Node = File(name: string, body: Body) | Dir(name: string, children: seq<Node>)

  /** A file found by a walk: its joined path and its body. */
  datatype SourceFile = SourceFile(path: string, body: Body)

  /** The working directory: each top-level directory name with its entries;
      a missing name is a directory that does not exist. */
  type Roots = map<string, seq<Node>>

  /** `path.join(dir, name)` for a plain name. */
  function Join(dir: string, name: string): string
  {
    dir + "/" + name
  }

  predicate EndsWith(s: string, suffix: string)
  {
    |suffix| <= |s| && s[|s| - |suffix|..] == suffix
  }

  /** The walk's filter: `.vue` and `.ts` files. */
  predicate Wanted(name: string)
  {
    EndsWith(name, ".vue") || EndsWith(name, ".ts")
  }

  /** The files a walk of `nodes` under `dir` collects, in directory order,
      depth first. */
  function CollectAll(dir: string, nodes: seq<Node>): seq<SourceFile>
    decreases nodes
  {
    if nodes == [] then [] else CollectOne(dir, nodes[0]) + CollectAll(dir, nodes[1..])
  }

  function CollectOne(dir: string, node: Node): seq<SourceFile>
    decreases node
  {
    match node
    case File(name, body) => if Wanted(name) then [SourceFile(Join(dir, name), body)] else []
    case Dir(name, children) => CollectAll(Join(dir, name), children)
  }

  /** Collecting a concatenation is concatenating the collections. */
  lemma {:induction false} CollectAllAppend(dir: string, a: seq<Node>, b: seq<Node>)
    ensures CollectAll(dir, a + b) == CollectAll(dir, a) + CollectAll(dir, b)
    decreases a
  {
    if a == [] {
      assert a + b == b;
    } else {
      assert (a + b)[0] == a[0] && (a + b)[1..] == a[1..] + b;
      CollectAllAppend(dir, a[1..], b);
    }
  }

  /** Collecting one more entry appends what that entry collects. */
  lemma CollectAllSnoc(dir: string, nodes: seq<Node>, i: int)
    requires 0 <= i < |nodes|
    ensures CollectAll(dir, nodes[..i + 1]) == CollectAll(dir, nodes[..i]) + CollectOne(dir, nodes[i])
  {
    assert nodes[..i + 1] == nodes[..i] + [nodes[i]];
    CollectAllAppend(dir, nodes[..i], [nodes[i]]);
    assert CollectAll(dir, [nodes[i]]) == CollectOne(dir, nodes[i]) + CollectAll(dir, []);
  }

  /** Every collected file has a wanted name under `dir`. */
  lemma {:induction false} CollectAllWanted(dir: string, nodes: seq<Node>)
    ensures forall f :: f in CollectAll(dir, nodes) ==>
              exists name :: Wanted(name) && EndsWith(f.path, "/" + name)
    decreases nodes
  {
    if nodes != [] {
      CollectOneWanted(dir, nodes[0]);
      CollectAllWanted(dir, nodes[1..]);
    }
  }

  lemma {:induction false} CollectOneWanted(dir: string, node: Node)
    ensures forall f :: f in CollectOne(dir, node) ==>
              exists name :: Wanted(name) && EndsWith(f.path, "/" + name)
    decreases node
  {
    match node
    case File(name, body) =>
      if Wanted(name) {
        var f := SourceFile(Join(dir, name), body);
        assert f.path == dir + ("/" + name);
        assert EndsWith(f.path, "/" + name);
      }
    case Dir(name, children) =>
      CollectAllWanted(Join(dir, name), children);
  }

  /** `findFiles(dir, fileList)` below an existing directory: visit the
      entries in order. */
  method Walk(dir: string, node: Node, fileList: seq<SourceFile>) returns (r: seq<SourceFile>)
    requires node.Dir?
    ensures r == fileList + CollectAll(dir, node.children)
    decreases node, 0
  {
    r := fileList;
    var files := node.children;
    for i := 0 to |files|
      invariant r == fileList + CollectAll(dir, files[..i])
    {
      assert files[i] in node.children;
      r := Visit(dir, files[i], r);
      CollectAllSnoc(dir, files, i);
    }
    assert files[..|files|] == files;
  }

  /** The `forEach` callback for one entry of `dir`: descend into a
      sub-directory, push a wanted file, skip anything else. */
  method Visit(dir: string, file: Node, fileList: seq<SourceFile>) returns (r: seq<SourceFile>)
    ensures r == fileList + CollectOne(dir, file)
    decreases file, 1
  {
    var filePath := Join(dir, file.name);
    if file.Dir? {
      r := Walk(filePath, file, fileList);
    } else if EndsWith(file.name, ".vue") || EndsWith(file.name, ".ts") {
      r := fileList + [SourceFile(filePath, file.body)];
    } else {
      r := fileList;
    }
  }

  /** `findFiles(dir)` with the existence check: a missing directory yields
      the accumulator unchanged. */
  method FindFiles(roots: Roots, dir: string, fileList: seq<SourceFile>) returns (r: seq<SourceFile>)
    ensures dir !in roots ==> r == fileList
    ensures dir in roots ==> r == fileList + CollectAll(dir, roots[dir])
  {
    if dir !in roots {
      return fileList;
    }
    r := Walk(dir, Dir(dir, roots[dir]), fileList);
  }

  /** What the scripts that search several directories gather, in order. */
  function Found(roots: Roots, dirs: seq<string>): seq<SourceFile>
  {
    if dirs == [] then []
    else Found(roots, dirs[..|dirs| - 1])
         + (var d := dirs[|dirs| - 1]; if d in roots then CollectAll(d, roots[d]) else [])
  }

  /** `SEARCH_DIRS.forEach(dir => allFiles = allFiles.concat(findFiles(dir)))`. */
  method FindAll(roots: Roots, dirs: seq<string>) returns (allFiles: seq<SourceFile>)
    ensures allFiles == Found(roots, dirs)
  {
    allFiles := [];
    for i := 0 to |dirs|
      invariant allFiles == Found(roots, dirs[..i])
    {
      var files := FindFiles(roots, dirs[i], []);
      allFiles := allFiles + files;
      assert dirs[..i + 1][..i] == dirs[..i];
    }
    assert dirs[..|dirs|] == dirs;
  }
}
