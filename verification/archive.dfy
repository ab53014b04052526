/** The size of the application inside a build archive
    (`GetFinalBinarySize` in xcode_project_diff.py). The archive directory is
    an abstract tree of named directories and files with byte sizes; walking
    it with `os.walk` and reading each file's size with `wc -c` becomes a
    fold over that tree. */
module Archive {
  import opened Wrappers

  /** A directory entry: a file with its size in bytes, or a directory with
      its entries. */
  datatype Node = File(name: string, size: nat) | Dir(name: string, children: seq<Node>)

  function Sum(xs: seq<nat>): nat {
    if |xs| == 0 then 0 else xs[0] + Sum(xs[1..])
  }

  lemma {:induction false} SumConcat(a: seq<nat>, b: seq<nat>)
    ensures Sum(a + b) == Sum(a) + Sum(b)
  {
    if |a| > 0 {
      assert (a + b)[0] == a[0] && (a + b)[1..] == a[1..] + b;
      SumConcat(a[1..], b);
      calc {
        Sum(a + b);
        a[0] + Sum(a[1..] + b);
        a[0] + Sum(a[1..]) + Sum(b);
      }
    } else {
      assert a + b == b;
    }
  }

  /** The sizes of every file in the tree, depth first. */
  function FileSizes(n: Node): seq<nat>
    decreases n, 1
  {
    match n
    case File(_, size) => [size]
    case Dir(_, children) => ForestSizes(children)
  }

  /** The sizes of every file in a list of trees, tree by tree. */
  function ForestSizes(ns: seq<Node>): seq<nat>
    decreases ns, 0
  {
    if |ns| == 0 then [] else FileSizes(ns[0]) + ForestSizes(ns[1..])
  }

  lemma {:induction false} ForestSizesConcat(a: seq<Node>, b: seq<Node>)
    ensures ForestSizes(a + b) == ForestSizes(a) + ForestSizes(b)
  {
    if |a| > 0 {
      assert (a + b)[0] == a[0] && (a + b)[1..] == a[1..] + b;
      ForestSizesConcat(a[1..], b);
      calc {
        ForestSizes(a + b);
        FileSizes(a[0]) + ForestSizes(a[1..] + b);
        FileSizes(a[0]) + (ForestSizes(a[1..]) + ForestSizes(b));
      }
    } else {
      assert a + b == b;
    }
  }

  /** The number of entries in a tree, itself included. */
  function Count(n: Node): nat
    decreases n, 1
  {
    match n
    case File(_, _) => 1
    case Dir(_, children) => 1 + CountForest(children)
  }

  function CountForest(ns: seq<Node>): nat
    decreases ns, 0
  {
    if |ns| == 0 then 0 else Count(ns[0]) + CountForest(ns[1..])
  }

  lemma {:induction false} CountForestConcat(a: seq<Node>, b: seq<Node>)
    ensures CountForest(a + b) == CountForest(a) + CountForest(b)
  {
    if |a| > 0 {
      assert (a + b)[0] == a[0] && (a + b)[1..] == a[1..] + b;
      CountForestConcat(a[1..], b);
      calc {
        CountForest(a + b);
        Count(a[0]) + CountForest(a[1..] + b);
      }
    } else {
      assert a + b == b;
    }
  }

  /** Total bytes of all files in the tree. */
  function TreeSize(n: Node): nat {
    Sum(FileSizes(n))
  }

  /** Sizes add up over disjoint parts of a directory: splitting a
      directory's entries in two splits its total in two. */
  lemma TreeSizeAdditive(name: string, a: seq<Node>, b: seq<Node>)
    ensures TreeSize(Dir(name, a + b)) == TreeSize(Dir(name, a)) + TreeSize(Dir(name, b))
  {
    ForestSizesConcat(a, b);
    SumConcat(ForestSizes(a), ForestSizes(b));
  }

  /** The walk over a tree, as `os.walk` visits it, with a work list of
      entries still to visit; the order of visits does not affect the sum. */
  method WalkSize(root: Node) returns (total: nat)
    ensures total == TreeSize(root)
  {
    var pending := [root];
    total := 0;
    assert ForestSizes(pending) == FileSizes(root) by {
      assert pending[1..] == [];
      assert FileSizes(root) + [] == FileSizes(root);
    }
    while |pending| > 0
      invariant total + Sum(ForestSizes(pending)) == TreeSize(root)
      decreases CountForest(pending)
    {
      var top := pending[0];
      var rest := pending[1..];
      assert CountForest(pending) == Count(top) + CountForest(rest);
      SumConcat(FileSizes(top), ForestSizes(rest));
      match top
      case File(_, size) =>
        total := total + size;
        pending := rest;
      case Dir(_, children) =>
        ForestSizesConcat(children, rest);
        SumConcat(ForestSizes(children), ForestSizes(rest));
        CountForestConcat(children, rest);
        pending := children + rest;
    }
  }

  /** The first entry with the given name (names in a directory are unique). */
  function Child(children: seq<Node>, name: string): (r: Option<Node>)
    ensures r.Some? ==> r.value in children && r.value.name == name
    ensures r.None? ==> forall i :: 0 <= i < |children| ==> children[i].name != name
  {
    if |children| == 0 then None
    else if children[0].name == name then Some(children[0])
    else Child(children[1..], name)
  }

  /** The entry at a relative path below `n`, if there is one. */
  function Descend(n: Node, path: seq<string>): Option<Node> {
    if |path| == 0 then Some(n)
    else match n
      case File(_, _) => None
      case Dir(_, children) =>
        match Child(children, path[0])
        case None => None
        case Some(c) => Descend(c, path[1..])
  }

  /** Descending one level is a lookup in the directory's entries. */
  lemma DescendStep(n: Node, name: string, rest: seq<string>, c: Node)
    requires n.Dir? && Child(n.children, name) == Some(c)
    ensures Descend(n, [name] + rest) == Descend(c, rest)
  {
    assert ([name] + rest)[0] == name && ([name] + rest)[1..] == rest;
  }

  /** `Products/Applications`, the application bundle's place in an archive. */
  const APPLICATIONS: seq<string> := ["Products", "Applications"]

  /** `GetFinalBinarySize(archive_path)`: the bytes of every file below
      `Products/Applications` of the archive. A missing archive, a missing
      subtree, or a file where the directory should be, all measure 0. */
  function GetFinalBinarySize(archive: Option<Node>): (size: nat)
    ensures archive.None? ==> size == 0
    ensures archive.Some? && Descend(archive.value, APPLICATIONS).None? ==> size == 0
    ensures archive.Some? && Descend(archive.value, APPLICATIONS).Some? ==>
              var apps := Descend(archive.value, APPLICATIONS).value;
              size == if apps.Dir? then TreeSize(apps) else 0
  {
    match archive
    case None => 0
    case Some(root) =>
      match Descend(root, APPLICATIONS)
      case Some(Dir(name, children)) => TreeSize(Dir(name, children))
      case _ => 0
  }

  /** An archive whose application directory holds files of 100, 250 and 0
      bytes (one of them nested) measures 350; one without `Products`
      measures 0. */
  lemma MeasureExamples()
    ensures GetFinalBinarySize(Some(Dir("out.xcarchive", [Dir("Products", [Dir("Applications", [
              Dir("SizeTest.app", [File("SizeTest", 100), File("Info.plist", 250)]),
              File("empty", 0)])])]))) == 350
    ensures GetFinalBinarySize(Some(Dir("out.xcarchive", [Dir("dSYMs", [File("x", 7)])]))) == 0
  {
    var app := Dir("SizeTest.app", [File("SizeTest", 100), File("Info.plist", 250)]);
    var apps := Dir("Applications", [app, File("empty", 0)]);
    var products := Dir("Products", [apps]);
    var root := Dir("out.xcarchive", [products]);
    assert Descend(root, APPLICATIONS) == Some(apps) by {
      DescendStep(root, "Products", ["Applications"], products);
      DescendStep(products, "Applications", [], apps);
      assert APPLICATIONS == ["Products"] + ["Applications"];
      assert ["Applications"] == ["Applications"] + [];
    }
    assert ForestSizes([File("Info.plist", 250)]) == [250];
    assert FileSizes(app) == [100, 250];
    assert ForestSizes([File("empty", 0)]) == [0];
    assert FileSizes(apps) == [100, 250, 0];
    assert Sum([100, 250, 0]) == 350;
    var other := Dir("out.xcarchive", [Dir("dSYMs", [File("x", 7)])]);
    assert Child(other.children, "Products") == None;
  }
}
