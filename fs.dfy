/** The directory walk of src/db.rs (`struct Find`), over an abstract, finite
    file tree instead of the real file system. A path is the sequence of its
    components; a child's path is its parent's path with the child's name added. */
module Fs {
  import opened Results

  type Path = seq<string>

  /** A tree entry. A file carries the text that opening and reading it gives,
      or None when it cannot be opened or read; a directory that cannot be
      listed makes `read_dir` fail. `children` is the order `read_dir` reports. */
  datatype Node =
    | File(name: string, content: Option<string>)
    | Dir(name: string, listable: bool, children: seq<Node>)

  datatype IoError = CannotList(path: Path) | CannotRead(path: Path)

  /** What the walk yields for a file: its path, and what opening it will give. */
  datatype FoundFile = FoundFile(path: Path, content: Option<string>)

  type Item = Result<FoundFile, IoError>

  function Size(n: Node): (r: nat)
    ensures r >= 1
  {
    match n
    case File(_, _) => 1
    case Dir(_, _, ch) => 1 + SizeAll(ch)
  }

  function SizeAll(ns: seq<Node>): nat
  {
    if ns == [] then 0 else SizeAll(ns[..|ns| - 1]) + Size(ns[|ns| - 1])
  }

  /** What the walk yields for the subtree `n` at path `p`, in the order the
      stack produces it: a file is yielded itself, a directory that cannot be
      listed yields one error, and a listed directory's children are walked
      last one first, because the last one pushed is popped first. */
  function Walk(p: Path, n: Node): seq<Item>
    decreases Size(n), 0
  {
    match n
    case File(_, c) => [Ok(FoundFile(p, c))]
    case Dir(_, listable, ch) =>
      if listable then WalkChildren(p, ch) else [Err(CannotList(p))]
  }

  function WalkChildren(p: Path, ns: seq<Node>): seq<Item>
    decreases SizeAll(ns), 1
  {
    if ns == [] then []
    else
      var last := ns[|ns| - 1];
      Walk(p + [last.name], last) + WalkChildren(p, ns[..|ns| - 1])
  }

  /** The stack entries `read_dir` pushes for the children of the directory at `p`. */
  function Children(p: Path, ns: seq<Node>): (r: seq<(Path, Node)>)
    ensures |r| == |ns|
  {
    seq(|ns|, k requires 0 <= k < |ns| => (p + [ns[k].name], ns[k]))
  }

  /** Everything a stack still has to yield: the top entry's walk first. */
  function Pending(stack: seq<(Path, Node)>): seq<Item>
  {
    if stack == [] then []
    else
      var top := stack[|stack| - 1];
      Walk(top.0, top.1) + Pending(stack[..|stack| - 1])
  }

  function StackSize(stack: seq<(Path, Node)>): nat
  {
    if stack == [] then 0 else StackSize(stack[..|stack| - 1]) + Size(stack[|stack| - 1].1)
  }

  lemma {:induction false} PushChildren(s: seq<(Path, Node)>, p: Path, ns: seq<Node>)
    ensures Pending(s + Children(p, ns)) == WalkChildren(p, ns) + Pending(s)
    ensures StackSize(s + Children(p, ns)) == StackSize(s) + SizeAll(ns)
    decreases |ns|
  {
    if ns == [] {
      assert s + Children(p, ns) == s;
    } else {
      var init := ns[..|ns| - 1];
      var last := ns[|ns| - 1];
      var t := s + Children(p, ns);
      var top := (p + [last.name], last);
      assert t == (s + Children(p, init)) + [top];
      PushChildren(s, p, init);
      PendingPush(s + Children(p, init), top);
    }
  }

  lemma PendingPush(s: seq<(Path, Node)>, top: (Path, Node))
    ensures Pending(s + [top]) == Walk(top.0, top.1) + Pending(s)
    ensures StackSize(s + [top]) == StackSize(s) + Size(top.1)
  {
    assert (s + [top])[..|s|] == s;
  }

  /** The iterator `Find`: a stack of paths still to visit, starting with the root. */
  class Find {
    var stack: seq<(Path, Node)>

    constructor (root: Path, n: Node)
      ensures stack == [(root, n)]
      ensures Remaining() == Walk(root, n)
    {
      stack := [(root, n)];
      new;
      PendingPush([], (root, n));
      assert [] + [(root, n)] == stack;
    }

    /** The items the iterator will still yield. */
    ghost function Remaining(): seq<Item>
      reads this
    {
      Pending(stack)
    }

    /** `Iterator::next`: pop until a non-directory or an unlistable directory. */
    method Next() returns (item: Option<Item>)
      modifies this
      ensures item.None? <==> old(Remaining()) == []
      ensures item.None? ==> stack == []
      ensures item.Some? ==> old(Remaining()) == [item.value] + Remaining()
    {
      while stack != []
        invariant Pending(stack) == old(Remaining())
        decreases StackSize(stack)
      {
        var top := stack[|stack| - 1];
        stack := stack[..|stack| - 1];
        match top.1
        case File(_, c) =>
          return Some(Ok(FoundFile(top.0, c)));
        case Dir(_, listable, ch) =>
          if !listable {
            return Some(Err(CannotList(top.0)));
          }
          PushChildren(stack, top.0, ch);
          stack := stack + Children(top.0, ch);
      }
      return None;
    }
  }

  /** True when every directory of the subtree can be listed. */
  predicate AllListable(n: Node)
    decreases Size(n), 0
  {
    match n
    case File(_, _) => true
    case Dir(_, listable, ch) => listable && AllListableChildren(ch)
  }

  predicate AllListableChildren(ns: seq<Node>)
    decreases SizeAll(ns), 1
  {
    ns == [] || (AllListableChildren(ns[..|ns| - 1]) && AllListable(ns[|ns| - 1]))
  }

  /** The files of a subtree, in directory order: the reference the walk is held to. */
  function FilesOf(p: Path, n: Node): seq<FoundFile>
    decreases Size(n), 0
  {
    match n
    case File(_, c) => [FoundFile(p, c)]
    case Dir(_, _, ch) => FilesOfChildren(p, ch)
  }

  function FilesOfChildren(p: Path, ns: seq<Node>): seq<FoundFile>
    decreases SizeAll(ns), 1
  {
    if ns == [] then []
    else
      var last := ns[|ns| - 1];
      FilesOfChildren(p, ns[..|ns| - 1]) + FilesOf(p + [last.name], last)
  }

  /** No entries of a directory share a name, in that directory and in every
      directory below it: what any real file system guarantees. */
  predicate WellFormed(n: Node)
    decreases Size(n), 0
  {
    match n
    case File(_, _) => true
    case Dir(_, _, ch) => DistinctNames(ch) && WellFormedChildren(ch)
  }

  predicate WellFormedChildren(ns: seq<Node>)
    decreases SizeAll(ns), 1
  {
    ns == [] || (WellFormedChildren(ns[..|ns| - 1]) && WellFormed(ns[|ns| - 1]))
  }

  predicate DistinctNames(ns: seq<Node>)
  {
    forall i, j :: 0 <= i < j < |ns| ==> ns[i].name != ns[j].name
  }

  /** No two found files share a path. */
  predicate DistinctPaths(fs: seq<FoundFile>)
  {
    forall i, j :: 0 <= i < j < |fs| ==> fs[i].path != fs[j].path
  }

  /** Every file of a subtree lies under the subtree's path. */
  lemma {:induction false} FilesUnder(p: Path, n: Node)
    ensures forall k :: 0 <= k < |FilesOf(p, n)| ==> p <= FilesOf(p, n)[k].path
    decreases Size(n), 0
  {
    match n
    case File(_, _) =>
    case Dir(_, _, ch) =>
      FilesUnderChildren(p, ch);
  }

  /** `q` lies under one of the entries `ns` of the directory at `p`. */
  predicate UnderEntry(p: Path, ns: seq<Node>, q: Path)
  {
    exists i :: 0 <= i < |ns| && p + [ns[i].name] <= q
  }

  /** Every file below a directory's entries lies under one of those entries. */
  lemma {:induction false} FilesUnderChildren(p: Path, ns: seq<Node>)
    ensures forall k :: 0 <= k < |FilesOfChildren(p, ns)| ==> UnderEntry(p, ns, FilesOfChildren(p, ns)[k].path)
    decreases SizeAll(ns), 1
  {
    if ns != [] {
      var last := ns[|ns| - 1];
      var init := ns[..|ns| - 1];
      FilesUnderChildren(p, init);
      FilesUnder(p + [last.name], last);
      var a: seq<FoundFile> := FilesOfChildren(p, init);
      var b: seq<FoundFile> := FilesOf(p + [last.name], last);
      assert FilesOfChildren(p, ns) == a + b;
      forall k | 0 <= k < |a + b|
        ensures UnderEntry(p, ns, (a + b)[k].path)
      {
        if k < |a| {
          assert UnderEntry(p, init, a[k].path);
          var i :| 0 <= i < |init| && p + [init[i].name] <= a[k].path;
          assert ns[i] == init[i];
        } else {
          assert p + [ns[|ns| - 1].name] <= b[k - |a|].path;
        }
      }
    }
  }

  lemma DistinctPathsAppend(a: seq<FoundFile>, b: seq<FoundFile>)
    requires DistinctPaths(a) && DistinctPaths(b)
    requires forall i, j :: 0 <= i < |a| && 0 <= j < |b| ==> a[i].path != b[j].path
    ensures DistinctPaths(a + b)
  {
    forall i, j | 0 <= i < j < |a + b|
      ensures (a + b)[i].path != (a + b)[j].path
    {
      if j < |a| {
      } else if i < |a| {
        assert (a + b)[j] == b[j - |a|];
      } else {
        assert (a + b)[i] == b[i - |a|] && (a + b)[j] == b[j - |a|];
      }
    }
  }

  /** In a well-formed tree no two files share a path. */
  lemma {:induction false} WellFormedPathsDistinct(p: Path, n: Node)
    requires WellFormed(n)
    ensures DistinctPaths(FilesOf(p, n))
    decreases Size(n), 0
  {
    match n
    case File(_, _) =>
    case Dir(_, _, ch) =>
      WellFormedChildrenPathsDistinct(p, ch);
  }

  lemma {:induction false} WellFormedChildrenPathsDistinct(p: Path, ns: seq<Node>)
    requires DistinctNames(ns) && WellFormedChildren(ns)
    ensures DistinctPaths(FilesOfChildren(p, ns))
    decreases SizeAll(ns), 1
  {
    if ns != [] {
      var last := ns[|ns| - 1];
      var init := ns[..|ns| - 1];
      WellFormedChildrenPathsDistinct(p, init);
      WellFormedPathsDistinct(p + [last.name], last);
      FilesUnderChildren(p, init);
      FilesUnder(p + [last.name], last);
      var a: seq<FoundFile> := FilesOfChildren(p, init);
      var b: seq<FoundFile> := FilesOf(p + [last.name], last);
      forall i, j | 0 <= i < |a| && 0 <= j < |b|
        ensures a[i].path != b[j].path
      {
        assert UnderEntry(p, init, a[i].path);
        var m :| 0 <= m < |init| && p + [init[m].name] <= a[i].path;
        assert p + [last.name] <= b[j].path;
        assert a[i].path[|p|] == ns[m].name;
        assert b[j].path[|p|] == last.name;
      }
      DistinctPathsAppend(a, b);
    }
  }

  /** The files among the walk's items, in order. */
  function Found(items: seq<Item>): seq<FoundFile>
  {
    if items == [] then []
    else if items[0].Ok? then [items[0].value] + Found(items[1..])
    else Found(items[1..])
  }

  predicate HasError(items: seq<Item>)
  {
    exists k :: 0 <= k < |items| && items[k].Err?
  }

  lemma {:induction false} FoundAppend(a: seq<Item>, b: seq<Item>)
    ensures Found(a + b) == Found(a) + Found(b)
    ensures HasError(a + b) <==> HasError(a) || HasError(b)
  {
    HasErrorAppend(a, b);
    if a == [] {
      assert a + b == b;
    } else {
      assert (a + b)[1..] == a[1..] + b;
      FoundAppend(a[1..], b);
    }
  }

  lemma HasErrorAppend(a: seq<Item>, b: seq<Item>)
    ensures HasError(a + b) <==> HasError(a) || HasError(b)
  {
    if HasError(a) {
      var k :| 0 <= k < |a| && a[k].Err?;
      assert (a + b)[k].Err?;
    }
    if HasError(b) {
      var k :| 0 <= k < |b| && b[k].Err?;
      assert (a + b)[|a| + k].Err?;
    }
    if HasError(a + b) {
      var k :| 0 <= k < |a + b| && (a + b)[k].Err?;
      if k < |a| { assert a[k].Err?; } else { assert b[k - |a|].Err?; }
    }
  }

  /** In a tree whose directories can all be listed, the walk yields no error and
      yields every file exactly as often as the tree holds it, never a directory. */
  lemma {:induction false} WalkFindsAllFiles(p: Path, n: Node)
    requires AllListable(n)
    ensures !HasError(Walk(p, n))
    ensures multiset(Found(Walk(p, n))) == multiset(FilesOf(p, n))
    decreases Size(n), 0
  {
    match n
    case File(_, c) =>
      assert Found(Walk(p, n)) == [FoundFile(p, c)];
    case Dir(_, _, ch) =>
      WalkChildrenFindsAllFiles(p, ch);
  }

  lemma {:induction false} WalkChildrenFindsAllFiles(p: Path, ns: seq<Node>)
    requires AllListableChildren(ns)
    ensures !HasError(WalkChildren(p, ns))
    ensures multiset(Found(WalkChildren(p, ns))) == multiset(FilesOfChildren(p, ns))
    decreases SizeAll(ns), 1
  {
    if ns != [] {
      var last := ns[|ns| - 1];
      var init := ns[..|ns| - 1];
      WalkFindsAllFiles(p + [last.name], last);
      WalkChildrenFindsAllFiles(p, init);
      FoundAppend(Walk(p + [last.name], last), WalkChildren(p, init));
    }
  }

  /** A directory that cannot be listed anywhere in the tree makes the walk yield an error. */
  lemma {:induction false} WalkReportsUnlistable(p: Path, n: Node)
    requires !AllListable(n)
    ensures HasError(Walk(p, n))
    decreases Size(n), 0
  {
    match n
    case File(_, _) =>
    case Dir(_, listable, ch) =>
      if listable {
        WalkChildrenReportsUnlistable(p, ch);
      } else {
        assert Walk(p, n)[0].Err?;
      }
  }

  lemma {:induction false} WalkChildrenReportsUnlistable(p: Path, ns: seq<Node>)
    requires !AllListableChildren(ns)
    ensures HasError(WalkChildren(p, ns))
    decreases SizeAll(ns), 1
  {
    var last := ns[|ns| - 1];
    var init := ns[..|ns| - 1];
    FoundAppend(Walk(p + [last.name], last), WalkChildren(p, init));
    if AllListableChildren(init) {
      WalkReportsUnlistable(p + [last.name], last);
    } else {
      WalkChildrenReportsUnlistable(p, init);
    }
  }
}
