/** Files and directories below an output root. A path is relative to the root and the root itself is "". */
module FileTrees {
  import opened Wrappers

  datatype Node = File(bytes: string) | Dir | Special

  datatype Status = Missing | NotADirectory | Unreadable | Found(node: Node)

  /** `Crashed` is a write that stopped the program halfway. */
  datatype Outcome = Done | Failed | Crashed

  type Nodes = map<string, Node>

  // ----- paths

  /** No empty component. */
  ghost predicate Clean(path: string) {
    && (path != "" ==> path[0] != '/' && path[|path| - 1] != '/')
    && forall i, j :: 0 <= i < j < |path| && j == i + 1 ==> path[i] != '/' || path[j] != '/'
  }

  /** What the paths inside directory `d` start with. */
  function Inside(d: string): string {
    if d == "" then "" else d + "/"
  }

  predicate IsAncestor(d: string, path: string) {
    d != path && Inside(d) <= path
  }

  /** The index after the last '/', or 0. */
  function NameStart(path: string, n: nat): (i: nat)
    requires n <= |path|
    ensures i <= n && (i > 0 ==> path[i - 1] == '/')
    ensures forall j :: i <= j < n ==> path[j] != '/'
  {
    if n == 0 || path[n - 1] == '/' then n else NameStart(path, n - 1)
  }

  function Parent(path: string): string {
    var i := NameStart(path, |path|);
    if i == 0 then "" else path[..i - 1]
  }

  lemma ParentIsAncestor(path: string)
    requires path != "" && Clean(path)
    ensures Clean(Parent(path)) && IsAncestor(Parent(path), path)
    ensures |Parent(path)| < |path|
  {
    var i := NameStart(path, |path|);
    if i > 0 {
      assert path[..i] == path[..i - 1] + "/";
      assert path[i - 1] == '/';
      CleanPrefix(path, i - 1);
    }
  }

  lemma CleanPrefix(path: string, n: nat)
    requires Clean(path) && n < |path| && path[n] == '/'
    ensures n > 0 && Clean(path[..n])
  {
    assert path[n - 1] != '/';
  }

  /** The ancestors of a path are its parent and the ancestors of that. */
  lemma AncestorsOf(path: string, d: string)
    requires path != "" && Clean(path)
    ensures IsAncestor(d, path) <==> d == Parent(path) || IsAncestor(d, Parent(path))
  {
    ParentIsAncestor(path);
    var i := NameStart(path, |path|);
    if IsAncestor(d, path) && d != "" {
      assert path[|d|] == Inside(d)[|d|] == '/';
      assert d == path[..|d|];
      assert |d| < i;
      if |d| < i - 1 {
        assert Inside(d) == path[..|d| + 1] == Parent(path)[..|d| + 1];
      }
    }
    if IsAncestor(d, Parent(path)) {
      assert Inside(d) == Parent(path)[..|Inside(d)|] == path[..|Inside(d)|];
    }
  }

  // ----- trees

  /** Every path has its directories. */
  ghost predicate Tree(nodes: Nodes) {
    && (forall k :: k in nodes ==> Clean(k))
    && forall k, d :: k in nodes && IsAncestor(d, k) ==> d in nodes && nodes[d].Dir?
  }

  function Lookup(nodes: Nodes, path: string): Option<Node> {
    if path in nodes then Some(nodes[path]) else None
  }

  ghost predicate IsDir(nodes: Nodes, path: string) {
    path in nodes && nodes[path].Dir?
  }

  /** A file stands where a directory of `path` should be. */
  predicate Obstructed(nodes: Nodes, path: string) {
    exists d :: d in nodes && IsAncestor(d, path) && !nodes[d].Dir?
  }

  function StatusOf(nodes: Nodes, path: string): Status {
    if path in nodes then Found(nodes[path])
    else if Obstructed(nodes, path) then NotADirectory
    else Missing
  }

  lemma PutKeepsTree(nodes: Nodes, path: string, node: Node)
    requires Tree(nodes) && Clean(path)
    requires path != "" ==> IsDir(nodes, Parent(path))
    requires path in nodes ==> !nodes[path].Dir?
    ensures Tree(nodes[path := node])
  {
    forall k, d | k in nodes[path := node] && IsAncestor(d, k)
      ensures IsDir(nodes[path := node], d)
    {
      if k == path {
        AncestorsOf(path, d);
      }
    }
  }

  lemma RemovalKeepsTree(nodes: Nodes, gone: set<string>)
    requires Tree(nodes) && forall k :: k in gone && k in nodes ==> !nodes[k].Dir?
    ensures Tree(nodes - gone)
  {
  }

  /** Directories on the way to `path`, and `path` itself, may have been added; nothing else changed. */
  ghost predicate Grown(before: Nodes, after: Nodes, path: string) {
    && (forall k :: k in before ==> k in after && after[k] == before[k])
    && (forall k :: k in after && k !in before ==> after[k].Dir? && (k == path || IsAncestor(k, path)))
  }

  datatype MakeResult = Made | NoParent | NotMade

  /** The operations of the operating system; with `faulty` any of them may fail at any time. */
  class FileSystem {
    var nodes: Nodes
    const faulty: bool

    method Fault() returns (fault: bool)
      ensures fault ==> faulty
    {
      var any: bool := *;
      fault := faulty && any;
    }

    method Stat(path: string) returns (s: Status)
      ensures s == StatusOf(nodes, path) || (faulty && s.Unreadable?)
    {
      var fault := Fault();
      s := if fault then Unreadable else StatusOf(nodes, path);
    }

    method ReadFile(path: string) returns (r: Option<string>)
      ensures r.Some? ==> Lookup(nodes, path) == Some(File(r.value))
      ensures !faulty && path in nodes && nodes[path].File? ==> r.Some?
    {
      var fault := Fault();
      if !fault && path in nodes && nodes[path].File? {
        return Some(nodes[path].bytes);
      }
      return None;
    }

    method Remove(path: string) returns (ok: bool)
      modifies this
      ensures ok ==> nodes == old(nodes) - {path}
      ensures !ok ==> nodes == old(nodes) && faulty
    {
      var fault := Fault();
      ok := !fault;
      if ok {
        nodes := nodes - {path};
      }
    }

    /** An existing path counts as made, whatever it is. */
    method MakeDirectory(path: string) returns (r: MakeResult)
      requires Tree(nodes) && Clean(path)
      modifies this
      ensures Tree(nodes) && Grown(old(nodes), nodes, path)
      ensures r.Made? ==> path in nodes
      ensures !r.Made? ==> nodes == old(nodes)
      ensures r.NoParent? ==> path != "" && !Obstructed(nodes, path)
      ensures !faulty ==> (r.NotMade? <==> path !in old(nodes) && Obstructed(old(nodes), path))
      ensures !faulty && r.NoParent? ==> Parent(path) !in nodes
    {
      var fault := Fault();
      if fault {
        return NotMade;
      }
      if path in nodes {
        return Made;
      }
      if Obstructed(nodes, path) {
        return NotMade;
      }
      if path != "" && Parent(path) !in nodes {
        return NoParent;
      }
      if path != "" {
        ParentIsAncestor(path);
      }
      PutKeepsTree(nodes, path, Dir);
      nodes := nodes[path := Dir];
      return Made;
    }

    method CreateDirectories(path: string) returns (ok: bool)
      requires Tree(nodes) && Clean(path)
      modifies this
      ensures Tree(nodes) && Grown(old(nodes), nodes, path)
      ensures ok ==> path in nodes
      ensures !faulty ==> (ok <==> path in old(nodes) || !Obstructed(old(nodes), path))
      decreases |path|
    {
      var r := MakeDirectory(path);
      if !r.NoParent? {
        return r.Made?;
      }
      ghost var before := nodes;
      ParentIsAncestor(path);
      AncestorsObstructed(nodes, path);
      var below := CreateDirectories(Parent(path));
      GrownTowards(before, nodes, path);
      if !below {
        return false;
      }
      ghost var between := nodes;
      r := MakeDirectory(path);
      GrownTwice(before, between, nodes, path);
      ok := r.Made?;
    }

    /** Creates or truncates the file. */
    method WriteFile(path: string, bytes: string) returns (r: Outcome)
      requires Tree(nodes) && path != "" && Clean(path)
      requires path in nodes ==> !nodes[path].Special?
      modifies this
      ensures Tree(nodes)
      ensures r.Done? ==> nodes == old(nodes)[path := File(bytes)] && IsDir(nodes, Parent(path))
      ensures r.Failed? ==> nodes == old(nodes)
      ensures r.Crashed? ==> exists partial :: nodes == old(nodes)[path := File(partial)]
      ensures IsDir(old(nodes), path) || !IsDir(old(nodes), Parent(path)) ==> r.Failed?
      ensures !faulty ==> (r.Failed? <==> IsDir(old(nodes), path) || !IsDir(old(nodes), Parent(path)))
      ensures !faulty ==> !r.Crashed?
    {
      var fault := Fault();
      if fault || (path in nodes && nodes[path].Dir?) || Parent(path) !in nodes || !nodes[Parent(path)].Dir? {
        return Failed;
      }
      ParentIsAncestor(path);
      var crash := Fault();
      var n: nat :| n <= |bytes|;
      var written := if crash then bytes[..n] else bytes;
      PutKeepsTree(nodes, path, File(written));
      nodes := nodes[path := File(written)];
      return if crash then Crashed else Done;
    }
  }

  lemma AncestorsObstructed(nodes: Nodes, path: string)
    requires path != "" && Clean(path)
    ensures Obstructed(nodes, Parent(path)) ==> Obstructed(nodes, path)
  {
    if Obstructed(nodes, Parent(path)) {
      var d :| d in nodes && IsAncestor(d, Parent(path)) && !nodes[d].Dir?;
      AncestorsOf(path, d);
    }
  }

  lemma GrownTowards(before: Nodes, after: Nodes, path: string)
    requires path != "" && Clean(path) && Grown(before, after, Parent(path))
    ensures Grown(before, after, path)
    ensures Obstructed(after, path) <==> Obstructed(before, path)
  {
    forall k | k in after && k !in before
      ensures IsAncestor(k, path)
    {
      AncestorsOf(path, k);
    }
  }

  lemma GrownTwice(before: Nodes, between: Nodes, after: Nodes, path: string)
    requires Grown(before, between, path) && Grown(between, after, path)
    ensures Grown(before, after, path)
  {
  }
}
