/** Reachability in finite directed graphs, and the measures that make search over acyclic ones terminate. */
module Graphs {

  type Graph<K> = map<K, set<K>>

  function Succ<K>(g: Graph<K>, k: K): set<K> {
    if k in g then g[k] else {}
  }

  ghost predicate IsPath<K>(g: Graph<K>, p: seq<K>) {
    |p| >= 1 && forall i :: 0 <= i < |p| - 1 ==> p[i + 1] in Succ(g, p[i])
  }

  ghost predicate PathFromTo<K>(g: Graph<K>, p: seq<K>, a: K, b: K) {
    IsPath(g, p) && p[0] == a && p[|p| - 1] == b
  }

  /** Some path of zero or more edges leads from `a` to `b`. */
  ghost predicate Reaches<K(!new)>(g: Graph<K>, a: K, b: K) {
    exists p :: PathFromTo(g, p, a, b)
  }

  /** Some path of one or more edges leads from `a` to `b`. */
  ghost predicate ReachesPlus<K(!new)>(g: Graph<K>, a: K, b: K) {
    exists c :: c in Succ(g, a) && Reaches(g, c, b)
  }

  ghost predicate OnCycle<K(!new)>(g: Graph<K>, k: K) {
    ReachesPlus(g, k, k)
  }

  /** No cycle can be reached from `k`. */
  ghost predicate AcyclicFrom<K(!new)>(g: Graph<K>, k: K) {
    forall c :: Reaches(g, k, c) ==> !OnCycle(g, c)
  }

  ghost predicate Closed<K>(g: Graph<K>, s: set<K>) {
    forall k :: k in s ==> Succ(g, k) <= s
  }

  lemma ReachesSelf<K(!new)>(g: Graph<K>, a: K)
    ensures Reaches(g, a, a)
  {
    assert PathFromTo(g, [a], a, a);
  }

  lemma ReachesTransitive<K(!new)>(g: Graph<K>, a: K, b: K, c: K)
    requires Reaches(g, a, b) && Reaches(g, b, c)
    ensures Reaches(g, a, c)
  {
    var p :| PathFromTo(g, p, a, b);
    var q :| PathFromTo(g, q, b, c);
    var r := p + q[1..];
    forall i | 0 <= i < |r| - 1
      ensures r[i + 1] in Succ(g, r[i])
    {
      if i >= |p| - 1 {
        assert r[i] == q[i - |p| + 1] && r[i + 1] == q[i - |p| + 2];
      }
    }
    assert PathFromTo(g, r, a, c);
  }

  lemma EdgeReaches<K(!new)>(g: Graph<K>, a: K, b: K)
    requires b in Succ(g, a)
    ensures Reaches(g, a, b)
  {
    assert PathFromTo(g, [a, b], a, b);
  }

  /** A reached node extends to its successors. */
  lemma ReachesSucc<K(!new)>(g: Graph<K>, a: K, b: K, c: K)
    requires Reaches(g, a, b) && c in Succ(g, b)
    ensures Reaches(g, a, c) && ReachesPlus(g, a, c)
  {
    EdgeReaches(g, b, c);
    ReachesTransitive(g, a, b, c);
    var p :| PathFromTo(g, p, a, b);
    if |p| == 1 {
      ReachesSelf(g, c);
    } else {
      assert PathFromTo(g, p[1..], p[1], b);
      ReachesTransitive(g, p[1], b, c);
    }
  }

  lemma PlusReaches<K(!new)>(g: Graph<K>, a: K, b: K)
    requires ReachesPlus(g, a, b)
    ensures Reaches(g, a, b)
  {
    var c :| c in Succ(g, a) && Reaches(g, c, b);
    EdgeReaches(g, a, c);
    ReachesTransitive(g, a, c, b);
  }

  /** A path of one or more edges has a last edge. */
  lemma PlusHasLastEdge<K(!new)>(g: Graph<K>, a: K, b: K) returns (pred: K)
    requires ReachesPlus(g, a, b)
    ensures Reaches(g, a, pred) && b in Succ(g, pred)
  {
    var c :| c in Succ(g, a) && Reaches(g, c, b);
    var p :| PathFromTo(g, p, c, b);
    var n := |p| - 1;
    if n == 0 {
      ReachesSelf(g, a);
      return a;
    }
    assert PathFromTo(g, p[..n], c, p[n - 1]);
    EdgeReaches(g, a, c);
    ReachesTransitive(g, a, c, p[n - 1]);
    return p[n - 1];
  }

  /** A closed set keeps everything its members reach. */
  lemma {:induction false} ClosedKeeps<K(!new)>(g: Graph<K>, s: set<K>, a: K, b: K)
    requires Closed(g, s) && a in s && Reaches(g, a, b)
    ensures b in s
  {
    var p :| PathFromTo(g, p, a, b);
    ClosedKeepsPath(g, s, p, |p| - 1);
  }

  lemma {:induction false} ClosedKeepsPath<K>(g: Graph<K>, s: set<K>, p: seq<K>, n: nat)
    requires Closed(g, s) && IsPath(g, p) && p[0] in s && n < |p|
    ensures p[n] in s
  {
    if n > 0 {
      ClosedKeepsPath(g, s, p, n - 1);
    }
  }

  lemma AcyclicSucc<K(!new)>(g: Graph<K>, k: K, c: K)
    requires AcyclicFrom(g, k) && c in Succ(g, k)
    ensures AcyclicFrom(g, c)
  {
    EdgeReaches(g, k, c);
    forall d | Reaches(g, c, d)
      ensures !OnCycle(g, d)
    {
      ReachesTransitive(g, k, c, d);
    }
  }

  // ----- a measure for recursion over acyclic graphs

  ghost function Nodes<K>(g: Graph<K>): set<K> {
    g.Keys + set k, c | k in g && c in g[k] :: c
  }

  ghost function Descendants<K(!new)>(g: Graph<K>, k: K): set<K> {
    set c | c in Nodes(g) && ReachesPlus(g, k, c)
  }

  lemma SubsetSize<K>(a: set<K>, b: set<K>)
    requires a < b
    ensures |a| < |b|
  {
    var x :| x in b && x !in a;
    SubsetSizeWeak(a, b - {x});
  }

  lemma SubsetSizeWeak<K>(a: set<K>, b: set<K>)
    requires a <= b
    ensures |a| <= |b|
  {
    if a != {} {
      var x :| x in a;
      SubsetSizeWeak(a - {x}, b - {x});
    }
  }

  /** Going down an edge of an acyclic graph loses a descendant. */
  lemma DescendantsShrink<K(!new)>(g: Graph<K>, k: K, c: K)
    requires c in Succ(g, k) && !OnCycle(g, c)
    ensures |Descendants(g, c)| < |Descendants(g, k)|
  {
    ReachesSelf(g, c);
    assert c in Descendants(g, k) && c !in Descendants(g, c);
    forall d | d in Descendants(g, c)
      ensures d in Descendants(g, k)
    {
      PlusReaches(g, c, d);
    }
    SubsetSize(Descendants(g, c), Descendants(g, k));
  }
}
