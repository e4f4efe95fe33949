/** Graphs as adjacency lists, and being joined by a path. */
module Graphs {
  import opened Basics

  type Graph = seq<seq<int>>

  ghost predicate InRange(g: Graph) {
    forall u, j :: 0 <= u < |g| && 0 <= j < |g[u]| ==> 0 <= g[u][j] < |g|
  }

  ghost predicate Symmetric(g: Graph) {
    forall u, v :: 0 <= u < |g| && 0 <= v < |g| && v in g[u] ==> u in g[v]
  }

  ghost predicate IsPath(g: Graph, p: seq<int>) {
    && p != []
    && (forall i :: 0 <= i < |p| ==> 0 <= p[i] < |g|)
    && (forall i :: 0 <= i < |p| - 1 ==> p[i + 1] in g[p[i]])
  }

  ghost predicate PathFrom(g: Graph, p: seq<int>, u: int, v: int) {
    IsPath(g, p) && p[0] == u && p[|p| - 1] == v
  }

  ghost predicate Joined(g: Graph, u: int, v: int) {
    exists p :: PathFrom(g, p, u, v)
  }

  /** No edge leaves `s`. */
  ghost predicate Closed(g: Graph, s: set<int>) {
    forall u, v :: u in s && 0 <= u < |g| && v in g[u] ==> v in s
  }

  lemma JoinedSelf(g: Graph, u: int)
    requires 0 <= u < |g|
    ensures Joined(g, u, u)
  {
    assert PathFrom(g, [u], u, u);
  }

  lemma JoinedStep(g: Graph, u: int, v: int, w: int)
    requires Joined(g, u, v) && 0 <= v < |g| && 0 <= w < |g| && w in g[v]
    ensures Joined(g, u, w)
  {
    var p :| PathFrom(g, p, u, v);
    var q := p + [w];
    assert forall i :: 0 <= i < |q| - 1 ==> q[i] == p[i];
    assert PathFrom(g, q, u, w);
  }

  lemma {:induction false} JoinedTransitive(g: Graph, u: int, v: int, p: seq<int>, w: int)
    requires Joined(g, u, v) && PathFrom(g, p, v, w)
    ensures Joined(g, u, w)
    decreases |p|
  {
    if |p| > 1 {
      JoinedStep(g, u, v, p[1]);
      assert PathFrom(g, p[1..], p[1], w);
      JoinedTransitive(g, u, p[1], p[1..], w);
    }
  }

  lemma JoinedVia(g: Graph, u: int, v: int, w: int)
    requires Joined(g, u, v) && Joined(g, v, w)
    ensures Joined(g, u, w)
  {
    var p :| PathFrom(g, p, v, w);
    JoinedTransitive(g, u, v, p, w);
  }

  lemma {:induction false} ReversePath(g: Graph, p: seq<int>, u: int, v: int)
    requires Symmetric(g) && PathFrom(g, p, u, v)
    ensures Joined(g, v, u)
    decreases |p|
  {
    if |p| == 1 {
      JoinedSelf(g, u);
    } else {
      assert PathFrom(g, p[1..], p[1], v);
      ReversePath(g, p[1..], p[1], v);
      JoinedStep(g, v, p[1], u);
    }
  }

  lemma JoinedBack(g: Graph, u: int, v: int)
    requires Symmetric(g) && Joined(g, u, v)
    ensures Joined(g, v, u)
  {
    var p :| PathFrom(g, p, u, v);
    ReversePath(g, p, u, v);
  }

  /** What is joined to a member of a closed set belongs to it. */
  lemma {:induction false} ClosedPath(g: Graph, s: set<int>, p: seq<int>, u: int, v: int)
    requires Closed(g, s) && u in s && PathFrom(g, p, u, v)
    ensures v in s
    decreases |p|
  {
    if |p| > 1 {
      assert PathFrom(g, p[1..], p[1], v);
      ClosedPath(g, s, p[1..], p[1], v);
    }
  }

  lemma ClosedJoined(g: Graph, s: set<int>, u: int, v: int)
    requires Closed(g, s) && u in s && Joined(g, u, v)
    ensures v in s
  {
    var p :| PathFrom(g, p, u, v);
    ClosedPath(g, s, p, u, v);
  }

  lemma JoinedInRange(g: Graph, u: int, v: int)
    requires Joined(g, u, v)
    ensures 0 <= u < |g| && 0 <= v < |g|
  {
  }

  ghost predicate Increasing(s: seq<int>) {
    forall i, j :: 0 <= i < j < |s| ==> s[i] < s[j]
  }

  ghost predicate Numbered(n: nat, s: set<int>, labels: seq<int>, count: nat) {
    |labels| == n && forall v :: v in s ==> 0 <= v < n && 1 <= labels[v] <= count
  }

  ghost predicate SameIffJoined(g: Graph, s: set<int>, labels: seq<int>)
    requires |labels| == |g| && forall v :: v in s ==> 0 <= v < |g|
  {
    forall u, v :: u in s && v in s ==> (labels[u] == labels[v] <==> Joined(g, u, v))
  }

  ghost predicate RootLabels(n: nat, s: set<int>, labels: seq<int>, roots: seq<int>) {
    |labels| == n && forall j :: 0 <= j < |roots| ==> roots[j] in s && 0 <= roots[j] < n && labels[roots[j]] == j + 1
  }

  ghost predicate Smallest(n: nat, s: set<int>, labels: seq<int>, roots: seq<int>)
    requires Numbered(n, s, labels, |roots|)
  {
    forall v :: v in s ==> roots[labels[v] - 1] <= v
  }

  /** The labels of the vertices in `s` number their components by smallest vertex. */
  ghost predicate LabelsOn(g: Graph, s: set<int>, labels: seq<int>, roots: seq<int>) {
    && Numbered(|g|, s, labels, |roots|) && SameIffJoined(g, s, labels)
    && RootLabels(|g|, s, labels, roots) && Smallest(|g|, s, labels, roots) && Increasing(roots)
  }

  /**
   * `labels` numbers the components from 1 in the order of their smallest vertices: `roots[j]` is the
   * smallest vertex of the component labelled `j + 1`.
   */
  ghost predicate Labels(g: Graph, labels: seq<int>, roots: seq<int>) {
    LabelsOn(g, Range(|g|), labels, roots)
  }

  lemma {:induction false} IncreasingUnique(a: seq<int>, b: seq<int>)
    requires Increasing(a) && Increasing(b) && forall x :: x in a <==> x in b
    ensures a == b
    decreases |a|
  {
    if a == [] {
      assert forall i :: 0 <= i < |b| ==> b[i] in b;
    } else {
      assert a[0] in b && b[0] in a;
      assert a[0] == b[0];
      forall x ensures x in a[1..] <==> x in b[1..] {
        assert x in a[1..] <==> x in a && x != a[0];
        assert x in b[1..] <==> x in b && x != b[0];
      }
      IncreasingUnique(a[1..], b[1..]);
    }
  }

  lemma RootInRange(g: Graph, labels: seq<int>, roots: seq<int>, j: int)
    requires Labels(g, labels, roots) && 0 <= j < |roots|
    ensures 0 <= roots[j] < |g| == |labels| && labels[roots[j]] == j + 1
  {
    hide Joined, SameIffJoined, Smallest, Increasing;
  }

  lemma SameLabel(g: Graph, labels: seq<int>, roots: seq<int>, u: int, v: int)
    requires Labels(g, labels, roots) && 0 <= u < |g| && 0 <= v < |g|
    ensures |labels| == |g| && (labels[u] == labels[v] <==> Joined(g, u, v))
  {
    hide Joined, RootLabels, Smallest, Increasing;
  }

  lemma RootBelow(g: Graph, labels: seq<int>, roots: seq<int>, v: int)
    requires Labels(g, labels, roots) && 0 <= v < |g|
    ensures |labels| == |g| && 1 <= labels[v] <= |roots| && roots[labels[v] - 1] <= v
  {
    hide Joined, SameIffJoined, RootLabels, Increasing;
  }

  lemma RootIsSmallest(g: Graph, labels: seq<int>, roots: seq<int>, j: int, v: int)
    requires Labels(g, labels, roots) && 0 <= j < |roots| && Joined(g, v, roots[j])
    ensures roots[j] <= v
  {
    hide Joined, Labels;
    JoinedInRange(g, v, roots[j]);
    RootInRange(g, labels, roots, j);
    SameLabel(g, labels, roots, v, roots[j]);
    RootBelow(g, labels, roots, v);
  }

  lemma RootOf(g: Graph, labels: seq<int>, roots: seq<int>, v: int)
    requires Labels(g, labels, roots) && 0 <= v < |g|
    ensures |labels| == |g| && 1 <= labels[v] <= |roots|
    ensures var r := roots[labels[v] - 1]; 0 <= r <= v && Joined(g, r, v)
  {
    hide Joined, Labels;
    RootBelow(g, labels, roots, v);
    RootInRange(g, labels, roots, labels[v] - 1);
    SameLabel(g, labels, roots, roots[labels[v] - 1], v);
  }

  lemma RootsAreSmallest(g: Graph, labels: seq<int>, roots: seq<int>, x: int)
    requires Labels(g, labels, roots)
    ensures x in roots <==> 0 <= x < |g| && forall v :: Joined(g, v, x) ==> x <= v
  {
    hide Joined, Labels;
    if x in roots {
      var j :| 0 <= j < |roots| && roots[j] == x;
      RootInRange(g, labels, roots, j);
      forall v | Joined(g, v, x) ensures x <= v {
        RootIsSmallest(g, labels, roots, j, v);
      }
    } else if 0 <= x < |g| {
      RootOf(g, labels, roots, x);
      assert roots[labels[x] - 1] in roots;
    }
  }

  lemma SameRoots(g: Graph, a: seq<int>, ra: seq<int>, b: seq<int>, rb: seq<int>)
    requires Labels(g, a, ra) && Labels(g, b, rb)
    ensures ra == rb
  {
    hide Joined, SameIffJoined, RootLabels, Smallest, Numbered, Increasing;
    assert Increasing(ra) && Increasing(rb);
    hide Labels;
    forall x ensures x in ra <==> x in rb {
      RootsAreSmallest(g, a, ra, x);
      RootsAreSmallest(g, b, rb, x);
    }
    IncreasingUnique(ra, rb);
  }

  lemma LabelOf(g: Graph, labels: seq<int>, roots: seq<int>, j: int, v: int)
    requires Labels(g, labels, roots) && 0 <= j < |roots| && 0 <= v < |g| && Joined(g, roots[j], v)
    ensures |labels| == |g| && labels[v] == j + 1
  {
    hide Joined, Labels;
    RootInRange(g, labels, roots, j);
    SameLabel(g, labels, roots, roots[j], v);
  }

  lemma LabelsLength(g: Graph, labels: seq<int>, roots: seq<int>)
    requires Labels(g, labels, roots)
    ensures |labels| == |g|
  {
    hide Joined, SameIffJoined, RootLabels, Smallest, Increasing;
  }

  /** A graph has only one such labelling. */
  lemma LabelsUnique(g: Graph, a: seq<int>, ra: seq<int>, b: seq<int>, rb: seq<int>)
    requires Labels(g, a, ra) && Labels(g, b, rb)
    ensures a == b
  {
    hide Labels, Joined;
    LabelsLength(g, a, ra);
    LabelsLength(g, b, rb);
    SameRoots(g, a, ra, b, rb);
    forall v | 0 <= v < |g| ensures a[v] == b[v] {
      RootOf(g, b, rb, v);
      LabelOf(g, a, ra, b[v] - 1, v);
    }
  }
}
