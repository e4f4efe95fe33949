/** Weakly connected components, computed over vertices kept in the cache. */
module Wcc {
  import opened Basics
  import opened Cache
  import opened CacheSpec
  import opened CacheTransparency
  import opened Graphs
  import opened Vertices
  import Fifo = LrAddedEviction
  import Limits = CacheLimits

  // ---- A graph that fits the cache ----

  /** The cache has room for the ids below `n` and holds no others: nothing is evicted. */
  ghost predicate Fits<T>(c: Config<T>, s: State<T>, n: nat) {
    Coherent(c, s) && Faithful(c, s) && n <= c.policyCap && forall k :: k in s.order ==> k < n
  }

  lemma RoomFor(order: seq<ObjectId>, n: nat, oid: ObjectId)
    requires NoDup(order) && (forall k :: k in order ==> k < n) && oid < n && oid !in order
    ensures |order| < n
  {
    NoDupCardinality(order);
    var ids := SetOf(order) + {oid};
    assert |ids| == |order| + 1;
    var all := Range(n);
    assert forall k :: k in ids ==> k in all;
    SubsetCardinality(ids, all);
  }

  lemma NoVictims<T>(c: Config<T>, s: State<T>, n: nat, oid: ObjectId)
    requires Fits(c, s, n) && oid < n
    ensures Victims(c, s, oid) == [] && MakeRoom(c, s, oid).outcome.Returned?
    ensures forall k :: k in Fifo.Touch(s.order, c.policyCap, oid).order ==> k < n
  {
    if oid !in s.order {
      RoomFor(s.order, n, oid);
    }
  }

  lemma GetFits<T>(c: Config<T>, s: State<T>, n: nat, oid: ObjectId, v: T)
    requires Fits(c, s, n) && oid < n && Seen(s, oid) == Some(v)
    ensures var r := Get(c, s, Off, oid);
      && r.outcome == Value(v) && Fits(c, r.state, n) && !Unresolved(r.state, oid)
      && forall k :: Seen(r.state, k) == Seen(s, k)
  {
    hide MakeRoom, Lookup, Coherent, Faithful, Seen, Settled, Unresolved, Fifo.Touch;
    NoVictims(c, s, n, oid);
    LookupNotPast(c, s, oid);
    GetEntryCoherent(c, s, oid);
    GetEntryTransparent(c, s, oid);
    Limits.GetEntryOrder(c, s, oid);
    var t := GetEntry(c, s, oid).state;
    forall k ensures Seen(t, k) == Seen(s, k) {
      assert Reads(c, s, t, oid, k);
    }
  }

  lemma LookupNotPast<T>(c: Config<T>, s: State<T>, oid: ObjectId)
    requires MakeRoom(c, s, oid).outcome.Returned?
    ensures !GetEntry(c, s, oid).outcome.StepsPastEnd?
  {
    hide MakeRoom;
  }

  lemma PutFits<T>(c: Config<T>, s: State<T>, n: nat, oid: ObjectId, v: T)
    requires Fits(c, s, n) && oid < n && !Unresolved(s, oid)
    ensures var r := Put(c, s, oid, v);
      r.outcome.Returned? && Fits(c, r.state, n)
        && forall k :: Seen(r.state, k) == if k == oid then Some(v) else Seen(s, k)
  {
    hide MakeRoom, Coherent, Faithful, Seen, Settled, Unresolved, Fifo.Touch, Roomy;
    NoVictims(c, s, n, oid);
    StoreNotPast(c, s, oid, v);
    PutCoherent(c, s, oid, v);
    PutTransparent(c, s, oid, v);
    Limits.MakeRoomOrder(c, s, oid);
    var t := Put(c, s, oid, v).state;
    forall k | k != oid ensures Seen(t, k) == Seen(s, k) {
      assert Reads(c, s, t, oid, k);
    }
  }

  lemma StoreNotPast<T>(c: Config<T>, s: State<T>, oid: ObjectId, v: T)
    requires MakeRoom(c, s, oid).outcome.Returned?
    ensures !Put(c, s, oid, v).outcome.StepsPastEnd?
  {
    hide MakeRoom;
  }

  /** Without room a seen vertex can be evicted, and the serializer forgets that it was seen. */
  lemma EvictionForgetsSeen(c: Config<Vertex>, s: State<Vertex>, oid: ObjectId)
    requires Faithful(c, s) && oid in s.cache && s.cache[oid].cached && s.cache[oid].dirty
    requires var v := s.cache[oid].obj; Serializable(v) && Decoding(Encoding(v)) == Decoded(c.world.codec(v))
    requires Evict(c, s, oid).outcome.Returned?
    ensures Seen(Evict(c, s, oid).state, oid) == Some(s.cache[oid].obj.(seen := false, cc := -1))
    ensures Seen(Evict(c, s, oid).state, oid) == Some(s.cache[oid].obj) <==>
      !s.cache[oid].obj.seen && s.cache[oid].obj.cc == -1
  {
    hide Evict, Faithful, Seen, Encoding, Decoding;
    EvictTransparent(c, s, oid);
    VertexRoundTrip(s.cache[oid].obj);
  }

  /** The cache works as an array of the vertices `vs`. */
  ghost predicate Holds(cm: CacheManager<Vertex>, vs: seq<Vertex>)
    reads cm, cm.store, cm.policy
  {
    && cm.Valid() && cm.mode.Off? && Fits(cm.Setup(), cm.Now(), |vs|) && |vs| < TWO31
    && forall k :: 0 <= k < |vs| ==> Seen(cm.Now(), k) == Some(vs[k])
  }

  method GetVertex(cm: CacheManager<Vertex>, id: int, ghost vs: seq<Vertex>) returns (v: Vertex)
    requires Holds(cm, vs) && 0 <= id < |vs|
    modifies cm`cache, cm`pendingWrites, cm.store, cm.policy
    ensures Holds(cm, vs) && v == vs[id] && !Unresolved(cm.Now(), id)
  {
    hide CacheManager.Valid, CacheManager.Now, Get, Fits, Seen, Unresolved;
    GetFits(cm.Setup(), cm.Now(), |vs|, id, vs[id]);
    var outcome := cm.Get(id);
    v := outcome.obj;
  }

  method PutVertex(cm: CacheManager<Vertex>, id: int, v: Vertex, ghost vs: seq<Vertex>)
    requires Holds(cm, vs) && 0 <= id < |vs| && !Unresolved(cm.Now(), id)
    modifies cm`cache, cm`pendingWrites, cm.store, cm.policy
    ensures Holds(cm, vs[id := v])
  {
    hide CacheManager.Valid, CacheManager.Now, Put, Fits, Seen, Unresolved;
    PutFits(cm.Setup(), cm.Now(), |vs|, id, v);
    var _ := cm.Put(id, v);
  }

  // ---- The traversal ----

  ghost function SeenSet(vs: seq<Vertex>): set<int> {
    set k | 0 <= k < |vs| && vs[k].seen
  }

  ghost function UnseenSet(vs: seq<Vertex>): set<int> {
    set k | 0 <= k < |vs| && !vs[k].seen
  }

  ghost predicate Within(n: nat, ids: seq<int>) {
    forall j :: 0 <= j < |ids| ==> 0 <= ids[j] < n
  }

  /** The ids of `ids` whose vertices have not been seen, in order. */
  ghost function UnseenOf(vs: seq<Vertex>, ids: seq<int>): seq<int>
    requires Within(|vs|, ids)
  {
    if ids == [] then []
    else
      var last := |ids| - 1;
      UnseenOf(vs, ids[..last]) + if vs[ids[last]].seen then [] else [ids[last]]
  }

  /** How far the queue is from its first unseen vertex, or from its end. */
  ghost function Distance(vs: seq<Vertex>, fringe: seq<int>): nat
    requires Within(|vs|, fringe)
  {
    if fringe == [] || !vs[fringe[0]].seen then 0 else 1 + Distance(vs, fringe[1..])
  }

  lemma {:induction false} UnseenOfMembers(vs: seq<Vertex>, ids: seq<int>)
    requires Within(|vs|, ids)
    ensures Within(|vs|, UnseenOf(vs, ids)) && forall v :: v in UnseenOf(vs, ids) <==> v in ids && !vs[v].seen
  {
    if ids != [] {
      var last := |ids| - 1;
      UnseenOfMembers(vs, ids[..last]);
      assert ids == ids[..last] + [ids[last]];
    }
  }

  /** Adding to the back of the queue does not put its first unseen vertex further away. */
  lemma {:induction false} DistanceAppend(vs: seq<Vertex>, fringe: seq<int>, more: seq<int>)
    requires Within(|vs|, fringe) && Within(|vs|, more)
    requires more == [] || exists x :: x in fringe && !vs[x].seen
    ensures Distance(vs, fringe + more) == Distance(vs, fringe)
  {
    if more == [] {
      assert fringe + more == fringe;
    } else {
      assert fringe != [];
      assert (fringe + more)[1..] == fringe[1..] + more;
      if vs[fringe[0]].seen {
        var x :| x in fringe && !vs[x].seen;
        assert x in fringe[1..];
        DistanceAppend(vs, fringe[1..], more);
      }
    }
  }

  method QueueNeighbors(cm: CacheManager<Vertex>, neighbors: seq<int>, rest: seq<int>, ghost vs: seq<Vertex>)
    returns (fringe: seq<int>)
    requires Holds(cm, vs) && Within(|vs|, neighbors)
    modifies cm`cache, cm`pendingWrites, cm.store, cm.policy
    ensures Holds(cm, vs) && fringe == rest + UnseenOf(vs, neighbors)
  {
    hide Holds;
    fringe := rest;
    var j := 0;
    assert neighbors[..0] == [];
    while j < |neighbors|
      invariant 0 <= j <= |neighbors| && Holds(cm, vs) && fringe == rest + UnseenOf(vs, neighbors[..j])
    {
      var nei := GetVertex(cm, neighbors[j], vs);
      assert neighbors[..j + 1][..j] == neighbors[..j];
      if !nei.seen {
        fringe := fringe + [neighbors[j]];
      }
      j := j + 1;
    }
    assert neighbors[..j] == neighbors;
  }

  /** The vertices hold the graph. */
  ghost predicate Carries(g: Graph, vs: seq<Vertex>) {
    |vs| == |g| && forall k :: 0 <= k < |g| ==> vs[k].neighbors == g[k]
  }

  /**
   * Midway through a traversal from `root`, where `was` had been seen before it began: what it has seen or
   * queued is joined to the root and new, and every neighbour of what it has seen is seen or queued.
   */
  ghost predicate Traversing(g: Graph, root: int, was: set<int>, vs: seq<Vertex>, fringe: seq<int>) {
    && Carries(g, vs)
    && was <= SeenSet(vs)
    && Within(|g|, fringe)
    && (forall x :: x in fringe ==> x !in was && Joined(g, root, x))
    && (forall x :: x in SeenSet(vs) - was ==> Joined(g, root, x))
    && (forall x, y :: x in SeenSet(vs) - was && y in g[x] ==> y in SeenSet(vs) || y in fringe)
    && (root in fringe || root in SeenSet(vs) - was)
  }

  /** Mark the vertex at the front of the queue. */
  ghost function Mark(vs: seq<Vertex>, id: int): seq<Vertex>
    requires 0 <= id < |vs|
  {
    vs[id := vs[id].(seen := true)]
  }

  /** The queue after one turn of the loop. */
  ghost function Next(g: Graph, vs: seq<Vertex>, fringe: seq<int>): seq<int>
    requires InRange(g) && |vs| == |g| && Within(|g|, fringe) && fringe != []
  {
    fringe[1..] + UnseenOf(Mark(vs, fringe[0]), g[fringe[0]])
  }

  lemma MarkSets(vs: seq<Vertex>, id: int)
    requires 0 <= id < |vs|
    ensures SeenSet(Mark(vs, id)) == SeenSet(vs) + {id} && UnseenSet(Mark(vs, id)) == UnseenSet(vs) - {id}
    ensures vs[id].seen ==> Mark(vs, id) == vs
  {
  }

  lemma NextMembers(g: Graph, vs: seq<Vertex>, fringe: seq<int>)
    requires InRange(g) && |vs| == |g| && Within(|g|, fringe) && fringe != []
    ensures forall x :: x in Next(g, vs, fringe) <==>
      x in fringe[1..] || (x in g[fringe[0]] && x !in SeenSet(Mark(vs, fringe[0])))
    ensures Within(|g|, Next(g, vs, fringe))
  {
    var id := fringe[0];
    var now := Mark(vs, id);
    UnseenOfMembers(now, g[id]);
    forall x ensures x in UnseenOf(now, g[id]) <==> x in g[id] && x !in SeenSet(now) {
      if x in g[id] {
        var j :| 0 <= j < |g[id]| && g[id][j] == x;
      }
    }
  }

  lemma VisitKeeps(g: Graph, root: int, was: set<int>, vs: seq<Vertex>, fringe: seq<int>)
    requires InRange(g) && Traversing(g, root, was, vs, fringe) && fringe != []
    ensures Traversing(g, root, was, Mark(vs, fringe[0]), Next(g, vs, fringe))
  {
    hide Next, Joined, SeenSet;
    var id := fringe[0];
    var now := Mark(vs, id);
    NextMembers(g, vs, fringe);
    MarkSets(vs, id);
    assert forall x :: x in fringe <==> x == id || x in fringe[1..];
    forall x | x in Next(g, vs, fringe) ensures x !in was && Joined(g, root, x) {
      if x !in fringe[1..] {
        var j :| 0 <= j < |g[id]| && g[id][j] == x;
        JoinedStep(g, root, id, x);
      }
    }
  }

  /** A turn on a vertex seen before brings the queue's first unseen vertex, or its end, nearer. */
  lemma VisitProgress(g: Graph, root: int, was: set<int>, vs: seq<Vertex>, fringe: seq<int>)
    requires InRange(g) && Traversing(g, root, was, vs, fringe) && fringe != [] && vs[fringe[0]].seen
    ensures Within(|vs|, Next(g, vs, fringe)) && Distance(vs, Next(g, vs, fringe)) < Distance(vs, fringe)
  {
    hide Joined;
    var id := fringe[0];
    MarkSets(vs, id);
    NextMembers(g, vs, fringe);
    var more := UnseenOf(vs, g[id]);
    UnseenOfMembers(vs, g[id]);
    if more != [] {
      assert more[0] in more;
      assert id in fringe && id in SeenSet(vs) - was;
      assert more[0] in fringe && more[0] != id;
      assert more[0] in fringe[1..];
    }
    DistanceAppend(vs, fringe[1..], more);
  }

  lemma StartTraversing(g: Graph, root: int, vs: seq<Vertex>)
    requires Carries(g, vs) && 0 <= root < |g| && !vs[root].seen
    ensures Traversing(g, root, SeenSet(vs), vs, [root])
  {
    JoinedSelf(g, root);
  }

  lemma QueueIsNext(g: Graph, vs: seq<Vertex>, fringe: seq<int>)
    requires InRange(g) && Carries(g, vs) && Within(|g|, fringe) && fringe != []
    ensures Next(g, vs, fringe) == fringe[1..] + UnseenOf(Mark(vs, fringe[0]), vs[fringe[0]].neighbors)
  {
  }

  lemma TraversingFacts(g: Graph, root: int, was: set<int>, vs: seq<Vertex>, fringe: seq<int>)
    requires Traversing(g, root, was, vs, fringe)
    ensures Carries(g, vs) && Within(|g|, fringe) && (forall x :: x in fringe ==> x !in was)
  {
  }

  /** The labels `now` are `labels` with the vertices added to `s` labelled `cc`. */
  ghost predicate Relabelled(n: nat, s: set<int>, t: set<int>, labels: seq<int>, cc: int, now: seq<int>) {
    |labels| == |now| == n && forall k :: 0 <= k < n ==> now[k] == if k in t && k !in s then cc else labels[k]
  }

  method Bfs(cc: int, cm: CacheManager<Vertex>, root: int, ccs: array<int>, ghost g: Graph, ghost vs0: seq<Vertex>)
    returns (ghost vs: seq<Vertex>)
    requires InRange(g) && Holds(cm, vs0) && Carries(g, vs0) && ccs.Length == |g|
    requires 0 <= root < |g| && !vs0[root].seen
    modifies cm`cache, cm`pendingWrites, cm.store, cm.policy, ccs
    ensures Holds(cm, vs) && Traversing(g, root, SeenSet(vs0), vs, [])
    ensures Relabelled(|g|, SeenSet(vs0), SeenSet(vs), old(ccs[..]), cc, ccs[..])
  {
    hide Holds, Joined, Distance, UnseenOf, Traversing, Next;
    ghost var was := SeenSet(vs0);
    vs := vs0;
    var fringe := [root];
    StartTraversing(g, root, vs);
    while fringe != []
      invariant Holds(cm, vs) && Traversing(g, root, was, vs, fringe) && Within(|vs|, fringe) && Carries(g, vs)
      invariant forall k :: 0 <= k < |g| ==> ccs[k] == if k in SeenSet(vs) - was then cc else old(ccs[k])
      decreases |UnseenSet(vs)|, Distance(vs, fringe)
    {
      var id := fringe[0];
      ghost var before, queue := vs, fringe;
      var curr := GetVertex(cm, id, vs);
      curr := curr.(seen := true);
      PutVertex(cm, id, curr, vs);
      vs := vs[id := curr];
      curr := curr.(cc := cc);
      ccs[id] := cc;
      fringe := QueueNeighbors(cm, curr.neighbors, fringe[1..], vs);
      MarkSets(before, id);
      QueueIsNext(g, before, queue);
      VisitKeeps(g, root, was, before, queue);
      TraversingFacts(g, root, was, before, queue);
      TraversingFacts(g, root, was, vs, fringe);
      if before[id].seen {
        VisitProgress(g, root, was, before, queue);
      }
    }
  }

  // ---- The components ----

  /** A traversal from `root` saw exactly the component of `root`, none of it seen before. */
  ghost predicate AddsComponent(g: Graph, root: int, s: set<int>, t: set<int>) {
    && s <= t && root in t && root !in s
    && (forall x :: x in t && x !in s ==> 0 <= x < |g| && Joined(g, root, x))
    && Closed(g, t)
  }

  lemma EndTraversing(g: Graph, root: int, was: set<int>, vs: seq<Vertex>)
    requires Traversing(g, root, was, vs, []) && Closed(g, was)
    ensures AddsComponent(g, root, was, SeenSet(vs))
  {
    hide Joined;
  }

  /** Old and new vertices are never joined, and the new ones are all joined to each other. */
  lemma NewJoined(g: Graph, root: int, s: set<int>, t: set<int>, u: int, v: int)
    requires Symmetric(g) && Closed(g, s) && AddsComponent(g, root, s, t) && u in t && v in t && (u in s ==> v !in s)
    ensures Joined(g, u, v) <==> u !in s && v !in s
  {
    hide Joined;
    if u !in s && v !in s {
      JoinedBack(g, root, u);
      JoinedVia(g, u, root, v);
    } else if Joined(g, u, v) {
      JoinedBack(g, u, v);
      if u in s {
        ClosedJoined(g, s, u, v);
      } else {
        ClosedJoined(g, s, v, u);
      }
    }
  }

  lemma ExtendSame(g: Graph, root: int, s: set<int>, t: set<int>, labels: seq<int>, count: nat, now: seq<int>)
    requires Symmetric(g) && Closed(g, s) && AddsComponent(g, root, s, t)
    requires Numbered(|g|, s, labels, count) && SameIffJoined(g, s, labels)
      && Relabelled(|g|, s, t, labels, count + 1, now)
    ensures Numbered(|g|, t, now, count + 1) && SameIffJoined(g, t, now)
  {
    hide Joined, Closed, Symmetric;
    forall u, v | u in t && v in t ensures now[u] == now[v] <==> Joined(g, u, v) {
      if !(u in s && v in s) {
        NewJoined(g, root, s, t, u, v);
      }
    }
  }

  lemma ExtendRoots(n: nat, root: int, s: set<int>, t: set<int>, labels: seq<int>, roots: seq<int>, now: seq<int>)
    requires RootLabels(n, s, labels, roots) && Relabelled(n, s, t, labels, |roots| + 1, now)
    requires s <= t && root in t && root !in s && 0 <= root < n
    ensures RootLabels(n, t, now, roots + [root])
  {
  }

  lemma ExtendSmallest(n: nat, root: int, s: set<int>, t: set<int>, labels: seq<int>, roots: seq<int>, now: seq<int>)
    requires Numbered(n, s, labels, |roots|) && Smallest(n, s, labels, roots)
      && Relabelled(n, s, t, labels, |roots| + 1, now)
    requires Numbered(n, t, now, |roots + [root]|) && forall k :: 0 <= k < root ==> k in s
    ensures Smallest(n, t, now, roots + [root])
  {
  }

  lemma ExtendLabels(g: Graph, root: int, s: set<int>, t: set<int>, labels: seq<int>, roots: seq<int>, now: seq<int>)
    requires Symmetric(g) && Closed(g, s) && LabelsOn(g, s, labels, roots) && AddsComponent(g, root, s, t)
    requires (forall k :: 0 <= k < root ==> k in s) && (forall j :: 0 <= j < |roots| ==> roots[j] < root)
    requires Relabelled(|g|, s, t, labels, |roots| + 1, now)
    ensures LabelsOn(g, t, now, roots + [root])
  {
    hide Joined, Closed, Symmetric, RootLabels, Smallest, SameIffJoined, Relabelled, Numbered;
    assert |roots + [root]| == |roots| + 1;
    ExtendSame(g, root, s, t, labels, |roots|, now);
    ExtendRoots(|g|, root, s, t, labels, roots, now);
    ExtendSmallest(|g|, root, s, t, labels, roots, now);
  }

  lemma AllLabelled(g: Graph, s: set<int>, labels: seq<int>, roots: seq<int>)
    requires LabelsOn(g, s, labels, roots) && forall k :: 0 <= k < |g| ==> k in s
    ensures Labels(g, labels, roots)
  {
    hide Joined;
    assert s == Range(|g|);
  }

  lemma StartLabels(g: Graph, s: set<int>, labels: seq<int>)
    requires s == {} && |labels| == |g|
    ensures LabelsOn(g, s, labels, []) && Closed(g, s)
  {
  }

  /**
   * Two vertices get the same label exactly when a path joins them, and the labels number the components
   * from 1 in the order of their smallest vertices.
   */
  method WeaklyCc(cm: CacheManager<Vertex>, n: nat, ghost g: Graph, ghost vs0: seq<Vertex>)
    returns (ccs: array<int>, ghost roots: seq<int>)
    requires InRange(g) && Symmetric(g) && |g| == n < TWO31 - 1
    requires Holds(cm, vs0) && Carries(g, vs0) && forall k :: 0 <= k < n ==> !vs0[k].seen
    modifies cm`cache, cm`pendingWrites, cm.store, cm.policy
    ensures fresh(ccs) && ccs.Length == n && Labels(g, ccs[..], roots)
  {
    hide Holds, Joined, Traversing, LabelsOn, Labels, InRange, Symmetric, Relabelled, Closed;
    ccs := new int[n](_ => -1);
    roots := [];
    ghost var vs := vs0;
    var cc := 1;
    StartLabels(g, SeenSet(vs), ccs[..]);
    for i := 0 to n
      invariant Holds(cm, vs) && Carries(g, vs) && Closed(g, SeenSet(vs))
      invariant cc == |roots| + 1 <= i + 1 && LabelsOn(g, SeenSet(vs), ccs[..], roots)
      invariant forall k :: 0 <= k < i ==> k in SeenSet(vs)
      invariant forall j :: 0 <= j < |roots| ==> roots[j] < i
    {
      var curr := GetVertex(cm, i, vs);
      if !curr.seen {
        ghost var s, labels := SeenSet(vs), ccs[..];
        vs := Bfs(cc, cm, i, ccs, g, vs);
        TraversingFacts(g, i, s, vs, []);
        EndTraversing(g, i, s, vs);
        ExtendLabels(g, i, s, SeenSet(vs), labels, roots, ccs[..]);
        roots := roots + [i];
        cc := cc + 1;
      }
    }
    AllLabelled(g, SeenSet(vs), ccs[..], roots);
  }
}
