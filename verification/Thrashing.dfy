/** The traversal over a cache that cannot hold the graph: marks are lost with each eviction and it never ends. */
module Thrashing {
  import opened Basics
  import opened CacheSpec
  import opened CacheTransparency
  import opened CacheLimits
  import opened Graphs
  import opened Vertices
  import Fifo = LrAddedEviction

  /** The traversal with some queue left or none, or ended by an exception or undefined behaviour. */
  datatype Traversal = Going(state: State<Vertex>, fringe: seq<int>) | Ended

  /** Look at the neighbours one after the other and queue those that read as unseen. */
  function Visit(c: Config<Vertex>, s: State<Vertex>, neighbors: seq<ObjectId>, fringe: seq<int>): Traversal
    decreases |neighbors|
  {
    if neighbors == [] then Going(s, fringe)
    else
      var g := Get(c, s, Off, neighbors[0]);
      if !g.outcome.Value? then Ended
      else Visit(c, g.state, neighbors[1..], if g.outcome.obj.seen then fringe else fringe + [neighbors[0]])
  }

  predicate AreIds(ids: seq<int>) {
    forall j :: 0 <= j < |ids| ==> 0 <= ids[j] < TWO31
  }

  /** One turn of the loop: mark the first of the queue and look at its neighbours. */
  function Turn(c: Config<Vertex>, s: State<Vertex>, fringe: seq<int>): Traversal {
    if fringe == [] then Going(s, fringe)
    else if !AreIds(fringe) then Ended
    else
      var g := Get(c, s, Off, fringe[0]);
      if !g.outcome.Value? then Ended
      else
        var curr := g.outcome.obj;
        var p := Put(c, g.state, fringe[0], curr.(seen := true));
        if !p.outcome.Returned? || !AreIds(curr.neighbors) then Ended
        else Visit(c, p.state, curr.neighbors, fringe[1..])
  }

  function Turns(c: Config<Vertex>, s: State<Vertex>, fringe: seq<int>, n: nat): Traversal
    decreases n
  {
    if n == 0 then Going(s, fringe)
    else
      var t := Turn(c, s, fringe);
      if t.Ended? then t else Turns(c, t.state, t.fringe, n - 1)
  }

  /** Vertex `id` of the graph with the one edge 0-1. */
  function Pair(id: int, seen: bool): Vertex {
    Vertex(id, [1 - id], seen, -1)
  }

  /** The store uses the vertex serializer. */
  ghost predicate Serializes(c: Config<Vertex>) {
    forall v: Vertex :: Serializable(v) ==> Decoding(Encoding(v)) == Decoded(c.world.codec(v))
  }

  lemma PairForgets(c: Config<Vertex>, id: int, seen: bool)
    requires Serializes(c) && 0 <= id <= 1
    ensures c.world.codec(Pair(id, seen)) == Pair(id, false)
  {
    hide Encoding, Decoding;
    VertexRoundTrip(Pair(id, seen));
  }

  /** Room for one object, and only the two vertices ever dirty or pending. */
  ghost predicate Narrow(c: Config<Vertex>, s: State<Vertex>) {
    c.policyCap == 1 && Coherent(c, s) && Faithful(c, s) && Exposed(s) <= {0, 1}
  }

  /** At the start of a turn on `id` the other vertex reads as unseen, even once evicted. */
  ghost predicate Thrashes(c: Config<Vertex>, s: State<Vertex>, id: int) {
    && Narrow(c, s) && 0 <= id <= 1
    && (exists seen :: Seen(s, id) == Some(Pair(id, seen)))
    && Settled(c, s, 1 - id) == Some(Pair(1 - id, false))
  }

  lemma FewIsQuiet(c: Config<Vertex>, s: State<Vertex>)
    requires Exposed(s) <= {0, 1}
    ensures Quiet(c, s)
  {
    SubsetCardinality(Exposed(s), {0, 1});
  }

  /** With room for one object only, a get leaves just that one cached, and the other reads as it settled. */
  lemma GetOne(c: Config<Vertex>, s: State<Vertex>, id: ObjectId, other: ObjectId)
    requires Narrow(c, s) && id <= 1 && other == 1 - id && Seen(s, id).Some?
    ensures var r := Get(c, s, Off, id);
      && r.outcome == Value(Seen(s, id).value) && Narrow(c, r.state)
      && Seen(r.state, id) == Seen(s, id) && Seen(r.state, other) == Settled(c, s, other)
      && r.state.order == [id] && !Unresolved(r.state, id)
  {
    hide GetEntry, Faithful, Seen, Settled, Exposed, NoDup;
    FewIsQuiet(c, s);
    GetEntryQuiet(c, s, id);
    GetEntryCoherent(c, s, id);
    GetEntryTransparent(c, s, id);
    GetEntryOrder(c, s, id);
    var t := GetEntry(c, s, id).state;
    assert Reads(c, s, t, id, id) && Reads(c, s, t, id, other);
    VictimIsOther(c, s, id);
    OneInDeque(s.order, id);
    if other !in s.cache {
      UncachedSettled(c, s, other);
    }
    assert t.order == [id];
  }

  lemma OneInDeque(order: seq<ObjectId>, id: ObjectId)
    requires NoDup(order) && |order| <= 1
    ensures Fifo.Touch(order, 1, id).order == [id]
    ensures forall k :: k in order && k != id ==> k in Fifo.Touch(order, 1, id).victims
  {
    if order != [] {
      assert order == [order[0]];
    }
  }

  lemma UncachedSettled(c: Config<Vertex>, s: State<Vertex>, k: ObjectId)
    requires k !in s.cache
    ensures Settled(c, s, k) == Seen(s, k)
  {
  }

  lemma OnlyOne(c: Config<Vertex>, s: State<Vertex>, id: ObjectId, other: ObjectId)
    requires Coherent(c, s) && s.order == [id] && other != id && !Unresolved(s, id)
    ensures id in s.order && id in s.cache && s.cache[id].cached && other !in s.cache && Victims(c, s, id) == []
  {
    assert id in s.order;
  }

  lemma MarkedEntry(c: Config<Vertex>, s: State<Vertex>, id: ObjectId, v: Vertex)
    requires id in s.order && id in s.cache && s.cache[id].cached
    ensures var t := Put(c, s, id, v).state;
      t.cache.Keys == s.cache.Keys && Settled(c, t, id) == Some(c.world.codec(v))
  {
    assert MakeRoom(c, s, id) == Step(s, Returned);
  }

  /** Marking the one cached vertex makes it dirty and touches nothing else. */
  lemma PutOne(c: Config<Vertex>, s: State<Vertex>, id: ObjectId, other: ObjectId, v: Vertex)
    requires Narrow(c, s) && id <= 1 && other == 1 - id && s.order == [id] && !Unresolved(s, id)
    ensures var r := Put(c, s, id, v);
      && r.outcome.Returned? && Narrow(c, r.state)
      && Seen(r.state, other) == Seen(s, other) && Settled(c, r.state, other) == Seen(s, other)
      && Settled(c, r.state, id) == Some(c.world.codec(v))
  {
    hide Faithful, Exposed, Quiet, Coherent, Put, Seen, Settled, Unresolved, Victims;
    FewIsQuiet(c, s);
    OnlyOne(c, s, id, other);
    PutExposes(c, s, id, v);
    PutCoherent(c, s, id, v);
    PutTransparent(c, s, id, v);
    var t := Put(c, s, id, v).state;
    assert Reads(c, s, t, id, other);
    MarkedEntry(c, s, id, v);
    UncachedSettled(c, t, other);
    assert {id} + {0, 1} == {0, 1};
  }

  lemma LeftUncached(c: Config<Vertex>, s: State<Vertex>, id: ObjectId, other: ObjectId)
    requires Narrow(c, s) && s.order == [other] && other != id
    ensures Settled(c, s, id) == Seen(s, id)
  {
    hide Faithful, Exposed;
  }

  /** A turn queues the other vertex, and leaves the one just marked reading as unseen. */
  lemma TurnThrashes(c: Config<Vertex>, s: State<Vertex>, id: int)
    requires Serializes(c) && Thrashes(c, s, id)
    ensures var t := Turn(c, s, [id]); t.Going? && t.fringe == [1 - id] && Thrashes(c, t.state, 1 - id)
  {
    hide Get, Put, Narrow, Seen, Settled, Serializes, Unresolved;
    var other := 1 - id;
    GetOne(c, s, id, other);
    var g := Get(c, s, Off, id);
    var curr := g.outcome.obj;
    var seen :| curr == Pair(id, seen);
    PutOne(c, g.state, id, other, curr.(seen := true));
    var p := Put(c, g.state, id, curr.(seen := true));
    assert curr.(seen := true) == Pair(id, true);
    PairForgets(c, id, true);
    GetOne(c, p.state, other, id);
    var h := Get(c, p.state, Off, other);
    assert h.outcome == Value(Pair(other, false));
    assert [other][1..] == [] && [id][1..] == [];
    assert Visit(c, p.state, [other], []) == Visit(c, h.state, [], [other]);
    assert h.state.order == [other];
    LeftUncached(c, h.state, id, other);
  }

  lemma ThrashesId(c: Config<Vertex>, s: State<Vertex>, id: int)
    requires Thrashes(c, s, id)
    ensures 0 <= id <= 1
  {
  }

  /** After any number of turns the queue still holds a vertex. */
  lemma {:induction false} TurnsThrash(c: Config<Vertex>, s: State<Vertex>, id: int, n: nat)
    requires Serializes(c) && Thrashes(c, s, id)
    ensures var t := Turns(c, s, [id], n); t.Going? && t.fringe != []
    decreases n
  {
    hide Turn, Thrashes, Serializes;
    if n > 0 {
      TurnThrashes(c, s, id);
      ThrashesId(c, s, id);
      TurnsThrash(c, Turn(c, s, [id]).state, 1 - id, n - 1);
    }
  }

  /**
   * Two joined vertices and a policy of capacity one: from a new cache over a store that holds the graph, in either
   * write mode, no number of turns empties the queue.
   */
  lemma TraversalNeverEnds(c: Config<Vertex>, m: map<ObjectId, Vertex>, n: nat)
    requires c.policyCap == 1 && 1 <= c.maxSize && Serializes(c) && forall k: nat :: c.world.accepts(k)
    requires 0 in m && 1 in m && m[0] == Pair(0, false) && m[1] == Pair(1, false)
    ensures var t := Turns(c, State(map[], map[], [], m, map[], 0), [0], n); t.Going? && t.fringe != []
  {
    var s := State(map[], map[], [], m, map[], 0);
    NewCacheRepresents(c, m);
    assert Seen(s, 0) == Some(Pair(0, false)) && Settled(c, s, 1) == Some(Pair(1, false)) && Exposed(s) == {};
    hide Serializes;
    TurnsThrash(c, s, 0, n);
  }
}
