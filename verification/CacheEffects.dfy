/** What a call sends to the store and which writes it leaves pending. */
module CacheEffects {
  import opened Basics
  import opened RemoteStore
  import opened CacheSpec
  import opened CacheTransparency
  import opened CacheLimits
  import opened CacheRuns
  import Fifo = LrAddedEviction
  import PrefetchRing

  /** The victims whose eviction writes them back. */
  function WrittenBack<T>(c: Config<T>, s: State<T>, oid: ObjectId): set<ObjectId> {
    if !c.deferWrites then {}
    else set v | v in Victims(c, s, oid) && v in s.cache && s.cache[v].dirty
  }

  /** `t` has sent `n` requests more than `s`, and these ids are pending. */
  ghost predicate Sends<T>(s: State<T>, t: State<T>, n: nat, pending: set<ObjectId>) {
    t.issued == s.issued + n && t.pending.Keys == pending
  }

  lemma EvictSends<T>(c: Config<T>, s: State<T>, oid: ObjectId)
    requires oid in s.cache && Evict(c, s, oid).outcome.Returned?
    ensures var written := if c.deferWrites && s.cache[oid].dirty then {oid} else {};
      && Sends(s, Evict(c, s, oid).state, |written|, s.pending.Keys + written)
      && forall k :: k in s.pending && k != oid ==> Evict(c, s, oid).state.pending[k] == s.pending[k]
  {
  }

  lemma NoneWritten<T>(c: Config<T>, s: State<T>, oid: ObjectId)
    requires Victims(c, s, oid) == []
    ensures WrittenBack(c, s, oid) == {}
  {
  }

  lemma OneWritten<T>(c: Config<T>, s: State<T>, oid: ObjectId, v: ObjectId)
    requires Victims(c, s, oid) == [v] && v in s.cache
    ensures WrittenBack(c, s, oid) == if c.deferWrites && s.cache[v].dirty then {v} else {}
  {
    hide Victims;
    assert forall k :: k in Victims(c, s, oid) <==> k == v;
  }

  lemma ReorderedSends<T>(s: State<T>, s1: State<T>, t: State<T>, n: nat, pending: set<ObjectId>)
    requires s1.issued == s.issued && Sends(s1, t, n, pending)
    ensures Sends(s, t, n, pending)
  {
  }

  lemma NothingSent<T>(s: State<T>, t: State<T>)
    requires t.issued == s.issued && t.pending == s.pending
    ensures Sends(s, t, 0, s.pending.Keys + {})
  {
    assert s.pending.Keys + {} == s.pending.Keys;
  }

  lemma MakeRoomSends<T>(c: Config<T>, s: State<T>, oid: ObjectId)
    requires Coherent(c, s) && MakeRoom(c, s, oid).outcome.Returned?
    ensures var t := MakeRoom(c, s, oid).state;
      && Sends(s, t, |WrittenBack(c, s, oid)|, s.pending.Keys + WrittenBack(c, s, oid))
      && (oid in s.pending ==> oid in t.pending && t.pending[oid] == s.pending[oid])
  {
    hide Fifo.Touch, MakeRoom, Coherent, Evict, WrittenBack, Sends;
    MakeRoomShape(c, s, oid);
    var d := Fifo.Touch(s.order, c.policyCap, oid);
    if d.victims == [] {
      NoneWritten(c, s, oid);
      NothingSent(s, MakeRoom(c, s, oid).state);
    } else {
      var v := d.victims[0];
      var s1 := s.(order := d.order);
      assert d.victims == [v] && s1.cache == s.cache && s1.pending == s.pending;
      OneWritten(c, s, oid, v);
      EvictSends(c, s1, v);
      assert MakeRoom(c, s, oid) == Evict(c, s1, v);
      ReorderedSends(s, s1, Evict(c, s1, v).state, |WrittenBack(c, s, oid)|, s.pending.Keys + WrittenBack(c, s, oid));
    }
  }

  /**
   * A get sends a read exactly when the cache has no entry, besides writing back a dirty victim; afterwards no
   * write of its own id is pending.
   */
  lemma GetEntrySends<T>(c: Config<T>, s: State<T>, oid: ObjectId)
    requires Coherent(c, s) && !GetEntry(c, s, oid).outcome.StepsPastEnd?
    ensures var written := WrittenBack(c, s, oid);
      Sends(s, GetEntry(c, s, oid).state, |written| + (if oid in s.cache then 0 else 1),
        if c.deferWrites then s.pending.Keys + written - {oid} else s.pending.Keys)
  {
    hide MakeRoom, Coherent, Roomy, WrittenBack;
    MakeRoomCoherent(c, s, oid);
    MakeRoomSends(c, s, oid);
    var s1 := MakeRoom(c, s, oid).state;
    ForgetRoomy(c, s1, oid);
    KeysWithinCapacity(c, Forget(c, s1, oid), oid);
    LookupSends(c, Forget(c, s1, oid), oid);
    WritesNothingThrough(c, s, oid);
  }

  lemma WritesNothingThrough<T>(c: Config<T>, s: State<T>, oid: ObjectId)
    ensures !c.deferWrites ==> WrittenBack(c, s, oid) == {}
  {
  }

  lemma LookupSends<T>(c: Config<T>, s: State<T>, oid: ObjectId)
    requires oid in s.cache || |s.cache| != c.maxSize
    ensures Sends(s, Lookup(c, s, oid).state, if oid in s.cache then 0 else 1, s.pending.Keys)
  {
  }

  /** A put sends its object at once exactly when writes are not deferred. */
  lemma PutSends<T>(c: Config<T>, s: State<T>, oid: ObjectId, obj: T)
    requires Coherent(c, s) && !Put(c, s, oid, obj).outcome.StepsPastEnd?
    ensures var written := WrittenBack(c, s, oid);
      Sends(s, Put(c, s, oid, obj).state, |written| + (if c.deferWrites then 0 else 1), s.pending.Keys + written)
  {
    hide MakeRoom, Coherent, Roomy, WrittenBack;
    MakeRoomCoherent(c, s, oid);
    MakeRoomSends(c, s, oid);
    KeysWithinCapacity(c, MakeRoom(c, s, oid).state, oid);
  }

  /** A prefetch sends a read exactly when the cache has no entry. */
  lemma PrefetchSends<T>(c: Config<T>, s: State<T>, oid: ObjectId)
    requires Coherent(c, s) && !Prefetch(c, s, oid).outcome.StepsPastEnd?
    ensures var written := WrittenBack(c, s, oid);
      Sends(s, Prefetch(c, s, oid).state, |written| + (if oid in s.cache then 0 else 1), s.pending.Keys + written)
  {
    hide MakeRoom, Coherent, Roomy, WrittenBack;
    MakeRoomCoherent(c, s, oid);
    MakeRoomSends(c, s, oid);
  }

  /** A remove sends one request and leaves the pending writes alone. */
  lemma RemoveSends<T>(c: Config<T>, s: State<T>, oid: ObjectId)
    ensures Sends(s, Remove(c, s, oid).state, 1, s.pending.Keys)
  {
  }

  /** A put throws the memory error exactly when writes go through at once and the server rejects this one. */
  lemma PutThrowsIff<T>(c: Config<T>, s: State<T>, oid: ObjectId, obj: T)
    requires Coherent(c, s)
    ensures Put(c, s, oid, obj).outcome.MemoryErrorThrown? <==> !c.deferWrites && !c.world.accepts(s.issued)
  {
    hide MakeRoom, Coherent, Roomy;
    MakeRoomCoherent(c, s, oid);
    if MakeRoom(c, s, oid).outcome.Returned? {
      MakeRoomSends(c, s, oid);
      WritesNothingThrough(c, s, oid);
      KeysWithinCapacity(c, MakeRoom(c, s, oid).state, oid);
    }
    if !c.deferWrites {
      ThroughStaysDefined(c, s, oid);
    }
  }

  lemma ThroughStaysDefined<T>(c: Config<T>, s: State<T>, oid: ObjectId)
    requires Coherent(c, s) && !c.deferWrites
    ensures MakeRoom(c, s, oid).outcome.Returned?
  {
    MakeRoomQuiet(c, s, oid);
  }

  // ---- What a prefetching get leaves in the cache ----

  lemma {:induction false} TouchAllKeeps(order: seq<ObjectId>, cap: nat, ids: seq<ObjectId>)
    requires NoDup(order) && |order| + |ids| <= cap
    ensures forall k :: k in order || k in ids ==> k in TouchAll(order, cap, ids)
    decreases |ids|
  {
    hide NoDup;
    if ids != [] {
      var next := Fifo.Touch(order, cap, ids[0]).order;
      Fifo.TouchKeeps(order, cap, ids[0]);
      TouchAllKeeps(next, cap, ids[1..]);
      assert forall k :: k in ids <==> k == ids[0] || k in ids[1..];
    }
  }

  lemma {:induction false} TouchAllLast(order: seq<ObjectId>, cap: nat, ids: seq<ObjectId>, oid: ObjectId)
    ensures TouchAll(order, cap, ids + [oid]) == Fifo.Touch(TouchAll(order, cap, ids), cap, oid).order
    decreases |ids|
  {
    hide Fifo.Touch;
    if ids == [] {
      assert [] + [oid] == [oid] && [oid][1..] == [];
    } else {
      assert (ids + [oid])[1..] == ids[1..] + [oid];
      TouchAllLast(Fifo.Touch(order, cap, ids[0]).order, cap, ids[1..], oid);
    }
  }

  /** With room for them, a get leaves the next ids of its range cached, and so the following gets find them there. */
  lemma ReadAheadIsCached<T>(c: Config<T>, s: State<T>, mode: Prefetching, oid: ObjectId)
    requires Coherent(c, s) && mode.Ordered? && mode.first <= oid <= mode.last && Get(c, s, mode, oid).outcome.Value?
    requires PrefetchRing.IsRange(mode.first, mode.last)
    requires PrefetchRing.NoOverflow(oid, mode.first, mode.last, mode.readAhead)
    requires |s.order| + 1 + mode.readAhead <= c.policyCap
    ensures forall k :: k in PrefetchRing.AheadList(oid, mode.first, mode.last, mode.readAhead) ==>
      k in Get(c, s, mode, oid).state.cache
  {
    hide GetEntry, PrefetchAll, PrefetchRing.AheadList, PrefetchRing.SlotList;
    var g := GetEntry(c, s, oid);
    var ids := PrefetchRing.AheadList(oid, mode.first, mode.last, mode.readAhead);
    PrefetchRing.SlotListIsRingIff(oid, mode.first, mode.last, mode.readAhead);
    assert Wanted(mode, oid) == ids;
    EntryDefined(c, s, oid);
    GetEntryCoherent(c, s, oid);
    GetEntryOrder(c, s, oid);
    PrefetchAllCoherent(c, g.state, ids);
    PrefetchAllOrder(c, g.state, ids);
    TouchAllKeeps(g.state.order, c.policyCap, ids);
  }

  // ---- Reading back keeps the pending writes few ----

  /** From id `k` on: put the next object, then get the one put before it. */
  function WriteThenRead<T>(objs: seq<T>, k: nat): seq<Op<T>>
    requires 1 <= k <= |objs| <= TWO64
    decreases |objs| - k
  {
    if k == |objs| then [] else [PutOp(k, objs[k]), GetOp(k - 1, Off)] + WriteThenRead(objs, k + 1)
  }

  /** Room for one object, and at most the last id put is dirty or pending. */
  ghost predicate Resting<T>(c: Config<T>, s: State<T>, k: nat) {
    c.deferWrites && c.policyCap == 1 && Coherent(c, s) && Exposed(s) <= {k - 1}
  }

  lemma OneIsQuiet<T>(c: Config<T>, s: State<T>, a: int, b: int)
    requires Exposed(s) <= {a, b}
    ensures Quiet(c, s)
  {
    SubsetCardinality(Exposed(s), {a, b});
  }

  lemma LookupIsClean<T>(c: Config<T>, s: State<T>, oid: ObjectId)
    requires oid !in s.cache
    ensures var t := Lookup(c, s, oid).state; oid in t.cache ==> !t.cache[oid].dirty
  {
  }

  lemma GetIsClean<T>(c: Config<T>, s: State<T>, oid: ObjectId)
    requires Coherent(c, s) && oid !in s.cache && !GetEntry(c, s, oid).outcome.StepsPastEnd?
    ensures var t := GetEntry(c, s, oid).state; oid in t.cache ==> !t.cache[oid].dirty
  {
    hide MakeRoom, Lookup, Coherent, Roomy, Forget;
    MakeRoomCoherent(c, s, oid);
    var s1 := MakeRoom(c, s, oid).state;
    ForgetKeeps(c, s1, oid);
    LookupIsClean(c, Forget(c, s1, oid), oid);
  }

  lemma OnlyLast(order: seq<ObjectId>, oid: ObjectId)
    requires NoDup(order) && |order| <= 1
    ensures Fifo.Touch(order, 1, oid).order == [oid]
  {
    if order != [] {
      assert order == [order[0]];
    }
  }

  lemma PutDefined<T>(c: Config<T>, s: State<T>, oid: ObjectId, obj: T)
    requires Coherent(c, s)
    ensures var o := Put(c, s, oid, obj).outcome; !o.Dangling? && !o.DividesByZero?
  {
    hide MakeRoom, Coherent;
    MakeRoomCoherent(c, s, oid);
  }

  lemma RestingPut<T>(c: Config<T>, s: State<T>, k: ObjectId, obj: T)
    requires k >= 1 && Resting(c, s, k)
    ensures var r := Put(c, s, k, obj);
      && !Undefined(r.outcome) && Coherent(c, r.state) && r.state.order == [k]
      && Exposed(r.state) <= {k - 1, k}
  {
    OnlyLast(s.order, k);
    hide Put, Coherent, Exposed, Quiet, NoDup;
    OneIsQuiet(c, s, k - 1, k - 1);
    PutExposes(c, s, k, obj);
    PutCoherent(c, s, k, obj);
    PutOrder(c, s, k, obj);
    PutDefined(c, s, k, obj);
  }

  lemma NotCached<T>(c: Config<T>, s: State<T>, oid: ObjectId, k: ObjectId)
    requires Coherent(c, s) && s.order == [k] && oid != k
    ensures oid !in s.cache
  {
    hide NoDup;
  }

  lemma NotExposed<T>(s: State<T>, oid: ObjectId)
    requires oid !in s.pending && (oid in s.cache ==> !s.cache[oid].dirty)
    ensures oid !in Exposed(s)
  {
  }

  lemma OneOfTwo(s: set<ObjectId>, a: ObjectId, b: ObjectId)
    requires s <= {a, b} && a !in s
    ensures s <= {b}
  {
  }

  lemma RestingGet<T>(c: Config<T>, s: State<T>, k: ObjectId)
    requires k >= 1 && c.deferWrites && c.policyCap == 1 && Coherent(c, s) && s.order == [k]
    requires Exposed(s) <= {k - 1, k}
    ensures var r := Get(c, s, Off, k - 1); !Undefined(r.outcome) && Resting(c, r.state, k + 1)
  {
    hide GetEntry, Coherent, Quiet, WrittenBack;
    NotCached(c, s, k - 1, k);
    OneIsQuiet(c, s, k - 1, k);
    GetEntryQuiet(c, s, k - 1);
    GetEntryCoherent(c, s, k - 1);
    EntryDefined(c, s, k - 1);
    GetEntrySends(c, s, k - 1);
    GetIsClean(c, s, k - 1);
    NotExposed(GetEntry(c, s, k - 1).state, k - 1);
    hide Exposed;
    OneOfTwo(Exposed(GetEntry(c, s, k - 1).state), k - 1, k);
  }

  lemma RestingFacts<T>(c: Config<T>, s: State<T>, k: nat)
    requires Resting(c, s, k)
    ensures c.deferWrites && c.policyCap == 1
  {
  }

  lemma DefinedStep<T>(p: Step<T>, rest: seq<Step<T>>)
    requires !Undefined(p.outcome) && !SomeStepsPastEnd(rest)
    ensures !SomeStepsPastEnd([p] + rest)
  {
    var all := [p] + rest;
    forall i | 0 <= i < |all| ensures !all[i].outcome.StepsPastEnd? {
      if i >= 1 {
        assert all[i] == rest[i - 1];
      }
    }
  }

  lemma {:induction false} RestingRun<T>(c: Config<T>, s: State<T>, objs: seq<T>, k: nat)
    requires 1 <= k <= |objs| <= TWO64 && Resting(c, s, k)
    ensures var ops := WriteThenRead(objs, k);
      |Run(c, s, ops)| == |ops| && !SomeStepsPastEnd(Run(c, s, ops))
    decreases |objs| - k
  {
    hide Put, Get, Resting, Undefined;
    if k < |objs| {
      var ops := WriteThenRead(objs, k);
      var rest := WriteThenRead(objs, k + 1);
      RestingPut(c, s, k, objs[k]);
      RestingFacts(c, s, k);
      var p := Put(c, s, k, objs[k]);
      RestingGet(c, p.state, k);
      var g := Get(c, p.state, Off, k - 1);
      RestingRun(c, g.state, objs, k + 1);
      assert ops[0] == PutOp(k, objs[k]) && ops[1..][0] == GetOp(k - 1, Off) && ops[1..][1..] == rest;
      assert Run(c, p.state, ops[1..]) == [g] + Run(c, g.state, rest);
      assert Run(c, s, ops) == [p] + ([g] + Run(c, g.state, rest));
      DefinedStep(g, Run(c, g.state, rest));
      DefinedStep(p, [g] + Run(c, g.state, rest));
    }
  }

  lemma NewIsCoherent<T>(c: Config<T>, m: map<ObjectId, T>)
    requires 1 <= c.policyCap <= c.maxSize
    ensures var s := State(map[], map[], [], m, map[], 0); Coherent(c, s) && Exposed(s) == {}
  {
    var s := State(map[], map[], [], m, map[], 0);
    assert Exposed(s) == {};
  }

  lemma FirstPut<T>(c: Config<T>, s: State<T>, obj: T)
    requires c.deferWrites && c.policyCap == 1 && Coherent(c, s) && Exposed(s) == {}
    ensures var r := Put(c, s, 0, obj); !Undefined(r.outcome) && Resting(c, r.state, 1)
  {
    hide Put, Coherent, Exposed, Quiet;
    OneIsQuiet(c, s, 0, 0);
    PutExposes(c, s, 0, obj);
    PutCoherent(c, s, 0, obj);
    PutDefined(c, s, 0, obj);
  }

  /**
   * However many objects are written to a deferred cache with room for one, as long as each is read back after the
   * next is written, no call steps past the end of the pending writes.
   */
  lemma ReadingBackNeverStepsPastEnd<T>(c: Config<T>, m: map<ObjectId, T>, objs: seq<T>)
    requires c.deferWrites && c.policyCap == 1 && 1 <= c.maxSize && 1 <= |objs| <= TWO64
    ensures var ops := [PutOp(0, objs[0])] + WriteThenRead(objs, 1);
      var steps := Run(c, State(map[], map[], [], m, map[], 0), ops);
      |steps| == |ops| && !SomeStepsPastEnd(steps)
  {
    hide Put, Resting, Coherent, Exposed, Undefined, WriteThenRead;
    var s := State(map[], map[], [], m, map[], 0);
    var rest := WriteThenRead(objs, 1);
    var ops := [PutOp(0, objs[0])] + rest;
    NewIsCoherent(c, m);
    FirstPut(c, s, objs[0]);
    var p := Put(c, s, 0, objs[0]);
    RestingRun(c, p.state, objs, 1);
    assert ops[0] == PutOp(0, objs[0]) && ops[1..] == rest;
    assert Run(c, s, ops) == [p] + Run(c, p.state, rest);
    DefinedStep(p, Run(c, p.state, rest));
  }
}
