/** Runs of cache calls that a caller can tell beforehand never leave defined behaviour. */
module CacheRuns {
  import opened Basics
  import opened CacheSpec
  import opened CacheTransparency
  import opened CacheLimits
  import Fifo = LrAddedEviction
  import PrefetchRing

  /** The ids that the calls put. */
  function PutIds<T>(ops: seq<Op<T>>): set<ObjectId>
    decreases |ops|
  {
    if ops == [] then {} else (if ops[0].PutOp? then {ops[0].oid} else {}) + PutIds(ops[1..])
  }

  /** Writes go through at once, or the ids dirty, pending or yet to be put are at most fifty. */
  ghost predicate Bounded<T>(c: Config<T>, s: State<T>, ops: seq<Op<T>>) {
    !c.deferWrites || |Exposed(s) + PutIds(ops)| <= HIGH_PEND
  }

  /** A get that prefetches does so within its range, which is not the whole id space, and not over its own entry. */
  predicate SafeOp<T>(order: seq<ObjectId>, cap: nat, op: Op<T>) {
    op.GetOp? && op.mode.Ordered? ==>
      && op.mode.first <= op.oid <= op.mode.last
      && (op.mode.readAhead > 0 ==> PrefetchRing.IsRange(op.mode.first, op.mode.last))
      && !EvictsItself(order, cap, op.mode, op.oid)
  }

  /** The policy's deque after a call, from the deque alone. */
  function OrderAfter<T>(order: seq<ObjectId>, cap: nat, op: Op<T>): seq<ObjectId> {
    match op
    case GetOp(oid, mode) => TouchAll(Fifo.Touch(order, cap, oid).order, cap, Wanted(mode, oid))
    case PutOp(oid, _) => Fifo.Touch(order, cap, oid).order
    case PrefetchOp(oid) => Fifo.Touch(order, cap, oid).order
    case RemoveOp(oid) => Without(order, oid)
  }

  predicate SafeOps<T>(order: seq<ObjectId>, cap: nat, ops: seq<Op<T>>)
    decreases |ops|
  {
    ops != [] ==> SafeOp(order, cap, ops[0]) && SafeOps(OrderAfter(order, cap, ops[0]), cap, ops[1..])
  }

  /** Without prefetching modes every run is safe. */
  lemma {:induction false} OffIsSafe<T>(order: seq<ObjectId>, cap: nat, ops: seq<Op<T>>)
    requires forall i :: 0 <= i < |ops| && ops[i].GetOp? ==> ops[i].mode.Off?
    ensures SafeOps(order, cap, ops)
    decreases |ops|
  {
    hide OrderAfter;
    if ops != [] {
      OffIsSafe(OrderAfter(order, cap, ops[0]), cap, ops[1..]);
    }
  }

  lemma GetOrder<T>(c: Config<T>, s: State<T>, mode: Prefetching, oid: ObjectId)
    requires Coherent(c, s) && Get(c, s, mode, oid).outcome.Value?
    ensures var touched := Fifo.Touch(s.order, c.policyCap, oid).order;
      Get(c, s, mode, oid).state.order == TouchAll(touched, c.policyCap, Wanted(mode, oid))
  {
    hide GetEntry, PrefetchAll, Fifo.Touch, Coherent;
    GetEntryCoherent(c, s, oid);
    GetEntryOrder(c, s, oid);
    EntryDefined(c, s, oid);
    if mode.Ordered? {
      PrefetchAllCoherent(c, GetEntry(c, s, oid).state, Wanted(mode, oid));
      PrefetchAllOrder(c, GetEntry(c, s, oid).state, Wanted(mode, oid));
    }
  }

  lemma PutOrder<T>(c: Config<T>, s: State<T>, oid: ObjectId, obj: T)
    requires Coherent(c, s)
    ensures Put(c, s, oid, obj).state.order == Fifo.Touch(s.order, c.policyCap, oid).order
  {
    hide MakeRoom, Fifo.Touch, Coherent;
    MakeRoomOrder(c, s, oid);
  }

  lemma RemoveOrder<T>(c: Config<T>, s: State<T>, oid: ObjectId)
    ensures Remove(c, s, oid).state.order == Without(s.order, oid)
  {
  }

  lemma GetGivesValues<T>(c: Config<T>, s: State<T>, mode: Prefetching, oid: ObjectId)
    requires Coherent(c, s)
    ensures !Get(c, s, mode, oid).outcome.Returned?
  {
    hide GetEntry, PrefetchAll, Coherent;
    EntryDefined(c, s, oid);
  }

  lemma PrefetchGivesReturned<T>(c: Config<T>, s: State<T>, oid: ObjectId)
    requires Coherent(c, s)
    ensures !Prefetch(c, s, oid).outcome.Value?
  {
    hide Prefetch, Coherent;
    PrefetchCoherent(c, s, oid);
  }

  lemma DoOrder<T>(c: Config<T>, s: State<T>, op: Op<T>)
    requires Coherent(c, s) && (Do(c, s, op).outcome.Value? || Do(c, s, op).outcome.Returned?)
    ensures Do(c, s, op).state.order == OrderAfter(s.order, c.policyCap, op)
  {
    hide Get, Put, Prefetch, Remove, Coherent, Fifo.Touch, TouchAll;
    match op
    case GetOp(oid, mode) =>
      GetGivesValues(c, s, mode, oid);
      GetOrder(c, s, mode, oid);
    case PutOp(oid, obj) => PutOrder(c, s, oid, obj);
    case PrefetchOp(oid) =>
      PrefetchCoherent(c, s, oid);
      PrefetchGivesReturned(c, s, oid);
      PrefetchOrder(c, s, oid);
    case RemoveOp(oid) => RemoveOrder(c, s, oid);
  }

  lemma GetInRange<T>(c: Config<T>, s: State<T>, mode: Prefetching, oid: ObjectId)
    requires Coherent(c, s)
    requires mode.Ordered? ==>
      mode.first <= oid <= mode.last && (mode.readAhead > 0 ==> PrefetchRing.IsRange(mode.first, mode.last))
    ensures var o := Get(c, s, mode, oid).outcome; !o.OutOfRangeThrown? && !o.DividesByZero?
  {
    hide GetEntry, PrefetchAll, Coherent;
    EntryDefined(c, s, oid);
    GetEntryCoherent(c, s, oid);
    if GetEntry(c, s, oid).outcome.Value? {
      PrefetchAllCoherent(c, GetEntry(c, s, oid).state, Wanted(mode, oid));
    }
  }

  /** A call exposes no more than the id it puts, and is defined when it is safe. */
  lemma DoDefined<T>(c: Config<T>, s: State<T>, op: Op<T>)
    requires Coherent(c, s) && Faithful(c, s) && Quiet(c, s) && SafeOp(s.order, c.policyCap, op)
    ensures var r := Do(c, s, op);
      && !Undefined(r.outcome) && !r.outcome.OutOfRangeThrown?
      && Exposed(r.state) <= Exposed(s) + PutIds([op])
  {
    hide Get, Put, Prefetch, Remove, Coherent, Faithful, Quiet, Exposed, EvictsItself;
    assert [op][1..] == [];
    match op
    case GetOp(oid, mode) =>
      GetQuiet(c, s, mode, oid);
      GetDanglesIff(c, s, mode, oid);
      GetInRange(c, s, mode, oid);
    case PutOp(oid, obj) =>
      PutExposes(c, s, oid, obj);
      PutTransparent(c, s, oid, obj);
    case PrefetchOp(oid) => PrefetchQuiet(c, s, oid);
    case RemoveOp(oid) =>
      RemoveExposes(c, s, oid);
      RemoveTransparent(c, s, oid);
  }

  lemma BoundedQuiet<T>(c: Config<T>, s: State<T>, ops: seq<Op<T>>)
    requires Bounded(c, s, ops)
    ensures Quiet(c, s)
  {
    SubsetCardinality(Exposed(s), Exposed(s) + PutIds(ops));
  }

  lemma BoundedNext<T>(c: Config<T>, s: State<T>, t: State<T>, ops: seq<Op<T>>)
    requires ops != [] && Bounded(c, s, ops) && Exposed(t) <= Exposed(s) + PutIds([ops[0]])
    ensures Bounded(c, t, ops[1..])
  {
    hide Exposed;
    assert [ops[0]][1..] == [];
    SubsetCardinality(Exposed(t) + PutIds(ops[1..]), Exposed(s) + PutIds(ops));
  }

  /**
   * Every call of a run answers as one plain map would, without exception, when writes are bounded and the
   * prefetching gets are safe: both can be told from the calls, the deque and the dirty and pending ids.
   */
  lemma {:induction false} SafeRunsAreTransparent<T(!new)>(c: Config<T>, s: State<T>, m: map<ObjectId, T>,
                                                          ops: seq<Op<T>>)
    requires Coherent(c, s) && Faithful(c, s) && Lossless(c) && Represents(s, m)
    requires Bounded(c, s, ops) && SafeOps(s.order, c.policyCap, ops)
    ensures var outs := Outcomes(c, s, ops);
      |outs| <= |ops| && forall i :: 0 <= i < |outs| ==> outs[i] == RefRun(m, ops)[i]
    decreases |ops|
  {
    hide Do, Coherent, Faithful, Lossless, Represents, RefNext, RefOutcome, Undefined, Bounded, Quiet;
    hide SafeOp, OrderAfter;
    if ops != [] && !HitsPrefetch(s, ops[0]) {
      var r := Do(c, s, ops[0]);
      BoundedQuiet(c, s, ops);
      DoTransparent(c, s, ops[0], m);
      DoDefined(c, s, ops[0]);
      if r.outcome.Value? || r.outcome.Returned? {
        DoOrder(c, s, ops[0]);
        BoundedNext(c, s, r.state, ops);
        SafeRunsAreTransparent(c, r.state, RefNext(m, ops[0]), ops[1..]);
        assert Outcomes(c, s, ops) == [r.outcome] + Outcomes(c, r.state, ops[1..]);
      }
    }
  }

  // ---- Runs without prefetching ----

  /** No entry is waiting for its prefetch. */
  ghost predicate AllResolved<T>(s: State<T>) {
    forall k :: k in s.cache ==> s.cache[k].cached
  }

  /** Gets without a mode, puts and removes. */
  predicate Plain<T>(op: Op<T>) {
    !op.PrefetchOp? && (op.GetOp? ==> op.mode.Off?)
  }

  lemma MakeRoomResolved<T>(c: Config<T>, s: State<T>, oid: ObjectId)
    requires Coherent(c, s) && AllResolved(s) && MakeRoom(c, s, oid).outcome.Returned?
    ensures AllResolved(MakeRoom(c, s, oid).state)
  {
    hide Fifo.Touch, MakeRoom, NoDup, Evict;
    MakeRoomShape(c, s, oid);
    var d := Fifo.Touch(s.order, c.policyCap, oid);
    if d.victims != [] {
      EvictFacts(c, s.(order := d.order), d.victims[0]);
    }
  }

  lemma LookupResolved<T>(c: Config<T>, s: State<T>, oid: ObjectId)
    requires AllResolved(s)
    ensures AllResolved(Lookup(c, s, oid).state)
  {
  }

  lemma DoResolved<T>(c: Config<T>, s: State<T>, op: Op<T>)
    requires Coherent(c, s) && AllResolved(s) && Plain(op)
    requires Do(c, s, op).outcome.Value? || Do(c, s, op).outcome.Returned?
    ensures AllResolved(Do(c, s, op).state)
  {
    hide MakeRoom, Lookup, Coherent;
    if !op.RemoveOp? {
      MakeRoomCoherent(c, s, op.oid);
      MakeRoomResolved(c, s, op.oid);
      if op.GetOp? {
        LookupResolved(c, Forget(c, MakeRoom(c, s, op.oid).state, op.oid), op.oid);
      }
    }
  }

  lemma ResolvedHitsNothing<T>(s: State<T>, op: Op<T>)
    requires AllResolved(s)
    ensures !HitsPrefetch(s, op)
  {
  }

  /** Without prefetching a bounded run answers every call as a plain map would, up to the first absent object. */
  lemma {:induction false} PlainRunsAreComplete<T(!new)>(c: Config<T>, s: State<T>, m: map<ObjectId, T>,
                                                        ops: seq<Op<T>>)
    requires Coherent(c, s) && Faithful(c, s) && Lossless(c) && Represents(s, m)
    requires Bounded(c, s, ops) && AllResolved(s) && forall i :: 0 <= i < |ops| ==> Plain(ops[i])
    ensures var outs := Outcomes(c, s, ops);
      && |outs| <= |ops| && outs == RefRun(m, ops)[..|outs|]
      && (|outs| < |ops| ==> outs != [] && outs[|outs| - 1].NoSuchIdThrown?)
    decreases |ops|
  {
    hide Do, Coherent, Faithful, Lossless, Represents, RefNext, Undefined, Bounded, Quiet, AllResolved;
    if ops != [] {
      var r := Do(c, s, ops[0]);
      ResolvedHitsNothing(s, ops[0]);
      BoundedQuiet(c, s, ops);
      DoTransparent(c, s, ops[0], m);
      assert SafeOp(s.order, c.policyCap, ops[0]);
      DoDefined(c, s, ops[0]);
      if r.outcome.Value? || r.outcome.Returned? {
        BoundedNext(c, s, r.state, ops);
        DoResolved(c, s, ops[0]);
        PlainRunsAreComplete(c, r.state, RefNext(m, ops[0]), ops[1..]);
        assert Outcomes(c, s, ops) == [r.outcome] + Outcomes(c, r.state, ops[1..]);
      } else {
        assert r.outcome.NoSuchIdThrown?;
        assert RefRun(m, ops)[..1] == [r.outcome];
      }
    }
  }

  // ---- Reaching the sweep ----

  /** Puts of distinct ids. */
  ghost predicate DistinctPuts<T>(ops: seq<Op<T>>) {
    && (forall i :: 0 <= i < |ops| ==> ops[i].PutOp?)
    && (forall i, j :: 0 <= i < j < |ops| ==> ops[i].oid != ops[j].oid)
  }

  /** The deque holds the last ids of the first `k`. */
  ghost predicate Window<T>(order: seq<ObjectId>, ops: seq<Op<T>>, k: nat) {
    |order| <= k <= |ops| && forall j :: 0 <= j < |order| ==> order[j] == ops[k - |order| + j].oid
  }

  ghost predicate AmongFirst<T>(ops: seq<Op<T>>, n: int, x: ObjectId) {
    exists j :: 0 <= j < n <= |ops| && ops[j].oid == x
  }

  /** After the first `k` puts: the deque holds the last of them, all dirty, and the others are pending. */
  ghost predicate Filled<T>(c: Config<T>, s: State<T>, ops: seq<Op<T>>, k: nat) {
    && c.deferWrites && Coherent(c, s) && k <= |ops|
    && |s.order| == (if k < c.policyCap then k else c.policyCap)
    && Window(s.order, ops, k)
    && (forall x :: x in s.cache ==> s.cache[x].dirty)
    && |s.pending| == k - |s.order|
    && (forall x :: x in s.pending ==> AmongFirst(ops, k - |s.order|, x))
  }

  lemma NextIsNew<T>(c: Config<T>, s: State<T>, ops: seq<Op<T>>, k: nat)
    requires DistinctPuts(ops) && Filled(c, s, ops, k) && k < |ops|
    ensures ops[k].oid !in s.order && ops[k].oid !in s.cache
    ensures |s.order| == c.policyCap ==> s.order[0] in s.cache && s.order[0] !in s.pending
  {
  }

  /** Putting a new id into a full deferred cache whose oldest object is dirty and not pending. */
  lemma PutWhenFull<T>(c: Config<T>, s: State<T>, oid: ObjectId, obj: T)
    requires Coherent(c, s) && c.deferWrites && oid !in s.order && |s.order| == c.policyCap
    requires var v := s.order[0]; v in s.cache && s.cache[v].dirty && v !in s.pending
    ensures var v, r := s.order[0], Put(c, s, oid, obj);
      && (r.outcome.StepsPastEnd? <==> |s.pending| == HIGH_PEND)
      && (!r.outcome.StepsPastEnd? ==>
            && r.outcome.Returned?
            && r.state.order == s.order[1..] + [oid] && r.state.pending == s.pending[v := s.issued]
            && r.state.cache == (s.cache - {v})[oid := Entry(true, true, obj, 0)])
  {
    hide NoDup, MakeRoom;
    var d := Fifo.Touch(s.order, c.policyCap, oid);
    var v := s.order[0];
    assert d.victims == [v] && d.order == s.order[1..] + [oid];
    hide Fifo.Touch;
    var s1 := s.(order := d.order);
    MakeRoomShape(c, s, oid);
    MakeRoomCoherent(c, s, oid);
    EvictPastEndIff(c, s1, v);
    if !Evict(c, s1, v).outcome.StepsPastEnd? {
      KeysWithinCapacity(c, MakeRoom(c, s, oid).state, oid);
    }
  }

  lemma PutWithRoom<T>(c: Config<T>, s: State<T>, oid: ObjectId, obj: T)
    requires Coherent(c, s) && c.deferWrites && oid !in s.order && |s.order| < c.policyCap
    ensures var r := Put(c, s, oid, obj);
      && r.outcome.Returned? && r.state.order == s.order + [oid] && r.state.pending == s.pending
      && r.state.cache == s.cache[oid := Entry(true, true, obj, 0)]
  {
    hide NoDup;
    assert MakeRoom(c, s, oid) == Step(s.(order := s.order + [oid]), Returned);
    hide MakeRoom;
    CoherentSize(c, s);
  }

  lemma PendingGrows(pending: map<ObjectId, nat>, v: ObjectId, future: nat)
    requires v !in pending
    ensures |pending[v := future]| == |pending| + 1 && pending[v := future].Keys == pending.Keys + {v}
  {
    assert pending[v := future].Keys == pending.Keys + {v};
    assert |pending[v := future]| == |pending[v := future].Keys| && |pending| == |pending.Keys|;
  }

  lemma FilledGrows<T>(c: Config<T>, s: State<T>, t: State<T>, ops: seq<Op<T>>, k: nat)
    requires Filled(c, s, ops, k) && k < |ops| && |s.order| < c.policyCap && Coherent(c, t)
    requires t.order == s.order + [ops[k].oid] && t.pending == s.pending
    requires forall x :: x in t.cache && x != ops[k].oid ==> x in s.cache && t.cache[x] == s.cache[x]
    requires ops[k].oid in t.cache && t.cache[ops[k].oid].dirty
    ensures Filled(c, t, ops, k + 1)
  {
    hide Coherent;
  }

  lemma WindowMoves<T>(order: seq<ObjectId>, ops: seq<Op<T>>, k: nat)
    requires order != [] && Window(order, ops, k) && k < |ops|
    ensures Window(order[1..] + [ops[k].oid], ops, k + 1)
  {
  }

  lemma FirstGrows<T>(order: seq<ObjectId>, ops: seq<Op<T>>, k: nat, x: ObjectId)
    requires order != [] && Window(order, ops, k)
    ensures AmongFirst(ops, k - |order|, x) || x == order[0] ==> AmongFirst(ops, k + 1 - |order|, x)
  {
    assert ops[k - |order|].oid == order[0];
  }

  lemma FilledMoves<T>(c: Config<T>, s: State<T>, t: State<T>, ops: seq<Op<T>>, k: nat)
    requires Filled(c, s, ops, k) && k < |ops| && 0 < |s.order| == c.policyCap && Coherent(c, t)
    requires t.order == s.order[1..] + [ops[k].oid]
    requires t.pending.Keys == s.pending.Keys + {s.order[0]} && |t.pending| == |s.pending| + 1
    requires forall x :: x in t.cache && x != ops[k].oid ==> x in s.cache && t.cache[x] == s.cache[x]
    requires ops[k].oid in t.cache && t.cache[ops[k].oid].dirty
    ensures Filled(c, t, ops, k + 1)
  {
    hide Coherent, Window, AmongFirst;
    WindowMoves(s.order, ops, k);
    forall x | x in t.pending ensures AmongFirst(ops, k + 1 - |t.order|, x) {
      FirstGrows(s.order, ops, k, x);
    }
  }

  lemma FilledSizes<T>(c: Config<T>, s: State<T>, ops: seq<Op<T>>, k: nat)
    requires Filled(c, s, ops, k)
    ensures c.deferWrites && Coherent(c, s) && 0 < c.policyCap
    ensures |s.order| == (if k < c.policyCap then k else c.policyCap) && |s.pending| == k - |s.order| <= HIGH_PEND
    ensures forall x :: x in s.cache ==> s.cache[x].dirty
  {
    hide NoDup;
  }

  lemma FilledByRoom<T>(c: Config<T>, s: State<T>, ops: seq<Op<T>>, k: nat)
    requires DistinctPuts(ops) && Filled(c, s, ops, k) && k < |ops| && |s.order| < c.policyCap && ops[k].PutOp?
    ensures var r := Put(c, s, ops[k].oid, ops[k].obj); r.outcome.Returned? && Filled(c, r.state, ops, k + 1)
  {
    hide Put, NoDup, Coherent, Filled, DistinctPuts;
    NextIsNew(c, s, ops, k);
    FilledSizes(c, s, ops, k);
    PutCoherent(c, s, ops[k].oid, ops[k].obj);
    PutWithRoom(c, s, ops[k].oid, ops[k].obj);
    FilledGrows(c, s, Put(c, s, ops[k].oid, ops[k].obj).state, ops, k);
  }

  lemma FilledByEviction<T>(c: Config<T>, s: State<T>, ops: seq<Op<T>>, k: nat)
    requires DistinctPuts(ops) && Filled(c, s, ops, k) && k < |ops| && |s.order| == c.policyCap && ops[k].PutOp?
    ensures var r := Put(c, s, ops[k].oid, ops[k].obj);
      && (r.outcome.StepsPastEnd? <==> |s.pending| == HIGH_PEND)
      && (!r.outcome.StepsPastEnd? ==> r.outcome.Returned? && Filled(c, r.state, ops, k + 1))
  {
    hide Put, NoDup, Coherent, Filled, DistinctPuts;
    var oid, obj := ops[k].oid, ops[k].obj;
    var r := Put(c, s, oid, obj);
    NextIsNew(c, s, ops, k);
    FilledSizes(c, s, ops, k);
    PutCoherent(c, s, oid, obj);
    PutWhenFull(c, s, oid, obj);
    if !r.outcome.StepsPastEnd? {
      PendingGrows(s.pending, s.order[0], s.issued);
      FilledMoves(c, s, r.state, ops, k);
    }
  }

  /** One more put steps past the end exactly when fifty writes are pending, and otherwise fills on. */
  lemma FilledNext<T>(c: Config<T>, s: State<T>, ops: seq<Op<T>>, k: nat)
    requires DistinctPuts(ops) && Filled(c, s, ops, k) && k < |ops|
    ensures var r := Do(c, s, ops[k]);
      && (r.outcome.StepsPastEnd? <==> k == c.policyCap + HIGH_PEND)
      && (!r.outcome.StepsPastEnd? ==> r.outcome.Returned? && Filled(c, r.state, ops, k + 1))
  {
    assert ops[k].PutOp?;
    hide Put, Coherent, Filled, DistinctPuts;
    FilledSizes(c, s, ops, k);
    if |s.order| < c.policyCap {
      FilledByRoom(c, s, ops, k);
    } else {
      FilledByEviction(c, s, ops, k);
    }
  }

  ghost predicate SomeStepsPastEnd<T>(steps: seq<Step<T>>) {
    exists i :: 0 <= i < |steps| && steps[i].outcome.StepsPastEnd?
  }

  lemma FilledWithin<T>(c: Config<T>, s: State<T>, ops: seq<Op<T>>, k: nat)
    requires Filled(c, s, ops, k)
    ensures k <= |ops|
  {
  }

  lemma {:induction false} FilledRun<T>(c: Config<T>, s: State<T>, ops: seq<Op<T>>, k: nat)
    requires DistinctPuts(ops) && Filled(c, s, ops, k) && k <= c.policyCap + HIGH_PEND
    ensures SomeStepsPastEnd(Run(c, s, ops[k..])) <==> |ops| > c.policyCap + HIGH_PEND
    decreases |ops| - k
  {
    hide Do, Filled;
    FilledWithin(c, s, ops, k);
    if k < |ops| {
      FilledNext(c, s, ops, k);
      var r := Do(c, s, ops[k]);
      assert ops[k..][0] == ops[k] && ops[k..][1..] == ops[k + 1..];
      if r.outcome.StepsPastEnd? {
        assert Run(c, s, ops[k..])[0].outcome.StepsPastEnd?;
      } else {
        FilledRun(c, r.state, ops, k + 1);
        var rest := Run(c, r.state, ops[k + 1..]);
        assert Run(c, s, ops[k..]) == [r] + rest;
        if i :| 0 <= i < |rest| && rest[i].outcome.StepsPastEnd? {
          assert ([r] + rest)[i + 1].outcome.StepsPastEnd?;
        }
        if i :| 0 <= i < |[r] + rest| && ([r] + rest)[i].outcome.StepsPastEnd? {
          assert rest[i - 1].outcome.StepsPastEnd?;
        }
      }
    }
  }

  /**
   * Puts of distinct ids into a new deferred cache step past the end of the pending writes exactly when there are
   * more than fifty of them beyond the policy's capacity.
   */
  lemma PutsStepPastEndIff<T>(c: Config<T>, m: map<ObjectId, T>, ops: seq<Op<T>>)
    requires c.deferWrites && 1 <= c.policyCap <= c.maxSize && DistinctPuts(ops)
    ensures SomeStepsPastEnd(Run(c, State(map[], map[], [], m, map[], 0), ops)) <==> |ops| > c.policyCap + 50
  {
    hide Run;
    var s := State(map[], map[], [], m, map[], 0);
    assert Filled(c, s, ops, 0);
    FilledRun(c, s, ops, 0);
    assert ops[0..] == ops;
  }
}
