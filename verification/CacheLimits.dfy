/** Where the cache's calls leave defined behaviour or lose a value, and what a caller can do to stay clear. */
module CacheLimits {
  import opened Basics
  import opened RemoteStore
  import opened CacheSpec
  import opened CacheTransparency
  import Fifo = LrAddedEviction
  import PrefetchRing

  // ---- The sweep over pending writes ----

  /**
   * The access evicts a dirty object that is not pending while fifty writes are. Completion does not matter: the
   * sweep finds every future's lock free.
   */
  ghost predicate Oversteps<T>(c: Config<T>, s: State<T>, oid: ObjectId) {
    && c.deferWrites && |s.pending| == 50
    && exists v :: v in Victims(c, s, oid) && v in s.cache && s.cache[v].dirty && v !in s.pending
  }

  lemma MakeRoomPastEndIff<T>(c: Config<T>, s: State<T>, oid: ObjectId)
    requires Coherent(c, s)
    ensures MakeRoom(c, s, oid).outcome.StepsPastEnd? <==> Oversteps(c, s, oid)
  {
    hide Fifo.Touch, MakeRoom, NoDup;
    MakeRoomShape(c, s, oid);
    var d := Fifo.Touch(s.order, c.policyCap, oid);
    if d.victims != [] {
      assert forall v :: v in d.victims <==> v == d.victims[0];
      EvictPastEndIff(c, s.(order := d.order), d.victims[0]);
    }
  }

  lemma EvictPastEndIff<T>(c: Config<T>, s: State<T>, oid: ObjectId)
    requires oid in s.cache && |s.pending| <= HIGH_PEND
    ensures Evict(c, s, oid).outcome.StepsPastEnd? <==>
      c.deferWrites && |s.pending| == HIGH_PEND && s.cache[oid].dirty && oid !in s.pending
  {
    var pending := s.pending[oid := s.issued];
    assert pending.Keys == s.pending.Keys + {oid};
    assert |pending| == |pending.Keys| && |s.pending| == |s.pending.Keys|;
    assert oid in s.pending ==> pending.Keys == s.pending.Keys;
    assert oid !in s.pending ==> |pending.Keys| == |s.pending.Keys| + 1;
  }

  /** A lookup, a put or a prefetch steps past the end of the pending writes exactly when its access oversteps. */
  lemma CallPastEndIff<T>(c: Config<T>, s: State<T>, oid: ObjectId, obj: T)
    requires Coherent(c, s)
    ensures GetEntry(c, s, oid).outcome.StepsPastEnd? <==> Oversteps(c, s, oid)
    ensures Put(c, s, oid, obj).outcome.StepsPastEnd? <==> Oversteps(c, s, oid)
    ensures Prefetch(c, s, oid).outcome.StepsPastEnd? <==> Oversteps(c, s, oid)
  {
    hide MakeRoom, Coherent, Oversteps, Lookup;
    MakeRoomPastEndIff(c, s, oid);
    MakeRoomCoherent(c, s, oid);
    LookupExposes(c, Forget(c, MakeRoom(c, s, oid).state, oid), oid);
  }

  /** The ids that have a write pending or may get one: at most fifty of them keep every call defined. */
  ghost function Exposed<T>(s: State<T>): set<ObjectId> {
    s.pending.Keys + set k | k in s.cache && s.cache[k].dirty
  }

  ghost predicate Quiet<T>(c: Config<T>, s: State<T>) {
    !c.deferWrites || |Exposed(s)| <= HIGH_PEND
  }

  lemma QuietShrinks<T>(c: Config<T>, s: State<T>, t: State<T>)
    requires Quiet(c, s) && Exposed(t) <= Exposed(s)
    ensures Quiet(c, t)
  {
    SubsetCardinality(Exposed(t), Exposed(s));
  }

  lemma EvictQuiet<T>(c: Config<T>, s: State<T>, oid: ObjectId)
    requires Quiet(c, s) && oid in s.cache
    ensures Evict(c, s, oid).outcome.Returned? && Exposed(Evict(c, s, oid).state) <= Exposed(s)
  {
    var pending := s.pending[oid := s.issued];
    if c.deferWrites {
      SubsetCardinality(s.pending.Keys, Exposed(s));
      if s.cache[oid].dirty {
        SubsetCardinality(pending.Keys, Exposed(s));
      }
    }
  }

  lemma MakeRoomQuiet<T>(c: Config<T>, s: State<T>, oid: ObjectId)
    requires Coherent(c, s) && Quiet(c, s)
    ensures MakeRoom(c, s, oid).outcome.Returned? && Exposed(MakeRoom(c, s, oid).state) <= Exposed(s)
  {
    hide Fifo.Touch, MakeRoom, NoDup, Evict;
    MakeRoomShape(c, s, oid);
    var d := Fifo.Touch(s.order, c.policyCap, oid);
    var s1 := s.(order := d.order);
    assert Exposed(s1) == Exposed(s);
    if d.victims != [] {
      EvictQuiet(c, s1, d.victims[0]);
    }
  }

  lemma GetEntryQuiet<T>(c: Config<T>, s: State<T>, oid: ObjectId)
    requires Coherent(c, s) && Quiet(c, s)
    ensures var r := GetEntry(c, s, oid);
      !r.outcome.StepsPastEnd? && Exposed(r.state) <= Exposed(s) && Quiet(c, r.state)
  {
    hide MakeRoom, Coherent, Quiet, Exposed;
    MakeRoomQuiet(c, s, oid);
    LookupExposes(c, Forget(c, MakeRoom(c, s, oid).state, oid), oid);
    ForgetExposes(c, MakeRoom(c, s, oid).state, oid);
    QuietShrinks(c, s, GetEntry(c, s, oid).state);
  }

  lemma ForgetExposes<T>(c: Config<T>, s: State<T>, oid: ObjectId)
    ensures Exposed(Forget(c, s, oid)) <= Exposed(s)
  {
  }

  lemma SameExposed<T>(s: State<T>, t: State<T>)
    requires t.pending == s.pending
    requires forall k :: k in s.cache && s.cache[k].dirty <==> k in t.cache && t.cache[k].dirty
    ensures Exposed(t) == Exposed(s)
  {
  }

  lemma LookupExposes<T>(c: Config<T>, s: State<T>, oid: ObjectId)
    ensures Exposed(Lookup(c, s, oid).state) == Exposed(s) && !Lookup(c, s, oid).outcome.StepsPastEnd?
  {
    hide Exposed, Submit, AnswerOf;
    SubmitKeepsCache(c, s.(cache := s.cache[oid := Entry(true, false, c.blank, 0)]), GetRequest(oid));
    SameExposed(s, Lookup(c, s, oid).state);
  }

  lemma SubmitKeepsCache<T>(c: Config<T>, s: State<T>, r: Request<T>)
    ensures Submit(c, s, r).cache == s.cache && Submit(c, s, r).pending == s.pending
  {
  }

  lemma PrefetchQuiet<T>(c: Config<T>, s: State<T>, oid: ObjectId)
    requires Coherent(c, s) && Quiet(c, s)
    ensures var r := Prefetch(c, s, oid);
      r.outcome.Returned? && Exposed(r.state) <= Exposed(s) && Quiet(c, r.state)
  {
    hide MakeRoom, Coherent, Quiet;
    MakeRoomQuiet(c, s, oid);
    QuietShrinks(c, s, Prefetch(c, s, oid).state);
  }

  lemma {:induction false} PrefetchAllQuiet<T>(c: Config<T>, s: State<T>, ids: seq<ObjectId>)
    requires Coherent(c, s) && Quiet(c, s)
    ensures var r := PrefetchAll(c, s, ids);
      r.outcome.Returned? && Coherent(c, r.state) && Quiet(c, r.state) && Exposed(r.state) <= Exposed(s)
    decreases |ids|
  {
    hide Prefetch, Coherent, Quiet, Exposed;
    if ids != [] {
      PrefetchCoherent(c, s, ids[0]);
      PrefetchQuiet(c, s, ids[0]);
      PrefetchAllQuiet(c, Prefetch(c, s, ids[0]).state, ids[1..]);
    }
  }

  /** A whole get, prefetches and all, never steps past the end either and exposes nothing. */
  lemma GetQuiet<T>(c: Config<T>, s: State<T>, mode: Prefetching, oid: ObjectId)
    requires Coherent(c, s) && Quiet(c, s)
    ensures var r := Get(c, s, mode, oid);
      !r.outcome.StepsPastEnd? && Exposed(r.state) <= Exposed(s)
  {
    hide GetEntry, PrefetchAll, Coherent, Quiet, Exposed;
    GetEntryCoherent(c, s, oid);
    GetEntryQuiet(c, s, oid);
    PrefetchAllQuiet(c, GetEntry(c, s, oid).state, Wanted(mode, oid));
  }

  lemma RemoveExposes<T>(c: Config<T>, s: State<T>, oid: ObjectId)
    ensures Exposed(Remove(c, s, oid).state) <= Exposed(s)
  {
  }

  /** A put exposes at most the id it writes. */
  lemma PutExposes<T>(c: Config<T>, s: State<T>, oid: ObjectId, obj: T)
    requires Coherent(c, s) && Quiet(c, s)
    ensures var r := Put(c, s, oid, obj);
      !r.outcome.StepsPastEnd? && Exposed(r.state) <= Exposed(s) + {oid}
  {
    hide MakeRoom, Coherent, Quiet;
    MakeRoomQuiet(c, s, oid);
  }

  // ---- The pointer `get` holds across its prefetches ----

  /** The deque after prefetching `ids` one after the other. */
  function TouchAll(order: seq<ObjectId>, cap: nat, ids: seq<ObjectId>): seq<ObjectId>
    decreases |ids|
  {
    if ids == [] then order else TouchAll(Fifo.Touch(order, cap, ids[0]).order, cap, ids[1..])
  }

  /** How many of `ids` are not in the deque when their turn comes. */
  function Misses(order: seq<ObjectId>, cap: nat, ids: seq<ObjectId>): nat
    decreases |ids|
  {
    if ids == [] then 0
    else (if ids[0] in order then 0 else 1) + Misses(Fifo.Touch(order, cap, ids[0]).order, cap, ids[1..])
  }

  lemma {:induction false} MissesWithin(order: seq<ObjectId>, cap: nat, ids: seq<ObjectId>)
    ensures Misses(order, cap, ids) <= |ids|
    decreases |ids|
  {
    if ids != [] {
      MissesWithin(Fifo.Touch(order, cap, ids[0]).order, cap, ids[1..]);
    }
  }

  lemma OldestLeaves(order: seq<ObjectId>, oid: ObjectId)
    requires NoDup(order) && order != [] && oid !in order
    ensures order[0] !in (order + [oid])[1..]
  {
    assert (order + [oid])[1..] == order[1..] + [oid];
  }

  lemma {:induction false} TouchAllAddsOnly(order: seq<ObjectId>, cap: nat, ids: seq<ObjectId>, oid: ObjectId)
    requires NoDup(order) && |order| <= cap && oid !in order && oid !in ids
    ensures oid !in TouchAll(order, cap, ids)
    decreases |ids|
  {
    hide Fifo.Touch, NoDup;
    if ids != [] {
      Fifo.TouchKeeps(order, cap, ids[0]);
      assert forall k :: k in ids[1..] ==> k in ids;
      TouchAllAddsOnly(Fifo.Touch(order, cap, ids[0]).order, cap, ids[1..], oid);
    }
  }

  /** The id `p` places from the front stays exactly when the misses fit the free places and the ids before it. */
  lemma {:induction false} FifoResidencyIff(order: seq<ObjectId>, cap: nat, ids: seq<ObjectId>, p: nat)
    requires NoDup(order) && 0 < cap && |order| <= cap && p < |order| && order[p] !in ids
    ensures order[p] in TouchAll(order, cap, ids) <==> Misses(order, cap, ids) <= cap - |order| + p
    decreases |ids|
  {
    hide NoDup;
    if ids != [] {
      Fifo.TouchKeeps(order, cap, ids[0]);
      var next := Fifo.Touch(order, cap, ids[0]).order;
      assert forall k :: k in ids[1..] ==> k in ids;
      if ids[0] in order || |order| < cap {
        FifoResidencyIff(next, cap, ids[1..], p);
      } else if p > 0 {
        FifoResidencyIff(next, cap, ids[1..], p - 1);
      } else {
        OldestLeaves(order, ids[0]);
        TouchAllAddsOnly(next, cap, ids[1..], order[0]);
      }
    }
  }

  lemma PrefetchOrder<T>(c: Config<T>, s: State<T>, oid: ObjectId)
    requires Coherent(c, s) && Prefetch(c, s, oid).outcome.Returned?
    ensures Prefetch(c, s, oid).state.order == Fifo.Touch(s.order, c.policyCap, oid).order
  {
    MakeRoomOrder(c, s, oid);
  }

  lemma {:induction false} PrefetchAllOrder<T>(c: Config<T>, s: State<T>, ids: seq<ObjectId>)
    requires Coherent(c, s) && PrefetchAll(c, s, ids).outcome.Returned?
    ensures PrefetchAll(c, s, ids).state.order == TouchAll(s.order, c.policyCap, ids)
    decreases |ids|
  {
    hide Prefetch, Coherent, Fifo.Touch;
    if ids != [] {
      PrefetchCoherent(c, s, ids[0]);
      PrefetchOrder(c, s, ids[0]);
      PrefetchAllOrder(c, Prefetch(c, s, ids[0]).state, ids[1..]);
    }
  }

  lemma MakeRoomOrder<T>(c: Config<T>, s: State<T>, oid: ObjectId)
    requires Coherent(c, s)
    ensures MakeRoom(c, s, oid).state.order == Fifo.Touch(s.order, c.policyCap, oid).order
  {
    hide Fifo.Touch, MakeRoom, NoDup, Evict;
    MakeRoomShape(c, s, oid);
    var d := Fifo.Touch(s.order, c.policyCap, oid);
    if d.victims != [] {
      EvictFacts(c, s.(order := d.order), d.victims[0]);
    }
  }

  lemma GetEntryOrder<T>(c: Config<T>, s: State<T>, oid: ObjectId)
    requires Coherent(c, s)
    ensures GetEntry(c, s, oid).state.order == Fifo.Touch(s.order, c.policyCap, oid).order
  {
    hide MakeRoom, Fifo.Touch, Coherent;
    MakeRoomOrder(c, s, oid);
  }

  lemma EntryDefined<T>(c: Config<T>, s: State<T>, oid: ObjectId)
    requires Coherent(c, s)
    ensures var o := GetEntry(c, s, oid).outcome; o.Value? || o.NoSuchIdThrown? || o.StepsPastEnd?
  {
    hide MakeRoom, Coherent, Lookup, Roomy, Forget;
    MakeRoomCoherent(c, s, oid);
    var r := MakeRoom(c, s, oid);
    if r.outcome.Returned? {
      ForgetRoomy(c, r.state, oid);
      LookupCoherent(c, Forget(c, r.state, oid), oid);
    }
  }

  /** The place of `oid` in the deque, from the front. */
  function Place(order: seq<ObjectId>, oid: ObjectId): (p: nat)
    requires oid in order
    ensures p < |order| && order[p] == oid
  {
    if order[0] == oid then 0 else 1 + Place(order[1..], oid)
  }

  /**
   * The prefetches of a get of `oid` evict `oid` itself: more of the ids they ask for are missing than there
   * are free places and ids before `oid` in the deque, once the policy has heard of `oid`.
   */
  predicate EvictsItself(order: seq<ObjectId>, cap: nat, mode: Prefetching, oid: ObjectId) {
    var o := Fifo.Touch(order, cap, oid).order;
    oid in o && Misses(o, cap, Wanted(mode, oid)) > cap - |o| + Place(o, oid)
  }

  lemma WantedIsOther(mode: Prefetching, oid: ObjectId)
    ensures oid !in Wanted(mode, oid)
    ensures mode.Ordered? ==> |Wanted(mode, oid)| <= mode.readAhead
  {
    if mode.Ordered? && PrefetchRing.IsRange(mode.first, mode.last) {
      PrefetchRing.SlotListFacts(oid, mode.first, mode.last, 1, mode.readAhead);
    }
  }

  /** After the prefetches the entry is gone exactly when they evict it. */
  lemma EntryGoneIff<T>(c: Config<T>, s: State<T>, mode: Prefetching, oid: ObjectId)
    requires Coherent(c, s) && GetEntry(c, s, oid).outcome.Value?
    requires PrefetchAll(c, GetEntry(c, s, oid).state, Wanted(mode, oid)).outcome.Returned?
    ensures oid in PrefetchAll(c, GetEntry(c, s, oid).state, Wanted(mode, oid)).state.cache <==>
      !EvictsItself(s.order, c.policyCap, mode, oid)
  {
    hide GetEntry, PrefetchAll, Fifo.Touch, Wanted;
    var g := GetEntry(c, s, oid).state;
    var ids := Wanted(mode, oid);
    GetEntryCoherent(c, s, oid);
    GetEntryOrder(c, s, oid);
    PrefetchAllCoherent(c, g, ids);
    PrefetchAllOrder(c, g, ids);
    WantedIsOther(mode, oid);
    FifoResidencyIff(g.order, c.policyCap, ids, Place(g.order, oid));
  }

  lemma NothingEvicts<T>(c: Config<T>, s: State<T>, mode: Prefetching, oid: ObjectId)
    requires Coherent(c, s) && Wanted(mode, oid) == []
    ensures !EvictsItself(s.order, c.policyCap, mode, oid)
  {
    hide NoDup;
  }

  /**
   * Exactly when a get returns through a pointer to an entry that its own prefetches evicted: the object is
   * there to be read, the id is in the prefetching range, and the prefetches evict it. A get that steps past
   * the end of the pending writes does not come that far; `GetQuiet` says which do not.
   */
  lemma GetDanglesIff<T>(c: Config<T>, s: State<T>, mode: Prefetching, oid: ObjectId)
    requires Coherent(c, s) && Faithful(c, s)
    ensures Get(c, s, mode, oid).outcome.Dangling? <==>
      && !Get(c, s, mode, oid).outcome.StepsPastEnd? && Seen(s, oid).Some?
      && mode.Ordered? && mode.first <= oid <= mode.last
      && EvictsItself(s.order, c.policyCap, mode, oid)
  {
    hide GetEntry, PrefetchAll, Faithful, Coherent, Seen, Fifo.Touch;
    var g := GetEntry(c, s, oid);
    GetEntryCoherent(c, s, oid);
    if !g.outcome.StepsPastEnd? {
      GetEntryTransparent(c, s, oid);
      if Seen(s, oid).Some? && mode.Ordered? {
        PrefetchAllCoherent(c, g.state, Wanted(mode, oid));
        if PrefetchAll(c, g.state, Wanted(mode, oid)).outcome.Returned? {
          EntryGoneIff(c, s, mode, oid);
        }
        if !PrefetchRing.IsRange(mode.first, mode.last) {
          NothingEvicts(c, s, mode, oid);
        }
      }
    }
  }

  /** Exactly when a get divides by zero: the object is there and the range to read ahead in is all 2^64 ids. */
  lemma GetDividesByZeroIff<T>(c: Config<T>, s: State<T>, mode: Prefetching, oid: ObjectId)
    requires Coherent(c, s) && Faithful(c, s)
    ensures Get(c, s, mode, oid).outcome.DividesByZero? <==>
      && !GetEntry(c, s, oid).outcome.StepsPastEnd? && Seen(s, oid).Some?
      && mode.Ordered? && mode.readAhead > 0 && mode.first == 0 && mode.last == TWO64 - 1
  {
    hide GetEntry, PrefetchAll, Faithful, Coherent, Seen;
    var g := GetEntry(c, s, oid);
    GetEntryCoherent(c, s, oid);
    if !g.outcome.StepsPastEnd? {
      GetEntryTransparent(c, s, oid);
      if g.outcome.Value? {
        PrefetchAllCoherent(c, g.state, Wanted(mode, oid));
      }
    }
  }

  /** A get that misses never loses its entry to fewer prefetches than the policy's capacity. */
  lemma MissNeverEvictsItself(order: seq<ObjectId>, cap: nat, mode: Prefetching, oid: ObjectId)
    requires NoDup(order) && |order| <= cap && oid !in order
    requires mode.Ordered? && mode.readAhead < cap
    ensures !EvictsItself(order, cap, mode, oid)
  {
    var o := Fifo.Touch(order, cap, oid).order;
    Fifo.TouchKeeps(order, cap, oid);
    WantedIsOther(mode, oid);
    hide Wanted;
    MissesWithin(o, cap, Wanted(mode, oid));
    assert o[|o| - 1] == oid;
    assert Place(o, oid) == |o| - 1;
  }

  lemma MissNeverDangles<T>(c: Config<T>, s: State<T>, mode: Prefetching, oid: ObjectId)
    requires Coherent(c, s) && mode.Ordered? && mode.readAhead < c.policyCap && oid !in s.cache
    ensures !Get(c, s, mode, oid).outcome.Dangling?
  {
    hide GetEntry, PrefetchAll, EvictsItself, NoDup;
    EntryDefined(c, s, oid);
    GetEntryCoherent(c, s, oid);
    var g := GetEntry(c, s, oid);
    if g.outcome.Value? {
      PrefetchAllCoherent(c, g.state, Wanted(mode, oid));
      if PrefetchAll(c, g.state, Wanted(mode, oid)).outcome.Returned? {
        EntryGoneIff(c, s, mode, oid);
        MissNeverEvictsItself(s.order, c.policyCap, mode, oid);
      }
    }
  }

  /** With a full cache, reading the oldest id while the next one is absent evicts the entry being returned. */
  lemma OldestHitDangles<T>(c: Config<T>, s: State<T>, mode: Prefetching, oid: ObjectId)
    requires Coherent(c, s) && Faithful(c, s) && Quiet(c, s)
    requires |s.order| == c.policyCap && s.order[0] == oid && Seen(s, oid).Some?
    requires mode.Ordered? && mode.first <= oid <= mode.last
    requires Wanted(mode, oid) != [] && Wanted(mode, oid)[0] !in s.cache
    ensures Get(c, s, mode, oid).outcome.Dangling?
  {
    hide Faithful, Quiet, Seen, Get, Wanted;
    GetQuiet(c, s, mode, oid);
    GetDanglesIff(c, s, mode, oid);
    assert Fifo.Touch(s.order, c.policyCap, oid).order == s.order;
    assert Misses(s.order, c.policyCap, Wanted(mode, oid)) >= 1;
  }

  // ---- Concrete runs ----

  const SMALL: Config<int> := Config(2, 2, true, 0, World((x: int) => x, (n: nat) => true))

  function Holding(m: map<ObjectId, int>): State<int> {
    State(map[], map[], [], m, map[], 0)
  }

  /** Prefetch 1, put 7 at 1, get 1: the get finds the 5 that was stored before. */
  lemma PutOnPrefetchIsLost()
    ensures var s := Holding(map[1 := 5]);
      var s1 := Prefetch(SMALL, s, 1).state;
      var s2 := Put(SMALL, s1, 1, 7).state;
      Get(SMALL, s2, Off, 1).outcome == Value(5)
  {
    var s := Holding(map[1 := 5]);
    var s0 := s.(order := [1]);
    assert MakeRoom(SMALL, s, 1) == Step(s0, Returned);
    var s1 := Prefetch(SMALL, s, 1).state;
    assert s1.order == [1] && s1.cache == map[1 := Entry(false, false, 0, 0)];
    assert MakeRoom(SMALL, s1, 1) == Step(s1, Returned);
    var s2 := Put(SMALL, s1, 1, 7).state;
    assert MakeRoom(SMALL, s2, 1) == Step(s2, Returned);
  }

  function Clean(v: int): Entry<int> {
    Entry(true, false, v, 0)
  }

  /** A full cache, with 1 the oldest id and 2 only in the store, after gets of 1 and 9. */
  function FullCache(): State<int> {
    State(map[1 := Clean(5), 9 := Clean(3)], map[], [1, 9], map[1 := 5, 2 := 6, 9 := 3],
          map[0 := Found(5), 1 := Found(3)], 2)
  }

  lemma RoomAlready<T>(c: Config<T>, s: State<T>, oid: ObjectId)
    requires oid !in s.order && oid !in s.cache
    requires |s.order| < c.policyCap && |s.cache| < c.maxSize
    ensures MakeRoom(c, s, oid) == Step(s.(order := s.order + [oid]), Returned)
  {
    hide Evict;
  }

  lemma NothingToForget<T>(c: Config<T>, s: State<T>, oid: ObjectId)
    requires oid !in s.pending
    ensures Forget(c, s, oid) == s
  {
    assert s.pending - {oid} == s.pending;
  }

  /** What a get of a stored id does to a cache with room that neither holds it nor has a write of it pending. */
  lemma GetWithRoom<T>(c: Config<T>, s: State<T>, oid: ObjectId)
    requires oid !in s.order && oid !in s.cache && oid !in s.pending && oid in s.drained
    requires |s.order| < c.policyCap && |s.cache| < c.maxSize
    ensures var v := s.drained[oid];
      Get(c, s, Off, oid).state == s.(order := s.order + [oid], cache := s.cache[oid := Entry(true, false, v, 0)],
        promises := s.promises[s.issued := Found(v)], issued := s.issued + 1)
  {
    hide MakeRoom, Forget;
    var s1 := s.(order := s.order + [oid]);
    RoomAlready(c, s, oid);
    NothingToForget(c, s1, oid);
    var v := s.drained[oid];
    assert s1.cache[oid := Entry(true, false, c.blank, 0)][oid := Entry(true, false, v, 0)]
        == s1.cache[oid := Entry(true, false, v, 0)];
  }

  lemma FullCacheReached()
    ensures var s := Holding(map[1 := 5, 2 := 6, 9 := 3]);
      var s1 := Get(SMALL, s, Off, 1).state;
      Get(SMALL, s1, Off, 9).state == FullCache()
  {
    hide Get;
    var s := Holding(map[1 := 5, 2 := 6, 9 := 3]);
    GetWithRoom(SMALL, s, 1);
    var s1 := Get(SMALL, s, Off, 1).state;
    assert s1 == State(map[1 := Clean(5)], map[], [1], s.drained, map[0 := Found(5)], 1);
    GetWithRoom(SMALL, s1, 9);
    assert [1] + [9] == [1, 9];
    assert s1.cache[9 := Clean(3)] == FullCache().cache && s1.promises[1 := Found(3)] == FullCache().promises;
  }

  lemma FullCacheFacts()
    ensures var s := FullCache();
      Coherent(SMALL, s) && Faithful(SMALL, s) && Quiet(SMALL, s) && Seen(s, 1) == Some(5)
  {
    var s := FullCache();
    assert s.order == [1, 9];
    assert Exposed(s) == {};
  }

  lemma OneAhead()
    ensures Wanted(Ordered(1, 2, 1), 1) == [2]
  {
    PrefetchRing.SlotListIsRingIff(1, 1, 2, 1);
  }

  /** Get 1, get 9, then get 1 reading ahead by one: the last get evicts the entry it is returning. */
  lemma HitCanDangle()
    ensures var s := Holding(map[1 := 5, 2 := 6, 9 := 3]);
      var s1 := Get(SMALL, s, Off, 1).state;
      var s2 := Get(SMALL, s1, Off, 9).state;
      Get(SMALL, s2, Ordered(1, 2, 1), 1).outcome.Dangling?
  {
    hide Get, Wanted, Coherent, Faithful, Seen, Quiet;
    FullCacheReached();
    FullCacheFacts();
    OneAhead();
    OldestHitDangles(SMALL, FullCache(), Ordered(1, 2, 1), 1);
  }

  lemma FailedLookup<T>(c: Config<T>, s: State<T>, oid: ObjectId)
    requires Lookup(c, s, oid).outcome.NoSuchIdThrown? && Faithful(c, s)
    ensures var t := Lookup(c, s, oid).state;
      (oid in s.cache ==> t == s) && (oid !in s.cache ==> Seen(t, oid) == Some(c.blank))
  {
  }

  /**
   * After a get of an absent id has thrown, nothing reads there exactly when the cache already had an entry for
   * it, a prefetch that found nothing. Otherwise the get has left a default object that the next get returns.
   */
  lemma FailedGetLeavesNothingIff<T>(c: Config<T>, s: State<T>, oid: ObjectId)
    requires Coherent(c, s) && Faithful(c, s) && Seen(s, oid) == None && !GetEntry(c, s, oid).outcome.StepsPastEnd?
    ensures var r := GetEntry(c, s, oid);
      && r.outcome.NoSuchIdThrown?
      && (Seen(r.state, oid) == None <==> oid in s.cache)
      && (oid !in s.cache ==> Seen(r.state, oid) == Some(c.blank))
  {
    hide MakeRoom, Coherent, Roomy, Faithful, Lookup, Forget;
    MakeRoomCoherent(c, s, oid);
    MakeRoomTransparent(c, s, oid);
    GetEntryTransparent(c, s, oid);
    var s1 := MakeRoom(c, s, oid).state;
    var s2 := Forget(c, s1, oid);
    ForgetRoomy(c, s1, oid);
    ForgetKeeps(c, s1, oid);
    ForgetTransparent(c, s1, oid);
    VictimIsOther(c, s, oid);
    assert Reads(c, s, s1, oid, oid);
    KeysWithinCapacity(c, s2, oid);
    FailedLookup(c, s2, oid);
  }
}
