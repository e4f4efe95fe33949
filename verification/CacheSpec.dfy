/** What each cache operation does, as functions of the cache's state and of what the store will answer. */
module CacheSpec {
  import opened Basics
  import opened RemoteStore
  import opened Eviction
  import Fifo = LrAddedEviction
  import PrefetchRing

  const HIGH_PEND: nat := 50

  datatype Entry<T> = Entry(cached: bool, dirty: bool, obj: T, future: nat)

  datatype Prefetching = Off | Ordered(first: u64, last: u64, readAhead: u64)

  /**
   * How a call ends: a value, a plain return, one of the exceptions, or undefined behaviour: `StepsPastEnd`
   * when the sweep over pending writes increments its end iterator, `Dangling` when `get` reads through a
   * pointer to an entry its own prefetches evicted, `DividesByZero` when the prefetching range is all 2^64 ids.
   */
  datatype Outcome<T> =
    | Value(obj: T) | Returned
    | NoSuchIdThrown | MemoryErrorThrown | OverCapacityThrown | NotCachedThrown | OutOfRangeThrown
    | StepsPastEnd | Dangling | DividesByZero

  datatype Config<!T> = Config(maxSize: nat, policyCap: nat, deferWrites: bool, blank: T, world: World<T>)

  /** The cache, its policy's deque, and the store as it stands once everything in flight is served. */
  datatype State<T> = State(
    cache: map<ObjectId, Entry<T>>,
    pending: map<ObjectId, nat>,
    order: seq<ObjectId>,
    drained: map<ObjectId, T>,
    promises: map<nat, Answer<T>>,
    issued: nat)

  datatype Step<T> = Step(state: State<T>, outcome: Outcome<T>)

  // ---- The operations ----

  function Submit<T>(c: Config<T>, s: State<T>, r: Request<T>): State<T> {
    var x := InFlight(s.issued, r);
    s.(drained := Effect(c.world, s.drained, x),
       promises := s.promises[s.issued := Reply(c.world, s.drained, x)],
       issued := s.issued + 1)
  }

  function AnswerOf<T>(s: State<T>, future: nat): Answer<T> {
    if future in s.promises then s.promises[future] else NoSuchId
  }

  /** Write a dirty entry back without waiting, then drop it. */
  function Evict<T>(c: Config<T>, s: State<T>, oid: ObjectId): Step<T> {
    if oid !in s.cache then Step(s, NotCachedThrown)
    else
      var e := s.cache[oid];
      var s1 := if c.deferWrites && e.dirty
                then Submit(c, s, PutRequest(oid, e.obj)).(pending := s.pending[oid := s.issued]) else s;
      if c.deferWrites && |s1.pending| > HIGH_PEND then Step(s1, StepsPastEnd)
      else Step(s1.(cache := s1.cache - {oid}), Returned)
  }

  function EvictAll<T>(c: Config<T>, s: State<T>, victims: seq<ObjectId>): Step<T>
    decreases |victims|
  {
    if victims == [] then Step(s, Returned)
    else
      var r := Evict(c, s, victims[0]);
      if r.outcome.Returned? then EvictAll(c, r.state, victims[1..]) else r
  }

  /** Ask the policy about `oid` and evict what it names. */
  function MakeRoom<T>(c: Config<T>, s: State<T>, oid: ObjectId): Step<T> {
    var d := Fifo.Touch(s.order, c.policyCap, oid);
    EvictAll(c, s.(order := d.order), d.victims)
  }

  function Forget<T>(c: Config<T>, s: State<T>, oid: ObjectId): State<T> {
    if c.deferWrites then s.(pending := s.pending - {oid}) else s
  }

  /** The lookup once there is room: a resolved hit, a hit on a prefetch, or a fetch from the store. */
  function Lookup<T>(c: Config<T>, s: State<T>, oid: ObjectId): Step<T> {
    if oid in s.cache then
      var e := s.cache[oid];
      if e.cached then Step(s, Value(e.obj))
      else
        match AnswerOf(s, e.future)
        case Found(v) => Step(s.(cache := s.cache[oid := e.(obj := v, cached := true)]), Value(v))
        case _ => Step(s, NoSuchIdThrown)
    else if |s.cache| == c.maxSize then Step(s, OverCapacityThrown)
    else
      var s1 := Submit(c, s.(cache := s.cache[oid := Entry(true, false, c.blank, 0)]), GetRequest(oid));
      match AnswerOf(s1, s.issued)
      case Found(v) => Step(s1.(cache := s1.cache[oid := Entry(true, false, v, 0)]), Value(v))
      case _ => Step(s1, NoSuchIdThrown)
  }

  /** `get` up to the point where it consults the prefetch policy. */
  function GetEntry<T>(c: Config<T>, s: State<T>, oid: ObjectId): Step<T> {
    var r := MakeRoom(c, s, oid);
    if r.outcome.Returned? then Lookup(c, Forget(c, r.state, oid), oid) else r
  }

  function Fill<T>(c: Config<T>, s: State<T>, oid: ObjectId, obj: T): Step<T> {
    if oid in s.cache then
      Step(s.(cache := s.cache[oid := s.cache[oid].(obj := obj, dirty := true)]), Returned)
    else if |s.cache| == c.maxSize then Step(s, OverCapacityThrown)
    else Step(s.(cache := s.cache[oid := Entry(true, true, obj, 0)]), Returned)
  }

  function WriteThrough<T>(c: Config<T>, s: State<T>, oid: ObjectId, obj: T): Step<T> {
    if c.deferWrites then Step(s, Returned)
    else
      var s1 := Submit(c, s, PutRequest(oid, obj));
      Step(s1, if AnswerOf(s1, s.issued).Done? then Returned else MemoryErrorThrown)
  }

  function Put<T>(c: Config<T>, s: State<T>, oid: ObjectId, obj: T): Step<T> {
    var r := MakeRoom(c, s, oid);
    if !r.outcome.Returned? then r
    else
      var f := Fill(c, r.state, oid, obj);
      if f.outcome.Returned? then WriteThrough(c, f.state, oid, obj) else f
  }

  function AskFor<T>(c: Config<T>, s: State<T>, oid: ObjectId): State<T> {
    if oid in s.cache then s
    else Submit(c, s.(cache := s.cache[oid := Entry(false, false, c.blank, s.issued)]), GetRequest(oid))
  }

  function Prefetch<T>(c: Config<T>, s: State<T>, oid: ObjectId): Step<T> {
    var r := MakeRoom(c, s, oid);
    if r.outcome.Returned? then Step(AskFor(c, r.state, oid), Returned) else r
  }

  function PrefetchAll<T>(c: Config<T>, s: State<T>, ids: seq<ObjectId>): Step<T>
    decreases |ids|
  {
    if ids == [] then Step(s, Returned)
    else
      var r := Prefetch(c, s, ids[0]);
      if r.outcome.Returned? then PrefetchAll(c, r.state, ids[1..]) else r
  }

  /** The ids a get of `oid` asks for in advance. */
  function Wanted(mode: Prefetching, oid: ObjectId): seq<ObjectId> {
    if mode.Off? || !PrefetchRing.IsRange(mode.first, mode.last) then []
    else PrefetchRing.SlotList(oid, mode.first, mode.last, 1, mode.readAhead)
  }

  /** `get`: the entry's value, read again through the entry after the prefetches the policy asked for. */
  function Get<T>(c: Config<T>, s: State<T>, mode: Prefetching, oid: ObjectId): Step<T> {
    var g := GetEntry(c, s, oid);
    if !g.outcome.Value? || mode.Off? then g
    else if !(mode.first <= oid <= mode.last) then Step(g.state, OutOfRangeThrown)
    else if mode.readAhead > 0 && !PrefetchRing.IsRange(mode.first, mode.last) then Step(g.state, DividesByZero)
    else
      var p := PrefetchAll(c, g.state, Wanted(mode, oid));
      if !p.outcome.Returned? then p
      else Step(p.state, if oid in p.state.cache then g.outcome else Dangling)
  }

  function Remove<T>(c: Config<T>, s: State<T>, oid: ObjectId): Step<T> {
    var s1 := Submit(c, s, RemoveRequest(oid));
    Step(s1.(cache := s1.cache - {oid}, order := Without(s1.order, oid)), Returned)
  }

  // ---- Coherence of cache and policy ----

  ghost predicate Coherent<T>(c: Config<T>, s: State<T>) {
    && 1 <= c.policyCap <= c.maxSize
    && NoDup(s.order) && |s.order| <= c.policyCap
    && (forall k :: k in s.cache <==> k in s.order)
    && |s.pending| <= HIGH_PEND
  }

  /** After room was made for `oid`: the policy already counts it, the cache may not hold it yet. */
  ghost predicate Roomy<T>(c: Config<T>, s: State<T>, oid: ObjectId) {
    && 1 <= c.policyCap <= c.maxSize
    && NoDup(s.order) && |s.order| <= c.policyCap && oid in s.order
    && (forall k :: k in s.cache || k == oid <==> k in s.order)
    && |s.pending| <= HIGH_PEND
  }

  lemma EvictAllOne<T>(c: Config<T>, s: State<T>, victims: seq<ObjectId>)
    requires |victims| == 1
    ensures EvictAll(c, s, victims) == Evict(c, s, victims[0])
  {
    hide Evict;
    var r := Evict(c, s, victims[0]);
    assert victims[1..] == [];
    assert r.outcome.Returned? ==> EvictAll(c, r.state, victims[1..]) == r;
  }

  lemma EvictFacts<T>(c: Config<T>, s: State<T>, oid: ObjectId)
    requires oid in s.cache
    ensures var r := Evict(c, s, oid);
      && (r.outcome.Returned? || r.outcome.StepsPastEnd?)
      && r.state.order == s.order
      && (r.outcome.Returned? ==> r.state.cache == s.cache - {oid})
      && (r.outcome.Returned? && |s.pending| <= HIGH_PEND ==> |r.state.pending| <= HIGH_PEND)
  {
  }

  /** The policy names at most one victim, so making room is at most one eviction. */
  lemma MakeRoomShape<T>(c: Config<T>, s: State<T>, oid: ObjectId)
    requires Coherent(c, s)
    ensures var d := Fifo.Touch(s.order, c.policyCap, oid);
      && |d.victims| <= 1
      && (d.victims == [] ==> MakeRoom(c, s, oid) == Step(s.(order := d.order), Returned))
      && (d.victims != [] ==>
            && MakeRoom(c, s, oid) == Evict(c, s.(order := d.order), d.victims[0])
            && d.victims[0] in s.cache && d.victims[0] != oid && oid !in s.cache)
  {
    hide Fifo.Touch, Evict, NoDup;
    Fifo.TouchKeeps(s.order, c.policyCap, oid);
    var d := Fifo.Touch(s.order, c.policyCap, oid);
    if d.victims != [] {
      EvictAllOne(c, s.(order := d.order), d.victims);
      assert d.victims[0] in d.victims;
    }
  }

  /** Making room never asks to evict an id that is not cached. */
  lemma MakeRoomCoherent<T>(c: Config<T>, s: State<T>, oid: ObjectId)
    requires Coherent(c, s)
    ensures var r := MakeRoom(c, s, oid);
      && (r.outcome.Returned? || r.outcome.StepsPastEnd?)
      && (r.outcome.Returned? ==> Roomy(c, r.state, oid) && (oid in s.cache <==> oid in r.state.cache))
  {
    hide Fifo.Touch, Evict, MakeRoom, NoDup;
    MakeRoomShape(c, s, oid);
    Fifo.TouchKeeps(s.order, c.policyCap, oid);
    var d := Fifo.Touch(s.order, c.policyCap, oid);
    if d.victims != [] {
      EvictFacts(c, s.(order := d.order), d.victims[0]);
      assert forall k :: k in d.victims <==> k == d.victims[0];
    }
  }

  lemma KeysWithinCapacity<T>(c: Config<T>, s: State<T>, oid: ObjectId)
    requires Roomy(c, s, oid)
    ensures oid !in s.cache ==> |s.cache| < c.maxSize
    ensures oid in s.cache ==> |s.cache| <= c.maxSize
  {
    hide NoDup;
    NoDupCardinality(s.order);
    var keys := s.cache.Keys + {oid};
    forall k | k in keys ensures k in SetOf(s.order) {
      assert k in s.order;
    }
    SubsetCardinality(keys, SetOf(s.order));
    assert oid !in s.cache ==> |keys| == |s.cache.Keys| + 1;
    assert oid in s.cache ==> keys == s.cache.Keys;
  }

  lemma LookupCoherent<T>(c: Config<T>, s: State<T>, oid: ObjectId)
    requires Roomy(c, s, oid)
    ensures var r := Lookup(c, s, oid);
      Coherent(c, r.state) && (r.outcome.Value? || r.outcome.NoSuchIdThrown?)
  {
    hide NoDup;
    KeysWithinCapacity(c, s, oid);
  }

  /** Neither of the exceptions that guard the capacity and the eviction is ever thrown. */
  ghost predicate Sound<T>(c: Config<T>, r: Step<T>) {
    && !r.outcome.OverCapacityThrown? && !r.outcome.NotCachedThrown?
    && (r.outcome.StepsPastEnd? || Coherent(c, r.state))
  }

  lemma GetEntryCoherent<T>(c: Config<T>, s: State<T>, oid: ObjectId)
    requires Coherent(c, s)
    ensures Sound(c, GetEntry(c, s, oid))
    ensures GetEntry(c, s, oid).outcome.Value? ==> oid in GetEntry(c, s, oid).state.cache
  {
    hide MakeRoom, Lookup, NoDup;
    MakeRoomCoherent(c, s, oid);
    var r := MakeRoom(c, s, oid);
    if r.outcome.Returned? {
      var s1 := Forget(c, r.state, oid);
      ForgetRoomy(c, r.state, oid);
      LookupCoherent(c, s1, oid);
      LookupHolds(c, s1, oid);
    }
  }

  lemma LookupHolds<T>(c: Config<T>, s: State<T>, oid: ObjectId)
    ensures Lookup(c, s, oid).outcome.Value? ==> oid in Lookup(c, s, oid).state.cache
  {
  }

  lemma ForgetRoomy<T>(c: Config<T>, s: State<T>, oid: ObjectId)
    requires Roomy(c, s, oid)
    ensures Roomy(c, Forget(c, s, oid), oid)
  {
    SubsetCardinality((s.pending - {oid}).Keys, s.pending.Keys);
  }

  lemma PutCoherent<T>(c: Config<T>, s: State<T>, oid: ObjectId, obj: T)
    requires Coherent(c, s)
    ensures Sound(c, Put(c, s, oid, obj))
  {
    hide MakeRoom, NoDup;
    MakeRoomCoherent(c, s, oid);
    var r := MakeRoom(c, s, oid);
    if r.outcome.Returned? {
      KeysWithinCapacity(c, r.state, oid);
    }
  }

  lemma PrefetchCoherent<T>(c: Config<T>, s: State<T>, oid: ObjectId)
    requires Coherent(c, s)
    ensures Sound(c, Prefetch(c, s, oid))
    ensures var o := Prefetch(c, s, oid).outcome; o.Returned? || o.StepsPastEnd?
  {
    hide MakeRoom, NoDup;
    MakeRoomCoherent(c, s, oid);
    var r := MakeRoom(c, s, oid);
    if r.outcome.Returned? {
      KeysWithinCapacity(c, r.state, oid);
    }
  }

  lemma {:induction false} PrefetchAllCoherent<T>(c: Config<T>, s: State<T>, ids: seq<ObjectId>)
    requires Coherent(c, s)
    ensures Sound(c, PrefetchAll(c, s, ids))
    ensures var o := PrefetchAll(c, s, ids).outcome; o.Returned? || o.StepsPastEnd?
    decreases |ids|
  {
    hide Prefetch, Coherent;
    if ids != [] {
      PrefetchCoherent(c, s, ids[0]);
      if Prefetch(c, s, ids[0]).outcome.Returned? {
        PrefetchAllCoherent(c, Prefetch(c, s, ids[0]).state, ids[1..]);
      }
    }
  }

  lemma GetCoherent<T>(c: Config<T>, s: State<T>, mode: Prefetching, oid: ObjectId)
    requires Coherent(c, s)
    ensures Sound(c, Get(c, s, mode, oid))
  {
    hide GetEntry, PrefetchAll, Coherent;
    GetEntryCoherent(c, s, oid);
    var g := GetEntry(c, s, oid);
    if g.outcome.Value? {
      PrefetchAllCoherent(c, g.state, Wanted(mode, oid));
    }
  }

  lemma {:induction false} WithoutMembers(s: seq<ObjectId>, oid: ObjectId)
    ensures |Without(s, oid)| <= |s|
    ensures forall k :: k in Without(s, oid) <==> k in s && k != oid
  {
    if s != [] {
      WithoutMembers(s[1..], oid);
    }
  }

  lemma RemoveCoherent<T>(c: Config<T>, s: State<T>, oid: ObjectId)
    requires Coherent(c, s)
    ensures Sound(c, Remove(c, s, oid))
  {
    hide Without, NoDup;
    WithoutNoDup(s.order, oid);
    WithoutMembers(s.order, oid);
  }
}
