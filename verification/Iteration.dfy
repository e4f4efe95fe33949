/** Iterating over a range of ids through the cache, reading ahead. */
module Iteration {
  import opened Basics
  import opened Cache
  import opened CacheSpec
  import opened CacheTransparency
  import opened CacheLimits
  import Effects = CacheEffects
  import Fifo = LrAddedEviction
  import PrefetchRing

  // ---- One dereference ----

  /** Prefetch what the iterator's policy names, then get the current id. */
  function Deref<T>(c: Config<T>, s: State<T>, ids: seq<ObjectId>, oid: ObjectId): Step<T> {
    var p := PrefetchAll(c, s, ids);
    if p.outcome.Returned? then Get(c, p.state, Off, oid) else p
  }

  ghost predicate Sane<T(!new)>(c: Config<T>, s: State<T>) {
    Coherent(c, s) && Faithful(c, s) && Lossless(c)
  }

  ghost predicate SameReads<T>(s: State<T>, t: State<T>) {
    forall k :: Seen(t, k) == Seen(s, k)
  }

  lemma SameReadsSelf<T>(s: State<T>)
    ensures SameReads(s, s)
  {
  }

  lemma SameReadsAt<T>(s: State<T>, t: State<T>, k: ObjectId)
    requires SameReads(s, t)
    ensures Seen(t, k) == Seen(s, k)
  {
  }

  lemma SameReadsThen<T>(s: State<T>, t: State<T>, u: State<T>)
    requires SameReads(s, t) && SameReads(t, u)
    ensures SameReads(s, u)
  {
    hide Seen;
    forall k ensures Seen(u, k) == Seen(s, k) {
      SameReadsAt(s, t, k);
      SameReadsAt(t, u, k);
    }
  }

  /** However the prefetches thrash the cache, the dereference reads what the range holds. */
  lemma DerefTransparent<T(!new)>(c: Config<T>, s: State<T>, ids: seq<ObjectId>, oid: ObjectId)
    requires Sane(c, s)
    ensures var r := Deref(c, s, ids, oid);
      && (r.outcome.Value? || r.outcome.NoSuchIdThrown? || r.outcome.StepsPastEnd?)
      && (r.outcome.Value? ==> Seen(s, oid) == Some(r.outcome.obj) && Sane(c, r.state) && SameReads(s, r.state))
      && (r.outcome.NoSuchIdThrown? ==> Seen(s, oid) == None)
      && (Quiet(c, s) ==> !r.outcome.StepsPastEnd? && Quiet(c, r.state))
  {
    hide PrefetchAll, GetEntry, Coherent, Faithful, Lossless, Seen, Quiet;
    var p := PrefetchAll(c, s, ids);
    PrefetchAllCoherent(c, s, ids);
    if p.outcome.Returned? {
      PrefetchAllTransparent(c, s, ids);
      GetTransparent(c, p.state, Off, oid);
      EntryDefined(c, p.state, oid);
    }
    if Quiet(c, s) {
      PrefetchAllQuiet(c, s, ids);
      GetEntryQuiet(c, p.state, oid);
    }
  }

  /** With room for them, a dereference leaves the ids it prefetched cached beside the one it read. */
  lemma DerefReadsAhead<T>(c: Config<T>, s: State<T>, ids: seq<ObjectId>, oid: ObjectId)
    requires Coherent(c, s) && Deref(c, s, ids, oid).outcome.Value? && |s.order| + |ids| + 1 <= c.policyCap
    ensures forall k :: k in ids || k == oid ==> k in Deref(c, s, ids, oid).state.cache
  {
    hide PrefetchAll, GetEntry, TouchAll, Fifo.Touch;
    var p := PrefetchAll(c, s, ids);
    PrefetchAllCoherent(c, s, ids);
    PrefetchAllOrder(c, s, ids);
    GetEntryCoherent(c, p.state, oid);
    GetEntryOrder(c, p.state, oid);
    Effects.TouchAllLast(s.order, c.policyCap, ids, oid);
    Effects.TouchAllKeeps(s.order, c.policyCap, ids + [oid]);
  }

  method Dereference<T>(cm: CacheManager<T>, ids: seq<ObjectId>, oid: ObjectId) returns (outcome: Outcome<T>)
    requires cm.Valid() && cm.mode.Off?
    modifies cm`cache, cm`pendingWrites, cm.store, cm.policy
    ensures cm.Did(outcome, Deref(cm.Setup(), old(cm.Now()), ids, oid))
  {
    hide PrefetchAll, Get, CacheManager.Valid;
    outcome := cm.PrefetchAll(ids);
    if outcome.Returned? {
      outcome := cm.Get(oid);
    }
  }

  // ---- In order ----

  class OrderedPolicy {
    var first: u64
    var last: u64
    var readAhead: u32
    var currentId: u64

    /** A policy at the beginning of the range, or one past its end. */
    constructor (first: u64, last: u64, readAhead: u32, atEnd: bool)
      ensures this.first == first && this.last == last && this.readAhead == readAhead
      ensures currentId == if atEnd then Add64(last, 1) else first
    {
      this.first := first;
      this.last := last;
      this.readAhead := readAhead;
      currentId := if atEnd then Add64(last, 1) else first;
    }

    method GetPrefetchList() returns (ids: seq<ObjectId>)
      requires PrefetchRing.IsRange(first, last) && first <= currentId <= last
      ensures ids == PrefetchRing.SlotList(currentId, first, last, 1, readAhead)
    {
      ids := PrefetchRing.PrefetchList(currentId, first, last, readAhead, TWO32);
    }

    method Increment()
      modifies this`currentId
      ensures currentId == Add64(old(currentId), 1)
    {
      currentId := Add64(currentId, 1);
    }
  }

  /** How a loop over the ids `at(0), .. at(n - 1)` may end, and the objects it has read by then. */
  ghost predicate Reading<T(!new)>(c: Config<T>, s: State<T>, ids: seq<ObjectId>, values: seq<T>, outcome: Outcome<T>) {
    && |values| <= |ids|
    && (forall i :: 0 <= i < |values| ==> Seen(s, ids[i]) == Some(values[i]))
    && (outcome.Returned? || outcome.NoSuchIdThrown? || outcome.StepsPastEnd?)
    && (outcome.Returned? ==> |values| == |ids|)
    && (outcome.NoSuchIdThrown? ==> |values| < |ids| && Seen(s, ids[|values|]) == None)
    && (Quiet(c, s) ==> !outcome.StepsPastEnd?)
  }

  /** A loop over `ids` that began in `s`, has read `values` and is now in `t`. */
  ghost predicate Progress<T(!new)>(c: Config<T>, s: State<T>, t: State<T>, ids: seq<ObjectId>, values: seq<T>) {
    && |values| <= |ids|
    && Sane(c, t) && SameReads(s, t) && (Quiet(c, s) ==> Quiet(c, t))
    && (forall i :: 0 <= i < |values| ==> Seen(s, ids[i]) == Some(values[i]))
  }

  lemma NoProgress<T(!new)>(c: Config<T>, s: State<T>, ids: seq<ObjectId>)
    requires Sane(c, s)
    ensures Progress(c, s, s, ids, [])
  {
    hide Sane, Seen, Quiet;
  }

  lemma ProgressStep<T(!new)>(
      c: Config<T>, s: State<T>, t: State<T>, ids: seq<ObjectId>, values: seq<T>, ahead: seq<ObjectId>)
    requires Progress(c, s, t, ids, values) && |values| < |ids|
    ensures var r := Deref(c, t, ahead, ids[|values|]);
      if r.outcome.Value? then Progress(c, s, r.state, ids, values + [r.outcome.obj])
      else !r.outcome.Returned? && Reading(c, s, ids, values, r.outcome)
  {
    hide Deref, Sane, Seen, Quiet, SameReads;
    var oid := ids[|values|];
    DerefTransparent(c, t, ahead, oid);
    SameReadsAt(s, t, oid);
    var r := Deref(c, t, ahead, oid);
    if r.outcome.Value? {
      SameReadsThen(s, t, r.state);
    }
  }

  lemma ProgressDone<T(!new)>(c: Config<T>, s: State<T>, t: State<T>, ids: seq<ObjectId>, values: seq<T>)
    requires Progress(c, s, t, ids, values) && |values| == |ids|
    ensures Reading(c, s, ids, values, Returned) && Sane(c, t) && SameReads(s, t)
    ensures seq(|values|, i requires 0 <= i < |values| => Some(values[i])) == Readings(s, ids)
  {
    hide Sane, Seen, Quiet, SameReads;
  }

  function IdRange(first: u64, last: u64): seq<ObjectId> {
    if first <= last then seq(last - first + 1, i requires 0 <= i < last - first + 1 => first + i) else []
  }

  /** Counting up from the first id meets one past the last after the whole range, and not before. */
  lemma BeginMeetsEnd(first: u64, last: u64, i: nat)
    requires PrefetchRing.IsRange(first, last) && i <= last - first + 1
    ensures (first + i) % TWO64 == Add64(last, 1) <==> i == last - first + 1
    ensures i <= last - first ==> (first + i) % TWO64 == first + i
    ensures i <= last - first ==> Add64(first + i, 1) == (first + i + 1) % TWO64
  {
    PrefetchRing.ModUnder(first + i, TWO64);
    PrefetchRing.ModUnder(last + 1, TWO64);
  }

  /** The ids an ordered iterator at `id` prefetches. */
  function NextOrdered(first: u64, last: u64, readAhead: u32, id: u64): seq<ObjectId> {
    if PrefetchRing.IsRange(first, last) then PrefetchRing.SlotList(id, first, last, 1, readAhead) else []
  }

  /** The state after dereferencing the first `n` ids of the range in order. */
  ghost function AfterOrdered<T>(c: Config<T>, s: State<T>, first: u64, last: u64, readAhead: u32, n: nat): State<T>
    requires first + n <= TWO64
  {
    if n == 0 then s
    else
      var before := AfterOrdered(c, s, first, last, readAhead, n - 1);
      Deref(c, before, NextOrdered(first, last, readAhead, first + n - 1), first + n - 1).state
  }

  lemma AfterOrderedBegin<T>(c: Config<T>, s: State<T>, first: u64, last: u64, readAhead: u32)
    ensures AfterOrdered(c, s, first, last, readAhead, 0) == s
  {
  }

  lemma AfterOrderedStep<T>(c: Config<T>, s: State<T>, first: u64, last: u64, readAhead: u32, n: nat)
    requires first + n < TWO64 && PrefetchRing.IsRange(first, last)
    ensures AfterOrdered(c, s, first, last, readAhead, n + 1)
      == Deref(c, AfterOrdered(c, s, first, last, readAhead, n),
               PrefetchRing.SlotList(first + n, first, last, 1, readAhead), first + n).state
  {
    hide Deref, PrefetchRing.SlotList;
  }

  /**
   * A loop from `begin()` to `end()` reads the objects of the range in order, up to the first one missing.
   * Only over all 2^64 ids, where one past the last is the first, does it read nothing.
   */
  method IterateOrdered<T(!new)>(cm: CacheManager<T>, first: u64, last: u64, readAhead: u32)
    returns (outcome: Outcome<T>, values: seq<T>)
    requires cm.Valid() && cm.mode.Off? && Sane(cm.Setup(), cm.Now()) && first <= last
    modifies cm`cache, cm`pendingWrites, cm.store, cm.policy
    ensures PrefetchRing.IsRange(first, last) ==>
      Reading(cm.Setup(), old(cm.Now()), IdRange(first, last), values, outcome)
    ensures !PrefetchRing.IsRange(first, last) ==> outcome.Returned? && values == []
    ensures outcome.Returned? ==> cm.Valid() && Sane(cm.Setup(), cm.Now()) && SameReads(old(cm.Now()), cm.Now())
    ensures outcome.Returned? && PrefetchRing.IsRange(first, last) ==>
      cm.Now() == AfterOrdered(cm.Setup(), old(cm.Now()), first, last, readAhead, last - first + 1)
  {
    hide CacheManager.Valid, CacheManager.Now, Deref, Sane, PrefetchRing.SlotList, Add64, SameReads;
    hide Progress, Reading, AfterOrdered;
    SameReadsSelf(cm.Now());
    var it := new OrderedPolicy(first, last, readAhead, false);
    var end := new OrderedPolicy(first, last, readAhead, true);
    values := [];
    ghost var c, s, range := cm.Setup(), cm.Now(), IdRange(first, last);
    NoProgress(c, s, range);
    AfterOrderedBegin(c, s, first, last, readAhead);
    if !PrefetchRing.IsRange(first, last) {
      FullRange(first, last);
    }
    while it.currentId != end.currentId
      invariant fresh(it) && it.first == first && it.last == last && it.readAhead == readAhead
      invariant PrefetchRing.IsRange(first, last) || (values == [] && it.currentId == end.currentId && cm.Now() == s)
      invariant end.currentId == Add64(last, 1)
      invariant |values| <= last - first + 1 && it.currentId == (first + |values|) % TWO64
      invariant cm.Valid() && Progress(c, s, cm.Now(), range, values)
      invariant cm.Now() == AfterOrdered(c, s, first, last, readAhead, |values|)
      decreases last - first + 1 - |values|
    {
      BeginMeetsEnd(first, last, |values|);
      var ids := it.GetPrefetchList();
      AfterOrderedStep(c, s, first, last, readAhead, |values|);
      ProgressStep(c, s, cm.Now(), range, values, ids);
      outcome := Dereference(cm, ids, it.currentId);
      if !outcome.Value? {
        return;
      }
      values := values + [outcome.obj];
      it.Increment();
    }
    if PrefetchRing.IsRange(first, last) {
      BeginMeetsEnd(first, last, |values|);
      ProgressDone(c, s, cm.Now(), range, values);
    }
    outcome := Returned;
  }

  lemma FullRange(first: u64, last: u64)
    requires first <= last && !PrefetchRing.IsRange(first, last)
    ensures first == 0 == Add64(last, 1)
  {
  }

  // ---- In shuffled order ----

  /** `std::shuffle`: every element changes places with a random one at or before it. */
  method Shuffle(ids: seq<ObjectId>) returns (r: seq<ObjectId>)
    ensures |r| == |ids| && multiset(r) == multiset(ids)
  {
    r := ids;
    var i := |r|;
    while i > 0
      invariant i <= |r| == |ids| && multiset(r) == multiset(ids)
    {
      i := i - 1;
      var j :| 0 <= j <= i;
      r := r[i := r[j]][j := r[i]];
    }
  }

  method BuildIds(first: u64, last: u64) returns (ids: seq<ObjectId>)
    requires first <= last < TWO64 - 1
    ensures ids == IdRange(first, last)
  {
    hide Add64;
    ids := [];
    var i := first;
    while i <= last
      invariant first <= i <= last + 1 && ids == IdRange(first, last)[..i - first]
    {
      ids := ids + [i];
      Add64Exact(i, 1);
      i := Add64(i, 1);
    }
  }

  class UnorderedPolicy {
    var readAhead: u32
    var currentIndex: u64
    var idVector: seq<ObjectId>

    /** A policy over the shuffled range, at its beginning or one past its end. */
    constructor (first: u64, last: u64, readAhead: u32, atEnd: bool)
      requires first <= last < TWO64 - 1
      ensures this.readAhead == readAhead && multiset(idVector) == multiset(IdRange(first, last))
      ensures |idVector| == last - first + 1 && currentIndex == if atEnd then |idVector| else 0
    {
      var ids := BuildIds(first, last);
      ids := Shuffle(ids);
      Sub64Exact(last, first);
      Add64Exact(last - first, 1);
      this.readAhead := readAhead;
      currentIndex := if atEnd then Add64(Sub64(last, first), 1) else 0;
      idVector := ids;
    }

    /** The ids that come next, as many as are left. A 32-bit counter never passes the largest read-ahead. */
    method GetPrefetchList() returns (ids: seq<ObjectId>)
      requires currentIndex < |idVector| && readAhead < TWO32 - 1
      ensures |idVector| + TWO32 <= TWO64 ==>
        ids == idVector[currentIndex + 1..PrefetchRing.Min(currentIndex + 1 + readAhead, |idVector|)]
    {
      hide Add64;
      ids := [];
      var i := 1;
      while i <= readAhead
        invariant 1 <= i <= readAhead + 1
        invariant |idVector| + TWO32 <= TWO64 ==>
          ids == idVector[currentIndex + 1..PrefetchRing.Min(currentIndex + i, |idVector|)]
      {
        Add64Exact(currentIndex, i);
        if Add64(currentIndex, i) < |idVector| {
          ids := ids + [idVector[Add64(currentIndex, i)]];
        }
        i := i + 1;
      }
    }

    method Increment()
      modifies this`currentIndex
      ensures currentIndex == Add64(old(currentIndex), 1)
    {
      currentIndex := Add64(currentIndex, 1);
    }
  }

  /** The objects `m` reads at `ids`, where there are any. */
  ghost function Readings<T>(s: State<T>, ids: seq<ObjectId>): seq<Option<T>> {
    seq(|ids|, i requires 0 <= i < |ids| => Seen(s, ids[i]))
  }

  lemma ReadingsConcat<T>(s: State<T>, a: seq<ObjectId>, b: seq<ObjectId>)
    ensures Readings(s, a + b) == Readings(s, a) + Readings(s, b)
  {
    hide Seen;
  }

  lemma ReadingOne<T>(s: State<T>, k: ObjectId)
    ensures Readings(s, [k]) == [Seen(s, k)]
  {
  }

  lemma Cancel<X>(x: X, tail: seq<X>, front: seq<X>, back: seq<X>)
    ensures multiset([x] + tail) == multiset(front + ([x] + back)) <==> multiset(tail) == multiset(front + back)
  {
    var one := multiset{x};
    assert multiset([x] + tail) == one + multiset(tail);
    assert multiset(front + ([x] + back)) == one + multiset(front + back);
    assert one + multiset(tail) - one == multiset(tail);
    assert one + multiset(front + back) - one == multiset(front + back);
  }

  lemma ReadingsInsert<T>(s: State<T>, k: ObjectId, tail: seq<ObjectId>, front: seq<ObjectId>, back: seq<ObjectId>)
    requires multiset(Readings(s, tail)) == multiset(Readings(s, front + back))
    ensures multiset(Readings(s, [k] + tail)) == multiset(Readings(s, front + ([k] + back)))
  {
    ReadingOne(s, k);
    hide Readings;
    ReadingsConcat(s, [k], tail);
    ReadingsConcat(s, front, [k] + back);
    ReadingsConcat(s, [k], back);
    ReadingsConcat(s, front, back);
    Cancel(Seen(s, k), Readings(s, tail), Readings(s, front), Readings(s, back));
  }

  /** Reading a rearrangement of the ids reads a rearrangement of the objects. */
  lemma {:induction false} ReadingsPermute<T>(s: State<T>, a: seq<ObjectId>, b: seq<ObjectId>)
    requires multiset(a) == multiset(b)
    ensures multiset(Readings(s, a)) == multiset(Readings(s, b))
    decreases |a|
  {
    if a == [] {
      assert |multiset(b)| == 0;
    } else {
      hide Readings;
      assert a[0] in multiset(b);
      var j :| 0 <= j < |b| && b[j] == a[0];
      var front, back := b[..j], b[j + 1..];
      assert b == front + ([a[0]] + back) && a == [a[0]] + a[1..];
      Cancel(a[0], a[1..], front, back);
      ReadingsPermute(s, a[1..], front + back);
      ReadingsInsert(s, a[0], a[1..], front, back);
    }
  }

  /** The state after dereferencing the first `n` of the shuffled ids. */
  ghost function AfterUnordered<T>(c: Config<T>, s: State<T>, ids: seq<ObjectId>, readAhead: u32, n: nat): State<T>
    requires n <= |ids|
  {
    if n == 0 then s
    else
      var before := AfterUnordered(c, s, ids, readAhead, n - 1);
      Deref(c, before, ids[n..PrefetchRing.Min(n + readAhead, |ids|)], ids[n - 1]).state
  }

  lemma AfterUnorderedBegin<T>(c: Config<T>, s: State<T>, ids: seq<ObjectId>, readAhead: u32)
    ensures AfterUnordered(c, s, ids, readAhead, 0) == s
  {
  }

  lemma AfterUnorderedStep<T>(c: Config<T>, s: State<T>, ids: seq<ObjectId>, readAhead: u32, n: nat)
    requires n < |ids|
    ensures AfterUnordered(c, s, ids, readAhead, n + 1)
      == Deref(c, AfterUnordered(c, s, ids, readAhead, n),
               ids[n + 1..PrefetchRing.Min(n + 1 + readAhead, |ids|)], ids[n]).state
  {
    hide Deref;
  }

  /** A loop in shuffled order reads each object of the range once. */
  method IterateUnordered<T(!new)>(cm: CacheManager<T>, first: u64, last: u64, readAhead: u32)
    returns (outcome: Outcome<T>, values: seq<T>, ids: seq<ObjectId>)
    requires cm.Valid() && cm.mode.Off? && Sane(cm.Setup(), cm.Now())
    requires first <= last < TWO64 - 1 && readAhead < TWO32 - 1
    modifies cm`cache, cm`pendingWrites, cm.store, cm.policy
    ensures multiset(ids) == multiset(IdRange(first, last)) && Reading(cm.Setup(), old(cm.Now()), ids, values, outcome)
    ensures outcome.Returned? ==> cm.Valid() && Sane(cm.Setup(), cm.Now()) && SameReads(old(cm.Now()), cm.Now())
    ensures outcome.Returned? ==>
      multiset(seq(|values|, i requires 0 <= i < |values| => Some(values[i])))
        == multiset(Readings(old(cm.Now()), IdRange(first, last)))
    ensures outcome.Returned? && |ids| + TWO32 <= TWO64 ==>
      cm.Now() == AfterUnordered(cm.Setup(), old(cm.Now()), ids, readAhead, |ids|)
  {
    hide CacheManager.Valid, CacheManager.Now, Deref, Sane, Add64, SameReads;
    hide Progress, Reading, AfterUnordered, IdRange, Readings;
    var it := new UnorderedPolicy(first, last, readAhead, false);
    var end := new UnorderedPolicy(first, last, readAhead, true);
    values := [];
    ids := it.idVector;
    ghost var c, s := cm.Setup(), cm.Now();
    NoProgress(c, s, ids);
    AfterUnorderedBegin(c, s, ids, readAhead);
    while it.currentIndex != end.currentIndex
      invariant fresh(it) && it.idVector == ids && it.readAhead == readAhead && end.currentIndex == |ids|
      invariant |values| <= |ids| && it.currentIndex == |values|
      invariant cm.Valid() && Progress(c, s, cm.Now(), ids, values)
      invariant |ids| + TWO32 <= TWO64 ==> cm.Now() == AfterUnordered(c, s, ids, readAhead, |values|)
      decreases |ids| - |values|
    {
      Add64Exact(it.currentIndex, 1);
      var ahead := it.GetPrefetchList();
      AfterUnorderedStep(c, s, ids, readAhead, |values|);
      ProgressStep(c, s, cm.Now(), ids, values, ahead);
      outcome := Dereference(cm, ahead, ids[it.currentIndex]);
      if !outcome.Value? {
        return;
      }
      values := values + [outcome.obj];
      it.Increment();
    }
    outcome := Returned;
    ProgressDone(c, s, cm.Now(), ids, values);
    ReadingsPermute(s, ids, IdRange(first, last));
  }
}
