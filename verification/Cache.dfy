/** The cache manager itself: each call does to the objects in the heap what its specification says. */
module Cache {
  import opened Basics
  import opened RemoteStore
  import opened LrAddedEviction
  import PrefetchRing
  import Effects = CacheEffects
  import Spec = CacheSpec

  predicate IsWrite<T>(a: Answer<T>) {
    a.Done? || a.MemoryError?
  }

  /** The pending writes have futures of their own, that nobody has polled yet. */
  ghost predicate Unpolled(pending: map<ObjectId, nat>, issued: nat, locked: set<nat>) {
    && (forall k :: k in pending ==> pending[k] < issued && pending[k] !in locked)
    && (forall j, k :: j in pending && k in pending && j != k ==> pending[j] != pending[k])
  }

  /** Each pending write will get a write's answer, each unresolved prefetch a read's. */
  ghost predicate Answered<T>(pending: map<ObjectId, nat>, cache: map<ObjectId, Spec.Entry<T>>,
                              promises: map<nat, Answer<T>>, issued: nat) {
    && (forall k :: k in pending ==> pending[k] in promises && IsWrite(promises[pending[k]]))
    && (forall k :: k in cache && !cache[k].cached ==> IsFetch(cache[k], promises, issued))
  }

  ghost predicate IsFetch<T>(e: Spec.Entry<T>, promises: map<nat, Answer<T>>, issued: nat) {
    e.future < issued && e.future in promises && !IsWrite(promises[e.future])
  }

  /** A new request leaves the futures already out as they are. */
  lemma SubmitKeeps<T>(pending: map<ObjectId, nat>, cache: map<ObjectId, Spec.Entry<T>>, promises: map<nat, Answer<T>>,
                       issued: nat, locked: set<nat>, a: Answer<T>, lockedNow: set<nat>)
    requires Unpolled(pending, issued, locked) && Answered(pending, cache, promises, issued)
    requires lockedNow <= locked + {issued}
    ensures Unpolled(pending, issued + 1, lockedNow) && Answered(pending, cache, promises[issued := a], issued + 1)
  {
  }

  lemma PostKeeps<T>(pending: map<ObjectId, nat>, cache: map<ObjectId, Spec.Entry<T>>, promises: map<nat, Answer<T>>,
                     issued: nat, locked: set<nat>, a: Answer<T>, oid: ObjectId)
    requires Unpolled(pending, issued, locked) && Answered(pending, cache, promises, issued)
    requires IsWrite(a) && issued !in locked
    ensures Unpolled(pending[oid := issued], issued + 1, locked)
    ensures Answered(pending[oid := issued], cache, promises[issued := a], issued + 1)
  {
  }

  lemma UpdateSize(pending: map<ObjectId, nat>, oid: ObjectId, future: nat)
    ensures |pending[oid := future]| <= |pending| + 1
  {
    assert pending[oid := future].Keys == pending.Keys + {oid};
    assert |pending[oid := future]| == |pending[oid := future].Keys| && |pending| == |pending.Keys|;
  }

  /** Entries may go or be resolved. */
  lemma EntriesKeep<T>(pending: map<ObjectId, nat>, cache: map<ObjectId, Spec.Entry<T>>,
                       cacheNow: map<ObjectId, Spec.Entry<T>>,
                       promises: map<nat, Answer<T>>, issued: nat)
    requires Answered(pending, cache, promises, issued)
    requires forall k :: k in cacheNow && !cacheNow[k].cached ==>
      IsFetch(cacheNow[k], promises, issued) || (k in cache && !cache[k].cached
        && cacheNow[k].future == cache[k].future)
    ensures Answered(pending, cacheNow, promises, issued)
  {
  }

  lemma PendingIssued(pending: map<ObjectId, nat>, issued: nat, locked: set<nat>, oid: ObjectId)
    requires Unpolled(pending, issued, locked) && oid in pending
    ensures pending[oid] < issued
  {
  }

  lemma FetchIssued<T>(pending: map<ObjectId, nat>, cache: map<ObjectId, Spec.Entry<T>>,
                       promises: map<nat, Answer<T>>, issued: nat, oid: ObjectId)
    requires Answered(pending, cache, promises, issued) && oid in cache && !cache[oid].cached
    ensures cache[oid].future < issued && cache[oid].future in promises && !IsWrite(promises[cache[oid].future])
  {
  }

  lemma IsFetchNow<T>(e: Spec.Entry<T>, promises: map<nat, Answer<T>>, issued: nat)
    requires e.future < issued && e.future in promises && !IsWrite(promises[e.future])
    ensures IsFetch(e, promises, issued)
  {
  }

  lemma WaitKeeps<T>(pending: map<ObjectId, nat>, cache: map<ObjectId, Spec.Entry<T>>, promises: map<nat, Answer<T>>,
                     issued: nat, locked: set<nat>, oid: ObjectId, lockedNow: set<nat>)
    requires Unpolled(pending, issued, locked) && Answered(pending, cache, promises, issued)
    requires oid in cache && !cache[oid].cached && lockedNow <= locked + {cache[oid].future}
    ensures Unpolled(pending, issued, lockedNow)
  {
  }

  lemma SettleKeeps<T>(pending: map<ObjectId, nat>, cache: map<ObjectId, Spec.Entry<T>>, promises: map<nat, Answer<T>>,
                       issued: nat, locked: set<nat>, oid: ObjectId, lockedNow: set<nat>)
    requires Unpolled(pending, issued, locked) && Answered(pending, cache, promises, issued)
    requires oid in pending && lockedNow <= locked + {pending[oid]}
    ensures Unpolled(pending - {oid}, issued, lockedNow) && Answered(pending - {oid}, cache, promises, issued)
    ensures |pending - {oid}| <= |pending|
  {
    SubsetCardinality((pending - {oid}).Keys, pending.Keys);
  }

  /** Of the pending writes, `ids` have not been polled yet. */
  ghost predicate Waiting(pending: map<ObjectId, nat>, ids: set<ObjectId>, issued: nat, locked: set<nat>) {
    && (forall k :: k in ids ==> k in pending && pending[k] < issued && pending[k] !in locked)
    && (forall j, k :: j in ids && k in ids && j != k ==> pending[j] != pending[k])
  }

  lemma AllWaiting(pending: map<ObjectId, nat>, issued: nat, locked: set<nat>)
    requires Unpolled(pending, issued, locked)
    ensures Waiting(pending, pending.Keys, issued, locked)
  {
  }

  lemma WaitingOne(pending: map<ObjectId, nat>, ids: set<ObjectId>, issued: nat, locked: set<nat>, k: ObjectId)
    requires Waiting(pending, ids, issued, locked) && k in ids
    ensures k in pending && pending[k] < issued && pending[k] !in locked
  {
  }

  lemma WaitingKeeps(pending: map<ObjectId, nat>, ids: set<ObjectId>, issued: nat, locked: set<nat>, k: ObjectId,
                     lockedNow: set<nat>)
    requires Waiting(pending, ids, issued, locked) && k in ids && k in pending && lockedNow <= locked + {pending[k]}
    ensures Waiting(pending - {k}, ids - {k}, issued, lockedNow)
    ensures |pending - {k}| == |pending| - 1
  {
    assert (pending - {k}).Keys == pending.Keys - {k};
    assert |(pending - {k}).Keys| == |pending - {k}| && |pending.Keys| == |pending|;
  }

  lemma WaitingFewer(pending: map<ObjectId, nat>, ids: set<ObjectId>, issued: nat, locked: set<nat>, k: ObjectId)
    requires Waiting(pending, ids, issued, locked)
    ensures Waiting(pending, ids - {k}, issued, locked)
  {
  }

  class CacheManager<T> {
    const store: Store<T>
    const policy: LRAddedEvictionPolicy
    const maxSize: nat
    const deferWrites: bool
    const blank: T
    var cache: map<ObjectId, Spec.Entry<T>>
    var pendingWrites: map<ObjectId, nat>
    var mode: Spec.Prefetching

    ghost function Setup(): Spec.Config<T> {
      Spec.Config(maxSize, policy.maxSize, deferWrites, blank, store.world)
    }

    ghost function Now(): Spec.State<T>
      reads this, store, policy
    {
      Spec.State(cache, pendingWrites, policy.objectDeque, store.Drained(), store.Promises(), store.issued)
    }

    ghost predicate Linked()
      reads this, store, policy
    {
      && store.Valid() && policy.Valid()
      && Unpolled(pendingWrites, store.issued, store.locked)
      && Answered(pendingWrites, cache, store.Promises(), store.issued)
    }

    ghost predicate Valid()
      reads this, store, policy
    {
      |pendingWrites| <= Spec.HIGH_PEND && Linked()
    }

    /** The call ended as specified, and unless it stepped past the end the heap is as specified. */
    ghost predicate Did(outcome: Spec.Outcome<T>, s: Spec.Step<T>)
      reads this, store, policy
    {
      outcome == s.outcome && (!outcome.StepsPastEnd? ==> Valid() && Now() == s.state)
    }

    /**
     * The sweep over the pending writes, in whatever order the map is iterated. It erases a write whose
     * `try_wait` succeeds and then steps over the next one.
     */
    method Sweep() returns (pastEnd: bool)
      requires Linked()
      modifies this`pendingWrites, store`locked
      ensures pastEnd == (|old(pendingWrites)| % 2 == 1)
      ensures !pastEnd ==> 2 * |pendingWrites| == |old(pendingWrites)|
    {
      hide Store.Valid, Store.Drained, Store.Promises, LRAddedEvictionPolicy.Valid, Answered, Unpolled;
      var rest := pendingWrites.Keys;
      ghost var erased := 0;
      assert Waiting(pendingWrites, rest, store.issued, store.locked) by {
        AllWaiting(pendingWrites, store.issued, store.locked);
      }
      hide Waiting;
      while rest != {}
        invariant store.Valid() && Waiting(pendingWrites, rest, store.issued, store.locked)
        invariant |rest| + 2 * erased == |old(pendingWrites)| && |pendingWrites| + erased == |old(pendingWrites)|
        decreases |rest|
      {
        var k :| k in rest;
        WaitingOne(pendingWrites, rest, store.issued, store.locked, k);
        ghost var locked := store.locked;
        var done := store.TryWait(pendingWrites[k]);
        WaitingKeeps(pendingWrites, rest, store.issued, locked, k, store.locked);
        rest := rest - {k};
        if done {
          pendingWrites := pendingWrites - {k};
          erased := erased + 1;
          if rest == {} {
            assert |rest| == 0;
            return true;
          }
          var skipped :| skipped in rest;
          WaitingFewer(pendingWrites, rest, store.issued, store.locked, skipped);
          rest := rest - {skipped};
        }
      }
      return false;
    }

    constructor (store: Store<T>, policy: LRAddedEvictionPolicy, maxSize: nat, deferWrites: bool, blank: T)
      requires store.Valid() && policy.Valid()
      ensures Valid() && mode.Off? && cache == map[] && pendingWrites == map[]
      ensures this.store == store && this.policy == policy && this.maxSize == maxSize
      ensures this.deferWrites == deferWrites && this.blank == blank
    {
      this.store := store;
      this.policy := policy;
      this.maxSize := maxSize;
      this.deferWrites := deferWrites;
      this.blank := blank;
      cache := map[];
      pendingWrites := map[];
      mode := Spec.Off;
    }

    method Evict(oid: ObjectId) returns (outcome: Spec.Outcome<T>)
      requires Valid()
      modifies this`cache, this`pendingWrites, store
      ensures Did(outcome, Spec.Evict(Setup(), old(Now()), oid))
      ensures old(store.answers.Keys) <= store.answers.Keys
    {
      hide Store.Valid, Store.Drained, Store.Promises, LRAddedEvictionPolicy.Valid, Unpolled, Answered, IsFetch,
        NoDup, Spec.Submit;
      ghost var was := cache;
      if oid !in cache {
        return Spec.NotCachedThrown;
      }
      if deferWrites {
        var entry := cache[oid];
        if entry.dirty {
          PostWrite(oid, entry.obj);
        }
        if |pendingWrites| > Spec.HIGH_PEND {
          var pastEnd := Sweep();
          if pastEnd {
            return Spec.StepsPastEnd;
          }
        }
      }
      cache := cache - {oid};
      EntriesKeep(pendingWrites, was, cache, store.Promises(), store.issued);
      return Spec.Returned;
    }

    /** Write `obj` back without waiting and keep its future. */
    method PostWrite(oid: ObjectId, obj: T)
      requires Valid()
      modifies this`pendingWrites, store
      ensures Linked() && |pendingWrites| <= Spec.HIGH_PEND + 1
      ensures old(store.answers.Keys) <= store.answers.Keys
      ensures
        var sent := Spec.Submit(Setup(), old(Now()), PutRequest(oid, obj));
        Now() == sent.(pending := old(pendingWrites)[oid := old(store.issued)])
    {
      hide Store.Valid, Store.Drained, Store.Promises, LRAddedEvictionPolicy.Valid, Unpolled, Answered, IsFetch,
        NoDup, Effect;
      ghost var answer: Answer<T> := Reply(store.world, store.Drained(), InFlight(store.issued, PutRequest(oid, obj)));
      store.NextIsFree();
      PostKeeps(pendingWrites, cache, store.Promises(), store.issued, store.locked, answer, oid);
      UpdateSize(pendingWrites, oid, store.issued);
      var future := store.Submit(PutRequest(oid, obj));
      pendingWrites := pendingWrites[oid := future];
    }

    method EvictVector(toRemove: seq<ObjectId>) returns (outcome: Spec.Outcome<T>)
      requires Valid()
      modifies this`cache, this`pendingWrites, store
      ensures Did(outcome, Spec.EvictAll(Setup(), old(Now()), toRemove))
      ensures old(store.answers.Keys) <= store.answers.Keys
    {
      hide Spec.Evict, Valid;
      var i := 0;
      while i < |toRemove|
        invariant 0 <= i <= |toRemove| && Valid() && old(store.answers.Keys) <= store.answers.Keys
        invariant Spec.EvictAll(Setup(), Now(), toRemove[i..]) == Spec.EvictAll(Setup(), old(Now()), toRemove)
      {
        outcome := Evict(toRemove[i]);
        if !outcome.Returned? {
          return;
        }
        i := i + 1;
      }
      return Spec.Returned;
    }

    /** What every access does first: tell the policy and evict what it names. */
    method MakeRoom(oid: ObjectId) returns (outcome: Spec.Outcome<T>)
      requires Valid()
      modifies this`cache, this`pendingWrites, store, policy
      ensures Did(outcome, Spec.MakeRoom(Setup(), old(Now()), oid))
      ensures old(store.answers.Keys) <= store.answers.Keys
    {
      hide Spec.EvictAll, Touch;
      var victims := policy.ProcessOid(oid);
      outcome := EvictVector(victims);
    }

    /** Wait for the write-back of `oid`, if one is still pending. */
    method AwaitWrite(oid: ObjectId)
      requires Valid()
      modifies this`pendingWrites, store
      ensures Valid() && Now() == Spec.Forget(Setup(), old(Now()), oid)
      ensures deferWrites && oid in old(pendingWrites) ==> old(pendingWrites[oid]) in store.answers
    {
      hide Store.Valid, Store.Drained, Store.Promises, LRAddedEvictionPolicy.Valid, Unpolled, Answered, IsFetch, NoDup;
      if deferWrites && oid in pendingWrites {
        ghost var locked := store.locked;
        assert pendingWrites[oid] < store.issued by { PendingIssued(pendingWrites, store.issued, store.locked, oid); }
        store.Wait(pendingWrites[oid]);
        SettleKeeps(pendingWrites, cache, store.Promises(), store.issued, locked, oid, store.locked);
        pendingWrites := pendingWrites - {oid};
      }
    }

    /** Resolve the prefetch that the entry of `oid` is waiting for. */
    method Resolve(oid: ObjectId) returns (outcome: Spec.Outcome<T>)
      requires Valid() && oid in cache && !cache[oid].cached
      modifies this`cache, store
      ensures Did(outcome, Spec.Lookup(Setup(), old(Now()), oid))
      ensures old(store.answers.Keys) <= store.answers.Keys
    {
      hide Store.Valid, Store.Drained, Store.Promises, LRAddedEvictionPolicy.Valid, Unpolled, Answered, IsFetch, NoDup;
      ghost var locked, was := store.locked, cache;
      FetchIssued(pendingWrites, cache, store.Promises(), store.issued, oid);
      store.Wait(cache[oid].future);
      WaitKeeps(pendingWrites, cache, store.Promises(), store.issued, locked, oid, store.locked);
      match store.answers[cache[oid].future] {
        case Found(v) =>
          cache := cache[oid := cache[oid].(obj := v, cached := true)];
          EntriesKeep(pendingWrites, was, cache, store.Promises(), store.issued);
          return Spec.Value(v);
        case _ =>
          return Spec.NoSuchIdThrown;
      }
    }

    /** Fetch an object the cache does not hold. */
    method Fetch(oid: ObjectId) returns (outcome: Spec.Outcome<T>)
      requires Valid() && oid !in cache && |cache| != maxSize
      modifies this`cache, store
      ensures Did(outcome, Spec.Lookup(Setup(), old(Now()), oid))
      ensures old(store.answers.Keys) <= store.answers.Keys
    {
      hide Store.Valid, Store.Drained, Store.Promises, LRAddedEvictionPolicy.Valid, Unpolled, Answered, IsFetch,
        NoDup, Reply;
      ghost var locked, was, issued, promises := store.locked, cache, store.issued, store.Promises();
      cache := cache[oid := Spec.Entry(true, false, blank, 0)];
      var answer := store.Get(oid);
      SubmitKeeps(pendingWrites, was, promises, issued, locked, answer, store.locked);
      if answer.Found? {
        cache := cache[oid := Spec.Entry(true, false, answer.obj, 0)];
      }
      EntriesKeep(pendingWrites, was, cache, store.Promises(), store.issued);
      return if answer.Found? then Spec.Value(answer.obj) else Spec.NoSuchIdThrown;
    }

    method Lookup(oid: ObjectId) returns (outcome: Spec.Outcome<T>)
      requires Valid()
      modifies this`cache, store
      ensures Did(outcome, Spec.Lookup(Setup(), old(Now()), oid))
      ensures old(store.answers.Keys) <= store.answers.Keys
    {
      if oid in cache {
        if cache[oid].cached {
          return Spec.Value(cache[oid].obj);
        }
        outcome := Resolve(oid);
      } else if |cache| == maxSize {
        return Spec.OverCapacityThrown;
      } else {
        outcome := Fetch(oid);
      }
    }

    /** The lookup; a write of `oid` that was still pending has its answer when it returns. */
    method GetEntry(oid: ObjectId) returns (outcome: Spec.Outcome<T>)
      requires Valid()
      modifies this`cache, this`pendingWrites, store, policy
      ensures Did(outcome, Spec.GetEntry(Setup(), old(Now()), oid))
      ensures old(Spec.Coherent(Setup(), Now())) && deferWrites && oid in old(pendingWrites) ==>
        outcome.StepsPastEnd? || old(pendingWrites[oid]) in store.answers
    {
      hide Spec.MakeRoom, Spec.Lookup, Spec.Forget, Spec.Coherent, Valid, Effects.WrittenBack, Effects.Sends;
      ghost var s := Now();
      if Spec.Coherent(Setup(), s) {
        Spec.MakeRoomCoherent(Setup(), s, oid);
        if Spec.MakeRoom(Setup(), s, oid).outcome.Returned? {
          Effects.MakeRoomSends(Setup(), s, oid);
        }
      }
      outcome := MakeRoom(oid);
      if outcome.Returned? {
        AwaitWrite(oid);
        outcome := Lookup(oid);
      }
    }

    method Get(oid: ObjectId) returns (outcome: Spec.Outcome<T>)
      requires Valid()
      modifies this`cache, this`pendingWrites, store, policy
      ensures Did(outcome, Spec.Get(Setup(), old(Now()), mode, oid))
      ensures old(Spec.Coherent(Setup(), Now())) && deferWrites && oid in old(pendingWrites) ==>
        outcome.StepsPastEnd? || old(pendingWrites[oid]) in store.answers
    {
      hide Spec.GetEntry, Spec.PrefetchAll, PrefetchRing.SlotList, Valid;
      outcome := GetEntry(oid);
      if !outcome.Value? || mode.Off? {
        return;
      }
      if oid < mode.first || oid > mode.last {
        return Spec.OutOfRangeThrown;
      }
      if mode.readAhead > 0 && !PrefetchRing.IsRange(mode.first, mode.last) {
        return Spec.DividesByZero;
      }
      var toPrefetch := [];
      if PrefetchRing.IsRange(mode.first, mode.last) {
        toPrefetch := PrefetchRing.PrefetchList(oid, mode.first, mode.last, mode.readAhead, TWO64);
      }
      var fetched := PrefetchAll(toPrefetch);
      if !fetched.Returned? {
        return fetched;
      }
      if oid !in cache {
        return Spec.Dangling;
      }
    }

    method Fill(oid: ObjectId, obj: T) returns (outcome: Spec.Outcome<T>)
      requires Valid()
      modifies this`cache
      ensures Did(outcome, Spec.Fill(Setup(), old(Now()), oid, obj))
    {
      hide Store.Valid, Store.Drained, Store.Promises, LRAddedEvictionPolicy.Valid, Unpolled, Answered, IsFetch, NoDup;
      ghost var was := cache;
      if oid in cache {
        cache := cache[oid := cache[oid].(obj := obj, dirty := true)];
      } else if |cache| == maxSize {
        return Spec.OverCapacityThrown;
      } else {
        cache := cache[oid := Spec.Entry(true, true, obj, 0)];
      }
      EntriesKeep(pendingWrites, was, cache, store.Promises(), store.issued);
      return Spec.Returned;
    }

    method WriteThrough(oid: ObjectId, obj: T) returns (outcome: Spec.Outcome<T>)
      requires Valid()
      modifies store
      ensures Did(outcome, Spec.WriteThrough(Setup(), old(Now()), oid, obj))
    {
      hide Store.Valid, Store.Drained, Store.Promises, LRAddedEvictionPolicy.Valid, Unpolled, Answered, IsFetch,
        NoDup, Effect, Reply;
      if deferWrites {
        return Spec.Returned;
      }
      ghost var locked, issued, promises := store.locked, store.issued, store.Promises();
      var answer := store.Put(oid, obj);
      SubmitKeeps(pendingWrites, cache, promises, issued, locked, answer, store.locked);
      return if answer.Done? then Spec.Returned else Spec.MemoryErrorThrown;
    }

    method Put(oid: ObjectId, obj: T) returns (outcome: Spec.Outcome<T>)
      requires Valid()
      modifies this`cache, this`pendingWrites, store, policy
      ensures Did(outcome, Spec.Put(Setup(), old(Now()), oid, obj))
    {
      hide Spec.MakeRoom, Spec.Fill, Spec.WriteThrough, Valid;
      outcome := MakeRoom(oid);
      if outcome.Returned? {
        outcome := Fill(oid, obj);
        if outcome.Returned? {
          outcome := WriteThrough(oid, obj);
        }
      }
    }

    /** Send for an object the cache has no entry for, without waiting. */
    method AskFor(oid: ObjectId)
      requires Valid()
      modifies this`cache, store
      ensures Valid() && Now() == Spec.AskFor(Setup(), old(Now()), oid)
      ensures old(store.answers.Keys) <= store.answers.Keys
    {
      hide Store.Valid, Store.Drained, Store.Promises, LRAddedEvictionPolicy.Valid, Unpolled, Answered, IsFetch, NoDup;
      if oid !in cache {
        ghost var was, issued, promises := cache, store.issued, store.Promises();
        var future := store.Submit(GetRequest(oid));
        SubmitKeeps(pendingWrites, was, promises, issued, store.locked, store.Promises()[future], store.locked);
        cache := cache[oid := Spec.Entry(false, false, blank, future)];
        IsFetchNow(cache[oid], store.Promises(), store.issued);
        EntriesKeep(pendingWrites, was, cache, store.Promises(), store.issued);
      }
    }

    method Prefetch(oid: ObjectId) returns (outcome: Spec.Outcome<T>)
      requires Valid()
      modifies this`cache, this`pendingWrites, store, policy
      ensures Did(outcome, Spec.Prefetch(Setup(), old(Now()), oid))
      ensures old(store.answers.Keys) <= store.answers.Keys
    {
      hide Spec.MakeRoom, Spec.AskFor, Valid;
      outcome := MakeRoom(oid);
      if outcome.Returned? {
        AskFor(oid);
      }
    }

    method PrefetchAll(ids: seq<ObjectId>) returns (outcome: Spec.Outcome<T>)
      requires Valid()
      modifies this`cache, this`pendingWrites, store, policy
      ensures Did(outcome, Spec.PrefetchAll(Setup(), old(Now()), ids))
      ensures old(store.answers.Keys) <= store.answers.Keys
    {
      hide Spec.Prefetch, Valid;
      var i := 0;
      while i < |ids|
        invariant 0 <= i <= |ids| && Valid() && old(store.answers.Keys) <= store.answers.Keys
        invariant Spec.PrefetchAll(Setup(), Now(), ids[i..]) == Spec.PrefetchAll(Setup(), old(Now()), ids)
      {
        outcome := Prefetch(ids[i]);
        if !outcome.Returned? {
          return;
        }
        i := i + 1;
      }
      return Spec.Returned;
    }

    method Remove(oid: ObjectId) returns (outcome: Spec.Outcome<T>)
      requires Valid()
      modifies this`cache, store, policy
      ensures Did(outcome, Spec.Remove(Setup(), old(Now()), oid))
    {
      hide Store.Valid, Store.Drained, Store.Promises, LRAddedEvictionPolicy.Valid, Unpolled, Answered, IsFetch,
        NoDup, Without;
      ghost var locked, was, issued, promises := store.locked, cache, store.issued, store.Promises();
      store.Remove(oid);
      SubmitKeeps(pendingWrites, was, promises, issued, locked, Done, store.locked);
      if oid in cache {
        cache := cache - {oid};
      }
      EntriesKeep(pendingWrites, was, cache, store.Promises(), store.issued);
      policy.Remove(oid);
      return Spec.Returned;
    }

    /** `setMode` without a range: no prefetching. */
    method SetOff()
      modifies this`mode
      ensures mode == Spec.Off
    {
      mode := Spec.Off;
    }

    /** `setMode` with a range; false when the range is empty, which throws and keeps the mode. */
    method SetOrdered(first: ObjectId, last: ObjectId, readAhead: u64) returns (ok: bool)
      modifies this`mode
      ensures ok == (first <= last)
      ensures mode == if ok then Spec.Ordered(first, last, readAhead) else old(mode)
    {
      if first > last {
        return false;
      }
      mode := Spec.Ordered(first, last, readAhead);
      return true;
    }
  }

  /** A cache that cannot hold anything is refused. */
  method Open<T>(store: Store<T>, policy: LRAddedEvictionPolicy, cacheSize: nat, deferWrites: bool, blank: T)
    returns (r: Option<CacheManager<T>>)
    requires store.Valid() && policy.Valid()
    ensures r.None? <==> cacheSize < 1
    ensures r.Some? ==>
      var cm := r.value;
      && fresh(cm) && cm.Valid() && cm.mode.Off? && cm.store == store && cm.policy == policy
      && cm.maxSize == cacheSize && cm.deferWrites == deferWrites && cm.cache == map[] && cm.pendingWrites == map[]
  {
    if cacheSize < 1 {
      return None;
    }
    var cm := new CacheManager(store, policy, cacheSize, deferWrites, blank);
    return Some(cm);
  }
}
