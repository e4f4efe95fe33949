/** The cache over the requests in flight over the server reads as one map. */
module CacheTransparency {
  import opened Basics
  import opened RemoteStore
  import opened CacheSpec
  import Fifo = LrAddedEviction

  function Stored<T>(m: map<ObjectId, T>, k: ObjectId): Option<T> {
    if k in m then Some(m[k]) else None
  }

  /** What a get of `k` would find: the cached object, what its prefetch will bring, or what is stored. */
  function Seen<T>(s: State<T>, k: ObjectId): Option<T> {
    if k !in s.cache then Stored(s.drained, k)
    else if s.cache[k].cached then Some(s.cache[k].obj)
    else
      match AnswerOf(s, s.cache[k].future)
      case Found(v) => Some(v)
      case _ => None
  }

  function Fetch<T>(m: map<ObjectId, T>, k: ObjectId): Answer<T> {
    if k in m then Found(m[k]) else NoSuchId
  }

  ghost predicate FaithfulEntry<T>(c: Config<T>, s: State<T>, k: ObjectId, e: Entry<T>) {
    && (!e.cached ==> !e.dirty && e.future in s.promises && s.promises[e.future] == Fetch(s.drained, k))
    && (e.cached && !e.dirty ==> Stored(s.drained, k) == Some(e.obj))
    && (e.cached && e.dirty && !c.deferWrites ==> Stored(s.drained, k) == Some(c.world.codec(e.obj)))
  }

  /** Clean entries agree with the store, prefetches will, and the server rejects nothing. */
  ghost predicate Faithful<T>(c: Config<T>, s: State<T>) {
    && (forall n: nat :: c.world.accepts(n))
    && (forall f :: f in s.promises ==> f < s.issued)
    && (forall k :: k in s.cache ==> FaithfulEntry(c, s, k, s.cache[k]))
  }

  /** The same, but for the entry of one id. */
  ghost predicate FaithfulBut<T>(c: Config<T>, s: State<T>, oid: ObjectId) {
    && (forall n: nat :: c.world.accepts(n))
    && (forall f :: f in s.promises ==> f < s.issued)
    && (forall k :: k in s.cache && k != oid ==> FaithfulEntry(c, s, k, s.cache[k]))
  }

  /** A prefetch of `k` is cached and nobody has asked for its result yet. */
  predicate Unresolved<T>(s: State<T>, k: ObjectId) {
    k in s.cache && !s.cache[k].cached
  }

  /** How `k` reads once evicted: a dirty object has then been through the serializer. */
  function Settled<T>(c: Config<T>, s: State<T>, k: ObjectId): Option<T> {
    if k in s.cache && s.cache[k].cached && s.cache[k].dirty then Some(c.world.codec(s.cache[k].obj)) else Seen(s, k)
  }

  ghost predicate Lossless<T(!new)>(c: Config<T>) {
    forall x: T :: c.world.codec(x) == x
  }

  // ---- Each part of an operation ----

  /** A write on the wire shows at its own id only, as what the serializer makes of it. */
  lemma WriteTransparent<T>(c: Config<T>, s: State<T>, oid: ObjectId, obj: T)
    requires c.world.accepts(s.issued)
    ensures var t := Submit(c, s, PutRequest(oid, obj));
      t == s.(drained := s.drained[oid := c.world.codec(obj)],
              promises := s.promises[s.issued := Done],
              issued := s.issued + 1)
  {
  }

  lemma WriteKeeps<T>(c: Config<T>, s: State<T>, oid: ObjectId, obj: T, k: ObjectId)
    requires Faithful(c, s) && k in s.cache && k != oid
    ensures var t := Submit(c, s, PutRequest(oid, obj));
      FaithfulEntry(c, t, k, s.cache[k]) && Seen(t, k) == Seen(s, k)
  {
    assert FaithfulEntry(c, s, k, s.cache[k]);
  }

  lemma WriteElsewhere<T>(c: Config<T>, s: State<T>, oid: ObjectId, obj: T)
    requires Faithful(c, s)
    ensures var t := Submit(c, s, PutRequest(oid, obj));
      FaithfulBut(c, t, oid) && forall k :: k != oid ==> Seen(t, k) == Seen(s, k)
  {
    hide Submit;
    WriteTransparent(c, s, oid, obj);
    var t := Submit(c, s, PutRequest(oid, obj));
    forall k | k in s.cache && k != oid ensures FaithfulEntry(c, t, k, t.cache[k]) && Seen(t, k) == Seen(s, k) {
      WriteKeeps(c, s, oid, obj, k);
    }
  }

  /** Writing a dirty object back leaves every reading as it is. */
  lemma WriteBackTransparent<T>(c: Config<T>, s: State<T>, oid: ObjectId)
    requires Faithful(c, s) && oid in s.cache && s.cache[oid].cached && s.cache[oid].dirty && c.deferWrites
    ensures var t := Submit(c, s, PutRequest(oid, s.cache[oid].obj));
      Faithful(c, t) && forall k :: Seen(t, k) == Seen(s, k)
  {
    hide Submit;
    WriteTransparent(c, s, oid, s.cache[oid].obj);
    WriteElsewhere(c, s, oid, s.cache[oid].obj);
  }

  lemma DropTransparent<T>(c: Config<T>, s: State<T>, oid: ObjectId, pending: map<ObjectId, nat>)
    requires Faithful(c, s)
    ensures var t := s.(cache := s.cache - {oid}, pending := pending);
      Faithful(c, t) && forall k :: Seen(t, k) == if k == oid then Stored(s.drained, oid) else Seen(s, k)
  {
    var t := s.(cache := s.cache - {oid}, pending := pending);
    forall k | k in t.cache ensures FaithfulEntry(c, t, k, t.cache[k]) {
      assert FaithfulEntry(c, s, k, s.cache[k]);
    }
  }

  lemma EvictTransparent<T>(c: Config<T>, s: State<T>, oid: ObjectId)
    requires Faithful(c, s) && oid in s.cache && Evict(c, s, oid).outcome.Returned?
    ensures var t := Evict(c, s, oid).state;
      && Faithful(c, t)
      && (forall k :: Seen(t, k) == if k == oid then Settled(c, s, k) else Seen(s, k))
      && t.cache == s.cache - {oid}
  {
    var e := s.cache[oid];
    assert FaithfulEntry(c, s, oid, e);
    assert (e.cached && e.dirty) || Seen(s, oid) == Stored(s.drained, oid);
    assert c.world.accepts(s.issued);
    hide Submit, Faithful, Seen;
    if c.deferWrites && e.dirty {
      WriteTransparent(c, s, oid, e.obj);
      WriteBackTransparent(c, s, oid);
      DropTransparent(c, Submit(c, s, PutRequest(oid, e.obj)), oid, s.pending[oid := s.issued]);
    } else {
      DropTransparent(c, s, oid, s.pending);
    }
  }

  lemma ReorderTransparent<T>(c: Config<T>, s: State<T>, order: seq<ObjectId>)
    ensures Faithful(c, s) ==> Faithful(c, s.(order := order))
    ensures forall k :: Seen(s.(order := order), k) == Seen(s, k)
    ensures forall k :: Settled(c, s.(order := order), k) == Settled(c, s, k)
  {
    var t := s.(order := order);
    if Faithful(c, s) {
      forall k | k in t.cache ensures FaithfulEntry(c, t, k, t.cache[k]) {
        assert FaithfulEntry(c, s, k, s.cache[k]);
      }
    }
  }

  /** The ids the policy evicts to make room for `oid`. */
  function Victims<T>(c: Config<T>, s: State<T>, oid: ObjectId): seq<ObjectId> {
    Fifo.Touch(s.order, c.policyCap, oid).victims
  }

  /** Reads stay as they were, but that evicted objects read as they were serialized. */
  ghost predicate Reads<T>(c: Config<T>, s: State<T>, t: State<T>, oid: ObjectId, k: ObjectId) {
    Seen(t, k) == if k in Victims(c, s, oid) then Settled(c, s, k) else Seen(s, k)
  }

  lemma MakeRoomTransparent<T>(c: Config<T>, s: State<T>, oid: ObjectId)
    requires Coherent(c, s) && Faithful(c, s) && MakeRoom(c, s, oid).outcome.Returned?
    ensures var t := MakeRoom(c, s, oid).state;
      && Faithful(c, t)
      && (forall k :: Reads(c, s, t, oid, k))
      && (oid in s.cache ==> oid in t.cache && t.cache[oid] == s.cache[oid])
      && (oid !in s.cache ==> oid !in t.cache)
  {
    hide Fifo.Touch, Evict, MakeRoom, Faithful, Seen, Settled, Coherent;
    MakeRoomShape(c, s, oid);
    var d := Fifo.Touch(s.order, c.policyCap, oid);
    var s1 := s.(order := d.order);
    ReorderTransparent(c, s, d.order);
    if d.victims != [] {
      EvictTransparent(c, s1, d.victims[0]);
      assert forall k :: k in d.victims <==> k == d.victims[0];
    }
  }

  lemma ForgetTransparent<T>(c: Config<T>, s: State<T>, oid: ObjectId)
    requires Faithful(c, s)
    ensures Faithful(c, Forget(c, s, oid))
    ensures forall k :: Seen(Forget(c, s, oid), k) == Seen(s, k)
  {
    var t := Forget(c, s, oid);
    forall k | k in t.cache ensures FaithfulEntry(c, t, k, t.cache[k]) {
      assert FaithfulEntry(c, s, k, s.cache[k]);
    }
  }

  /** Issuing a read changes nothing but the number of requests issued. */
  lemma ReadTransparent<T>(c: Config<T>, s: State<T>, oid: ObjectId)
    requires Faithful(c, s)
    ensures var t := Submit(c, s, GetRequest(oid));
      Faithful(c, t) && (forall k :: Seen(t, k) == Seen(s, k)) && t.promises[s.issued] == Fetch(s.drained, oid)
  {
    var t := Submit(c, s, GetRequest(oid));
    forall k | k in t.cache ensures FaithfulEntry(c, t, k, t.cache[k]) && Seen(t, k) == Seen(s, k) {
      assert FaithfulEntry(c, s, k, s.cache[k]);
    }
  }

  /** Replacing the entry of one id by a faithful one with the same reading changes nothing. */
  lemma ReplaceTransparent<T>(c: Config<T>, s: State<T>, oid: ObjectId, e: Entry<T>)
    requires FaithfulBut(c, s, oid) && FaithfulEntry(c, s, oid, e)
    ensures var t := s.(cache := s.cache[oid := e]);
      Faithful(c, t) && forall k :: k != oid ==> Seen(t, k) == Seen(s, k)
  {
    var t := s.(cache := s.cache[oid := e]);
    forall k | k in t.cache ensures FaithfulEntry(c, t, k, t.cache[k]) {
      if k != oid {
        assert FaithfulEntry(c, s, k, s.cache[k]);
      }
    }
  }

  lemma LookupHitTransparent<T>(c: Config<T>, s: State<T>, oid: ObjectId)
    requires Faithful(c, s) && oid in s.cache
    ensures var r := Lookup(c, s, oid);
      && r.outcome == (match Seen(s, oid) case Some(v) => Value(v) case None => NoSuchIdThrown)
      && (r.outcome.Value? ==>
            Faithful(c, r.state) && (forall k :: Seen(r.state, k) == Seen(s, k)) && !Unresolved(r.state, oid))
  {
    var e := s.cache[oid];
    assert FaithfulEntry(c, s, oid, e);
    if !e.cached {
      match AnswerOf(s, e.future)
      case Found(v) => ReplaceTransparent(c, s, oid, e.(obj := v, cached := true));
      case _ =>
    }
  }

  lemma LookupMissTransparent<T>(c: Config<T>, s: State<T>, oid: ObjectId)
    requires Faithful(c, s) && oid !in s.cache && |s.cache| < c.maxSize
    ensures var r := Lookup(c, s, oid);
      && r.outcome == (match Seen(s, oid) case Some(v) => Value(v) case None => NoSuchIdThrown)
      && (r.outcome.Value? ==>
            Faithful(c, r.state) && (forall k :: Seen(r.state, k) == Seen(s, k)) && !Unresolved(r.state, oid))
  {
    var s0 := Submit(c, s, GetRequest(oid));
    ReadTransparent(c, s, oid);
    if oid in s.drained {
      var v := s.drained[oid];
      ReplaceTransparent(c, s0, oid, Entry(true, false, v, 0));
      assert Lookup(c, s, oid).state == s0.(cache := s0.cache[oid := Entry(true, false, v, 0)]);
    }
  }

  lemma ForgetKeeps<T>(c: Config<T>, s: State<T>, oid: ObjectId)
    ensures Forget(c, s, oid).cache == s.cache
  {
  }

  lemma VictimIsOther<T>(c: Config<T>, s: State<T>, oid: ObjectId)
    requires Coherent(c, s)
    ensures oid !in Victims(c, s, oid)
  {
    Fifo.TouchKeeps(s.order, c.policyCap, oid);
  }

  /** A get finds what reads, throws exactly when nothing does, and leaves all readings alone. */
  lemma GetEntryTransparent<T>(c: Config<T>, s: State<T>, oid: ObjectId)
    requires Coherent(c, s) && Faithful(c, s) && !GetEntry(c, s, oid).outcome.StepsPastEnd?
    ensures var r := GetEntry(c, s, oid);
      && r.outcome == (match Seen(s, oid) case Some(v) => Value(v) case None => NoSuchIdThrown)
      && (r.outcome.Value? ==>
            Faithful(c, r.state) && (forall k :: Reads(c, s, r.state, oid, k)) && !Unresolved(r.state, oid))
  {
    hide MakeRoom, Lookup, Faithful, Seen, Settled, Coherent, Unresolved, Forget, Roomy;
    MakeRoomCoherent(c, s, oid);
    MakeRoomTransparent(c, s, oid);
    var s1 := MakeRoom(c, s, oid).state;
    var s2 := Forget(c, s1, oid);
    ForgetTransparent(c, s1, oid);
    ForgetRoomy(c, s1, oid);
    ForgetKeeps(c, s1, oid);
    KeysWithinCapacity(c, s2, oid);
    VictimIsOther(c, s, oid);
    assert Reads(c, s, s1, oid, oid);
    assert Seen(s2, oid) == Seen(s, oid);
    if oid in s2.cache {
      LookupHitTransparent(c, s2, oid);
    } else {
      LookupMissTransparent(c, s2, oid);
    }
    var t := Lookup(c, s2, oid).state;
    if Lookup(c, s2, oid).outcome.Value? {
      forall k ensures Reads(c, s, t, oid, k) {
        assert Reads(c, s, s1, oid, k);
        assert Seen(t, k) == Seen(s2, k) == Seen(s1, k);
      }
    }
  }

  /** `obj` now reads at `oid`, unless that was an unresolved prefetch, and nothing else changed. */
  ghost predicate Stores<T>(c: Config<T>, s: State<T>, t: State<T>, oid: ObjectId, obj: T) {
    && (forall k :: k != oid ==> Seen(t, k) == Seen(s, k))
    && (Unresolved(s, oid) ==> Seen(t, oid) == Seen(s, oid))
    && (!Unresolved(s, oid) ==> Faithful(c, t) && !Unresolved(t, oid) && Seen(t, oid) == Some(obj))
  }

  lemma FillDeferred<T>(c: Config<T>, s: State<T>, oid: ObjectId, obj: T)
    requires Faithful(c, s) && (oid in s.cache || |s.cache| < c.maxSize) && c.deferWrites
    ensures Fill(c, s, oid, obj).outcome.Returned? && Stores(c, s, Fill(c, s, oid, obj).state, oid, obj)
  {
    var t := Fill(c, s, oid, obj).state;
    if !Unresolved(s, oid) {
      ReplaceTransparent(c, s, oid, t.cache[oid]);
    }
  }

  lemma FillThrough<T>(c: Config<T>, s: State<T>, oid: ObjectId, obj: T)
    requires Faithful(c, s) && (oid in s.cache || |s.cache| < c.maxSize) && !c.deferWrites
    ensures Fill(c, s, oid, obj).outcome.Returned?
    ensures var r := WriteThrough(c, Fill(c, s, oid, obj).state, oid, obj);
      r.outcome.Returned? && Stores(c, s, r.state, oid, obj)
  {
    var s1 := Submit(c, s, PutRequest(oid, obj));
    var e := Fill(c, s, oid, obj).state.cache[oid];
    var t := s1.(cache := s1.cache[oid := e]);
    assert WriteThrough(c, Fill(c, s, oid, obj).state, oid, obj) == Step(t, Returned);
    assert e.cached <==> !Unresolved(s, oid);
    assert Unresolved(s, oid) ==> FaithfulEntry(c, s, oid, s.cache[oid]) && e.future < s.issued;
    WriteElsewhere(c, s, oid, obj);
    if e.cached {
      ReplaceTransparent(c, s1, oid, e);
    }
  }

  /** Filling the entry of `oid` and writing it through, where a put takes effect and where it does not. */
  lemma StoreTransparent<T>(c: Config<T>, s: State<T>, oid: ObjectId, obj: T)
    requires Faithful(c, s) && (oid in s.cache || |s.cache| < c.maxSize)
    ensures Fill(c, s, oid, obj).outcome.Returned?
    ensures var r := WriteThrough(c, Fill(c, s, oid, obj).state, oid, obj);
      r.outcome.Returned? && Stores(c, s, r.state, oid, obj)
  {
    hide Fill, Faithful, Stores;
    if c.deferWrites {
      FillDeferred(c, s, oid, obj);
    } else {
      FillThrough(c, s, oid, obj);
    }
  }

  /** A put reads back at once, unless a prefetch of the same object is still unresolved: then it is lost. */
  lemma PutTransparent<T>(c: Config<T>, s: State<T>, oid: ObjectId, obj: T)
    requires Coherent(c, s) && Faithful(c, s) && !Put(c, s, oid, obj).outcome.StepsPastEnd?
    ensures var r := Put(c, s, oid, obj);
      && r.outcome.Returned?
      && (forall k :: k != oid ==> Reads(c, s, r.state, oid, k))
      && (Unresolved(s, oid) ==> Seen(r.state, oid) == Seen(s, oid))
      && (!Unresolved(s, oid) ==> Faithful(c, r.state) && !Unresolved(r.state, oid) && Seen(r.state, oid) == Some(obj))
  {
    hide MakeRoom, Fill, WriteThrough, Faithful, Seen, Settled, Coherent, Roomy;
    MakeRoomCoherent(c, s, oid);
    MakeRoomTransparent(c, s, oid);
    var s1 := MakeRoom(c, s, oid).state;
    KeysWithinCapacity(c, s1, oid);
    StoreTransparent(c, s1, oid, obj);
    VictimIsOther(c, s, oid);
    assert Reads(c, s, s1, oid, oid);
    var t := Put(c, s, oid, obj).state;
    forall k | k != oid ensures Reads(c, s, t, oid, k) {
      assert Reads(c, s, s1, oid, k);
      assert Seen(t, k) == Seen(s1, k);
    }
  }

  /** The put is what a get then finds, exactly when it did not meet an unresolved prefetch of another value. */
  lemma PutReadsBackIff<T>(c: Config<T>, s: State<T>, oid: ObjectId, obj: T)
    requires Coherent(c, s) && Faithful(c, s) && !Put(c, s, oid, obj).outcome.StepsPastEnd?
    ensures Seen(Put(c, s, oid, obj).state, oid) == Some(obj) <==>
      !Unresolved(s, oid) || Stored(s.drained, oid) == Some(obj)
  {
    hide Put, Coherent;
    PutTransparent(c, s, oid, obj);
    assert oid in s.cache ==> FaithfulEntry(c, s, oid, s.cache[oid]);
  }

  /** Asking for an object in advance changes no reading. */
  lemma PrefetchTransparent<T>(c: Config<T>, s: State<T>, oid: ObjectId)
    requires Coherent(c, s) && Faithful(c, s) && !Prefetch(c, s, oid).outcome.StepsPastEnd?
    ensures var t := Prefetch(c, s, oid).state;
      Faithful(c, t) && (forall k :: Reads(c, s, t, oid, k))
  {
    hide MakeRoom, Faithful, FaithfulEntry, Seen, Settled, Coherent, Roomy;
    MakeRoomCoherent(c, s, oid);
    MakeRoomTransparent(c, s, oid);
    var s1 := MakeRoom(c, s, oid).state;
    AskForTransparent(c, s1, oid);
    var t := Prefetch(c, s, oid).state;
    forall k ensures Reads(c, s, t, oid, k) {
      assert Reads(c, s, s1, oid, k);
      assert Seen(t, k) == Seen(s1, k);
    }
  }

  lemma AskForTransparent<T>(c: Config<T>, s: State<T>, oid: ObjectId)
    requires Faithful(c, s)
    ensures Faithful(c, AskFor(c, s, oid)) && forall k :: Seen(AskFor(c, s, oid), k) == Seen(s, k)
  {
    if oid !in s.cache {
      var s1 := Submit(c, s, GetRequest(oid));
      var e := Entry(false, false, c.blank, s.issued);
      ReadTransparent(c, s, oid);
      ReplaceTransparent(c, s1, oid, e);
      assert AskFor(c, s, oid) == s1.(cache := s1.cache[oid := e]);
    }
  }

  /** A remove never throws; after it nothing reads at `oid` and everything else reads as before. */
  lemma RemoveTransparent<T>(c: Config<T>, s: State<T>, oid: ObjectId)
    requires Faithful(c, s)
    ensures Remove(c, s, oid).outcome.Returned?
    ensures var t := Remove(c, s, oid).state;
      Faithful(c, t) && Seen(t, oid) == None && forall k :: k != oid ==> Seen(t, k) == Seen(s, k)
  {
    var t := Remove(c, s, oid).state;
    forall k | k in t.cache ensures FaithfulEntry(c, t, k, t.cache[k]) && Seen(t, k) == Seen(s, k) {
      assert FaithfulEntry(c, s, k, s.cache[k]);
    }
  }

  // ---- With a serializer that loses nothing ----

  lemma SettledLossless<T(!new)>(c: Config<T>, s: State<T>, k: ObjectId)
    requires Lossless(c)
    ensures Settled(c, s, k) == Seen(s, k)
  {
  }

  lemma ReadsLossless<T(!new)>(c: Config<T>, s: State<T>, t: State<T>, oid: ObjectId)
    requires Lossless(c) && forall k :: Reads(c, s, t, oid, k)
    ensures forall k :: Seen(t, k) == Seen(s, k)
  {
    hide Seen, Settled, Lossless, Victims;
    forall k ensures Seen(t, k) == Seen(s, k) {
      assert Reads(c, s, t, oid, k);
      SettledLossless(c, s, k);
    }
  }

  lemma {:induction false} PrefetchAllTransparent<T(!new)>(c: Config<T>, s: State<T>, ids: seq<ObjectId>)
    requires Coherent(c, s) && Faithful(c, s) && Lossless(c) && PrefetchAll(c, s, ids).outcome.Returned?
    ensures var t := PrefetchAll(c, s, ids).state;
      Coherent(c, t) && Faithful(c, t) && forall k :: Seen(t, k) == Seen(s, k)
    decreases |ids|
  {
    hide Prefetch, Faithful, Coherent, Seen, Lossless, Reads;
    if ids != [] {
      PrefetchCoherent(c, s, ids[0]);
      PrefetchTransparent(c, s, ids[0]);
      var s1 := Prefetch(c, s, ids[0]).state;
      ReadsLossless(c, s, s1, ids[0]);
      PrefetchAllTransparent(c, s1, ids[1..]);
    }
  }

  /** What `get` gives back, whatever it prefetches, unless the call or the prefetching fails. */
  lemma GetTransparent<T(!new)>(c: Config<T>, s: State<T>, mode: Prefetching, oid: ObjectId)
    requires Coherent(c, s) && Faithful(c, s) && Lossless(c)
    ensures var r := Get(c, s, mode, oid);
      && (r.outcome.Value? ==>
            && Seen(s, oid) == Some(r.outcome.obj)
            && Coherent(c, r.state) && Faithful(c, r.state) && (forall k :: Seen(r.state, k) == Seen(s, k)))
      && (r.outcome.NoSuchIdThrown? <==> Seen(s, oid) == None && !GetEntry(c, s, oid).outcome.StepsPastEnd?)
      && (r.outcome.Value? || r.outcome.NoSuchIdThrown? || Undefined(r.outcome) || r.outcome.OutOfRangeThrown?)
  {
    hide GetEntry, PrefetchAll, Faithful, Coherent, Seen, Lossless, Reads;
    GetEntryCoherent(c, s, oid);
    var g := GetEntry(c, s, oid);
    if !g.outcome.StepsPastEnd? {
      GetEntryTransparent(c, s, oid);
      if g.outcome.Value? {
        ReadsLossless(c, s, g.state, oid);
        PrefetchAllCoherent(c, g.state, Wanted(mode, oid));
        if PrefetchAll(c, g.state, Wanted(mode, oid)).outcome.Returned? {
          PrefetchAllTransparent(c, g.state, Wanted(mode, oid));
        }
      }
    }
  }

  /** The call ended in behaviour the language leaves undefined. */
  predicate Undefined<T>(o: Outcome<T>) {
    o.StepsPastEnd? || o.Dangling? || o.DividesByZero?
  }

  // ---- Runs ----

  datatype Op<T> =
    | GetOp(oid: ObjectId, mode: Prefetching)
    | PutOp(oid: ObjectId, obj: T)
    | PrefetchOp(oid: ObjectId)
    | RemoveOp(oid: ObjectId)

  function Do<T>(c: Config<T>, s: State<T>, op: Op<T>): Step<T> {
    match op
    case GetOp(oid, mode) => Get(c, s, mode, oid)
    case PutOp(oid, obj) => Put(c, s, oid, obj)
    case PrefetchOp(oid) => Prefetch(c, s, oid)
    case RemoveOp(oid) => Remove(c, s, oid)
  }

  /** All the calls up to the first one with undefined behaviour; exceptions are caught and the run goes on. */
  function Run<T>(c: Config<T>, s: State<T>, ops: seq<Op<T>>): seq<Step<T>>
    decreases |ops|
  {
    if ops == [] then []
    else
      var r := Do(c, s, ops[0]);
      if Undefined(r.outcome) then [r] else [r] + Run(c, r.state, ops[1..])
  }

  /** In every run cache and policy hold the same ids, within the capacity, and the guards never fire. */
  lemma {:induction false} RunCoherent<T>(c: Config<T>, s: State<T>, ops: seq<Op<T>>, i: nat)
    requires Coherent(c, s) && i < |Run(c, s, ops)|
    ensures var r := Run(c, s, ops)[i];
      && !r.outcome.OverCapacityThrown? && !r.outcome.NotCachedThrown?
      && (!Undefined(r.outcome) ==>
            && (forall k :: k in r.state.cache <==> k in r.state.order)
            && |r.state.cache| == |r.state.order| <= c.policyCap)
    decreases |ops|
  {
    hide Get, Put, Prefetch, Remove, NoDup, Coherent;
    DoCoherent(c, s, ops[0]);
    var r := Do(c, s, ops[0]);
    if i == 0 {
      if !Undefined(r.outcome) {
        CoherentSize(c, r.state);
      }
    } else {
      RunCoherent(c, r.state, ops[1..], i - 1);
      assert Run(c, s, ops)[i] == Run(c, r.state, ops[1..])[i - 1];
    }
  }

  lemma DoCoherent<T>(c: Config<T>, s: State<T>, op: Op<T>)
    requires Coherent(c, s)
    ensures Sound(c, Do(c, s, op))
  {
    hide Get, Put, Prefetch, Remove, Coherent, Sound;
    match op
    case GetOp(oid, mode) => GetCoherent(c, s, mode, oid);
    case PutOp(oid, obj) => PutCoherent(c, s, oid, obj);
    case PrefetchOp(oid) => PrefetchCoherent(c, s, oid);
    case RemoveOp(oid) => RemoveCoherent(c, s, oid);
  }

  lemma CoherentSize<T>(c: Config<T>, s: State<T>)
    requires Coherent(c, s)
    ensures (forall k :: k in s.cache <==> k in s.order) && |s.cache| == |s.order| <= c.policyCap
  {
    hide NoDup;
    NoDupCardinality(s.order);
    assert s.cache.Keys == SetOf(s.order);
  }

  // ---- One map ----

  /** A plain map answering the same calls. */
  function RefOutcome<T>(m: map<ObjectId, T>, op: Op<T>): Outcome<T> {
    if op.GetOp? then (if op.oid in m then Value(m[op.oid]) else NoSuchIdThrown) else Returned
  }

  function RefNext<T>(m: map<ObjectId, T>, op: Op<T>): map<ObjectId, T> {
    if op.PutOp? then m[op.oid := op.obj] else if op.RemoveOp? then m - {op.oid} else m
  }

  function RefRun<T>(m: map<ObjectId, T>, ops: seq<Op<T>>): seq<Outcome<T>>
    ensures |RefRun(m, ops)| == |ops|
    decreases |ops|
  {
    if ops == [] then [] else [RefOutcome(m, ops[0])] + RefRun(RefNext(m, ops[0]), ops[1..])
  }

  ghost predicate Represents<T>(s: State<T>, m: map<ObjectId, T>) {
    forall k :: Seen(s, k) == Stored(m, k)
  }

  /** A put on an object whose prefetch nobody has read yet. */
  predicate HitsPrefetch<T>(s: State<T>, op: Op<T>) {
    op.PutOp? && Unresolved(s, op.oid)
  }

  /** The outcomes of a run: up to the first call that throws or is undefined, or a put on an unresolved prefetch. */
  function Outcomes<T>(c: Config<T>, s: State<T>, ops: seq<Op<T>>): seq<Outcome<T>>
    decreases |ops|
  {
    if ops == [] || HitsPrefetch(s, ops[0]) then []
    else
      var r := Do(c, s, ops[0]);
      if r.outcome.Value? || r.outcome.Returned? then [r.outcome] + Outcomes(c, r.state, ops[1..]) else [r.outcome]
  }

  lemma DoTransparent<T(!new)>(c: Config<T>, s: State<T>, op: Op<T>, m: map<ObjectId, T>)
    requires Coherent(c, s) && Faithful(c, s) && Lossless(c) && Represents(s, m) && !HitsPrefetch(s, op)
    ensures var r := Do(c, s, op);
      && (r.outcome == RefOutcome(m, op) || Undefined(r.outcome) || (r.outcome.OutOfRangeThrown? && op.GetOp?))
      && (r.outcome.Value? || r.outcome.Returned? ==>
            Coherent(c, r.state) && Faithful(c, r.state) && Represents(r.state, RefNext(m, op)))
  {
    hide Get, Put, Prefetch, Remove, Coherent, Faithful, Lossless, Seen, Reads, Unresolved;
    DoCoherent(c, s, op);
    var r := Do(c, s, op);
    assert Seen(s, op.oid) == Stored(m, op.oid);
    if op.GetOp? {
      GetTransparent(c, s, op.mode, op.oid);
    } else if !r.outcome.StepsPastEnd? {
      match op
      case PutOp(oid, obj) =>
        PutTransparent(c, s, oid, obj);
        forall k ensures Seen(r.state, k) == Stored(RefNext(m, op), k) {
          if k != oid {
            OtherLossless(c, s, r.state, oid, k);
          }
        }
      case PrefetchOp(oid) =>
        PrefetchCoherent(c, s, oid);
        PrefetchTransparent(c, s, oid);
        ReadsLossless(c, s, r.state, oid);
      case RemoveOp(oid) =>
        RemoveTransparent(c, s, oid);
    }
  }

  lemma OtherLossless<T(!new)>(c: Config<T>, s: State<T>, t: State<T>, oid: ObjectId, k: ObjectId)
    requires Lossless(c) && Reads(c, s, t, oid, k)
    ensures Seen(t, k) == Seen(s, k)
  {
    SettledLossless(c, s, k);
  }

  /** A new cache over a store that holds `m` reads as `m`. */
  lemma NewCacheRepresents<T>(c: Config<T>, m: map<ObjectId, T>)
    requires 1 <= c.policyCap <= c.maxSize && forall n: nat :: c.world.accepts(n)
    ensures var s := State(map[], map[], [], m, map[], 0);
      Coherent(c, s) && Faithful(c, s) && Represents(s, m)
  {
  }

  /**
   * Through evictions, write-backs still in flight and prefetches, every call answers as one plain map would;
   * only the last call of the run can instead be undefined or out of the prefetching range.
   */
  lemma {:induction false} WriteBackTransparency<T(!new)>(c: Config<T>, s: State<T>, m: map<ObjectId, T>,
                                                         ops: seq<Op<T>>)
    requires Coherent(c, s) && Faithful(c, s) && Lossless(c) && Represents(s, m)
    ensures var outs := Outcomes(c, s, ops);
      && |outs| <= |ops|
      && forall i :: 0 <= i < |outs| ==>
           outs[i] == RefRun(m, ops)[i] || (i == |outs| - 1 && (Undefined(outs[i]) || outs[i].OutOfRangeThrown?))
    decreases |ops|
  {
    hide Do, Coherent, Faithful, Lossless, Represents, RefNext, RefOutcome, Undefined;
    if ops != [] && !HitsPrefetch(s, ops[0]) {
      DoTransparent(c, s, ops[0], m);
      var r := Do(c, s, ops[0]);
      if r.outcome.Value? || r.outcome.Returned? {
        WriteBackTransparency(c, r.state, RefNext(m, ops[0]), ops[1..]);
        var rest := Outcomes(c, r.state, ops[1..]);
        assert Outcomes(c, s, ops) == [r.outcome] + rest;
        assert !Undefined(r.outcome) by { Defined(r.outcome); }
      }
    }
  }

  lemma Defined<T>(o: Outcome<T>)
    requires o.Value? || o.Returned?
    ensures !Undefined(o)
  {
  }
}
