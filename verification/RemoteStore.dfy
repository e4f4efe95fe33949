/**
 * The object store as the cache sees it: a server map behind one connection that serves requests in order,
 * so that asynchronous calls resolve later but as if served when they were issued.
 */
module RemoteStore {
  import opened Basics

  datatype Request<T> = PutRequest(oid: ObjectId, obj: T) | GetRequest(oid: ObjectId) | RemoveRequest(oid: ObjectId)

  /** What a future holds once its request was served. */
  datatype Answer<T> = Done | Found(obj: T) | NoSuchId | MemoryError

  datatype InFlight<T> = InFlight(future: nat, request: Request<T>)

  /**
   * The surroundings: what serializing and deserializing makes of an object, and which puts, by the number
   * of their request, the server has memory for.
   */
  datatype World<!T> = World(codec: T -> T, accepts: nat -> bool)

  function Effect<T>(w: World<T>, m: map<ObjectId, T>, x: InFlight<T>): map<ObjectId, T> {
    match x.request
    case PutRequest(oid, obj) => if w.accepts(x.future) then m[oid := w.codec(obj)] else m
    case GetRequest(_) => m
    case RemoveRequest(oid) => m - {oid}
  }

  function Reply<T>(w: World<T>, m: map<ObjectId, T>, x: InFlight<T>): Answer<T> {
    match x.request
    case PutRequest(_, _) => if w.accepts(x.future) then Done else MemoryError
    case GetRequest(oid) => if oid in m then Found(m[oid]) else NoSuchId
    case RemoveRequest(_) => Done
  }

  /** The server's map once everything in flight has been served. */
  ghost function After<T>(w: World<T>, m: map<ObjectId, T>, q: seq<InFlight<T>>): map<ObjectId, T> {
    if q == [] then m else Effect(w, After(w, m, q[..|q| - 1]), q[|q| - 1])
  }

  /** The answers the requests in flight will get. */
  ghost function Promised<T>(w: World<T>, m: map<ObjectId, T>, q: seq<InFlight<T>>): map<nat, Answer<T>> {
    if q == [] then map[]
    else
      var before := q[..|q| - 1];
      var last := q[|q| - 1];
      Promised(w, m, before)[last.future := Reply(w, After(w, m, before), last)]
  }

  ghost predicate DistinctFutures<T>(q: seq<InFlight<T>>) {
    forall i, j :: 0 <= i < j < |q| ==> q[i].future != q[j].future
  }

  ghost function FuturesOf<T>(q: seq<InFlight<T>>): set<nat> {
    set x | x in q :: x.future
  }

  /** Serving the oldest request changes neither where the server ends up nor any answer. */
  lemma {:induction false} ServeFirst<T>(w: World<T>, m: map<ObjectId, T>, q: seq<InFlight<T>>)
    requires q != [] && DistinctFutures(q)
    ensures After(w, Effect(w, m, q[0]), q[1..]) == After(w, m, q)
    ensures q[0].future !in Promised(w, Effect(w, m, q[0]), q[1..])
    ensures Promised(w, Effect(w, m, q[0]), q[1..])[q[0].future := Reply(w, m, q[0])] == Promised(w, m, q)
  {
    hide Effect, Reply;
    var n := |q| - 1;
    var before := q[..n];
    if n == 0 {
      assert before == [] && q[1..] == [];
    } else {
      ServeFirst(w, m, before);
      assert before[0] == q[0] && before[1..] == q[1..][..n - 1];
      assert q[1..][n - 1] == q[n];
      assert q[0].future != q[n].future;
    }
  }

  lemma {:induction false} PromisedKeys<T>(w: World<T>, m: map<ObjectId, T>, q: seq<InFlight<T>>)
    ensures Promised(w, m, q).Keys == FuturesOf(q)
  {
    hide Effect, Reply;
    if q != [] {
      var before := q[..|q| - 1];
      PromisedKeys(w, m, before);
      assert q == before + [q[|q| - 1]];
      assert FuturesOf(q) == FuturesOf(before) + {q[|q| - 1].future};
    }
  }

  lemma FuturesLast<T>(q: seq<InFlight<T>>, x: InFlight<T>)
    ensures FuturesOf(q + [x]) == FuturesOf(q) + {x.future}
    ensures DistinctFutures(q) && x.future !in FuturesOf(q) ==> DistinctFutures(q + [x])
  {
    assert forall y :: y in q + [x] <==> y in q || y == x;
    assert forall i :: 0 <= i < |q| ==> q[i] in q && q[i].future in FuturesOf(q);
  }

  lemma ServeLast<T>(w: World<T>, m: map<ObjectId, T>, q: seq<InFlight<T>>, x: InFlight<T>)
    ensures After(w, m, q + [x]) == Effect(w, After(w, m, q), x)
    ensures Promised(w, m, q + [x]) == Promised(w, m, q)[x.future := Reply(w, After(w, m, q), x)]
  {
    hide Effect, Reply;
    assert (q + [x])[..|q|] == q;
  }

  class Store<T> {
    const world: World<T>
    var server: map<ObjectId, T>
    var inFlight: seq<InFlight<T>>
    var answers: map<nat, Answer<T>>
    var locked: set<nat>
    var issued: nat

    /** Every future issued is either answered or in flight, never both. */
    ghost predicate Valid()
      reads this
    {
      && DistinctFutures(inFlight)
      && answers.Keys !! FuturesOf(inFlight)
      && (forall f: nat :: f in answers || f in FuturesOf(inFlight) <==> f < issued)
      && (forall f :: f in locked ==> f < issued)
    }

    ghost function Drained(): map<ObjectId, T>
      reads this
    {
      After(world, server, inFlight)
    }

    ghost function Promises(): map<nat, Answer<T>>
      reads this
    {
      answers + Promised(world, server, inFlight)
    }

    constructor (world: World<T>, server: map<ObjectId, T>)
      ensures Valid() && issued == 0 && this.world == world && locked == {}
      ensures Drained() == server && Promises() == map[]
    {
      this.world := world;
      this.server := server;
      inFlight := [];
      answers := map[];
      locked := {};
      issued := 0;
    }

    /** The next future's lock is still clear. */
    lemma NextIsFree()
      requires Valid()
      ensures issued !in locked
    {
    }

    /** Put a request on the wire; its effect and its answer are settled by what was issued before it. */
    method Submit(request: Request<T>) returns (future: nat)
      requires Valid()
      modifies this`inFlight, this`issued
      ensures Valid() && future == old(issued) && issued == old(issued) + 1
      ensures Drained() == Effect(world, old(Drained()), InFlight(future, request))
      ensures Promises() == old(Promises())[future := Reply(world, old(Drained()), InFlight(future, request))]
    {
      hide Effect, Reply, After, Promised, FuturesOf;
      future := issued;
      var x := InFlight(future, request);
      FuturesLast(inFlight, x);
      ServeLast(world, server, inFlight, x);
      inFlight := inFlight + [x];
      issued := issued + 1;
    }

    /**
     * The server serves the oldest request in flight and the receiver publishes the answer, then clears the
     * lock of its future.
     */
    method Deliver()
      requires Valid() && inFlight != []
      modifies this`server, this`inFlight, this`answers, this`locked
      ensures Valid() && Drained() == old(Drained()) && Promises() == old(Promises())
      ensures inFlight == old(inFlight)[1..]
      ensures answers.Keys == old(answers.Keys) + {old(inFlight[0].future)}
      ensures locked == old(locked) - {old(inFlight[0].future)}
    {
      hide After, Promised, Effect, Reply, FuturesOf;
      ServeFirst(world, server, inFlight);
      var x := inFlight[0];
      ghost var q, a := inFlight, answers;
      answers := answers[x.future := Reply(world, server, x)];
      server := Effect(world, server, x);
      inFlight := inFlight[1..];
      locked := locked - {x.future};
      FuturesFirst(q);
      PromisedKeys(world, server, inFlight);
      assert Promises() == a + Promised(world, server, inFlight)[x.future := answers[x.future]];
    }

    lemma StillInFlight(future: nat)
      requires Valid() && future < issued && future !in answers
      ensures inFlight != []
    {
      assert future in FuturesOf(inFlight);
    }

    lemma AnsweredAsPromised(future: nat)
      requires Valid() && future in answers
      ensures future in Promises() && answers[future] == Promises()[future]
    {
      hide After, Promised;
      PromisedKeys(world, server, inFlight);
    }

    /** The test-and-set on a future's lock. */
    method TakeLock(future: nat) returns (free: bool)
      requires Valid() && future < issued
      modifies this`locked
      ensures Valid() && Drained() == old(Drained()) && Promises() == old(Promises())
      ensures free == (future !in old(locked)) && locked == old(locked) + {future}
    {
      free := future !in locked;
      locked := locked + {future};
    }

    /** `wait`: on return the future's answer is there. */
    method Wait(future: nat)
      requires Valid() && future < issued
      modifies this`server, this`inFlight, this`answers, this`locked
      ensures Valid() && Drained() == old(Drained()) && Promises() == old(Promises())
      ensures future in answers && answers[future] == Promises()[future]
      ensures locked <= old(locked) + {future} && old(answers.Keys) <= answers.Keys
    {
      hide Valid, Drained, Promises;
      while future !in answers
        invariant Valid() && Drained() == old(Drained()) && Promises() == old(Promises())
        invariant locked <= old(locked) + {future} && old(answers.Keys) <= answers.Keys
        decreases |inFlight|
      {
        var _ := TakeLock(future);
        StillInFlight(future);
        Deliver();
        if * {
          // The waiter was spinning: it takes the lock once it is clear, and looks again.
          var _ := TakeLock(future);
        }
      }
      AnsweredAsPromised(future);
    }

    /** `try_wait`: true if the answer is there, or else if the future's lock was free, and then takes it. */
    method TryWait(future: nat) returns (done: bool)
      requires Valid() && future < issued
      modifies this`locked
      ensures Valid()
      ensures done == (future in answers || future !in old(locked))
      ensures locked == if future in answers then old(locked) else old(locked) + {future}
    {
      if future !in answers {
        done := TakeLock(future);
      } else {
        done := true;
      }
    }

    method Get(oid: ObjectId) returns (a: Answer<T>)
      requires Valid()
      modifies this
      ensures Valid() && issued == old(issued) + 1 && Drained() == old(Drained())
      ensures a == Reply(world, old(Drained()), InFlight(old(issued), GetRequest(oid)))
      ensures Promises() == old(Promises())[old(issued) := a]
      ensures locked <= old(locked) + {old(issued)} && old(answers.Keys) <= answers.Keys
    {
      var f := Submit(GetRequest(oid));
      Wait(f);
      a := answers[f];
    }

    method Put(oid: ObjectId, obj: T) returns (a: Answer<T>)
      requires Valid()
      modifies this
      ensures Valid() && issued == old(issued) + 1
      ensures Drained() == Effect(world, old(Drained()), InFlight(old(issued), PutRequest(oid, obj)))
      ensures a == Reply(world, old(Drained()), InFlight(old(issued), PutRequest(oid, obj)))
      ensures Promises() == old(Promises())[old(issued) := a]
      ensures locked <= old(locked) + {old(issued)} && old(answers.Keys) <= answers.Keys
    {
      var f := Submit(PutRequest(oid, obj));
      Wait(f);
      a := answers[f];
    }

    method Remove(oid: ObjectId)
      requires Valid()
      modifies this
      ensures Valid() && issued == old(issued) + 1 && Drained() == old(Drained()) - {oid}
      ensures Promises() == old(Promises())[old(issued) := Done]
      ensures locked <= old(locked) + {old(issued)} && old(answers.Keys) <= answers.Keys
    {
      var f := Submit(RemoveRequest(oid));
      Wait(f);
    }
  }

  lemma FuturesFirst<T>(q: seq<InFlight<T>>)
    requires q != [] && DistinctFutures(q)
    ensures FuturesOf(q) == FuturesOf(q[1..]) + {q[0].future}
    ensures q[0].future !in FuturesOf(q[1..])
  {
    assert q == [q[0]] + q[1..];
    assert forall x :: x in q <==> x == q[0] || x in q[1..];
  }
}
