/** What an eviction policy answers: the order it keeps afterwards and the ids to evict. */
module Eviction {
  import opened Basics

  datatype Decision = Decision(order: seq<ObjectId>, victims: seq<ObjectId>)

  datatype Access = Get(oid: ObjectId) | Put(oid: ObjectId) | Prefetch(oid: ObjectId) | Remove(oid: ObjectId)
}

/** The "least recently added" policy: evict in order of insertion. */
module LrAddedEviction {
  import opened Basics
  import opened Eviction

  /** The deque, oldest first, after an access to `oid` at capacity `cap`. */
  function Touch(deque: seq<ObjectId>, cap: nat, oid: ObjectId): Decision {
    if oid in deque then Decision(deque, [])
    else if |deque| + 1 > cap then Decision((deque + [oid])[1..], [(deque + [oid])[0]])
    else Decision(deque + [oid], [])
  }

  /** Ids enter at the back, so with a positive capacity the newcomer is never its own victim. */
  lemma TouchKeeps(deque: seq<ObjectId>, cap: nat, oid: ObjectId)
    requires NoDup(deque) && |deque| <= cap
    ensures var d := Touch(deque, cap, oid);
      && NoDup(d.order) && |d.order| <= cap
      && |d.victims| <= 1
      && (d.victims != [] ==> oid !in deque && |deque| == cap)
      && (forall k :: k in d.order <==> (k in deque || k == oid) && k !in d.victims)
      && (cap > 0 ==> oid in d.order && forall v :: v in d.victims ==> v in deque && v != oid)
  {
    if oid !in deque {
      var all := deque + [oid];
      assert NoDup(all);
      assert all == [all[0]] + all[1..];
      assert forall k :: k in all <==> k in deque || k == oid;
      assert forall k :: k in all <==> k in all[1..] || k == all[0];
    }
  }

  class LRAddedEvictionPolicy {
    const maxSize: nat
    var objectDeque: seq<ObjectId>
    var objectSet: set<ObjectId>

    ghost predicate Valid()
      reads this
    {
      && NoDup(objectDeque)
      && |objectDeque| <= maxSize
      && objectSet == SetOf(objectDeque)
    }

    constructor (maxSize: nat)
      ensures Valid() && objectDeque == [] && this.maxSize == maxSize
    {
      this.maxSize := maxSize;
      objectDeque := [];
      objectSet := {};
    }

    method ProcessOid(oid: ObjectId) returns (victims: seq<ObjectId>)
      requires Valid()
      modifies this
      ensures Valid()
      ensures Decision(objectDeque, victims) == Touch(old(objectDeque), maxSize, oid)
    {
      TouchKeeps(objectDeque, maxSize, oid);
      victims := [];
      if oid !in objectSet {
        objectSet := objectSet + {oid};
        objectDeque := objectDeque + [oid];
        if |objectDeque| > maxSize {
          var oldest := objectDeque[0];
          objectDeque := objectDeque[1..];
          objectSet := objectSet - {oldest};
          victims := [oldest];
          assert forall k :: k in objectSet <==> k in objectDeque;
        }
      }
    }

    /** `std::find` over the deque, then erase. */
    method Remove(oid: ObjectId)
      requires Valid()
      modifies this
      ensures Valid()
      ensures objectDeque == Without(old(objectDeque), oid)
    {
      if oid in objectSet {
        objectSet := objectSet - {oid};
        var i := 0;
        while objectDeque[i] != oid
          invariant 0 <= i < |objectDeque|
          invariant oid !in objectDeque[..i]
          decreases |objectDeque| - i
        {
          i := i + 1;
        }
        WithoutAt(objectDeque, i, oid);
        WithoutNoDup(objectDeque, oid);
        WithoutSet(objectDeque, oid);
        objectDeque := objectDeque[..i] + objectDeque[i + 1..];
      } else {
        WithoutAbsent(objectDeque, oid);
      }
    }
  }
}
