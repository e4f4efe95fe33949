/** The "least recently used" policy: a list, most recent first, and a map of iterators into it. */
module LruEviction {
  import opened Basics
  import opened Eviction

  function Truncate(s: seq<ObjectId>, cap: nat): seq<ObjectId> {
    if |s| > cap then s[..cap] else s
  }

  function ToFront(list: seq<ObjectId>, oid: ObjectId): seq<ObjectId> {
    [oid] + Without(list, oid)
  }

  /** The list, most recent first, after an access to `oid` at capacity `cap`. */
  function Touch(list: seq<ObjectId>, cap: nat, oid: ObjectId): Decision {
    if oid in list then Decision(ToFront(list, oid), [])
    else if |list| + 1 > cap then Decision(([oid] + list)[..|list|], [([oid] + list)[|list|]])
    else Decision([oid] + list, [])
  }

  /** One access; a put is not tracked by this policy. */
  function Step(list: seq<ObjectId>, cap: nat, a: Access): seq<ObjectId> {
    match a
    case Get(oid) => Touch(list, cap, oid).order
    case Prefetch(oid) => Touch(list, cap, oid).order
    case Put(_) => list
    case Remove(oid) => Without(list, oid)
  }

  function Run(trace: seq<Access>, cap: nat): seq<ObjectId> {
    if trace == [] then [] else Step(Run(trace[..|trace| - 1], cap), cap, trace[|trace| - 1])
  }

  ghost predicate Held(list: seq<ObjectId>, cap: nat) {
    NoDup(list) && |list| <= cap
  }

  lemma {:induction false} WithoutLength(list: seq<ObjectId>, oid: ObjectId)
    ensures |Without(list, oid)| <= |list|
    ensures oid in list ==> |Without(list, oid)| < |list|
  {
    if list != [] {
      WithoutLength(list[1..], oid);
    }
  }

  lemma ToFrontNoDup(list: seq<ObjectId>, oid: ObjectId)
    requires NoDup(list)
    ensures NoDup(ToFront(list, oid))
    ensures SetOf(ToFront(list, oid)) == SetOf(list) + {oid}
  {
    WithoutNoDup(list, oid);
    WithoutSet(list, oid);
    assert oid !in SetOf(Without(list, oid));
    assert SetOf(ToFront(list, oid)) == {oid} + SetOf(Without(list, oid));
  }

  /** Both branches of an access are "move to the front, then cut to the capacity". */
  lemma TouchIsTruncatedFront(list: seq<ObjectId>, cap: nat, oid: ObjectId)
    requires Held(list, cap)
    ensures Touch(list, cap, oid).order == Truncate(ToFront(list, oid), cap)
    ensures Held(Touch(list, cap, oid).order, cap)
    ensures SetOf(Touch(list, cap, oid).victims) == SetOf(list) + {oid} - SetOf(Touch(list, cap, oid).order)
  {
    hide Without;
    ToFrontNoDup(list, oid);
    WithoutLength(list, oid);
    if oid !in list {
      WithoutAbsent(list, oid);
      var all := ToFront(list, oid);
      if |all| > cap {
        assert all == all[..|list|] + [all[|list|]];
        assert SetOf(all) == SetOf(all[..|list|]) + {all[|list|]};
        assert all[|list|] !in all[..|list|];
      }
    }
  }

  lemma StepHeld(list: seq<ObjectId>, cap: nat, a: Access)
    requires Held(list, cap)
    ensures Held(Step(list, cap, a), cap)
  {
    if a.Remove? {
      WithoutNoDup(list, a.oid);
      WithoutLength(list, a.oid);
    } else {
      TouchIsTruncatedFront(list, cap, a.oid);
    }
  }

  lemma {:induction false} RunHeld(trace: seq<Access>, cap: nat)
    ensures Held(Run(trace, cap), cap)
  {
    if trace != [] {
      RunHeld(trace[..|trace| - 1], cap);
      StepHeld(Run(trace[..|trace| - 1], cap), cap, trace[|trace| - 1]);
    }
  }

  lemma TruncatePrefix(a: seq<ObjectId>, t: seq<ObjectId>, m: nat, n: nat)
    requires m <= n
    ensures Truncate(a, m) <= Truncate(a + t, n)
  {
  }

  lemma ToFrontConcat(a: seq<ObjectId>, t: seq<ObjectId>, oid: ObjectId)
    ensures ToFront(a + t, oid) == ToFront(a, oid) + Without(t, oid)
  {
    WithoutConcat(a, t, oid);
  }

  lemma InclusionStep(small: seq<ObjectId>, big: seq<ObjectId>, m: nat, n: nat, a: Access)
    requires m <= n && small <= big && Held(small, m) && Held(big, n)
    ensures Step(small, m, a) <= Step(big, n, a)
  {
    hide Without, Touch, Truncate, ToFront, NoDup;
    var tail := big[|small|..];
    assert big == small + tail;
    if a.Get? || a.Prefetch? {
      TouchIsTruncatedFront(small, m, a.oid);
      TouchIsTruncatedFront(big, n, a.oid);
      ToFrontConcat(small, tail, a.oid);
      TruncatePrefix(ToFront(small, a.oid), Without(tail, a.oid), m, n);
    } else if a.Remove? {
      WithoutConcat(small, tail, a.oid);
    }
  }

  /** Inclusion: on one trace, what a smaller LRU holds is a front part of what a larger one holds. */
  lemma {:induction false} Inclusion(trace: seq<Access>, m: nat, n: nat)
    requires m <= n
    ensures Run(trace, m) <= Run(trace, n)
    ensures forall oid :: oid in Run(trace, m) ==> oid in Run(trace, n)
  {
    if trace != [] {
      var before := trace[..|trace| - 1];
      Inclusion(before, m, n);
      RunHeld(before, m);
      RunHeld(before, n);
      InclusionStep(Run(before, m), Run(before, n), m, n, trace[|trace| - 1]);
    }
  }

  // ---- Stack distance: which ids are held, said without the list ----

  ghost predicate NoRemoves(trace: seq<Access>) {
    forall i :: 0 <= i < |trace| ==> !trace[i].Remove?
  }

  ghost predicate Used(trace: seq<Access>, oid: ObjectId) {
    exists i :: 0 <= i < |trace| && !trace[i].Put? && trace[i].oid == oid
  }

  /** The distinct ids read or prefetched since `oid` last was. */
  ghost function UsedSince(trace: seq<Access>, oid: ObjectId): set<ObjectId> {
    if trace == [] then {}
    else
      var before := trace[..|trace| - 1];
      var last := trace[|trace| - 1];
      if last.Put? then UsedSince(before, oid)
      else if last.oid == oid then {}
      else UsedSince(before, oid) + {last.oid}
  }

  /** All ids used and not removed since, most recent first, with no capacity. */
  ghost function Recency(trace: seq<Access>): seq<ObjectId> {
    if trace == [] then []
    else
      var before := Recency(trace[..|trace| - 1]);
      var last := trace[|trace| - 1];
      if last.Put? then before else if last.Remove? then Without(before, last.oid) else ToFront(before, last.oid)
  }

  lemma {:induction false} RecencyFacts(trace: seq<Access>)
    requires NoRemoves(trace)
    ensures NoDup(Recency(trace))
    ensures forall oid :: oid in Recency(trace) <==> Used(trace, oid)
  {
    if trace != [] {
      var before := trace[..|trace| - 1];
      var last := trace[|trace| - 1];
      RecencyFacts(before);
      if !last.Put? {
        ToFrontNoDup(Recency(before), last.oid);
      }
      forall oid: ObjectId ensures oid in Recency(trace) <==> Used(trace, oid) {
        assert Used(trace, oid) <==> Used(before, oid) || (!last.Put? && last.oid == oid);
        if !last.Put? {
          assert oid in SetOf(ToFront(Recency(before), last.oid)) <==> oid in SetOf(Recency(before)) + {last.oid};
        }
      }
    }
  }

  lemma TruncateCommutes(list: seq<ObjectId>, cap: nat, oid: ObjectId)
    requires NoDup(list)
    ensures Truncate(ToFront(Truncate(list, cap), oid), cap) == Truncate(ToFront(list, oid), cap)
  {
    if |list| > cap {
      assert list == list[..cap] + list[cap..];
      WithoutConcat(list[..cap], list[cap..], oid);
      if oid in list[..cap] {
        var i :| 0 <= i < cap && list[i] == oid;
        WithoutAt(list[..cap], i, oid);
      } else {
        WithoutAbsent(list[..cap], oid);
      }
    }
  }

  /** A capacity that is never reached loses nothing. */
  lemma {:induction false} RunUnbounded(trace: seq<Access>, cap: nat)
    requires |trace| <= cap
    ensures Run(trace, cap) == Recency(trace) && |Recency(trace)| <= |trace|
  {
    hide Touch;
    if trace != [] {
      var before := trace[..|trace| - 1];
      var last := trace[|trace| - 1];
      RunUnbounded(before, cap);
      RunHeld(before, cap);
      WithoutLength(Recency(before), last.oid);
      if last.Get? || last.Prefetch? {
        TouchIsTruncatedFront(Run(before, cap), cap, last.oid);
      }
    }
  }

  lemma {:induction false} RunIsTruncated(trace: seq<Access>, cap: nat)
    requires NoRemoves(trace)
    ensures Run(trace, cap) == Truncate(Recency(trace), cap)
  {
    if trace != [] {
      var before := trace[..|trace| - 1];
      var last := trace[|trace| - 1];
      RunIsTruncated(before, cap);
      RecencyFacts(before);
      RunHeld(before, cap);
      if !last.Put? {
        TouchIsTruncatedFront(Run(before, cap), cap, last.oid);
        TruncateCommutes(Recency(before), cap, last.oid);
      }
    }
  }

  /** Capacity `cap` holds a front part of the recency list; without removals, exactly its first `cap` ids. */
  lemma RunIsRecencyPrefix(trace: seq<Access>, cap: nat)
    ensures Run(trace, cap) <= Recency(trace)
    ensures NoRemoves(trace) ==> Run(trace, cap) == Truncate(Recency(trace), cap)
  {
    var n := if cap < |trace| then |trace| else cap;
    Inclusion(trace, cap, n);
    RunUnbounded(trace, n);
    if NoRemoves(trace) {
      RunIsTruncated(trace, cap);
    }
  }

  lemma ToFrontAhead(list: seq<ObjectId>, oid: ObjectId, y: ObjectId, k: nat) returns (j: nat)
    requires NoDup(list) && k < |list| && list[k] == oid && y != oid
    ensures j < |ToFront(list, y)| && ToFront(list, y)[j] == oid
    ensures SetOf(ToFront(list, y)[..j]) == SetOf(list[..k]) + {y}
  {
    assert list == list[..k] + [oid] + list[k + 1..];
    WithoutConcat(list[..k] + [oid], list[k + 1..], y);
    WithoutConcat(list[..k], [oid], y);
    j := 1 + |Without(list[..k], y)|;
    WithoutSet(list[..k], y);
    assert ToFront(list, y) == ([y] + Without(list[..k], y)) + [oid] + Without(list[k + 1..], y);
    assert ToFront(list, y)[..j] == [y] + Without(list[..k], y);
    assert SetOf([y] + Without(list[..k], y)) == {y} + SetOf(Without(list[..k], y));
  }

  /** What stands ahead of `oid` in the recency list is what was used since. */
  lemma {:induction false} AheadIsUsedSince(trace: seq<Access>, oid: ObjectId) returns (k: nat)
    requires NoRemoves(trace) && Used(trace, oid)
    ensures k < |Recency(trace)| && Recency(trace)[k] == oid
    ensures SetOf(Recency(trace)[..k]) == UsedSince(trace, oid)
    ensures k == |UsedSince(trace, oid)|
  {
    RecencyFacts(trace);
    var before := trace[..|trace| - 1];
    var last := trace[|trace| - 1];
    if !last.Put? && last.oid == oid {
      k := 0;
    } else {
      assert Used(before, oid);
      k := AheadIsUsedSince(before, oid);
      if !last.Put? {
        RecencyFacts(before);
        k := ToFrontAhead(Recency(before), oid, last.oid, k);
      }
    }
    NoDupCardinality(Recency(trace)[..k]);
  }

  /** An id is held exactly when fewer than `cap` other ids were used since it last was. */
  lemma HitIff(trace: seq<Access>, cap: nat, oid: ObjectId)
    requires NoRemoves(trace)
    ensures oid in Run(trace, cap) <==> Used(trace, oid) && |UsedSince(trace, oid)| < cap
  {
    RunIsTruncated(trace, cap);
    RecencyFacts(trace);
    if Used(trace, oid) {
      var k := AheadIsUsedSince(trace, oid);
      assert k < cap ==> Run(trace, cap)[k] == oid;
    }
  }

  // ---- The same with removals ----

  /** The ids used since `oid` last was, and not removed since. */
  ghost function LiveSince(trace: seq<Access>, oid: ObjectId): set<ObjectId> {
    if trace == [] then {}
    else
      var before := LiveSince(trace[..|trace| - 1], oid);
      var last := trace[|trace| - 1];
      match last
      case Put(_) => before
      case Remove(x) => before - {x}
      case _ => if last.oid == oid then {} else before + {last.oid}
  }

  /** Used, not removed since, and with fewer than `cap` live ids used after it at every moment since. */
  ghost predicate Survives(trace: seq<Access>, cap: nat, oid: ObjectId) {
    exists j :: UsedAt(trace, oid, j) && forall k :: j < k <= |trace| ==> StaysWithin(trace, cap, oid, j, k)
  }

  ghost predicate UsedAt(trace: seq<Access>, oid: ObjectId, j: int) {
    0 <= j < |trace| && trace[j].oid == oid && (trace[j].Get? || trace[j].Prefetch?)
  }

  ghost predicate StaysWithin(trace: seq<Access>, cap: nat, oid: ObjectId, j: int, k: int)
    requires 0 <= j < k <= |trace|
  {
    trace[k - 1] != Remove(oid) && |LiveSince(trace[..k], oid)| < cap
  }

  /** One more access: a use starts again, a removal ends it, anything else must leave it within the capacity. */
  lemma SurvivesStep(trace: seq<Access>, cap: nat, oid: ObjectId)
    requires trace != []
    ensures var before := trace[..|trace| - 1];
      Survives(trace, cap, oid) <==>
        trace[|trace| - 1] != Remove(oid) && |LiveSince(trace, oid)| < cap
        && (UsedAt(trace, oid, |trace| - 1) || Survives(before, cap, oid))
  {
    hide LiveSince;
    var n := |trace| - 1;
    var before := trace[..n];
    assert trace[..|trace|] == trace;
    assert forall k :: 0 <= k <= n ==> before[..k] == trace[..k];
    if Survives(trace, cap, oid) {
      var j :| UsedAt(trace, oid, j) && forall k :: j < k <= |trace| ==> StaysWithin(trace, cap, oid, j, k);
      assert StaysWithin(trace, cap, oid, j, |trace|);
      if j < n {
        assert UsedAt(before, oid, j);
        forall k | j < k <= n ensures StaysWithin(before, cap, oid, j, k) {
          assert StaysWithin(trace, cap, oid, j, k);
        }
      }
    }
    if trace[n] != Remove(oid) && |LiveSince(trace, oid)| < cap {
      if UsedAt(trace, oid, n) {
        assert forall k :: n < k <= |trace| ==> StaysWithin(trace, cap, oid, n, k);
      } else if Survives(before, cap, oid) {
        var j :| UsedAt(before, oid, j) && forall k :: j < k <= n ==> StaysWithin(before, cap, oid, j, k);
        assert UsedAt(trace, oid, j);
        forall k | j < k <= |trace| ensures StaysWithin(trace, cap, oid, j, k) {
          if k <= n {
            assert StaysWithin(before, cap, oid, j, k);
          }
        }
      }
    }
  }

  lemma WithoutAhead(list: seq<ObjectId>, oid: ObjectId, y: ObjectId, k: nat) returns (j: nat)
    requires NoDup(list) && k < |list| && list[k] == oid && y != oid
    ensures j < |Without(list, y)| && Without(list, y)[j] == oid
    ensures SetOf(Without(list, y)[..j]) == SetOf(list[..k]) - {y}
  {
    assert list == list[..k] + [oid] + list[k + 1..];
    WithoutConcat(list[..k] + [oid], list[k + 1..], y);
    WithoutConcat(list[..k], [oid], y);
    j := |Without(list[..k], y)|;
    WithoutSet(list[..k], y);
    WithoutOther(oid, y);
    assert Without(list, y) == Without(list[..k], y) + [oid] + Without(list[k + 1..], y);
    assert Without(list, y)[..j] == Without(list[..k], y);
  }

  lemma WithoutOther(x: ObjectId, y: ObjectId)
    requires x != y
    ensures Without([x], y) == [x]
  {
    assert [x][1..] == [];
  }

  /** Where a held id stands: behind exactly the live ids used since. */
  ghost predicate StandsAt(list: seq<ObjectId>, oid: ObjectId, p: nat, ahead: set<ObjectId>) {
    p < |list| && list[p] == oid && SetOf(list[..p]) == ahead && p == |ahead|
  }

  lemma StandsIn(list: seq<ObjectId>, oid: ObjectId, p: nat, ahead: set<ObjectId>)
    requires NoDup(list) && p < |list| && list[p] == oid && SetOf(list[..p]) == ahead
    ensures StandsAt(list, oid, p, ahead)
  {
    NoDupCardinality(list[..p]);
  }

  /** An access to another id leaves a held id held exactly when fewer than `cap` ids then stand ahead of it. */
  lemma OtherUse(list: seq<ObjectId>, cap: nat, oid: ObjectId, y: ObjectId, p: nat, ahead: set<ObjectId>)
    requires Held(list, cap) && StandsAt(list, oid, p, ahead) && y != oid
    ensures oid in Touch(list, cap, y).order <==> |ahead + {y}| < cap
    ensures |ahead + {y}| < cap ==> StandsAt(Touch(list, cap, y).order, oid, |ahead + {y}|, ahead + {y})
  {
    hide Without, Touch;
    TouchIsTruncatedFront(list, cap, y);
    ToFrontNoDup(list, y);
    var front := ToFront(list, y);
    var j := ToFrontAhead(list, oid, y, p);
    StandsIn(front, oid, j, ahead + {y});
    var order := Touch(list, cap, y).order;
    if j < cap {
      assert order[j] == oid && order[..j] == front[..j];
    } else {
      assert forall k :: 0 <= k < |order| ==> order[k] == front[k] && k != j;
    }
  }

  lemma OtherRemove(list: seq<ObjectId>, oid: ObjectId, y: ObjectId, p: nat, ahead: set<ObjectId>)
    requires NoDup(list) && StandsAt(list, oid, p, ahead) && y != oid
    ensures StandsAt(Without(list, y), oid, |ahead - {y}|, ahead - {y})
  {
    hide Without;
    WithoutNoDup(list, y);
    var j := WithoutAhead(list, oid, y, p);
    StandsIn(Without(list, y), oid, j, ahead - {y});
  }

  /** On every trace, removals included: which ids are held, and where they stand. */
  lemma {:induction false} HeldIff(trace: seq<Access>, cap: nat, oid: ObjectId)
    ensures oid in Run(trace, cap) <==> Survives(trace, cap, oid)
    ensures oid in Run(trace, cap) ==>
      StandsAt(Run(trace, cap), oid, |LiveSince(trace, oid)|, LiveSince(trace, oid)) && |LiveSince(trace, oid)| < cap
  {
    hide Without, Touch, Survives, StandsAt, NoDup;
    if trace == [] {
      NothingSurvives(cap, oid);
    } else {
      var before := trace[..|trace| - 1];
      HeldIff(before, cap, oid);
      RunHeld(before, cap);
      SurvivesStep(trace, cap, oid);
      HeldStep(trace, cap, oid);
    }
  }

  lemma NothingSurvives(cap: nat, oid: ObjectId)
    ensures !Survives([], cap, oid)
  {
  }

  lemma HeldStep(trace: seq<Access>, cap: nat, oid: ObjectId)
    requires trace != []
    requires var before := trace[..|trace| - 1];
      && Held(Run(before, cap), cap)
      && (oid in Run(before, cap) ==>
            && StandsAt(Run(before, cap), oid, |LiveSince(before, oid)|, LiveSince(before, oid))
            && |LiveSince(before, oid)| < cap)
    ensures oid in Run(trace, cap) <==>
      trace[|trace| - 1] != Remove(oid) && |LiveSince(trace, oid)| < cap
      && (UsedAt(trace, oid, |trace| - 1) || oid in Run(trace[..|trace| - 1], cap))
    ensures oid in Run(trace, cap) ==>
      StandsAt(Run(trace, cap), oid, |LiveSince(trace, oid)|, LiveSince(trace, oid))
  {
    hide Without, Touch, StandsAt, NoDup;
    var before := trace[..|trace| - 1];
    var last := trace[|trace| - 1];
    var list := Run(before, cap);
    var ahead := LiveSince(before, oid);
    match last
    case Put(_) =>
    case Remove(y) =>
      WithoutSet(list, y);
      RemoveMembers(list, y);
      if y != oid && oid in list {
        OtherRemove(list, oid, y, |ahead|, ahead);
        SubsetCardinality(ahead - {y}, ahead);
      }
    case _ =>
      if last.oid == oid {
        UseHolds(list, cap, oid);
      } else if oid in list {
        OtherUse(list, cap, oid, last.oid, |ahead|, ahead);
      } else {
        UseAddsOnly(list, cap, last.oid, oid);
      }
  }

  lemma RemoveMembers(list: seq<ObjectId>, y: ObjectId)
    ensures forall x :: x in Without(list, y) <==> x in list && x != y
  {
    WithoutSet(list, y);
    forall x ensures x in Without(list, y) <==> x in list && x != y {
      assert x in SetOf(Without(list, y)) <==> x in SetOf(list) - {y};
    }
  }

  lemma UseHolds(list: seq<ObjectId>, cap: nat, oid: ObjectId)
    requires Held(list, cap)
    ensures oid in Touch(list, cap, oid).order <==> 0 < cap
    ensures 0 < cap ==> StandsAt(Touch(list, cap, oid).order, oid, 0, {})
  {
    hide Without, Touch;
    TouchIsTruncatedFront(list, cap, oid);
    var order := Touch(list, cap, oid).order;
    if 0 < cap {
      assert order[0] == oid;
    } else {
      assert order == [];
    }
  }

  lemma UseAddsOnly(list: seq<ObjectId>, cap: nat, y: ObjectId, oid: ObjectId)
    requires Held(list, cap) && oid !in list && y != oid
    ensures oid !in Touch(list, cap, y).order
  {
    TouchIsTruncatedFront(list, cap, y);
    ToFrontNoDup(list, y);
    assert oid !in SetOf(ToFront(list, y));
  }

  // ---- Residency: the entry a get is about to return survives its own prefetches ----

  /** All victims named while `ids` are prefetched one after the other. */
  function VictimsOf(list: seq<ObjectId>, cap: nat, ids: seq<ObjectId>): seq<ObjectId>
    decreases |ids|
  {
    if ids == [] then []
    else
      var d := Touch(list, cap, ids[0]);
      d.victims + VictimsOf(d.order, cap, ids[1..])
  }

  lemma {:induction false} StaysAhead(list: seq<ObjectId>, cap: nat, oid: ObjectId, p: nat, ids: seq<ObjectId>)
    requires Held(list, cap) && p < |list| && list[p] == oid
    requires p + |ids| < cap
    ensures oid !in VictimsOf(list, cap, ids)
    decreases |ids|
  {
    if ids != [] {
      var d := Touch(list, cap, ids[0]);
      TouchIsTruncatedFront(list, cap, ids[0]);
      var j := MovesBackOne(list, cap, oid, p, ids[0]);
      StaysAhead(d.order, cap, oid, j, ids[1..]);
    }
  }

  lemma MovesBackOne(list: seq<ObjectId>, cap: nat, oid: ObjectId, p: nat, y: ObjectId) returns (j: nat)
    requires Held(list, cap) && p < |list| && list[p] == oid && p + 1 < cap
    ensures j <= p + 1 && oid !in Touch(list, cap, y).victims
    ensures j < |Touch(list, cap, y).order| && Touch(list, cap, y).order[j] == oid
  {
    hide Without, Touch;
    TouchIsTruncatedFront(list, cap, y);
    j := 0;
    if y != oid {
      j := ToFrontAhead(list, oid, y, p);
      ToFrontNoDup(list, y);
      NoDupCardinality(ToFront(list, y)[..j]);
      NoDupCardinality(list[..p]);
      assert |SetOf(list[..p]) + {y}| <= p + 1;
    }
    var d := Touch(list, cap, y);
    assert d.order[j] == oid;
    assert oid in SetOf(d.order);
    assert oid !in SetOf(d.victims);
  }

  /**
   * A get followed by fewer prefetches than the capacity never evicts the entry it read,
   * since every access moves an id back by at most one place.
   */
  lemma ResidencyBound(list: seq<ObjectId>, cap: nat, oid: ObjectId, ids: seq<ObjectId>)
    requires Held(list, cap) && |ids| < cap
    ensures oid !in VictimsOf(Touch(list, cap, oid).order, cap, ids)
    ensures oid in Touch(list, cap, oid).order
  {
    TouchIsTruncatedFront(list, cap, oid);
    StaysAhead(Touch(list, cap, oid).order, cap, oid, 0, ids);
  }

  function Prefetches(ids: seq<ObjectId>): (r: seq<Access>)
    ensures |r| == |ids|
  {
    seq(|ids|, i requires 0 <= i < |ids| => Prefetch(ids[i]))
  }

  lemma {:induction false} LiveSinceGet(trace: seq<Access>, oid: ObjectId, ids: seq<ObjectId>)
    requires oid !in ids
    ensures LiveSince(trace + [Get(oid)] + Prefetches(ids), oid) == SetOf(ids)
  {
    var t := trace + [Get(oid)] + Prefetches(ids);
    if ids != [] {
      var init := ids[..|ids| - 1];
      LiveSinceGet(trace, oid, init);
      assert t[..|t| - 1] == trace + [Get(oid)] + Prefetches(init);
      assert SetOf(ids) == SetOf(init) + {ids[|ids| - 1]};
    }
  }

  /** The bound is sharp: after any trace, as many distinct prefetches as the capacity evict the entry. */
  lemma ResidencyBoundIsSharp(trace: seq<Access>, cap: nat, oid: ObjectId, ids: seq<ObjectId>)
    requires NoDup(ids) && oid !in ids
    ensures oid in Run(trace + [Get(oid)] + Prefetches(ids), cap) <==> |ids| < cap
  {
    hide LiveSince, Run, StandsAt;
    var t := trace + [Get(oid)] + Prefetches(ids);
    var j := |trace|;
    HeldIff(t, cap, oid);
    LiveSinceGet(trace, oid, ids);
    NoDupCardinality(ids);
    if |ids| < cap {
      assert UsedAt(t, oid, j);
      forall k | j < k <= |t| ensures StaysWithin(t, cap, oid, j, k) {
        var some := ids[..k - j - 1];
        assert t[..k] == trace + [Get(oid)] + Prefetches(some);
        LiveSinceGet(trace, oid, some);
        NoDupCardinality(some);
        assert k > j + 1 ==> t[k - 1] == Prefetch(ids[k - j - 2]);
      }
    }
  }

  // ---- The cache beside the policy: puts insert an id the policy never hears of ----

  /** A get or a put adds the id, or throws when that would take the cache over `maxSize`. */
  ghost function Enter(keys: set<ObjectId>, oid: ObjectId, maxSize: nat): set<ObjectId> {
    if oid !in keys && |keys| == maxSize then keys else keys + {oid}
  }

  /**
   * The cache's keys after an access, when the policy answered from `list`. An eviction of an id that is not
   * cached throws before anything is added; a prefetch adds its id without looking at the size.
   */
  ghost function KeysStep(keys: set<ObjectId>, list: seq<ObjectId>, cap: nat, maxSize: nat, a: Access): set<ObjectId> {
    var victims := SetOf(Touch(list, cap, a.oid).victims);
    match a
    case Get(oid) => if victims <= keys then Enter(keys - victims, oid, maxSize) else keys
    case Prefetch(oid) => if victims <= keys then keys - victims + {oid} else keys
    case Put(oid) => Enter(keys, oid, maxSize)
    case Remove(oid) => keys - {oid}
  }

  ghost function KeysRun(trace: seq<Access>, cap: nat, maxSize: nat): set<ObjectId> {
    if trace == [] then {}
    else
      var before := trace[..|trace| - 1];
      KeysStep(KeysRun(before, cap, maxSize), Run(before, cap), cap, maxSize, trace[|trace| - 1])
  }

  /**
   * What parts cache and policy: a put of an uncached id that the cache takes in, or a get of one that the
   * policy counts and the cache, too small for the policy, throws on.
   */
  ghost predicate Parts(keys: set<ObjectId>, cap: nat, maxSize: nat, a: Access) {
    && a.oid !in keys
    && (|| (a.Put? && |keys| != maxSize)
        || (a.Get? && (if |keys| < cap then |keys| else cap - 1) == maxSize))
  }

  lemma PutAgreement(keys: set<ObjectId>, list: seq<ObjectId>, cap: nat, maxSize: nat, oid: ObjectId)
    requires keys == SetOf(list)
    ensures KeysStep(keys, list, cap, maxSize, Put(oid)) == SetOf(list) <==> !Parts(keys, cap, maxSize, Put(oid))
  {
    assert oid in keys ==> keys + {oid} == keys;
    assert oid !in keys ==> oid in keys + {oid};
  }

  lemma FullSets(list: seq<ObjectId>, oid: ObjectId)
    requires NoDup(list) && list != [] && oid !in list
    ensures var all := [oid] + list;
      && SetOf(all[..|list|]) == SetOf(list) - {all[|list|]} + {oid} && all[|list|] in list
  {
    var last := |list| - 1;
    assert list == list[..last] + [list[last]];
    assert ([oid] + list)[..|list|] == [oid] + list[..last];
    assert forall x :: x in list <==> x in list[..last] || x == list[last];
    assert list[last] !in list[..last];
  }

  lemma OneVictim(oid: ObjectId)
    ensures SetOf([oid]) == {oid} && SetOf<ObjectId>([]) == {}
  {
  }

  /** What the policy holds after an access, and whom it evicts, as sets. */
  lemma TouchSets(list: seq<ObjectId>, cap: nat, oid: ObjectId)
    requires Held(list, cap)
    ensures var d := Touch(list, cap, oid);
      && |SetOf(list)| == |list|
      && (oid in list ==> SetOf(d.victims) == {} && SetOf(d.order) == SetOf(list))
      && (oid !in list && |list| < cap ==> SetOf(d.victims) == {} && SetOf(d.order) == SetOf(list) + {oid})
      && (oid !in list && 0 < cap == |list| ==>
            && SetOf(d.victims) <= SetOf(list) && |SetOf(list) - SetOf(d.victims)| == cap - 1
            && SetOf(d.order) == SetOf(list) - SetOf(d.victims) + {oid})
      && (cap == 0 ==> SetOf(d.victims) == {oid} && SetOf(d.order) == SetOf(list) == {})
  {
    hide Without, NoDup, ToFront;
    NoDupCardinality(list);
    ToFrontNoDup(list, oid);
    OneVictim(oid);
    if oid in list {
      assert SetOf(list) + {oid} == SetOf(list);
    } else if |list| < cap {
      assert SetOf([oid] + list) == SetOf(list) + {oid};
    } else if 0 < cap {
      var victim := ([oid] + list)[|list|];
      FullSets(list, oid);
      OneVictim(victim);
      assert {victim} <= SetOf(list);
    } else {
      assert list == [] && ([oid] + list)[..0] == [];
    }
  }

  /** From agreement, one access keeps agreement exactly when it does not part them. */
  lemma AgreementStep(keys: set<ObjectId>, list: seq<ObjectId>, cap: nat, maxSize: nat, a: Access)
    requires Held(list, cap) && keys == SetOf(list)
    ensures KeysStep(keys, list, cap, maxSize, a) == SetOf(Step(list, cap, a)) <==> !Parts(keys, cap, maxSize, a)
  {
    hide Touch, NoDup;
    match a
    case Remove(oid) => WithoutSet(list, oid);
    case Put(oid) => PutAgreement(keys, list, cap, maxSize, oid);
    case Prefetch(oid) => TouchSets(list, cap, oid);
    case Get(oid) =>
      TouchSets(list, cap, oid);
      var after := keys - SetOf(Touch(list, cap, oid).victims);
      assert oid in after + {oid};
      assert oid in keys ==> keys + {oid} == keys;
  }

  ghost predicate AgreeThroughout(trace: seq<Access>, cap: nat, maxSize: nat) {
    && KeysRun(trace, cap, maxSize) == SetOf(Run(trace, cap))
    && (trace != [] ==> AgreeThroughout(trace[..|trace| - 1], cap, maxSize))
  }

  ghost predicate NeverParts(trace: seq<Access>, cap: nat, maxSize: nat) {
    trace != [] ==>
      var before := trace[..|trace| - 1];
      NeverParts(before, cap, maxSize) && !Parts(KeysRun(before, cap, maxSize), cap, maxSize, trace[|trace| - 1])
  }

  /** The cache's keys and the policy's list agree all along exactly when no access parts them. */
  lemma {:induction false} AgreementIff(trace: seq<Access>, cap: nat, maxSize: nat)
    ensures AgreeThroughout(trace, cap, maxSize) <==> NeverParts(trace, cap, maxSize)
  {
    hide KeysStep, Parts;
    if trace != [] {
      var before := trace[..|trace| - 1];
      AgreementIff(before, cap, maxSize);
      if AgreeThroughout(before, cap, maxSize) {
        RunHeld(before, cap);
        AgreementStep(KeysRun(before, cap, maxSize), Run(before, cap), cap, maxSize, trace[|trace| - 1]);
      }
    }
  }

  /** The very first put into an empty cache parts them. */
  lemma FirstPutParts(cap: nat, maxSize: nat, oid: ObjectId)
    requires maxSize > 0
    ensures !AgreeThroughout([Put(oid)], cap, maxSize)
  {
    AgreementIff([Put(oid)], cap, maxSize);
    assert [Put(oid)][..0] == [];
  }

  /** Every put goes to a cached id or meets a full cache. */
  ghost predicate PutsAreTracked(trace: seq<Access>, cap: nat, maxSize: nat) {
    trace != [] ==>
      var before := trace[..|trace| - 1];
      var last := trace[|trace| - 1];
      var keys := KeysRun(before, cap, maxSize);
      PutsAreTracked(before, cap, maxSize) && (last.Put? ==> last.oid in keys || |keys| == maxSize)
  }

  lemma {:induction false} TrackedNeverParts(trace: seq<Access>, cap: nat, maxSize: nat)
    requires cap <= maxSize
    ensures NeverParts(trace, cap, maxSize) <==> PutsAreTracked(trace, cap, maxSize)
  {
    hide KeysRun;
    if trace != [] {
      TrackedNeverParts(trace[..|trace| - 1], cap, maxSize);
    }
  }

  /** With a policy no larger than the cache only puts can part them. */
  lemma AgreementIffPutsAreTracked(trace: seq<Access>, cap: nat, maxSize: nat)
    requires cap <= maxSize
    ensures AgreeThroughout(trace, cap, maxSize) <==> PutsAreTracked(trace, cap, maxSize)
  {
    AgreementIff(trace, cap, maxSize);
    TrackedNeverParts(trace, cap, maxSize);
  }

  // ---- The policy object ----

  /** A list node; `handle` is its identity, which iterators refer to and splicing keeps. */
  datatype Node = Node(handle: nat, oid: ObjectId)

  function Oids(nodes: seq<Node>): (r: seq<ObjectId>)
    ensures |r| == |nodes|
    ensures forall i :: 0 <= i < |r| ==> r[i] == nodes[i].oid
  {
    seq(|nodes|, i requires 0 <= i < |nodes| => nodes[i].oid)
  }

  /** Every iterator in the map points at the one node holding its id, and every node is mapped. */
  ghost predicate Linked(nodes: set<Node>, iterators: map<ObjectId, nat>, nextHandle: nat) {
    && (forall n :: n in nodes ==> n.handle < nextHandle && n.oid in iterators && iterators[n.oid] == n.handle)
    && (forall oid :: oid in iterators ==> Node(iterators[oid], oid) in nodes)
    && (forall n, m :: n in nodes && m in nodes && n.handle == m.handle ==> n == m)
  }

  lemma LinkedKeys(nodes: seq<Node>, iterators: map<ObjectId, nat>, nextHandle: nat)
    requires Linked(SetOf(nodes), iterators, nextHandle)
    ensures iterators.Keys == SetOf(Oids(nodes))
    ensures NoDup(Oids(nodes)) ==> |iterators| == |nodes|
  {
    if NoDup(Oids(nodes)) {
      NoDupCardinality(Oids(nodes));
    }
    forall oid: ObjectId ensures oid in iterators <==> oid in Oids(nodes) {
      if oid in iterators {
        assert Node(iterators[oid], oid) in nodes;
        var i :| 0 <= i < |nodes| && nodes[i] == Node(iterators[oid], oid);
        assert Oids(nodes)[i] == oid;
      }
      if oid in Oids(nodes) {
        var i :| 0 <= i < |nodes| && Oids(nodes)[i] == oid;
        assert nodes[i] in SetOf(nodes);
      }
    }
  }

  lemma OidsCons(node: Node, nodes: seq<Node>)
    ensures Oids([node] + nodes) == [node.oid] + Oids(nodes)
    ensures SetOf([node] + nodes) == {node} + SetOf(nodes)
  {
  }

  lemma LinkedInsert(nodes: set<Node>, iterators: map<ObjectId, nat>, nextHandle: nat, oid: ObjectId)
    requires Linked(nodes, iterators, nextHandle) && oid !in iterators
    ensures Linked({Node(nextHandle, oid)} + nodes, iterators[oid := nextHandle], nextHandle + 1)
  {
  }

  function Erase(nodes: seq<Node>, i: nat): seq<Node>
    requires i < |nodes|
  {
    nodes[..i] + nodes[i + 1..]
  }

  lemma EraseOids(nodes: seq<Node>, i: nat)
    requires NoDup(Oids(nodes)) && i < |nodes|
    ensures Oids(Erase(nodes, i)) == Without(Oids(nodes), nodes[i].oid)
  {
    WithoutAt(Oids(nodes), i, nodes[i].oid);
    assert Oids(Erase(nodes, i)) == Oids(nodes)[..i] + Oids(nodes)[i + 1..];
  }

  lemma EraseSet(nodes: seq<Node>, i: nat)
    requires NoDup(Oids(nodes)) && i < |nodes|
    ensures SetOf(Erase(nodes, i)) == SetOf(nodes) - {nodes[i]}
  {
    var rest := Erase(nodes, i);
    assert nodes == nodes[..i] + [nodes[i]] + nodes[i + 1..];
    assert SetOf(nodes) == SetOf(nodes[..i]) + {nodes[i]} + SetOf(nodes[i + 1..]);
    assert SetOf(rest) == SetOf(nodes[..i]) + SetOf(nodes[i + 1..]);
    forall j | 0 <= j < |nodes| && j != i ensures nodes[j] != nodes[i] {
      assert Oids(nodes)[j] != Oids(nodes)[i];
    }
  }

  /** Erasing one node erases its id, and the iterator kept for that id with it. */
  lemma LinkedErase(nodes: seq<Node>, iterators: map<ObjectId, nat>, nextHandle: nat, i: nat)
    requires Linked(SetOf(nodes), iterators, nextHandle) && NoDup(Oids(nodes)) && i < |nodes|
    ensures Linked(SetOf(Erase(nodes, i)), iterators - {nodes[i].oid}, nextHandle)
  {
    EraseSet(nodes, i);
    assert nodes[i] in SetOf(nodes);
  }

  class LRUEvictionPolicy {
    const maxSize: nat
    var objectList: seq<Node>
    var objectMap: map<ObjectId, nat>
    var nextHandle: nat

    ghost predicate Valid()
      reads this
    {
      Held(Oids(objectList), maxSize) && Linked(SetOf(objectList), objectMap, nextHandle)
    }

    constructor (maxSize: nat)
      ensures Valid() && objectList == [] && this.maxSize == maxSize
    {
      this.maxSize := maxSize;
      objectList := [];
      objectMap := map[];
      nextHandle := 0;
    }

    /** Follows the iterator kept for `oid` to its node. */
    method Position(oid: ObjectId) returns (i: nat)
      requires Valid() && oid in objectMap
      ensures i < |objectList| && objectList[i].oid == oid
    {
      ghost var node := Node(objectMap[oid], oid);
      assert node in SetOf(objectList);
      i := 0;
      while objectList[i].handle != objectMap[oid]
        invariant 0 <= i < |objectList|
        invariant node !in objectList[..i]
        decreases |objectList| - i
      {
        i := i + 1;
      }
      assert objectList[i] in SetOf(objectList);
    }

    /** A new id: insert its node at the front. */
    method InsertFront(oid: ObjectId)
      requires Linked(SetOf(objectList), objectMap, nextHandle) && oid !in objectMap
      modifies this
      ensures Linked(SetOf(objectList), objectMap, nextHandle)
      ensures Oids(objectList) == [oid] + old(Oids(objectList))
    {
      OidsCons(Node(nextHandle, oid), objectList);
      LinkedInsert(SetOf(objectList), objectMap, nextHandle, oid);
      objectList := [Node(nextHandle, oid)] + objectList;
      objectMap := objectMap[oid := nextHandle];
      nextHandle := nextHandle + 1;
    }

    method PopBack() returns (last: ObjectId)
      requires Linked(SetOf(objectList), objectMap, nextHandle) && NoDup(Oids(objectList)) && objectList != []
      modifies this
      ensures Linked(SetOf(objectList), objectMap, nextHandle)
      ensures Oids(objectList) == old(Oids(objectList))[..|old(objectList)| - 1]
      ensures last == old(Oids(objectList))[|old(objectList)| - 1]
    {
      var n := |objectList| - 1;
      LinkedErase(objectList, objectMap, nextHandle, n);
      assert Erase(objectList, n) == objectList[..n];
      last := objectList[n].oid;
      objectMap := objectMap - {last};
      objectList := objectList[..n];
    }

    method ProcessOid(oid: ObjectId) returns (victims: seq<ObjectId>)
      requires Valid()
      modifies this
      ensures Valid()
      ensures Decision(Oids(objectList), victims) == Touch(old(Oids(objectList)), maxSize, oid)
    {
      LinkedKeys(objectList, objectMap, nextHandle);
      assert oid in objectMap <==> oid in SetOf(Oids(objectList));
      if oid !in objectMap {
        victims := ProcessNew(oid);
      } else {
        var i := Position(oid);
        Splice(i);
        victims := [];
      }
    }

    method ProcessNew(oid: ObjectId) returns (victims: seq<ObjectId>)
      requires Valid() && oid !in objectMap && oid !in Oids(objectList)
      modifies this
      ensures Valid()
      ensures Decision(Oids(objectList), victims) == Touch(old(Oids(objectList)), maxSize, oid)
    {
      hide Linked;
      ghost var order := Oids(objectList);
      InsertFront(oid);
      assert NoDup([oid] + order);
      LinkedKeys(objectList, objectMap, nextHandle);
      victims := [];
      if |objectMap| > maxSize {
        var last := PopBack();
        victims := [last];
      }
    }

    /** Move the node at `i` to the front; iterators stay valid because its identity does not change. */
    method Splice(i: nat)
      requires Valid() && i < |objectList|
      modifies this
      ensures Valid()
      ensures Oids(objectList) == ToFront(old(Oids(objectList)), old(objectList[i].oid))
    {
      hide Without, Linked, Erase, Oids;
      EraseOids(objectList, i);
      EraseSet(objectList, i);
      ghost var nodes := objectList;
      assert nodes[i].oid == Oids(nodes)[i];
      TouchIsTruncatedFront(Oids(nodes), maxSize, nodes[i].oid);
      objectList := [objectList[i]] + Erase(objectList, i);
      OidsCons(nodes[i], Erase(nodes, i));
      assert {nodes[i]} + (SetOf(nodes) - {nodes[i]}) == SetOf(nodes);
    }

    method Remove(oid: ObjectId)
      requires Valid()
      modifies this
      ensures Valid()
      ensures Oids(objectList) == Without(old(Oids(objectList)), oid)
    {
      hide Without, Linked, Erase, Oids, NoDup;
      LinkedKeys(objectList, objectMap, nextHandle);
      if oid in objectMap {
        var i := Position(oid);
        LinkedErase(objectList, objectMap, nextHandle, i);
        EraseOids(objectList, i);
        WithoutNoDup(Oids(objectList), oid);
        WithoutLength(Oids(objectList), oid);
        objectList := Erase(objectList, i);
        objectMap := objectMap - {oid};
      } else {
        assert oid !in SetOf(Oids(objectList));
        WithoutAbsent(Oids(objectList), oid);
      }
    }
  }
}
