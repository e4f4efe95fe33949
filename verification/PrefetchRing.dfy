/** Which ids the ordered prefetchers ask for: the next ones, going round the range, in 64-bit arithmetic. */
module PrefetchRing {
  import opened Basics

  /** `first..last`, not the whole 64-bit range, where the size `last - first + 1` would wrap to zero. */
  predicate IsRange(first: u64, last: u64) {
    first <= last && last - first + 1 < TWO64
  }

  /** The id `i` places ahead as the code computes it; every operation wraps at 2^64. */
  function Slot(id: u64, i: u64, first: u64, last: u64): u64
    requires IsRange(first, last)
  {
    var tentative := Add64(id, i);
    var shifted := Sub64(tentative, first);
    var modded := shifted % Add64(Sub64(last, first), 1);
    Add64(modded, first)
  }

  /** The id `i` places ahead of `id` on the ring `first..last`, for up to one full turn. */
  function Ahead(id: u64, i: nat, first: u64, last: u64): u64
    requires first <= id <= last && i <= last - first + 1
  {
    if id + i <= last then id + i else id + i - (last - first + 1)
  }

  function Min(a: nat, b: nat): nat {
    if a < b then a else b
  }

  /** The next `min(readAhead, N - 1)` ids on the ring. */
  function AheadList(id: u64, first: u64, last: u64, readAhead: nat): (r: seq<u64>)
    requires first <= id <= last
    ensures |r| == Min(readAhead, last - first)
  {
    seq(Min(readAhead, last - first), k requires 0 <= k < Min(readAhead, last - first) => Ahead(id, k + 1, first, last))
  }

  /** No intermediate sum that the loop meets reaches 2^64, or the wrap is harmless. */
  ghost predicate NoOverflow(id: u64, first: u64, last: u64, readAhead: nat)
    requires first <= id <= last
  {
    last - first + 1 <= TWO63 || id - first + Min(readAhead, last - first + 1) < TWO64
  }

  lemma ModUnder(x: nat, n: nat)
    requires 0 < n
    ensures x < n ==> x % n == x
    ensures n <= x < 2 * n ==> x % n == x - n
  {
    if n <= x < 2 * n {
      assert x == n * 1 + (x - n);
      assert x / n == 1;
    }
  }

  lemma Shifted(id: u64, i: u64, first: u64)
    requires first <= id
    ensures Sub64(Add64(id, i), first) == (id - first + i) % TWO64
  {
  }

  lemma SlotInRange(id: u64, i: u64, first: u64, last: u64)
    requires IsRange(first, last)
    ensures first <= Slot(id, i, first, last) <= last
  {
    hide Sub64;
    Sub64Exact(last, first);
    Add64Exact(last - first, 1);
    var shifted := Sub64(Add64(id, i), first);
    assert 0 <= shifted % (last - first + 1) <= last - first;
    Add64Exact(shifted % (last - first + 1), first);
  }

  lemma SlotIsModulo(id: u64, i: u64, first: u64, last: u64)
    requires IsRange(first, last) && first <= id
    ensures Slot(id, i, first, last) == ((id - first + i) % TWO64) % (last - first + 1) + first
  {
    Shifted(id, i, first);
    hide Sub64;
    Sub64Exact(last, first);
    Add64Exact(last - first, 1);
    var m := ((id - first + i) % TWO64) % (last - first + 1);
    assert 0 <= m <= last - first;
    Add64Exact(m, first);
  }

  lemma SlotExact(id: u64, i: u64, first: u64, last: u64)
    requires IsRange(first, last) && first <= id <= last && i <= last - first + 1
    requires id - first + i < TWO64
    ensures Slot(id, i, first, last) == Ahead(id, i, first, last)
  {
    hide Slot;
    SlotIsModulo(id, i, first, last);
    ModUnder(id - first + i, TWO64);
    ModUnder(id - first + i, last - first + 1);
  }

  /** Only a sum of exactly 2^64 or more goes wrong, and then only on rings of more than 2^63 ids. */
  lemma SlotOverflow(id: u64, first: u64, last: u64)
    requires IsRange(first, last) && first <= id <= last
    requires last - first + 1 > TWO63 && TWO64 - (id - first) <= last - first + 1
    ensures var i := TWO64 - (id - first);
      Slot(id, i, first, last) == first != Ahead(id, i, first, last)
  {
    hide Slot;
    var i := TWO64 - (id - first);
    SlotIsModulo(id, i, first, last);
    ModUnder(0, last - first + 1);
    assert id - first + i == TWO64;
  }

  /** The code's ids are the ring's ids, all the way the loop looks, exactly when nothing overflows. */
  lemma SlotsExactIff(id: u64, first: u64, last: u64, readAhead: nat)
    requires IsRange(first, last) && first <= id <= last
    ensures (forall i: u64 :: 1 <= i <= Min(readAhead, last - first + 1) ==>
               Slot(id, i, first, last) == Ahead(id, i, first, last))
       <==> NoOverflow(id, first, last, readAhead)
  {
    hide Slot, Ahead;
    var n := last - first + 1;
    if NoOverflow(id, first, last, readAhead) {
      forall i: u64 | 1 <= i <= Min(readAhead, n) ensures Slot(id, i, first, last) == Ahead(id, i, first, last) {
        SlotExact(id, i, first, last);
      }
    } else {
      SlotOverflow(id, first, last);
      var i: u64 := TWO64 - (id - first);
      assert 1 <= i <= Min(readAhead, n);
    }
  }

  /** One place ahead is the next id, and the first one after the last. */
  lemma AheadGoesRound(id: u64, i: nat, first: u64, last: u64)
    requires first <= id <= last && i <= last - first
    ensures Ahead(id, 0, first, last) == id
    ensures var here := Ahead(id, i, first, last);
      Ahead(id, i + 1, first, last) == if here == last then first else here + 1
  {
  }

  /** The ids ahead are in range, pairwise distinct and never the starting id. */
  lemma AheadListFacts(id: u64, first: u64, last: u64, readAhead: nat)
    requires first <= id <= last
    ensures var r := AheadList(id, first, last, readAhead);
      && (forall k :: 0 <= k < |r| ==> first <= r[k] <= last && r[k] != id)
      && NoDup(r)
  {
  }

  /** The ids the loop collects from counter `i` up to `bound`, stopping early where it meets `id` again. */
  function SlotList(id: u64, first: u64, last: u64, i: nat, bound: u64): seq<u64>
    requires IsRange(first, last)
    decreases bound + 1 - i
  {
    if i > bound || Slot(id, i, first, last) == id then []
    else [Slot(id, i, first, last)] + SlotList(id, first, last, i + 1, bound)
  }

  /** Whatever overflows, the loop asks for ids of the range only, never for `id`, and for no more than its bound. */
  lemma {:induction false} SlotListFacts(id: u64, first: u64, last: u64, i: nat, bound: u64)
    requires IsRange(first, last) && 1 <= i
    ensures var r := SlotList(id, first, last, i, bound);
      && (forall k :: 0 <= k < |r| ==> first <= r[k] <= last && r[k] != id)
      && |r| + i <= (if i <= bound then bound + 1 else i)
    decreases bound + 1 - i
  {
    hide Slot;
    if i <= bound {
      SlotInRange(id, i, first, last);
      SlotListFacts(id, first, last, i + 1, bound);
    }
  }

  /** The ring comes back to its start after exactly one turn. */
  lemma AheadTurns(id: u64, first: u64, last: u64)
    requires first <= id <= last
    ensures forall i: nat :: i <= last - first + 1 ==>
      (Ahead(id, i, first, last) == id <==> i == 0 || i == last - first + 1)
  {
  }

  lemma {:induction false} SlotListFrom(id: u64, first: u64, last: u64, i: nat, bound: u64)
    requires IsRange(first, last) && first <= id <= last && NoOverflow(id, first, last, bound)
    requires 1 <= i <= Min(bound, last - first) + 1
    ensures SlotList(id, first, last, i, bound) == AheadList(id, first, last, bound)[i - 1..]
    decreases bound + 1 - i
  {
    hide Slot, Ahead;
    AheadTurns(id, first, last);
    SlotsExactIff(id, first, last, bound);
    if i <= Min(bound, last - first) {
      SlotListFrom(id, first, last, i + 1, bound);
    }
  }

  /** What the loop collects at counter `k`, when nothing before made it stop. */
  lemma {:induction false} SlotListAt(id: u64, first: u64, last: u64, i: nat, bound: u64, k: nat)
    requires IsRange(first, last) && i <= k <= bound
    requires forall j: u64 :: i <= j <= k ==> Slot(id, j, first, last) != id
    ensures var r := SlotList(id, first, last, i, bound); |r| > k - i && r[k - i] == Slot(id, k, first, last)
    decreases k - i
  {
    hide Slot;
    assert Slot(id, i, first, last) != id;
    if i < k {
      SlotListAt(id, first, last, i + 1, bound, k);
    }
  }

  /** The first sum that overflows puts an id on the list that does not belong there. */
  lemma SlotListStrays(id: u64, first: u64, last: u64, bound: u64)
    requires IsRange(first, last) && first <= id <= last && !NoOverflow(id, first, last, bound)
    ensures SlotList(id, first, last, 1, bound) != AheadList(id, first, last, bound)
  {
    hide Slot, Ahead;
    var k: u64 := TWO64 - (id - first);
    SlotOverflow(id, first, last);
    AheadTurns(id, first, last);
    forall j: u64 | 1 <= j < k ensures Slot(id, j, first, last) != id {
      SlotExact(id, j, first, last);
    }
    SlotListAt(id, first, last, 1, bound, k);
    assert k <= last - first ==> AheadList(id, first, last, bound)[k - 1] == Ahead(id, k, first, last);
  }

  /** The loop asks for exactly the next ids on the ring if and only if nothing overflows. */
  lemma SlotListIsRingIff(id: u64, first: u64, last: u64, bound: u64)
    requires IsRange(first, last) && first <= id <= last
    ensures SlotList(id, first, last, 1, bound) == AheadList(id, first, last, bound)
       <==> NoOverflow(id, first, last, bound)
  {
    if NoOverflow(id, first, last, bound) {
      SlotListFrom(id, first, last, 1, bound);
    } else {
      SlotListStrays(id, first, last, bound);
    }
  }

  /**
   * The loop of both ordered prefetchers. The counter has 64 bits in the cache's policy and 32 in the
   * iterator's; past its largest value it wraps to zero, and the turn at zero ends the loop.
   */
  method PrefetchList(id: u64, first: u64, last: u64, readAhead: u64, width: int) returns (r: seq<u64>)
    requires IsRange(first, last) && first <= id <= last && (width == TWO64 || width == TWO32)
    ensures r == SlotList(id, first, last, 1, Min(readAhead, width - 1))
  {
    hide Slot;
    r := [];
    var i := 1;
    ghost var bound: u64 := Min(readAhead, width - 1);
    SlotExact(id, 0, first, last);
    while i <= readAhead
      invariant 0 <= i < width && i <= bound + 1
      invariant r + (if i > 0 then SlotList(id, first, last, i, bound) else []) == SlotList(id, first, last, 1, bound)
      decreases if i == 0 then 0 else width - i
    {
      var next := Slot(id, i, first, last);
      if next == id {
        break;
      }
      r := r + [next];
      i := if i + 1 == width then 0 else i + 1;
    }
  }
}
