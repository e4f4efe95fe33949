/** Fixed-width integers, sequences without repeats, and a few facts about them. */
module Basics {

  const TWO31: int := 0x8000_0000
  const TWO32: int := 0x1_0000_0000
  const TWO63: int := 0x8000_0000_0000_0000
  const TWO64: int := 0x1_0000_0000_0000_0000

  type u32 = n: int | 0 <= n < 0x1_0000_0000
  type u64 = n: int | 0 <= n < 0x1_0000_0000_0000_0000

  type ObjectId = u64

  datatype Option<+T> = None | Some(value: T)

  /** `uint64_t` addition, wrapping at 2^64. */
  function Add64(a: u64, b: u64): u64 {
    (a + b) % TWO64
  }

  /** `uint64_t` subtraction, wrapping at 2^64. */
  function Sub64(a: u64, b: u64): u64 {
    (a - b) % TWO64
  }

  lemma Add64Exact(a: u64, b: u64)
    ensures a + b < TWO64 ==> Add64(a, b) == a + b
  {
  }

  lemma Sub64Exact(a: u64, b: u64)
    ensures b <= a ==> Sub64(a, b) == a - b
  {
  }

  ghost predicate NoDup<T>(s: seq<T>) {
    forall i, j :: 0 <= i < j < |s| ==> s[i] != s[j]
  }

  ghost function SetOf<T>(s: seq<T>): set<T> {
    set x | x in s
  }

  /** The elements of `s` other than `x`, in the order of `s`. */
  function Without<T(==)>(s: seq<T>, x: T): seq<T> {
    if s == [] then [] else (if s[0] == x then [] else [s[0]]) + Without(s[1..], x)
  }

  lemma {:induction false} WithoutSet<T>(s: seq<T>, x: T)
    ensures SetOf(Without(s, x)) == SetOf(s) - {x}
  {
    if s != [] {
      WithoutSet(s[1..], x);
      assert SetOf(s) == {s[0]} + SetOf(s[1..]);
      assert SetOf(Without(s, x)) == (if s[0] == x then {} else {s[0]}) + SetOf(Without(s[1..], x));
    }
  }

  lemma {:induction false} WithoutAbsent<T>(s: seq<T>, x: T)
    requires x !in s
    ensures Without(s, x) == s
  {
    if s != [] {
      WithoutAbsent(s[1..], x);
    }
  }

  lemma WithoutNil<T>(x: T)
    ensures Without([], x) == []
  {
  }

  lemma WithoutCons<T>(y: T, s: seq<T>, x: T)
    ensures Without([y] + s, x) == (if y == x then [] else [y]) + Without(s, x)
  {
    assert ([y] + s)[1..] == s;
  }

  lemma {:induction false} WithoutConcat<T>(a: seq<T>, b: seq<T>, x: T)
    ensures Without(a + b, x) == Without(a, x) + Without(b, x)
  {
    WithoutNil(x);
    hide Without;
    if a == [] {
      assert a + b == b;
    } else {
      WithoutConcat(a[1..], b, x);
      assert a + b == [a[0]] + (a[1..] + b) && a == [a[0]] + a[1..];
      WithoutCons(a[0], a[1..] + b, x);
      WithoutCons(a[0], a[1..], x);
    }
  }

  lemma {:induction false} WithoutNoDup<T>(s: seq<T>, x: T)
    requires NoDup(s)
    ensures NoDup(Without(s, x))
  {
    if s != [] {
      var rest := Without(s[1..], x);
      WithoutNoDup(s[1..], x);
      WithoutSet(s[1..], x);
      assert s[0] !in SetOf(rest);
    }
  }

  /** Dropping the one occurrence of `x`, found at `i`, is dropping `x`. */
  lemma WithoutAt<T>(s: seq<T>, i: nat, x: T)
    requires NoDup(s) && i < |s| && s[i] == x
    ensures Without(s, x) == s[..i] + s[i + 1..]
  {
    hide Without;
    assert s == s[..i] + ([x] + s[i + 1..]);
    WithoutConcat(s[..i], [x] + s[i + 1..], x);
    WithoutConcat([x], s[i + 1..], x);
    WithoutOnly(x);
    WithoutAbsent(s[..i], x);
    WithoutAbsent(s[i + 1..], x);
    assert s[..i] + ([] + s[i + 1..]) == s[..i] + s[i + 1..];
  }

  lemma WithoutOnly<T>(x: T)
    ensures Without([x], x) == []
  {
    assert [x][1..] == [];
  }

  lemma {:induction false} NoDupCardinality<T>(s: seq<T>)
    requires NoDup(s)
    ensures |SetOf(s)| == |s|
  {
    if s != [] {
      NoDupCardinality(s[1..]);
      assert SetOf(s) == SetOf(s[1..]) + {s[0]};
    }
  }

  lemma SubsetCardinality<T>(a: set<T>, b: set<T>)
    requires a <= b
    ensures |a| <= |b|
  {
    assert b == a + (b - a);
    assert |b| == |a| + |b - a|;
  }

  ghost function Range(n: nat): (r: set<int>)
    ensures |r| == n
    ensures forall i :: i in r <==> 0 <= i < n
  {
    if n == 0 then {} else Range(n - 1) + {n - 1}
  }
}
