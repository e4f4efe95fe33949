/** Graph vertices and their serialized form. */
module Vertices {
  import opened Basics
  import opened Bytes
  import opened Graphs

  /** `neighbors` lists a set of ids in the order the set is iterated. */
  datatype Vertex = Vertex(id: int, neighbors: seq<int>, seen: bool, cc: int)

  predicate IsInt(n: int) {
    -TWO31 <= n < TWO31
  }

  /** An `int` converted to `uint32_t`, and back. */
  function ToWord(n: int): u32 {
    n % TWO32
  }

  function FromWord(w: u32): int {
    if w < TWO31 then w else w - TWO32
  }

  lemma WordRoundTrip(n: int)
    requires IsInt(n)
    ensures FromWord(ToWord(n)) == n
  {
  }

  /** The numbers are `int`s, the neighbours ascend, and the record's size fits 32 bits. */
  ghost predicate Serializable(v: Vertex) {
    && IsInt(v.id) && Increasing(v.neighbors) && 4 * (2 + |v.neighbors|) < TWO32
    && forall j :: 0 <= j < |v.neighbors| ==> IsInt(v.neighbors[j])
  }

  ghost function Words(ns: seq<int>): (r: seq<Byte>)
    ensures |r| == 4 * |ns|
  {
    if ns == [] then [] else Words(ns[..|ns| - 1]) + BigEndian(ToWord(ns[|ns| - 1]))
  }

  ghost function Encoding(v: Vertex): seq<Byte>
    requires Serializable(v)
  {
    BigEndian(ToWord(v.id)) + BigEndian(|v.neighbors|) + Words(v.neighbors)
  }

  /** The word at position `k` of the record's neighbour list. */
  lemma {:induction false} WordAt(ns: seq<int>, k: nat)
    requires k < |ns|
    ensures Words(ns)[4 * k..4 * k + 4] == BigEndian(ToWord(ns[k]))
  {
    var last := |ns| - 1;
    if k < last {
      WordAt(ns[..last], k);
      assert Words(ns)[4 * k..4 * k + 4] == Words(ns[..last])[4 * k..4 * k + 4];
    } else {
      assert Words(ns)[4 * k..4 * k + 4] == BigEndian(ToWord(ns[k]));
    }
  }

  method Serialize(v: Vertex) returns (mem: seq<Byte>)
    requires Serializable(v)
    ensures mem == Encoding(v)
  {
    hide BigEndian, ToWord;
    mem := BigEndian(ToWord(v.id)) + BigEndian(|v.neighbors|);
    ghost var header := mem;
    assert v.neighbors[..0] == [];
    for j := 0 to |v.neighbors|
      invariant mem == header + Words(v.neighbors[..j])
    {
      assert v.neighbors[..j + 1][..j] == v.neighbors[..j];
      mem := mem + BigEndian(ToWord(v.neighbors[j]));
    }
    assert v.neighbors[..|v.neighbors|] == v.neighbors;
  }

  /** `std::set::insert` on the ascending list of a set's members. */
  function Insert(s: seq<int>, x: int): seq<int> {
    if s == [] || x < s[0] then [x] + s
    else if x == s[0] then s
    else [s[0]] + Insert(s[1..], x)
  }

  lemma {:induction false} InsertLast(s: seq<int>, x: int)
    requires forall j :: 0 <= j < |s| ==> s[j] < x
    ensures Insert(s, x) == s + [x]
  {
    if s != [] {
      InsertLast(s[1..], x);
    }
  }

  lemma BelowNext(s: seq<int>, i: nat)
    requires Increasing(s) && i < |s|
    ensures forall j :: 0 <= j < |s[..i]| ==> s[..i][j] < s[i]
  {
  }

  lemma {:induction false} InsertKeeps(s: seq<int>, x: int)
    requires Increasing(s)
    ensures Increasing(Insert(s, x))
    ensures forall k :: k in Insert(s, x) <==> k in s || k == x
  {
    if s != [] && x > s[0] {
      InsertKeeps(s[1..], x);
      var rest := Insert(s[1..], x);
      assert forall j :: 0 <= j < |rest| ==> rest[j] in rest;
      assert forall k :: k in s <==> k == s[0] || k in s[1..];
    }
  }

  /** The first `n` neighbours of a record, inserted one by one. */
  ghost function ReadNeighbors(data: seq<Byte>, n: nat): seq<int>
    requires 4 * (2 + n) <= |data|
  {
    if n == 0 then [] else Insert(ReadNeighbors(data, n - 1), FromWord(FromBigEndian(data[4 * (n + 1)..4 * (n + 2)])))
  }

  /** The `k`-th word of a record, in network order. */
  ghost function WordIn(data: seq<Byte>, k: nat): int
    requires 4 * k + 4 <= |data|
  {
    FromWord(FromBigEndian(data[4 * k..4 * k + 4]))
  }

  lemma NoneIncreasing()
    ensures Increasing([])
  {
  }

  /** Whatever the record, its neighbours come out as a set: ascending, and exactly the numbers in it. */
  lemma {:induction false} NeighborsAreSet(data: seq<Byte>, n: nat)
    requires 4 * (2 + n) <= |data|
    ensures Increasing(ReadNeighbors(data, n))
    ensures forall k :: k in ReadNeighbors(data, n) <==> exists j :: 2 <= j < 2 + n && k == WordIn(data, j)
  {
    hide FromBigEndian, FromWord, Insert, Increasing;
    if n == 0 {
      NoneIncreasing();
    } else {
      NeighborsAreSet(data, n - 1);
      var x := WordIn(data, n + 1);
      assert x == FromWord(FromBigEndian(data[4 * (n + 1)..4 * (n + 2)]));
      InsertKeeps(ReadNeighbors(data, n - 1), x);
      assert forall j :: 2 <= j < 2 + n ==> j < 2 + (n - 1) || WordIn(data, j) == x;
    }
  }

  /** A vertex, the exception for a size that does not match the count, or a read past the end of the bytes. */
  datatype Decoded = Decoded(vertex: Vertex) | WrongSize | Overrun

  /**
   * A record as a vertex that is unseen and without a component. The expected size is computed in 32 bits, so a
   * count for which it wraps passes the test and is then read past the end; so is a record without a full header.
   */
  ghost function Decoding(data: seq<Byte>): Decoded {
    if |data| < 8 then Overrun
    else
      var n := FromBigEndian(data[4..8]);
      if |data| != 4 * (2 + n) % TWO32 then WrongSize
      else if |data| != 4 * (2 + n) then Overrun
      else Decoded(Vertex(FromWord(FromBigEndian(data[0..4])), ReadNeighbors(data, n), false, -1))
  }

  /** A header alone that claims 2^30 neighbours passes the size test and is read past its end. */
  lemma WrappedCountOverruns(id: u32)
    ensures Decoding(BigEndian(id) + BigEndian(0x4000_0000)) == Overrun
    ensures Decoding(BigEndian(id) + BigEndian(1)) == WrongSize
  {
    hide BigEndian, FromBigEndian;
    BigEndianRoundTrip(0x4000_0000);
    BigEndianRoundTrip(1);
    assert (BigEndian(id) + BigEndian(0x4000_0000))[4..8] == BigEndian(0x4000_0000);
    assert (BigEndian(id) + BigEndian(1))[4..8] == BigEndian(1);
  }

  /** The `size` argument is 32 bits wide. */
  method Deserialize(data: seq<Byte>) returns (r: Decoded)
    requires |data| < TWO32
    ensures r == Decoding(data)
  {
    hide FromBigEndian, FromWord, Insert;
    if |data| < 8 {
      return Overrun;
    }
    var n := FromBigEndian(data[4..8]);
    if |data| != 4 * (2 + n) % TWO32 {
      return WrongSize;
    }
    if |data| < 4 * (2 + n) {
      return Overrun;
    }
    var neighbors := [];
    for i := 0 to n
      invariant neighbors == ReadNeighbors(data, i)
    {
      neighbors := Insert(neighbors, FromWord(FromBigEndian(data[8 + 4 * i..12 + 4 * i])));
    }
    r := Decoded(Vertex(FromWord(FromBigEndian(data[0..4])), neighbors, false, -1));
  }

  lemma {:induction false} ReadBack(v: Vertex, n: nat)
    requires Serializable(v) && n <= |v.neighbors|
    ensures ReadNeighbors(Encoding(v), n) == v.neighbors[..n]
  {
    hide BigEndian, FromBigEndian, ToWord, FromWord, Increasing, Insert, Words;
    if n > 0 {
      var i := n - 1;
      ReadBack(v, i);
      assert Encoding(v)[4 * (n + 1)..4 * (n + 2)] == Words(v.neighbors)[4 * i..4 * i + 4];
      WordAt(v.neighbors, i);
      BigEndianRoundTrip(ToWord(v.neighbors[i]));
      WordRoundTrip(v.neighbors[i]);
      BelowNext(v.neighbors, i);
      InsertLast(v.neighbors[..i], v.neighbors[i]);
    }
  }

  /** A record is the id, the number of neighbours and the neighbours. */
  lemma RecordLayout(v: Vertex)
    requires Serializable(v)
    ensures |Encoding(v)| == 8 + 4 * |v.neighbors| && WordIn(Encoding(v), 0) == v.id
    ensures FromBigEndian(Encoding(v)[4..8]) == |v.neighbors|
    ensures forall k :: 0 <= k < |v.neighbors| ==> WordIn(Encoding(v), 2 + k) == v.neighbors[k]
  {
    hide BigEndian, FromBigEndian, ToWord, FromWord, Increasing;
    var data := Encoding(v);
    BigEndianRoundTrip(ToWord(v.id));
    WordRoundTrip(v.id);
    BigEndianRoundTrip(|v.neighbors|);
    assert data[0..4] == BigEndian(ToWord(v.id)) && data[4..8] == BigEndian(|v.neighbors|);
    forall k | 0 <= k < |v.neighbors| ensures WordIn(data, 2 + k) == v.neighbors[k] {
      assert data[4 * (2 + k)..4 * (2 + k) + 4] == Words(v.neighbors)[4 * k..4 * k + 4];
      WordAt(v.neighbors, k);
      BigEndianRoundTrip(ToWord(v.neighbors[k]));
      WordRoundTrip(v.neighbors[k]);
    }
  }

  /** Serializing and reading back keeps the id and the neighbours, and forgets that the vertex was seen. */
  lemma VertexRoundTrip(v: Vertex)
    requires Serializable(v)
    ensures Decoding(Encoding(v)) == Decoded(v.(seen := false, cc := -1))
  {
    hide BigEndian, FromBigEndian, ToWord, FromWord, ReadNeighbors, Words;
    var data := Encoding(v);
    BigEndianRoundTrip(ToWord(v.id));
    WordRoundTrip(v.id);
    BigEndianRoundTrip(|v.neighbors|);
    assert data[0..4] == BigEndian(ToWord(v.id)) && data[4..8] == BigEndian(|v.neighbors|);
    ReadBack(v, |v.neighbors|);
    assert v.neighbors[..|v.neighbors|] == v.neighbors;
  }
}
