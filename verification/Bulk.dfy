/** The hand-written payloads of the bulk requests. */
module Bulk {
  import opened Basics
  import opened Bytes

  /** A serialized object; vectors on the wire have 32-bit lengths. */
  type Blob = d: seq<Byte> | |d| < 0x1_0000_0000

  // ---- Bulk writes: each object behind an eight-byte header ----

  /** `*(uint64_t*)ptr = htonl(size)` on a little-endian host: four big-endian bytes, then four zeros. */
  function UnitHeader(n: u32): (r: seq<Byte>)
    ensures |r| == 8
  {
    BigEndian(n) + [0, 0, 0, 0]
  }

  /** `ntohl(*(uint64_t*)ptr)`: only the low half is looked at. */
  function UnitSize(head: seq<Byte>): u32
    requires |head| == 8
  {
    FromBigEndian(head[..4])
  }

  function EncodeUnits(objs: seq<Blob>): seq<Byte> {
    if objs == [] then [] else UnitHeader(|objs[0]|) + objs[0] + EncodeUnits(objs[1..])
  }

  lemma EncodeUnitsNil()
    ensures EncodeUnits([]) == []
  {
  }

  lemma {:induction false} EncodeUnitsSnoc(objs: seq<Blob>, o: Blob)
    ensures EncodeUnits(objs + [o]) == EncodeUnits(objs) + (UnitHeader(|o|) + o)
  {
    if objs == [] {
      assert objs + [o] == [o] && [o][1..] == [];
    } else {
      assert (objs + [o])[1..] == objs[1..] + [o];
      EncodeUnitsSnoc(objs[1..], o);
    }
  }

  function BytesIn(objs: seq<Blob>): nat {
    if objs == [] then 0 else |objs[0]| + BytesIn(objs[1..])
  }

  /** Eight bytes besides each object; the first four are its size in network order, the others zero. */
  lemma {:induction false} UnitsLayout(objs: seq<Blob>)
    ensures |EncodeUnits(objs)| == BytesIn(objs) + 8 * |objs|
    ensures objs != [] ==> FromBigEndian(EncodeUnits(objs)[..4]) == |objs[0]| && EncodeUnits(objs)[4..8] == [0, 0, 0, 0]
  {
    if objs != [] {
      UnitsLayout(objs[1..]);
      BigEndianRoundTrip(|objs[0]|);
      assert EncodeUnits(objs)[..4] == BigEndian(|objs[0]|);
    }
  }

  /** What a cursor standing on an encoded unit sees: its size, its bytes, and the units after it. */
  lemma UnitAt(data: seq<Byte>, p: nat, objs: seq<Blob>)
    requires p <= |data| && data[p..] == EncodeUnits(objs) && objs != []
    ensures p + 8 + |objs[0]| <= |data|
    ensures UnitSize(data[p..p + 8]) == |objs[0]|
    ensures data[p + 8..p + 8 + |objs[0]|] == objs[0]
    ensures data[p + 8 + |objs[0]|..] == EncodeUnits(objs[1..])
  {
    var o := objs[0];
    var tail := EncodeUnits(objs[1..]);
    var all := UnitHeader(|o|) + o + tail;
    assert data[p..] == all;
    assert data[p..p + 8] == all[..8] == UnitHeader(|o|);
    assert UnitHeader(|o|)[..4] == BigEndian(|o|);
    BigEndianRoundTrip(|o|);
    assert data[p + 8..p + 8 + |o|] == all[8..8 + |o|] == o;
    assert data[p + 8 + |o|..] == all[8 + |o|..] == tail;
  }

  /** The bytes run out where the objects do. */
  lemma UnitsLeft(data: seq<Byte>, p: nat, objs: seq<Blob>)
    requires p <= |data| && data[p..] == EncodeUnits(objs)
    ensures p == |data| <==> objs == []
  {
    if objs != [] {
      UnitAt(data, p, objs);
    }
  }

  lemma {:induction false} EncodeUnitsPrefix(objs: seq<Blob>, i: nat)
    requires i <= |objs|
    ensures |EncodeUnits(objs[..i])| <= |EncodeUnits(objs)|
  {
    if i == |objs| {
      assert objs[..i] == objs;
    } else if i > 0 {
      assert objs[..i][1..] == objs[1..][..i - 1];
      EncodeUnitsPrefix(objs[1..], i - 1);
    }
  }

  /** `WriteUnitsTemplate::size`. */
  method SizeOfUnits(objs: seq<Blob>) returns (total: u64)
    ensures total == |EncodeUnits(objs)| % TWO64
  {
    hide EncodeUnits, UnitHeader;
    total := 0;
    EncodeUnitsNil();
    assert objs[..0] == [];
    for i := 0 to |objs|
      invariant total == |EncodeUnits(objs[..i])| % TWO64
    {
      EncodeUnitsSnoc(objs[..i], objs[i]);
      assert objs[..i + 1] == objs[..i] + [objs[i]];
      total := Add64(total, |objs[i]| + 8);
    }
    assert objs[..|objs|] == objs;
  }

  /** Copies `src` into `mem` from `p` on. */
  method CopyInto(mem: array<Byte>, p: nat, src: seq<Byte>)
    requires p + |src| <= mem.Length
    modifies mem
    ensures mem[..p] == old(mem[..p]) && mem[p..p + |src|] == src
    ensures mem[..p + |src|] == old(mem[..p]) + src
  {
    for i := 0 to |src|
      invariant mem[..p] == old(mem[..p])
      invariant mem[p..p + i] == src[..i]
    {
      mem[p + i] := src[i];
      assert mem[p..p + i + 1] == mem[p..p + i] + [src[i]];
    }
    assert mem[..p + |src|] == mem[..p] + mem[p..p + |src|];
  }

  /** Copies a header and the object behind it. */
  method CopyWithHeader(mem: array<Byte>, p: nat, head: seq<Byte>, body: seq<Byte>) returns (end: nat)
    requires p + |head| + |body| <= mem.Length
    modifies mem
    ensures end == p + |head + body|
    ensures mem[..end] == old(mem[..p]) + (head + body)
  {
    CopyInto(mem, p, head);
    end := p + |head|;
    CopyInto(mem, end, body);
    end := end + |body|;
    assert old(mem[..p]) + head + body == old(mem[..p]) + (head + body);
  }

  /** `WriteUnitsTemplate::serialize` into a buffer of `size()` bytes: fills it exactly. */
  method SerializeUnits(objs: seq<Blob>, mem: array<Byte>)
    requires mem.Length == |EncodeUnits(objs)|
    modifies mem
    ensures mem[..] == EncodeUnits(objs)
  {
    hide EncodeUnits, UnitHeader;
    var ptr := 0;
    EncodeUnitsNil();
    assert objs[..0] == [];
    for i := 0 to |objs|
      invariant ptr == |EncodeUnits(objs[..i])| <= mem.Length
      invariant mem[..ptr] == EncodeUnits(objs[..i])
    {
      EncodeUnitsSnoc(objs[..i], objs[i]);
      assert objs[..i + 1] == objs[..i] + [objs[i]];
      EncodeUnitsPrefix(objs, i + 1);
      ptr := CopyWithHeader(mem, ptr, UnitHeader(|objs[i]|), objs[i]);
    }
    assert objs[..|objs|] == objs;
    assert mem[..] == mem[..ptr];
  }

  // ---- Bulk reads: a count, then each object behind a four-byte header ----

  function EncodeBlobs(objs: seq<Blob>): seq<Byte> {
    if objs == [] then [] else BigEndian(|objs[0]|) + objs[0] + EncodeBlobs(objs[1..])
  }

  lemma EncodeBlobsNil()
    ensures EncodeBlobs([]) == []
  {
  }

  lemma {:induction false} EncodeBlobsSnoc(objs: seq<Blob>, o: Blob)
    ensures EncodeBlobs(objs + [o]) == EncodeBlobs(objs) + (BigEndian(|o|) + o)
  {
    if objs == [] {
      assert objs + [o] == [o] && [o][1..] == [];
    } else {
      assert (objs + [o])[1..] == objs[1..] + [o];
      EncodeBlobsSnoc(objs[1..], o);
    }
  }

  lemma {:induction false} EncodeBlobsPrefix(objs: seq<Blob>, i: nat)
    requires i <= |objs|
    ensures |EncodeBlobs(objs[..i])| <= |EncodeBlobs(objs)|
    ensures |EncodeBlobs(objs)| >= 4 * |objs|
  {
    if objs != [] {
      EncodeBlobsPrefix(objs[1..], if i > 0 then i - 1 else 0);
      if i > 0 {
        assert objs[..i][1..] == objs[1..][..i - 1];
      }
    }
  }

  lemma BlobAt(data: seq<Byte>, p: nat, objs: seq<Blob>)
    requires p <= |data| && data[p..] == EncodeBlobs(objs) && objs != []
    ensures p + 4 + |objs[0]| <= |data|
    ensures FromBigEndian(data[p..p + 4]) == |objs[0]|
    ensures data[p + 4..p + 4 + |objs[0]|] == objs[0]
    ensures data[p + 4 + |objs[0]|..] == EncodeBlobs(objs[1..])
  {
    var o := objs[0];
    var tail := EncodeBlobs(objs[1..]);
    var all := BigEndian(|o|) + o + tail;
    assert data[p..] == all;
    assert data[p..p + 4] == all[..4] == BigEndian(|o|);
    BigEndianRoundTrip(|o|);
    assert data[p + 4..p + 4 + |o|] == all[4..4 + |o|] == o;
    assert data[p + 4 + |o|..] == all[4 + |o|..] == tail;
  }

  function ReadPayload(objs: seq<Blob>): seq<Byte>
    requires |objs| < TWO32
  {
    LittleEndian(|objs|) + EncodeBlobs(objs)
  }

  lemma {:induction false} BlobsLength(objs: seq<Blob>)
    ensures |EncodeBlobs(objs)| == BytesIn(objs) + 4 * |objs|
  {
    if objs != [] {
      BlobsLength(objs[1..]);
    }
  }

  /** Four bytes besides the objects, the count in the host's order, and four besides each object. */
  lemma ReplyLayout(objs: seq<Blob>)
    requires |objs| < TWO32
    ensures |ReadPayload(objs)| == 4 + BytesIn(objs) + 4 * |objs|
    ensures FromLittleEndian(ReadPayload(objs)[..4]) == |objs|
    ensures objs != [] ==> FromBigEndian(ReadPayload(objs)[4..8]) == |objs[0]|
  {
    BlobsLength(objs);
    LittleEndianRoundTrip(|objs|);
    assert ReadPayload(objs)[..4] == LittleEndian(|objs|);
    if objs != [] {
      assert ReadPayload(objs)[4..] == EncodeBlobs(objs);
      BlobAt(ReadPayload(objs), 4, objs);
    }
  }

  function MapSeq<T, U>(f: T -> U, xs: seq<T>): (r: seq<U>)
    ensures |r| == |xs| && forall i :: 0 <= i < |xs| ==> r[i] == f(xs[i])
  {
    seq(|xs|, i requires 0 <= i < |xs| => f(xs[i]))
  }

  /** The client's parse of a bulk read: `get_bulk_fast` after the reply has come in. */
  method ParseReadPayload<T>(data: seq<Byte>, deserialize: Blob -> T, ghost objs: seq<Blob>) returns (res: seq<T>)
    requires |objs| < TWO32 && data == ReadPayload(objs)
    ensures res == MapSeq(deserialize, objs)
  {
    LittleEndianRoundTrip(|objs|);
    assert data[..4] == LittleEndian(|objs|) && data[4..] == EncodeBlobs(objs);
    var numOids := FromLittleEndian(data[..4]);
    var mem := 4;
    res := [];
    assert objs[0..] == objs;
    for i := 0 to numOids
      invariant 4 <= mem <= |data| && data[mem..] == EncodeBlobs(objs[i..])
      invariant res == MapSeq(deserialize, objs[..i])
    {
      BlobAt(data, mem, objs[i..]);
      assert objs[i..][1..] == objs[i + 1..];
      var size := FromBigEndian(data[mem..mem + 4]);
      mem := mem + 4;
      res := res + [deserialize(data[mem..mem + size])];
      mem := mem + size;
    }
    assert objs[..|objs|] == objs;
  }
}
