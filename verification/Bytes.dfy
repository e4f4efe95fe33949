/** Bytes and the 32-bit byte orders used on the wire and in the bulk payloads. */
module Bytes {
  import opened Basics

  type Byte = n: int | 0 <= n < 256

  /** `htonl` seen in memory: most significant byte first. */
  function BigEndian(n: u32): (r: seq<Byte>)
    ensures |r| == 4
  {
    [n / 256 / 256 / 256, n / 256 / 256 % 256, n / 256 % 256, n % 256]
  }

  /** `ntohl` of four bytes in memory. */
  function FromBigEndian(b: seq<Byte>): u32
    requires |b| == 4
  {
    var b0: int, b1: int, b2: int, b3: int := b[0], b[1], b[2], b[3];
    ((b0 * 256 + b1) * 256 + b2) * 256 + b3
  }

  /** A `uint32_t` stored by a little-endian host. */
  function LittleEndian(n: u32): (r: seq<Byte>)
    ensures |r| == 4
  {
    [n % 256, n / 256 % 256, n / 256 / 256 % 256, n / 256 / 256 / 256]
  }

  function FromLittleEndian(b: seq<Byte>): u32
    requires |b| == 4
  {
    var b0: int, b1: int, b2: int, b3: int := b[0], b[1], b[2], b[3];
    ((b3 * 256 + b2) * 256 + b1) * 256 + b0
  }

  lemma BigEndianRoundTrip(n: u32)
    ensures FromBigEndian(BigEndian(n)) == n
  {
  }

  lemma FromBigEndianRoundTrip(b: seq<Byte>)
    requires |b| == 4
    ensures BigEndian(FromBigEndian(b)) == b
  {
    var b0: int, b1: int, b2: int, b3: int := b[0], b[1], b[2], b[3];
    Digit(b0, b1);
    Digit(b0 * 256 + b1, b2);
    Digit((b0 * 256 + b1) * 256 + b2, b3);
  }

  lemma Digit(q: int, r: int)
    requires 0 <= r < 256
    ensures (q * 256 + r) / 256 == q && (q * 256 + r) % 256 == r
  {
  }

  lemma LittleEndianRoundTrip(n: u32)
    ensures FromLittleEndian(LittleEndian(n)) == n
  {
  }

  /** Byte strings of four compared from the front. */
  predicate Before(a: seq<Byte>, b: seq<Byte>)
    requires |a| == |b| == 4
  {
    || a[0] < b[0]
    || (a[0] == b[0] && a[1] < b[1])
    || (a[0] == b[0] && a[1] == b[1] && a[2] < b[2])
    || (a[0] == b[0] && a[1] == b[1] && a[2] == b[2] && a[3] < b[3])
  }

  /** Network order is the order of the numbers, and the host's order is its reverse. */
  lemma NetworkOrder(a: u32, b: u32)
    ensures a < b <==> Before(BigEndian(a), BigEndian(b))
    ensures LittleEndian(a) == [BigEndian(a)[3], BigEndian(a)[2], BigEndian(a)[1], BigEndian(a)[0]]
  {
    hide Before;
    BigEndianRoundTrip(a);
    BigEndianRoundTrip(b);
    if a < b {
      BeforeIsLess(BigEndian(a), BigEndian(b));
    } else {
      BeforeIsLess(BigEndian(b), BigEndian(a));
    }
  }

  lemma BeforeIsLess(x: seq<Byte>, y: seq<Byte>)
    requires |x| == |y| == 4
    ensures FromBigEndian(x) < FromBigEndian(y) <==> Before(x, y)
    ensures Before(x, y) ==> !Before(y, x)
  {
  }
}
