/**
 * The wire-message header as the transport layer sees it: a fixed
 * 16-byte region whose first field is the total message length (header
 * plus body), a little-endian 32-bit signed integer.
 */
module WireHeader {
  import opened Base

  /** `kHeaderLen`, the size of the standard message header. */
  const kHeaderLen: nat := 16

  /** `kInitialMessageSize`, the size of the buffer a read starts with. */
  const kInitialMessageSize: nat := 1024

  const Two31: int := 0x8000_0000
  const Two32: int := 0x1_0000_0000

  function UInt32LE(b: seq<byte>): (u: int)
    requires |b| == 4
    ensures 0 <= u < Two32
  {
    var b0, b1, b2, b3: int := b[0], b[1], b[2], b[3];
    b0 + 256 * b1 + 65536 * b2 + 16777216 * b3
  }

  /** Reads a little-endian two's-complement 32-bit integer. */
  function Int32LE(b: seq<byte>): (v: int)
    requires |b| == 4
    ensures -Two31 <= v < Two31
  {
    var u := UInt32LE(b);
    if u < Two31 then u else u - Two32
  }

  /** Writes a 32-bit integer in little-endian two's complement. */
  function EncodeInt32LE(v: int): (b: seq<byte>)
    requires -Two31 <= v < Two31
    ensures |b| == 4
  {
    var u := if v < 0 then v + Two32 else v;
    [u % 256, (u / 256) % 256, (u / 65536) % 256, u / 16777216]
  }

  /** The declared total length of the message whose header starts `buf`. */
  function MessageLength(buf: seq<byte>): int
    requires |buf| >= 4
  {
    Int32LE(buf[..4])
  }

  lemma {:induction false} UInt32Digits(u: int)
    requires 0 <= u < Two32
    ensures u % 256 + 256 * ((u / 256) % 256) + 65536 * ((u / 65536) % 256)
            + 16777216 * (u / 16777216) == u
  {
    var q1 := u / 256;
    var q2 := q1 / 256;
    var q3 := q2 / 256;
    assert u == u % 256 + 256 * q1;
    assert q1 == q1 % 256 + 256 * q2;
    assert q2 == q2 % 256 + 256 * q3;
    assert u / 65536 == q2 by {
      assert u == u % 256 + 256 * (q1 % 256) + 65536 * q2;
    }
    assert u / 16777216 == q3 by {
      assert u == u % 256 + 256 * (q1 % 256) + 65536 * (q2 % 256) + 16777216 * q3;
    }
    assert q3 < 256;
  }

  /** Decoding what was encoded gives back the length. */
  lemma {:induction false} DecodeEncode(v: int)
    requires -Two31 <= v < Two31
    ensures Int32LE(EncodeInt32LE(v)) == v
  {
    var u := if v < 0 then v + Two32 else v;
    UInt32Digits(u);
    assert UInt32LE(EncodeInt32LE(v)) == u;
  }

  /** Encoding what was decoded gives back the four bytes. */
  lemma {:induction false} EncodeDecode(b: seq<byte>)
    requires |b| == 4
    ensures EncodeInt32LE(Int32LE(b)) == b
  {
    var b0, b1, b2, b3: int := b[0], b[1], b[2], b[3];
    var u := UInt32LE(b);
    assert u == b0 + 256 * b1 + 65536 * b2 + 16777216 * b3;
    assert (if Int32LE(b) < 0 then Int32LE(b) + Two32 else Int32LE(b)) == u;
    DigitsOf(b0, b1, b2, b3);
    assert EncodeInt32LE(Int32LE(b)) == [b0, b1, b2, b3];
  }

  lemma {:induction false} DigitsOf(b0: int, b1: int, b2: int, b3: int)
    requires 0 <= b0 < 256 && 0 <= b1 < 256 && 0 <= b2 < 256 && 0 <= b3 < 256
    ensures var u := b0 + 256 * b1 + 65536 * b2 + 16777216 * b3;
      u % 256 == b0 && (u / 256) % 256 == b1 && (u / 65536) % 256 == b2 && u / 16777216 == b3
  {
    var r2 := b2 + 256 * b3;
    var r1 := b1 + 256 * r2;
    var u := b0 + 256 * r1;
    assert u == b0 + 256 * b1 + 65536 * b2 + 16777216 * b3;
    DivMod(u, 256, r1, b0);
    DivMod(r1, 256, r2, b1);
    DivMod(r2, 256, b3, b2);
    DivMod(u, 65536, r2, b0 + 256 * b1);
    DivMod(u, 16777216, b3, b0 + 256 * b1 + 65536 * b2);
  }

  /** Euclidean division has a unique quotient and remainder. */
  lemma {:induction false} DivMod(n: int, d: int, q: int, r: int)
    requires d > 0 && 0 <= r < d && n == q * d + r
    ensures n / d == q && n % d == r
  {
    var q', r' := n / d, n % d;
    assert n == q' * d + r' && 0 <= r' < d;
    if q' > q {
      assert q' * d >= (q + 1) * d by { MulMono(q + 1, q', d); }
      assert false;
    } else if q' < q {
      assert q * d >= (q' + 1) * d by { MulMono(q' + 1, q, d); }
      assert false;
    }
  }

  lemma MulMono(a: int, b: int, d: int)
    requires a <= b && d > 0
    ensures a * d <= b * d
  {
    assert b * d - a * d == (b - a) * d;
  }

  /** A header whose first four bytes encode `n` declares a message of length `n`. */
  lemma {:induction false} MessageLengthOfHeader(n: int, rest: seq<byte>)
    requires -Two31 <= n < Two31
    ensures MessageLength(EncodeInt32LE(n) + rest) == n
  {
    assert (EncodeInt32LE(n) + rest)[..4] == EncodeInt32LE(n);
    DecodeEncode(n);
  }
}
