/**
 * Bytes, Python's `int.to_bytes(4, 'big')` / `int.from_bytes(b, 'big')`, and
 * the length-prefixed frame every hub and client puts on the wire.
 */
module Bytes {
  newtype byte = x: int | 0 <= x < 256

  /** Exclusive bound on the length a 4-byte header can carry. */
  const FrameLimit: nat := 0x1_0000_0000

  /** `int.from_bytes(s, byteorder='big')`, for a header of any length. */
  function FromBytes(s: seq<byte>): nat
  {
    if s == [] then 0 else FromBytes(s[..|s| - 1]) * 256 + s[|s| - 1] as int
  }

  /**
   * `n.to_bytes(4, byteorder='big')` for `n` below 2^32 (Python raises
   * OverflowError otherwise): four bytes that read back as `n`.
   */
  function ToBytes4(n: nat): (r: seq<byte>)
    requires n < FrameLimit
    ensures |r| == 4 && FromBytes(r) == n
  {
    Digits4(n);
    var r := [(n / 0x100_0000) as byte, (n / 0x1_0000 % 0x100) as byte, (n / 0x100 % 0x100) as byte, (n % 0x100) as byte];
    FromBytes4(r);
    r
  }

  /** The four base-256 digits of a number below 2^32, most significant first, and how they rebuild it. */
  lemma Digits4(n: nat)
    requires n < FrameLimit
    ensures 0 <= n / 0x100_0000 < 0x100
    ensures ((n / 0x100_0000 * 0x100 + n / 0x1_0000 % 0x100) * 0x100 + n / 0x100 % 0x100) * 0x100 + n % 0x100 == n
  {
    var a, r0 := n / 0x100, n % 0x100;
    var b, r1 := a / 0x100, a % 0x100;
    var c, r2 := b / 0x100, b % 0x100;
    DivDiv(n, 0x100, 0x100);
    DivDiv(n, 0x1_0000, 0x100);
    assert n / 0x1_0000 == b;
    assert n / 0x100_0000 == c;
    assert b == c * 0x100 + r2 && a == b * 0x100 + r1 && n == a * 0x100 + r0;
  }

  /** The four steps of `FromBytes` on a 4-byte header, written out. */
  lemma FromBytes4(b: seq<byte>)
    requires |b| == 4
    ensures FromBytes(b) == ((b[0] as int * 256 + b[1] as int) * 256 + b[2] as int) * 256 + b[3] as int
  {
    assert b[..3][..2][..1][..0] == [];
    assert b[..3][..2][..1] == [b[0]];
    assert b[..3][..2] == [b[0], b[1]];
    assert b[..3] == [b[0], b[1], b[2]];
    calc {
      FromBytes(b);
      FromBytes(b[..3]) * 256 + b[3] as int;
      (FromBytes(b[..3][..2]) * 256 + b[2] as int) * 256 + b[3] as int;
      ((FromBytes(b[..3][..2][..1]) * 256 + b[1] as int) * 256 + b[2] as int) * 256 + b[3] as int;
    }
  }

  /** Every 4-byte header is the encoding of the number it reads as. */
  lemma FourBytesRoundTrip(b: seq<byte>)
    requires |b| == 4
    ensures FromBytes(b) < FrameLimit && ToBytes4(FromBytes(b)) == b
  {
    FromBytes4(b);
    var n := FromBytes(b);
    var b0, b1, b2, b3 := b[0] as int, b[1] as int, b[2] as int, b[3] as int;
    var hi := b0 * 256 + b1;
    var mid := hi * 256 + b2;
    assert n == mid * 256 + b3;
    DivMod(n, 0x100, mid, b3);
    DivMod(mid, 0x100, hi, b2);
    DivMod(hi, 0x100, b0, b1);
    DivDiv(n, 0x100, 0x100);
    DivDiv(n, 0x1_0000, 0x100);
  }

  lemma DivMod(n: int, d: int, q: int, r: int)
    requires d > 0 && n == q * d + r && 0 <= r < d
    ensures n / d == q && n % d == r
  {
    var q', r' := n / d, n % d;
    assert q' * d + r' == q * d + r;
    assert (q - q') * d == r' - r;
    if q > q' {
      MulMono(q - q', d);
    } else if q < q' {
      MulMono(q' - q, d);
    }
  }

  lemma MulMono(k: int, d: int)
    requires k >= 1 && d > 0
    ensures k * d >= d
  {
  }

  lemma DivDiv(n: nat, d: nat, e: nat)
    requires d > 0 && e > 0
    ensures n / d / e == n / (d * e)
  {
    var q := n / d / e;
    var r := n / d % e;
    var s := n % d;
    assert n == (q * e + r) * d + s;
    assert n == q * (d * e) + (r * d + s);
    assert r * d + s < d * e by {
      assert r * d <= (e - 1) * d;
    }
    DivMod(n, d * e, q, r * d + s);
  }

  /** The frame `send_message` writes: a 4-byte big-endian length, then the payload. */
  function Frame(payload: seq<byte>): (r: seq<byte>)
    requires |payload| < FrameLimit
    ensures |r| == 4 + |payload| && FromBytes(r[..4]) == |payload| && r[4..] == payload
  {
    ToBytes4(|payload|) + payload
  }

  /** The bytes of a sequence of segments, in order. */
  function Flatten(segs: seq<seq<byte>>): seq<byte>
  {
    if segs == [] then [] else segs[0] + Flatten(segs[1..])
  }

  lemma {:induction false} FlattenAppend(a: seq<seq<byte>>, b: seq<seq<byte>>)
    ensures Flatten(a + b) == Flatten(a) + Flatten(b)
  {
    if a != [] {
      assert (a + b)[1..] == a[1..] + b;
      FlattenAppend(a[1..], b);
    } else {
      assert a + b == b;
    }
  }
}
