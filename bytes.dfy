/**
 * Kotlin's fixed-width integers as the protocol code uses them.
 * A `Byte` is kept as its unsigned bit pattern; the signed views that
 * `Byte.toInt()`, `Int.toShort()` and `ByteBuffer.getInt()` produce are
 * written out explicitly, and so is Kotlin's truncating `Int` division.
 */
module Bytes {

  /** The bit pattern of a Kotlin `Byte`. */
  newtype byte = x: int | 0 <= x < 256

  /** A Kotlin `Int` (two's complement, 32 bits). */
  newtype i32 = x: int | -0x8000_0000 <= x < 0x8000_0000

  const TwoTo16: int := 0x1_0000
  const TwoTo32: int := 0x1_0000_0000

  /** `Byte.toInt()`: the two's complement value of the bit pattern. */
  function SignedByte(b: byte): (r: int)
    ensures -128 <= r < 128
    ensures r % 256 == b as int
  {
    if b < 128 then b as int else b as int - 256
  }

  /** `Int.toByte()`: keeps the low eight bits. */
  function ToByte(x: int): byte
  {
    (x % 256) as byte
  }

  /** `Int.toShort()`: keeps the low sixteen bits, read as two's complement. */
  function ToShort(x: int): (r: int)
    ensures -0x8000 <= r < 0x8000
    ensures (x - r) % TwoTo16 == 0
  {
    var u := x % TwoTo16;
    if u < 0x8000 then u else u - TwoTo16
  }

  /** Kotlin's `/` on `Int`: rounds toward zero (Dafny's `/` is Euclidean). */
  function TruncDiv(a: int, b: int): int
    requires b > 0
  {
    if a >= 0 then a / b else -((-a) / b)
  }

  /** `(b and mask) == mask` for the single-bit masks the protocol uses. */
  predicate MaskSet(b: byte, mask: int)
    requires mask == 1 || mask == 2 || mask == 4 || mask == 0x20
  {
    (b as int / mask) % 2 == 1
  }

  /** `ByteBuffer.allocate(4).putInt(x).array()`: big-endian, low 32 bits of `x`. */
  function BE32(x: int): (r: seq<byte>)
    ensures |r| == 4
  {
    var u := x % TwoTo32;
    [(u / 0x100_0000) as byte, ((u / 0x1_0000) % 256) as byte, ((u / 0x100) % 256) as byte, (u % 256) as byte]
  }

  /** `ByteBuffer.allocate(2).putShort(x.toShort()).array()`: big-endian, low 16 bits of `x`. */
  function BE16(x: int): (r: seq<byte>)
    ensures |r| == 2
  {
    var u := x % TwoTo16;
    [(u / 0x100) as byte, (u % 256) as byte]
  }

  /** `ByteBuffer.wrap(s[at..at+4]).int`: a big-endian signed 32-bit integer. */
  function ReadI32BE(s: seq<byte>, at: nat): i32
    requires at + 4 <= |s|
  {
    var u := s[at] as int * 0x100_0000 + s[at + 1] as int * 0x1_0000 + s[at + 2] as int * 0x100 + s[at + 3] as int;
    (if u < 0x8000_0000 then u else u - TwoTo32) as i32
  }

  /** `ByteBuffer.wrap(s[at..at+2]).short`: a big-endian signed 16-bit integer. */
  function ReadI16BE(s: seq<byte>, at: nat): (r: int)
    requires at + 2 <= |s|
    ensures -0x8000 <= r < 0x8000
  {
    var u := s[at] as int * 0x100 + s[at + 1] as int;
    if u < 0x8000 then u else u - TwoTo16
  }

  /** A 32-bit word is the sum of its four bytes, most significant first. */
  lemma WordFromBytes(u: int)
    requires 0 <= u < TwoTo32
    ensures u == (u / 0x100_0000) * 0x100_0000 + ((u / 0x1_0000) % 256) * 0x1_0000 + ((u / 0x100) % 256) * 0x100 + u % 256
  {
    var q1 := u / 0x100;
    var q2 := q1 / 0x100;
    var q3 := q2 / 0x100;
    assert u == q1 * 0x100 + u % 0x100;
    assert q1 == q2 * 0x100 + q1 % 0x100;
    assert q2 == q3 * 0x100 + q2 % 0x100;
    assert u == q2 * 0x1_0000 + (q1 % 0x100) * 0x100 + u % 0x100;
    assert u / 0x1_0000 == q2;
    assert u == q3 * 0x100_0000 + (q2 % 0x100) * 0x1_0000 + (q1 % 0x100) * 0x100 + u % 0x100;
    assert u / 0x100_0000 == q3;
  }

  /** Reading back what `BE32` wrote gives the `Int` that was written. */
  lemma I32RoundTrip(x: i32, s: seq<byte>, at: nat)
    requires at + 4 <= |s| && s[at..at + 4] == BE32(x as int)
    ensures ReadI32BE(s, at) == x
  {
    var u := x as int % TwoTo32;
    var w := BE32(x as int);
    assert s[at] == w[0] && s[at + 1] == w[1] && s[at + 2] == w[2] && s[at + 3] == w[3];
    WordFromBytes(u);
    assert s[at] as int * 0x100_0000 + s[at + 1] as int * 0x1_0000 + s[at + 2] as int * 0x100 + s[at + 3] as int == u;
  }

  /** Reading back what `BE16` wrote gives `x.toShort()`. */
  lemma I16RoundTrip(x: int, s: seq<byte>, at: nat)
    requires at + 2 <= |s| && s[at..at + 2] == BE16(x)
    ensures ReadI16BE(s, at) == ToShort(x)
  {
    assert s[at] == BE16(x)[0] && s[at + 1] == BE16(x)[1];
  }

  /** `src.copyInto(s, at)` on values: `s` with `s[at..at+|src|]` replaced by `src`. */
  function Splice(s: seq<byte>, at: nat, src: seq<byte>): (r: seq<byte>)
    requires at + |src| <= |s|
    ensures |r| == |s|
    ensures forall i :: 0 <= i < |s| ==> r[i] == if at <= i < at + |src| then src[i - at] else s[i]
  {
    s[..at] + src + s[at + |src|..]
  }

  /** `src.copyInto(dst, at)`: overwrites `dst[at..at+|src|]` with `src`, in place. */
  method CopyInto(src: seq<byte>, dst: array<byte>, at: nat)
    requires at + |src| <= dst.Length
    modifies dst
    ensures dst[..] == Splice(old(dst[..]), at, src)
  {
    var i := 0;
    while i < |src|
      invariant 0 <= i <= |src|
      invariant forall k :: 0 <= k < dst.Length ==> dst[k] == if at <= k < at + i then src[k - at] else old(dst[k])
    {
      dst[at + i] := src[i];
      i := i + 1;
    }
    assert forall k :: 0 <= k < dst.Length ==> dst[..][k] == Splice(old(dst[..]), at, src)[k];
  }
}
