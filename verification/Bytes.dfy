/** Byte strings, fixed-width integers as they lie in memory, and memcpy. */
module Bytes {
  type byte = x: int | 0 <= x < 256

  datatype Option<T> = None | Some(value: T)

  const HASH_SIZE: nat := 32    // _hmac_size, and SHA-256 digests

  const TWO32: nat := 0x1_0000_0000
  const TWO31: nat := 0x8000_0000

  function Pow256(w: nat): nat {
    if w == 0 then 1 else 256 * Pow256(w - 1)
  }

  /** The low `w` bytes of n, least significant first. */
  function Le(n: nat, w: nat): (b: seq<byte>)
    ensures |b| == w
  {
    if w == 0 then [] else [n % 256] + Le(n / 256, w - 1)
  }

  function FromLe(b: seq<byte>): nat {
    if b == [] then 0 else b[0] + 256 * FromLe(b[1..])
  }

  lemma LeDigits(n: nat)
    ensures var a := n / 256; var c := a / 256; var d := c / 256;
            Le(n, 4) == [n % 256, a % 256, c % 256, d % 256]
  {
    var a := n / 256;
    var c := a / 256;
    var d := c / 256;
    assert Le(d, 1) == [d % 256] + Le(d / 256, 0);
    assert Le(c, 2) == [c % 256, d % 256];
    assert Le(a, 3) == [a % 256, c % 256, d % 256];
  }

  lemma LowWord(n: nat, high: nat, low: nat)
    requires n == TWO32 * high + low && low < TWO32
    ensures n % TWO32 == low
  {
  }

  lemma Digits(n: nat, a: nat, c: nat, d: nat)
    requires a == n / 256 && c == a / 256 && d == c / 256
    ensures n % 256 + 0x100 * (a % 256) + 0x1_0000 * (c % 256) + 0x100_0000 * (d % 256) == n % TWO32
  {
    var e, x, y, z, t := d / 256, n % 256, a % 256, c % 256, d % 256;
    LowWord(n, e, x + 0x100 * y + 0x1_0000 * z + 0x100_0000 * t);
  }

  /** A little-endian 32-bit word, byte by byte. */
  lemma Le4Bytes(n: nat)
    ensures var b := Le(n, 4);
            b[0] as int + 0x100 * b[1] as int + 0x1_0000 * b[2] as int + 0x100_0000 * b[3] as int == n % TWO32
  {
    LeDigits(n);
    Digits(n, n / 256, n / 256 / 256, n / 256 / 256 / 256);
  }

  lemma {:induction false} LeRoundTrip(n: nat, w: nat)
    requires n < Pow256(w)
    ensures FromLe(Le(n, w)) == n
  {
    if w > 0 {
      LeRoundTrip(n / 256, w - 1);
      assert Le(n, w)[1..] == Le(n / 256, w - 1);
    }
  }

  lemma {:induction false} FromLeRoundTrip(b: seq<byte>)
    ensures FromLe(b) < Pow256(|b|) && Le(FromLe(b), |b|) == b
  {
    if b != [] {
      FromLeRoundTrip(b[1..]);
      assert FromLe(b) % 256 == b[0] && FromLe(b) / 256 == FromLe(b[1..]);
    }
  }

  lemma Widths()
    ensures Pow256(4) == TWO32 && Pow256(8) == TWO32 * TWO32
  {
    assert Pow256(1) == 256 && Pow256(2) == 0x1_0000 && Pow256(3) == 0x100_0000;
    assert Pow256(5) == 256 * Pow256(4) && Pow256(6) == 256 * Pow256(5) && Pow256(7) == 256 * Pow256(6);
  }

  /** A 32-bit little-endian field keeps every 32-bit value. */
  lemma Le32RoundTrip(n: nat)
    requires n < TWO32
    ensures FromLe(Le(n, 4)) == n
  {
    Widths();
    LeRoundTrip(n, 4);
  }

  lemma Le64RoundTrip(n: nat)
    requires n < TWO32 * TWO32
    ensures FromLe(Le(n, 8)) == n
  {
    Widths();
    LeRoundTrip(n, 8);
  }

  /** The value of a 64-bit word read back as a 32-bit signed integer. */
  function ToInt32(n: nat): int {
    var u := n % TWO32;
    if u < TWO31 then u else u - TWO32
  }

  function Zeros(n: nat): (z: seq<byte>)
    ensures |z| == n
  {
    seq(n, _ => 0)
  }

  function Splice(s: seq<byte>, at: nat, src: seq<byte>): (r: seq<byte>)
    requires at + |src| <= |s|
    ensures |r| == |s|
  {
    s[..at] + src + s[at + |src|..]
  }

  /** Two copies side by side are one copy of the concatenation. */
  lemma SplicesJoin(s: seq<byte>, at: nat, a: seq<byte>, b: seq<byte>)
    requires at + |a| + |b| <= |s|
    ensures Splice(Splice(s, at, a), at + |a|, b) == Splice(s, at, a + b)
  {
  }

  lemma SpliceAtFront(s: seq<byte>, src: seq<byte>)
    requires |src| <= |s|
    ensures Splice(s, 0, src) == src + s[|src|..]
  {
  }

  lemma SpliceNext(s: seq<byte>, at: nat, src: seq<byte>, k: nat)
    requires at + |src| <= |s| && k < |src|
    ensures Splice(s, at, src[..k])[at + k := src[k]] == Splice(s, at, src[..k + 1])
  {
  }

  /** `memcpy(dst + at, src, |src|)`. */
  method Memcpy(dst: array<byte>, at: nat, src: seq<byte>)
    requires at + |src| <= dst.Length
    modifies dst
    ensures dst[..] == Splice(old(dst[..]), at, src)
  {
    for k := 0 to |src|
      invariant dst[..] == Splice(old(dst[..]), at, src[..k])
    {
      SpliceNext(old(dst[..]), at, src, k);
      dst[at + k] := src[k];
    }
    assert src[..|src|] == src;
  }

  /** A buffer of n zero bytes, as `make_unique<uint8_t[]>(n)` gives. */
  method Calloc(n: nat) returns (buf: array<byte>)
    ensures fresh(buf) && buf[..] == Zeros(n)
  {
    buf := new byte[n](_ => 0);
  }

  type Digest = d: seq<byte> | |d| == HASH_SIZE witness Zeros(HASH_SIZE)

  /** The attestation (HMAC): some deterministic function with a 32-byte result. */
  type Attest = seq<byte> -> Digest
}
