/** Octets, fixed-width integers and big-endian numbers, as used by the AMQP type system. */
module Bytes {

  type Byte = x: int | 0 <= x < 0x100
  type U16 = x: int | 0 <= x < 0x1_0000
  type U32 = x: int | 0 <= x < 0x1_0000_0000
  type U64 = x: int | 0 <= x < 0x1_0000_0000_0000_0000
  type U128 = x: int | 0 <= x < 0x1_0000_0000_0000_0000_0000_0000_0000_0000
  type I8 = x: int | -0x80 <= x < 0x80
  type I16 = x: int | -0x8000 <= x < 0x8000
  type I32 = x: int | -0x8000_0000 <= x < 0x8000_0000
  type I64 = x: int | -0x8000_0000_0000_0000 <= x < 0x8000_0000_0000_0000

  const TWO32: int := 0x1_0000_0000

  datatype Option<+T> = None | Some(value: T)

  function Pow256(k: nat): (p: nat)
    ensures p > 0
  {
    if k == 0 then 1 else 256 * Pow256(k - 1)
  }

  lemma Pow256Values()
    ensures Pow256(1) == 0x100 && Pow256(2) == 0x1_0000 && Pow256(4) == 0x1_0000_0000
    ensures Pow256(8) == 0x1_0000_0000_0000_0000
    ensures Pow256(16) == 0x1_0000_0000_0000_0000_0000_0000_0000_0000
  {
    assert Pow256(3) == 0x100_0000;
    assert Pow256(5) == 0x100_0000_0000;
    assert Pow256(6) == 0x1_0000_0000_0000;
    assert Pow256(7) == 0x100_0000_0000_0000;
    assert Pow256(9) == 0x100_0000_0000_0000_0000;
    assert Pow256(11) == 0x100_0000_0000_0000_0000_0000;
    assert Pow256(13) == 0x100_0000_0000_0000_0000_0000_0000;
    assert Pow256(15) == 0x100_0000_0000_0000_0000_0000_0000_0000;
  }

  /** The `k` low-order octets of `n`, most significant first. A negative `n`
      gives its two's complement. */
  function BE(n: int, k: nat): (s: seq<Byte>)
    ensures |s| == k
    decreases k
  {
    if k == 0 then [] else BE(n / 256, k - 1) + [n % 256]
  }

  /** The unsigned number whose big-endian octets are `s`. */
  function Num(s: seq<Byte>): (n: nat)
    ensures n < Pow256(|s|)
  {
    if s == [] then 0 else Num(s[..|s| - 1]) * 256 + s[|s| - 1]
  }

  /** Reads an unsigned `k`-octet number as two's complement. */
  function Signed(n: int, k: nat): int {
    if 2 * n >= Pow256(k) then n - Pow256(k) else n
  }

  lemma {:induction false} NumBE(n: int, k: nat)
    requires 0 <= n < Pow256(k)
    ensures Num(BE(n, k)) == n
  {
    if k > 0 {
      NumBE(n / 256, k - 1);
      assert BE(n, k)[..k - 1] == BE(n / 256, k - 1);
    }
  }

  lemma {:induction false} BEWraps(n: int, k: nat)
    ensures BE(n + Pow256(k), k) == BE(n, k)
    decreases k
  {
    if k > 0 {
      BEWraps(n / 256, k - 1);
      assert (n + Pow256(k)) / 256 == n / 256 + Pow256(k - 1);
    }
  }

  lemma SignedBE(n: int, k: nat)
    requires 0 <= 2 * n + Pow256(k) && 2 * n < Pow256(k)
    ensures Signed(Num(BE(n, k)), k) == n
  {
    if n >= 0 {
      NumBE(n, k);
    } else {
      BEWraps(n, k);
      NumBE(n + Pow256(k), k);
    }
  }

  /** `x` occurs in `b` at offset `i`. */
  predicate At(b: seq<Byte>, i: nat, x: seq<Byte>) {
    i + |x| <= |b| && b[i..i + |x|] == x
  }

  lemma AtSplit(b: seq<Byte>, i: nat, x: seq<Byte>, y: seq<Byte>)
    requires At(b, i, x + y)
    ensures At(b, i, x) && At(b, i + |x|, y)
  {
    assert x == (x + y)[..|x|] == b[i..i + |x + y|][..|x|];
    assert y == (x + y)[|x|..] == b[i..i + |x + y|][|x|..];
  }

  lemma AtByte(b: seq<Byte>, i: nat, c: Byte, y: seq<Byte>)
    requires At(b, i, [c] + y)
    ensures i < |b| && b[i] == c && At(b, i + 1, y)
  {
    AtSplit(b, i, [c], y);
    assert b[i..i + 1][0] == c;
  }

  /** Sequence number arithmetic: reducing early does not matter. */
  lemma ModAdd(a: int, b: int)
    ensures (a % TWO32 + b) % TWO32 == (a + b) % TWO32
  {
    var q := a / TWO32;
    assert a == q * TWO32 + a % TWO32;
    ModShift(a % TWO32 + b, q);
  }

  lemma ModNeg(a: int, b: int)
    ensures (b - a % TWO32) % TWO32 == (b - a) % TWO32
  {
    var q := a / TWO32;
    assert a == q * TWO32 + a % TWO32;
    ModShift(b - a, q);
  }

  lemma {:induction false} ModShift(x: int, q: int)
    ensures (x + q * TWO32) % TWO32 == x % TWO32
    decreases if q < 0 then -q else q
  {
    if q > 0 {
      ModShift(x, q - 1);
      ModOnce(x + (q - 1) * TWO32);
    } else if q < 0 {
      ModShift(x, q + 1);
      ModOnce(x + q * TWO32);
    }
  }

  lemma ModSmall(x: int)
    requires 0 <= x < TWO32
    ensures x % TWO32 == x
  {
  }

  lemma ModOnce(x: int)
    ensures (x + TWO32) % TWO32 == x % TWO32
  {
  }
}
