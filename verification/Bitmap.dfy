/** The growable bitmap that hands out link handles and session channels. */
module Bitmap {
  import opened Bytes

  // Single bits.

  /** `1 << k` */
  function One(k: nat): bv64 {
    if k == 0 then 1 else One(k - 1) << 1
  }

  predicate Meets(a: bv64, b: bv64) { a & b != 0 }

  predicate Bit(w: bv64, k: nat) { Meets(w, One(k)) }

  function Or(a: bv64, b: bv64): bv64 { a | b }

  function Minus(a: bv64, b: bv64): bv64 { a & !b }

  /** `w |= 1 << k` */
  function WithBit(w: bv64, k: nat): bv64 { Or(w, One(k)) }

  /** `w &= ^(1 << k)` */
  function WithoutBit(w: bv64, k: nat): bv64 { Minus(w, One(k)) }

  const FULL: bv64 := 0xffff_ffff_ffff_ffff

  /** The bits below `k`. */
  function Low(k: nat): bv64 {
    if k == 0 then 0 else Or(Low(k - 1), One(k - 1))
  }

  lemma {:induction false} LowShift(k: nat)
    ensures Low(k + 1) == (Low(k) << 1) | 1
  {
    if k == 0 {
      assert Low(1) == Or(Low(0), One(0));
    } else {
      LowShift(k - 1);
      ShiftOr(Low(k - 1), One(k - 1));
    }
  }

  lemma ShiftOr(a: bv64, b: bv64)
    ensures ((a << 1) | 1) | (b << 1) == ((a | b) << 1) | 1
  {
  }

  lemma ShiftDisjoint(a: bv64, b: bv64)
    requires a & b == 0
    ensures (a << 1) & ((b << 1) | 1) == 0
  {
  }

  predicate Apart(a: bv64, b: bv64) { a & b == 0 }

  predicate Inside(a: bv64, b: bv64) { a & b == a }

  lemma {:induction false} OneAboveLow(k: nat)
    ensures Apart(One(k), Low(k))
  {
    if k > 0 {
      OneAboveLow(k - 1);
      ShiftDisjoint(One(k - 1), Low(k - 1));
      LowShift(k - 1);
    }
  }

  lemma {:induction false} OneInLow(j: nat, k: nat)
    requires j < k
    ensures Inside(One(j), Low(k))
    decreases k
  {
    hide *;
    LowStep(k);
    if j < k - 1 {
      OneInLow(j, k - 1);
      InsideOr(One(j), Low(k - 1), One(k - 1));
    } else {
      InsideSelf(One(j), Low(j));
    }
  }

  lemma LowStep(k: nat)
    requires k > 0
    ensures Low(k) == Or(Low(k - 1), One(k - 1))
  {
  }

  lemma OneStep(k: nat)
    ensures One(k + 1) == One(k) << 1
  {
  }

  lemma InsideOr(a: bv64, b: bv64, c: bv64)
    requires Inside(a, b)
    ensures Inside(a, Or(b, c))
  {
  }

  lemma InsideSelf(a: bv64, b: bv64)
    ensures Inside(a, Or(b, a))
  {
  }

  /** Different positions are different bits. */
  lemma OnesApart(j: nat, k: nat)
    requires j != k
    ensures Apart(One(j), One(k)) && Apart(One(k), One(j))
  {
    hide *;
    var x, y := if j < k then j else k, if j < k then k else j;
    OneInLow(x, y);
    OneAboveLow(y);
    Separate(One(x), One(y), Low(y));
  }

  lemma Separate(a: bv64, b: bv64, m: bv64)
    requires Inside(a, m) && Apart(b, m)
    ensures Apart(a, b) && Apart(b, a)
  {
  }

  lemma {:induction false} OneNonzero(k: nat)
    requires k < 64
    ensures One(k) != 0
  {
    Eight(0); Eight(8); Eight(16); Eight(24); Eight(32); Eight(40); Eight(48);
    assert One(56) == 0x100_0000_0000_0000;
    assert One(57) == 0x200_0000_0000_0000;
    assert One(58) == 0x400_0000_0000_0000;
    assert One(59) == 0x800_0000_0000_0000;
    assert One(60) == 0x1000_0000_0000_0000;
    assert One(61) == 0x2000_0000_0000_0000;
    assert One(62) == 0x4000_0000_0000_0000;
    assert One(63) == 0x8000_0000_0000_0000;
    if One(k) == 0 { ZeroStays(k, 63); }
  }

  lemma Eight(k: nat)
    ensures One(k + 8) == One(k) << 8
  {
    hide *;
    Four(k);
    Four(k + 4);
    FourTwice(One(k));
  }

  lemma Four(k: nat)
    ensures One(k + 4) == One(k) << 4
  {
    hide *;
    Two(k);
    Two(k + 2);
    TwoTwice(One(k));
  }

  lemma Two(k: nat)
    ensures One(k + 2) == One(k) << 2
  {
    hide *;
    OneStep(k);
    OneStep(k + 1);
    OnceTwice(One(k));
  }

  lemma OnceTwice(a: bv64)
    ensures (a << 1) << 1 == a << 2
  {
  }

  lemma TwoTwice(a: bv64)
    ensures (a << 2) << 2 == a << 4
  {
  }

  lemma FourTwice(a: bv64)
    ensures (a << 4) << 4 == a << 8
  {
  }

  lemma {:induction false} ZeroStays(j: nat, k: nat)
    requires j <= k && One(j) == 0
    ensures One(k) == 0
    decreases k
  {
    if j < k { ZeroStays(j, k - 1); }
  }

  lemma {:induction false} OneHot(k: nat)
    ensures One(k) & (One(k) - 1) == 0
  {
    if k > 0 { OneHot(k - 1); HotShift(One(k - 1)); }
  }

  lemma HotShift(m: bv64)
    requires m & (m - 1) == 0
    ensures (m << 1) & ((m << 1) - 1) == 0
  {
  }

  lemma HotAnd(v: bv64, m: bv64)
    requires m & (m - 1) == 0
    ensures v & m == 0 || v & m == m
  {
  }

  lemma {:induction false} HotInside(v: bv64, k: nat)
    requires Bit(v, k)
    ensures Inside(One(k), v)
  {
    OneHot(k);
    HotAnd(v, One(k));
    hide One;
    Swap(v, One(k));
  }

  lemma Swap(a: bv64, b: bv64)
    ensures a & b == b & a
  {
  }

  /** Words with every bit set are all ones. */
  lemma {:induction false} AllSet(v: bv64, k: nat)
    requires forall j :: 0 <= j < k ==> Bit(v, j)
    ensures Inside(Low(k), v)
    decreases k
  {
    if k > 0 {
      hide *;
      LowStep(k);
      AllSet(v, k - 1);
      HotInside(v, k - 1);
      BothInside(Low(k - 1), One(k - 1), v);
    } else {
      assert Low(0) == 0;
    }
  }

  lemma BothInside(a: bv64, b: bv64, v: bv64)
    requires Inside(a, v) && Inside(b, v)
    ensures Inside(Or(a, b), v)
  {
  }

  lemma LowFull()
    ensures Low(64) == FULL
  {
    LowEight(0, 0); LowEight(8, 0xff); LowEight(16, 0xffff); LowEight(24, 0xff_ffff);
    LowEight(32, 0xffff_ffff); LowEight(40, 0xff_ffff_ffff); LowEight(48, 0xffff_ffff_ffff);
    LowEight(56, 0xff_ffff_ffff_ffff);
  }

  lemma LowEight(k: nat, v: bv64)
    requires Low(k) == v
    ensures Low(k + 8) == (v << 8) | 0xff
  {
    LowShift(k); LowShift(k + 1); LowShift(k + 2); LowShift(k + 3);
    LowShift(k + 4); LowShift(k + 5); LowShift(k + 6); LowShift(k + 7);
    hide *;
    EightOnes(v);
  }

  lemma EightOnes(v: bv64)
    ensures var a := (v << 1) | 1; var b := (a << 1) | 1; var c := (b << 1) | 1; var d := (c << 1) | 1;
      var e := (d << 1) | 1; var f := (e << 1) | 1; var g := (f << 1) | 1; (g << 1) | 1 == (v << 8) | 0xff
  {
  }

  /** A word is all ones if and only if all its bits are set. */
  lemma FullIff(v: bv64)
    ensures v == FULL <==> forall j :: 0 <= j < 64 ==> Bit(v, j)
  {
    if v == FULL {
      forall j | 0 <= j < 64 ensures Bit(v, j) { OneNonzero(j); hide One; FullAnd(One(j)); }
    } else if forall j :: 0 <= j < 64 ==> Bit(v, j) {
      AllSet(v, 64);
      LowFull();
      hide Bit, Low;
      FullInside(v);
    }
  }

  lemma FullAnd(m: bv64)
    ensures FULL & m == m
  {
  }

  lemma FullInside(v: bv64)
    requires Inside(FULL, v)
    ensures v == FULL
  {
  }

  lemma SetBit(w: bv64, k: nat, j: nat)
    requires k < 64
    ensures Bit(WithBit(w, k), j) <==> j == k || Bit(w, j)
  {
    hide One, Meets, Apart, Or;
    OneNonzero(k);
    if j == k { OrMeets(w, One(k)); } else { OnesApart(j, k); OrApart(w, One(k), One(j)); }
  }

  lemma OrMeets(w: bv64, m: bv64)
    requires m != 0
    ensures Meets(Or(w, m), m)
  {
  }

  lemma OrApart(w: bv64, m: bv64, n: bv64)
    requires Apart(m, n)
    ensures Meets(Or(w, m), n) <==> Meets(w, n)
  {
  }

  lemma ClearBit(w: bv64, k: nat, j: nat)
    ensures Bit(WithoutBit(w, k), j) <==> j != k && Bit(w, j)
  {
    hide One, Meets, Apart, Minus;
    if j == k { AndNot(w, One(k)); } else { OnesApart(j, k); AndNotApart(w, One(k), One(j)); }
  }

  lemma AndNot(w: bv64, m: bv64)
    ensures !Meets(Minus(w, m), m)
  {
  }

  lemma AndNotApart(w: bv64, m: bv64, n: bv64)
    requires Apart(m, n)
    ensures Meets(Minus(w, m), n) <==> Meets(w, n)
  {
  }

  lemma NoBits(k: nat)
    ensures !Bit(0, k)
  {
    hide One;
    NoneMeets(One(k));
  }

  lemma NoneMeets(m: bv64)
    ensures !Meets(0, m)
  {
  }

  lemma FirstBit()
    ensures WithBit(0, 0) == 1
  {
    assert One(0) == 1;
  }

  /** `bits.TrailingZeros64(^v)`, counted from bit `k`: the lowest clear bit. */
  function LowestClear(v: bv64, k: nat): (r: nat)
    requires k < 64 && exists j :: k <= j < 64 && !Bit(v, j)
    ensures k <= r < 64 && !Bit(v, r) && forall j :: k <= j < r ==> Bit(v, j)
    decreases 64 - k
  {
    if !Bit(v, k) then k else LowestClear(v, k + 1)
  }

  // Words.

  predicate HasIn(bits: seq<bv64>, n: nat) { n / 64 < |bits| && Bit(bits[n / 64], n % 64) }

  function Marked(bits: seq<bv64>, n: nat): (r: seq<bv64>)
    requires n / 64 < |bits|
    ensures |r| == |bits|
  {
    bits[n / 64 := WithBit(bits[n / 64], n % 64)]
  }

  function Cleared(bits: seq<bv64>, n: nat): (r: seq<bv64>)
    requires n / 64 < |bits|
    ensures |r| == |bits|
  {
    bits[n / 64 := WithoutBit(bits[n / 64], n % 64)]
  }

  lemma SamePlace(m: nat, n: nat)
    ensures m == n <==> m / 64 == n / 64 && m % 64 == n % 64
  {
    assert m == m / 64 * 64 + m % 64 && n == n / 64 * 64 + n % 64;
  }

  lemma MarkedIn(bits: seq<bv64>, n: nat)
    requires n / 64 < |bits|
    ensures forall m: nat :: HasIn(Marked(bits, n), m) <==> m == n || HasIn(bits, m)
  {
    hide Bit, WithBit;
    forall m: nat ensures HasIn(Marked(bits, n), m) <==> m == n || HasIn(bits, m) {
      SamePlace(m, n);
      if m / 64 == n / 64 { SetBit(bits[n / 64], n % 64, m % 64); }
    }
  }

  lemma ClearedIn(bits: seq<bv64>, n: nat)
    requires n / 64 < |bits|
    ensures forall m: nat :: HasIn(Cleared(bits, n), m) <==> m != n && HasIn(bits, m)
  {
    hide Bit, WithoutBit;
    forall m: nat ensures HasIn(Cleared(bits, n), m) <==> m != n && HasIn(bits, m) {
      SamePlace(m, n);
      if m / 64 == n / 64 { ClearBit(bits[n / 64], n % 64, m % 64); }
    }
  }

  function Zeros(k: nat): seq<bv64> { seq(k, _ => 0) }

  lemma GrowIn(bits: seq<bv64>, k: nat)
    ensures forall n: nat :: HasIn(bits + Zeros(k), n) <==> HasIn(bits, n)
  {
    hide Bit;
    forall n: nat ensures HasIn(bits + Zeros(k), n) <==> HasIn(bits, n) {
      NoBits(n % 64);
    }
  }

  lemma FullWord(bits: seq<bv64>, i: nat)
    requires i < |bits| && bits[i] == FULL
    ensures forall n: nat :: 64 * i <= n < 64 * i + 64 ==> HasIn(bits, n)
  {
    FullIff(bits[i]);
    hide Bit;
  }

  lemma FirstClear(bits: seq<bv64>, i: nat, k: nat)
    requires i < |bits| && k < 64 && !Bit(bits[i], k) && forall j :: 0 <= j < k ==> Bit(bits[i], j)
    ensures !HasIn(bits, i * 64 + k) && forall n: nat :: i * 64 <= n < i * 64 + k ==> HasIn(bits, n)
  {
    hide Bit;
    forall n: nat | i * 64 <= n < i * 64 + k ensures HasIn(bits, n) {
      assert n / 64 == i && n % 64 < k;
    }
  }

  lemma Beyond(bits: seq<bv64>, n: nat)
    requires n / 64 >= |bits|
    ensures !HasIn(bits, n)
  {
  }

  /** A new word with its first bit set. */
  lemma AppendIn(bits: seq<bv64>)
    ensures !HasIn(bits, |bits| * 64)
    ensures forall n: nat :: HasIn(bits + [1], n) <==> n == |bits| * 64 || HasIn(bits, n)
  {
    FirstBit();
    hide Bit, WithBit;
    GrowIn(bits, 1);
    var z := bits + Zeros(1);
    assert (|bits| * 64) / 64 == |bits| && (|bits| * 64) % 64 == 0;
    MarkedIn(z, |bits| * 64);
    assert Marked(z, |bits| * 64) == bits + [1];
  }

  class Bitmap {
    const max: U32
    var bits: seq<bv64>

    /** No bit beyond the maximum is ever set, and no word beyond it is ever allocated. */
    ghost predicate Valid()
      reads this
    {
      |bits| <= max / 64 + 1 && forall n: nat :: HasIn(bits, n) ==> n <= max
    }

    /** The set that the bitmap stands for. */
    ghost function Members(): (s: set<nat>)
      reads this
      ensures forall n: nat :: n in s <==> n <= max && HasIn(bits, n)
    {
      set n: nat | n <= max && HasIn(bits, n)
    }

    constructor (max: U32)
      ensures Valid() && this.max == max && Members() == {}
    {
      this.max := max;
      this.bits := [];
    }

    method Add(n: U32)
      requires Valid()
      modifies this
      ensures Valid() && Members() == if n <= max then old(Members()) + {n} else old(Members())
    {
      hide HasIn, Marked;
      if n > max {
        return;
      }
      var idx := n / 64;
      if idx >= |bits| {
        GrowIn(bits, idx - |bits| + 1);
        bits := bits + Zeros(idx - |bits| + 1);
      }
      assert forall m: nat :: HasIn(bits, m) <==> HasIn(old(bits), m);
      MarkedIn(bits, n);
      bits := Marked(bits, n);
    }

    method Remove(n: U32)
      requires Valid()
      modifies this
      ensures Valid() && Members() == old(Members()) - {n}
    {
      hide HasIn, Cleared;
      if n / 64 >= |bits| {
        Beyond(bits, n);
        return;
      }
      ClearedIn(bits, n);
      bits := Cleared(bits, n);
    }

    /** Takes the least number that is free; fails if and only if there is none. The types of
        the results show that no computation leaves 32 bits. */
    method Next() returns (n: U32, ok: bool)
      requires Valid()
      modifies this
      ensures Valid()
      ensures ok <==> exists k: nat :: k <= max && k !in old(Members())
      ensures ok ==> n <= max && n !in old(Members()) && forall k: nat :: k < n ==> k in old(Members())
      ensures Members() == if ok then old(Members()) + {n} else old(Members())
    {
      hide HasIn, Bit, Marked;
      var i := 0;
      while i < |bits|
        invariant i <= |bits| && bits == old(bits)
        invariant forall k: nat :: k < 64 * i ==> HasIn(bits, k)
      {
        if bits[i] != FULL {
          FullIff(bits[i]);
          var offset := LowestClear(bits[i], 0);
          n := i * 64 + offset;
          FirstClear(bits, i, offset);
          assert forall k: nat :: k < n ==> HasIn(bits, k);
          assert n !in Members();
          if n > max {
            assert forall k: nat :: k <= max ==> k in Members();
            return n, false;
          }
          assert n / 64 == i;
          MarkedIn(bits, n);
          bits := Marked(bits, n);
          return n, true;
        }
        FullWord(bits, i);
        i := i + 1;
      }
      if |bits| * 64 > max {
        return 0, false;
      }
      n := |bits| * 64;
      AppendIn(bits);
      bits := bits + [1];
      assert n !in old(Members());
      assert forall m: nat :: HasIn(bits, m) <==> m == n || HasIn(old(bits), m);
      return n, true;
    }
  }

}
