/** Which strings the encoder accepts. */
module Utf8 {
  import opened Bytes
  import opened Values
  import opened Encode

  /** A Unicode scalar value: a code point that is not a surrogate. */
  predicate IsScalarValue(c: int) { 0 <= c < 0xd800 || 0xe000 <= c < 0x11_0000 }

  /** Its octets: the code point in groups of six bits. */
  function Octets(c: int): (s: seq<Byte>)
    requires IsScalarValue(c)
    ensures 1 <= |s| <= 4
  {
    if c < 0x80 then [c]
    else if c < 0x800 then [0xc0 + c / 64, 0x80 + c % 64]
    else if c < 0x1_0000 then [0xe0 + c / 64 / 64, 0x80 + c / 64 % 64, 0x80 + c % 64]
    else [0xf0 + c / 64 / 64 / 64, 0x80 + c / 64 / 64 % 64, 0x80 + c / 64 % 64, 0x80 + c % 64]
  }

  predicate AllScalar(cs: seq<int>) { forall c :: c in cs ==> IsScalarValue(c) }

  function Utf8(cs: seq<int>): seq<Byte>
    requires AllScalar(cs)
  {
    if cs == [] then [] else Octets(cs[0]) + Utf8(cs[1..])
  }

  /** The octets of a scalar value are taken off the front. */
  lemma FrontValid(c: int, rest: seq<Byte>)
    requires IsScalarValue(c)
    ensures ValidUtf8(Octets(c) + rest) <==> ValidUtf8(rest)
  {
    var s := Octets(c) + rest;
    assert s[|Octets(c)|..] == rest;
  }

  lemma {:induction false} Utf8Valid(cs: seq<int>)
    requires AllScalar(cs)
    ensures ValidUtf8(Utf8(cs))
  {
    if cs != [] {
      Utf8Valid(cs[1..]);
      FrontValid(cs[0], Utf8(cs[1..]));
    }
  }

  /** Six more bits, from a continuation octet. */
  function More(c: int, octet: int): int { c * 64 + (octet - 0x80) }

  lemma SixBits(c: int, octet: Byte)
    requires c >= 0 && Tail(octet)
    ensures More(c, octet) / 64 == c && More(c, octet) % 64 == octet - 0x80 && 64 * c <= More(c, octet) < 64 * c + 64
  {
  }

  lemma TwoAt(s: seq<Byte>) returns (c: int)
    requires |s| >= 2 && 0xc2 <= s[0] <= 0xdf && Tail(s[1])
    ensures IsScalarValue(c) && Octets(c) == s[..2]
  {
    SixBits(s[0] - 0xc0, s[1]);
    hide More;
    c := More(s[0] - 0xc0, s[1]);
  }

  lemma ThreeAt(s: seq<Byte>) returns (c: int)
    requires |s| >= 3 && 0xe0 <= s[0] <= 0xef && Tail(s[1]) && Tail(s[2])
    requires (s[0] == 0xe0 ==> s[1] >= 0xa0) && (s[0] == 0xed ==> s[1] <= 0x9f)
    ensures IsScalarValue(c) && Octets(c) == s[..3]
  {
    hide More;
    SixBits(s[0] - 0xe0, s[1]);
    var d := More(s[0] - 0xe0, s[1]);
    SixBits(d, s[2]);
    c := More(d, s[2]);
    assert s[..3] == [s[0], s[1], s[2]];
  }

  lemma FourAt(s: seq<Byte>) returns (c: int)
    requires |s| >= 4 && 0xf0 <= s[0] <= 0xf4 && Tail(s[1]) && Tail(s[2]) && Tail(s[3])
    requires (s[0] == 0xf0 ==> s[1] >= 0x90) && (s[0] == 0xf4 ==> s[1] <= 0x8f)
    ensures IsScalarValue(c) && Octets(c) == s[..4]
  {
    hide More;
    SixBits(s[0] - 0xf0, s[1]);
    var d := More(s[0] - 0xf0, s[1]);
    SixBits(d, s[2]);
    SixBits(More(d, s[2]), s[3]);
    c := More(More(d, s[2]), s[3]);
    assert s[..4] == [s[0], s[1], s[2], s[3]];
  }

  /** The scalar value at the front of a valid string. */
  lemma Front(s: seq<Byte>) returns (c: int)
    requires s != [] && ValidUtf8(s)
    ensures IsScalarValue(c) && Octets(c) <= s && ValidUtf8(s[|Octets(c)|..])
  {
    if s[0] < 0x80 {
      c := s[0];
    } else {
      hide Octets, IsScalarValue;
      if s[0] <= 0xdf { c := TwoAt(s); } else if s[0] <= 0xef { c := ThreeAt(s); } else { c := FourAt(s); }
    }
  }

  lemma {:induction false} ValidSpelled(s: seq<Byte>) returns (cs: seq<int>)
    requires ValidUtf8(s)
    ensures AllScalar(cs) && Utf8(cs) == s
    decreases |s|
  {
    if s == [] {
      cs := [];
    } else {
      hide ValidUtf8, Octets;
      var c := Front(s);
      var rest := ValidSpelled(s[|Octets(c)|..]);
      cs := [c] + rest;
      assert cs[1..] == rest;
    }
  }

  /** A string can be encoded if and only if it is the UTF-8 form of some scalar values, in at most 2^32-2 octets;
      a symbol or a binary needs no more than the length. */
  lemma StringEncodableIff(s: seq<Byte>)
    ensures Encodable(Sym(s)) && Encodable(Binary(s)) <==> |s| <= 0xffff_fffe
    ensures Encodable(Sym(s)) <==> Encodable(Binary(s))
    ensures Encodable(Str(s)) <==> |s| <= 0xffff_fffe && exists cs :: AllScalar(cs) && Utf8(cs) == s
  {
    if ValidUtf8(s) {
      var cs := ValidSpelled(s);
      assert AllScalar(cs) && Utf8(cs) == s;
    }
    forall cs | AllScalar(cs) && Utf8(cs) == s ensures ValidUtf8(s) {
      Utf8Valid(cs);
    }
  }
}
