/** Reading back numbers, octet strings, headers and arrays from their encodings. */
module Arrays {
  import opened Bytes
  import opened Values
  import opened Encode
  import opened Decode

  // Raw reads of encoded numbers.

  lemma ReadNumAt(b: seq<Byte>, i: nat, n: int, k: nat)
    requires At(b, i, BE(n, k))
    ensures 0 <= n < Pow256(k) ==> ReadNum(b, i, k) == Ok(n, i + k)
    ensures 0 <= 2 * n + Pow256(k) && 2 * n < Pow256(k) ==> ReadSigned(b, i, k) == Ok(n, i + k)
  {
    if 0 <= n < Pow256(k) { NumBE(n, k); }
    if 0 <= 2 * n + Pow256(k) && 2 * n < Pow256(k) { SignedBE(n, k); }
  }

  lemma ReadVarAt(b: seq<Byte>, i: nat, narrow: Byte, wide: Byte, s: seq<Byte>, ns: set<Byte>, ws: set<Byte>)
    requires At(b, i, EncVar(narrow, wide, s)) && |s| < TWO32
    requires narrow in ns && wide in ws && wide !in ns
    ensures ReadVar(b, i, ns, ws) == Ok(s, i + |EncVar(narrow, wide, s)|)
  {
    if |s| < 256 {
      assert [narrow, |s|] + s == [narrow] + ([|s|] + s);
      AtByte(b, i, narrow, [|s|] + s);
      AtByte(b, i + 1, |s|, s);
    } else {
      assert [wide] + BE(|s|, 4) + s == [wide] + (BE(|s|, 4) + s);
      AtByte(b, i, wide, BE(|s|, 4) + s);
      AtSplit(b, i + 1, BE(|s|, 4), s);
      Pow256Values();
      ReadNumAt(b, i + 1, |s|, 4);
    }
  }

  /** The header of a 32-bit compound is read back, and its size passes the check. */
  lemma ReadSizedAt(b: seq<Byte>, i: nat, narrow: Byte, wide: Byte, count: nat, body: seq<Byte>)
    requires At(b, i, EncCompound(wide, count, body)) && narrow != wide
    requires count < TWO32 && 4 + |body| < TWO32
    ensures ReadSized(b, i, narrow, wide) == Ok(count, i + 9)
    ensures At(b, i + 9, body)
    ensures b[i] == wide
  {
    var rest := BE(count, 4) + body;
    assert EncCompound(wide, count, body) == [wide] + (BE(4 + |body|, 4) + rest);
    AtByte(b, i, wide, BE(4 + |body|, 4) + rest);
    AtSplit(b, i + 1, BE(4 + |body|, 4), rest);
    AtSplit(b, i + 5, BE(count, 4), body);
    Pow256Values();
    ReadNumAt(b, i + 1, 4 + |body|, 4);
    ReadNumAt(b, i + 5, count, 4);
  }

  // Arrays.

  lemma NarrowHeaderAt(b: seq<Byte>, i: nat, size: nat, count: nat, code: Byte, body: seq<Byte>)
    requires At(b, i, [ARRAY8] + BE(size + 2, 1) + BE(count, 1) + [code] + body)
    requires count <= size == |body| && size + 2 <= 255
    ensures ReadSized(b, i, ARRAY8, ARRAY32) == Ok(count, i + 3)
    ensures i + 3 < |b| && b[i + 3] == code && At(b, i + 4, body)
  {
    assert BE(size + 2, 1) == [size + 2] && BE(count, 1) == [count];
    var r2 := [count] + ([code] + body);
    assert [ARRAY8] + BE(size + 2, 1) + BE(count, 1) + [code] + body == [ARRAY8] + ([size + 2] + r2);
    AtByte(b, i, ARRAY8, [size + 2] + r2);
    AtByte(b, i + 1, size + 2, r2);
    AtByte(b, i + 2, count, [code] + body);
    AtByte(b, i + 3, code, body);
  }

  lemma WideHeaderAt(b: seq<Byte>, i: nat, size: nat, count: nat, code: Byte, body: seq<Byte>)
    requires At(b, i, [ARRAY32] + BE(size + 5, 4) + BE(count, 4) + [code] + body)
    requires count <= size == |body| && size + 5 < TWO32
    ensures ReadSized(b, i, ARRAY8, ARRAY32) == Ok(count, i + 9)
    ensures i + 9 < |b| && b[i + 9] == code && At(b, i + 10, body)
  {
    assert [ARRAY32] + BE(size + 5, 4) + BE(count, 4) + [code] + body == EncCompound(ARRAY32, count, [code] + body);
    ReadSizedAt(b, i, ARRAY8, ARRAY32, count, [code] + body);
    AtByte(b, i + 9, code, body);
  }

  lemma ReadArrayHeaderAt(b: seq<Byte>, i: nat, size: nat, count: nat, code: Byte, body: seq<Byte>) returns (j: nat)
    requires At(b, i, EncArrayHeader(size, count, code) + body)
    requires count <= size == |body| && |EncArrayHeader(size, count, code) + body| < TWO32
    ensures j == i + |EncArrayHeader(size, count, code)| - 1
    ensures ReadSized(b, i, ARRAY8, ARRAY32) == Ok(count, j)
    ensures j < |b| && b[j] == code && At(b, j + 1, body)
  {
    hide ReadSized, BE;
    if size + 2 <= 255 {
      j := i + 3;
      NarrowHeaderAt(b, i, size, count, code, body);
    } else {
      j := i + 9;
      WideHeaderAt(b, i, size, count, code, body);
    }
  }

  lemma AtLeastCount(n: nat, w: nat)
    requires w > 0
    ensures n <= n * w
  {
  }

  lemma {:induction false} ElemsLen(es: seq<int>, j: nat, w: nat)
    requires j <= |es|
    ensures |EncElems(es, j, w)| == (|es| - j) * w
    decreases |es| - j
  {
    if j < |es| {
      ElemsLen(es, j + 1, w);
      assert w + (|es| - j - 1) * w == (|es| - j) * w;
    }
  }

  lemma {:induction false} ChunksLen(ss: seq<seq<Byte>>, j: nat, w: nat)
    requires j <= |ss|
    ensures |EncChunks(ss, j, w)| == TotalLen(ss, j) + (|ss| - j) * w
    decreases |ss| - j
  {
    if j < |ss| {
      ChunksLen(ss, j + 1, w);
      assert w + (|ss| - j - 1) * w == (|ss| - j) * w;
    }
  }

  /** Arrays that keep their elements: a signed 32- or 64-bit array whose elements are all at
      most 127 is written with one octet for each element. */
  predicate FaithfulNumbers(k: NumKind, es: seq<int>) {
    && (forall e :: e in es ==> InRange(k, e))
    && (IsAdaptive(k) && IsSigned(k) ==> (exists e :: e in es && e > 127) || forall e :: e in es ==> e >= -128)
  }

  /** The decoder requires two octets for each element, counting what follows the array header. */
  predicate FaithfulBlobs(ss: seq<seq<Byte>>, following: nat) {
    2 * |ss| <= 1 + |ss| * BlobWidth(ss) + TotalLen(ss, 0) + following
  }

  /** What decoding makes of an element written in `w` octets. */
  function ElemBack(k: NumKind, e: int, w: nat): int {
    if w == 1 && IsAdaptive(k) && IsSigned(k) then Signed(e % 256, 1) else e
  }

  function ElemsBack(k: NumKind, es: seq<int>, j: nat, w: nat): (r: seq<int>)
    requires j <= |es|
    ensures |r| == |es| - j
    ensures forall m :: 0 <= m < |r| ==> r[m] == ElemBack(k, es[j + m], w)
    decreases |es| - j
  {
    if j == |es| then [] else [ElemBack(k, es[j], w)] + ElemsBack(k, es, j + 1, w)
  }

  lemma ElemAt(k: NumKind, e: int, w: nat)
    requires InRange(k, e)
    requires w == WideWidth(k) || (w == 1 && IsAdaptive(k) && e <= if IsSigned(k) then 127 else 255)
    ensures Elem(k, BE(e, w)) == ElemBack(k, e, w)
  {
    Pow256Values();
    hide Num, BE, Pow256, IsAdaptive, WideWidth;
    if k.ArrBool? {
      BoolWidth();
      NumBE(e, w);
    } else if w == 1 && IsAdaptive(k) && IsSigned(k) {
      NumBE(e % 256, 1);
      LowOctet(e);
    } else if IsSigned(k) {
      SignedBE(e, w);
    } else {
      NumBE(e, w);
    }
  }

  lemma BoolWidth()
    ensures WideWidth(ArrBool) == 1 && !IsAdaptive(ArrBool)
  {
  }

  lemma LowOctet(e: int)
    ensures BE(e, 1) == BE(e % 256, 1)
  {
    assert BE(e / 256, 0) == [] && BE((e % 256) / 256, 0) == [];
  }

  lemma {:induction false} ReadElemsAt(k: NumKind, es: seq<int>, j: nat, w: nat)
    requires j <= |es|
    requires forall m :: j <= m < |es| ==> InRange(k, es[m])
    requires w == WideWidth(k)
          || (w == 1 && IsAdaptive(k) && forall m :: j <= m < |es| ==> es[m] <= if IsSigned(k) then 127 else 255)
    ensures ReadElems(k, EncElems(es, j, w), w) == ElemsBack(k, es, j, w)
    decreases |es| - j
  {
    hide Elem, ElemBack, InRange, BE, WideWidth, IsAdaptive;
    if j < |es| {
      var s := EncElems(es, j, w);
      ElemAt(k, es[j], w);
      ReadElemsAt(k, es, j + 1, w);
      assert s[..w] == BE(es[j], w) && s[w..] == EncElems(es, j + 1, w);
    }
  }

  lemma ReadBodyAt(k: NumKind, es: seq<int>, w: nat, code: Byte, b: seq<Byte>, j: nat)
    requires forall e :: e in es ==> InRange(k, e)
    requires w == if UseNarrow(k, es) then 1 else WideWidth(k)
    requires code == if UseNarrow(k, es) then NarrowCode(k) else WideCode(k)
    requires j < |b| && b[j] == code && At(b, j + 1, EncElems(es, 0, w))
    ensures NumKindOf(code) == Some(k)
    ensures ReadNumbers(k, |es|, b, j) == Ok(Numbers(k, ElemsBack(k, es, 0, w)), j + 1 + |es| * w)
  {
    hide UseNarrow, ReadElems, EncElems, ElemsBack, InRange, NumKindOf, WideCode, NarrowCode, WideWidth;
    ReadBodyElems(k, es, w);
    ElemsLen(es, 0, w);
    NumCode(k);
    UseNarrowKind(k, es);
    ReadBodyIs(k, |es|, w, b, j, EncElems(es, 0, w));
  }

  lemma ReadBodyIs(k: NumKind, n: nat, w: nat, b: seq<Byte>, j: nat, body: seq<Byte>)
    requires w > 0 && j < |b| && At(b, j + 1, body) && |body| == n * w
    requires b[j] !in {UINT0, ULONG0, TRUE, FALSE}
    requires w == if IsAdaptive(k) && b[j] == NarrowCode(k) then 1 else WideWidth(k)
    ensures ReadNumbers(k, n, b, j) == Ok(Numbers(k, ReadElems(k, body, w)), j + 1 + n * w)
  {
    hide ReadElems, WideCode, NarrowCode, WideWidth;
  }

  lemma UseNarrowKind(kind: NumKind, es: seq<int>)
    ensures UseNarrow(kind, es) ==> IsAdaptive(kind)
  {
  }

  lemma ReadBodyElems(k: NumKind, es: seq<int>, w: nat)
    requires forall e :: e in es ==> InRange(k, e)
    requires w == if UseNarrow(k, es) then 1 else WideWidth(k)
    ensures w > 0 && ReadElems(k, EncElems(es, 0, w), w) == ElemsBack(k, es, 0, w)
  {
    hide InRange, ReadElems, EncElems, ElemsBack;
    assert forall m :: 0 <= m < |es| ==> es[m] in es;
    ReadElemsAt(k, es, 0, w);
  }

  lemma NumCode(k: NumKind)
    ensures NumKindOf(WideCode(k)) == Some(k) && WideCode(k) !in {UINT0, ULONG0, TRUE, FALSE}
    ensures IsAdaptive(k) ==>
      && NumKindOf(NarrowCode(k)) == Some(k)
      && NarrowCode(k) !in {UINT0, ULONG0, TRUE, FALSE, WideCode(k)}
  {
  }

  /** Decoding an encoded array of numbers, whatever its elements. */
  lemma ReadNumbersAt(k: NumKind, es: seq<int>, b: seq<Byte>, i: nat)
    requires forall e :: e in es ==> InRange(k, e)
    requires At(b, i, EncNumbers(k, es)) && |EncNumbers(k, es)| < TWO32
    ensures var w := if UseNarrow(k, es) then 1 else WideWidth(k);
      ReadArray(b, i) == Ok(Numbers(k, ElemsBack(k, es, 0, w)), i + |EncNumbers(k, es)|)
  {
    var w := if UseNarrow(k, es) then 1 else WideWidth(k);
    var code := if UseNarrow(k, es) then NarrowCode(k) else WideCode(k);
    ElemsLen(es, 0, w);
    AtLeastCount(|es|, w);
    var j := ReadArrayHeaderAt(b, i, |es| * w, |es|, code, EncElems(es, 0, w));
    ReadBodyAt(k, es, w, code, b, j);
  }

  lemma ElemBackIff(k: NumKind, e: int)
    requires IsAdaptive(k) && IsSigned(k) && e <= 127
    ensures ElemBack(k, e, 1) == e <==> e >= -128
  {
    assert Pow256(1) == 256;
  }

  lemma ElemsBackIff(k: NumKind, es: seq<int>)
    requires forall e :: e in es ==> InRange(k, e)
    ensures ElemsBack(k, es, 0, if UseNarrow(k, es) then 1 else WideWidth(k)) == es <==> FaithfulNumbers(k, es)
  {
    var back := ElemsBack(k, es, 0, if UseNarrow(k, es) then 1 else WideWidth(k));
    if UseNarrow(k, es) && IsSigned(k) {
      forall m | 0 <= m < |es| ensures back[m] == es[m] <==> es[m] >= -128 {
        assert es[m] in es;
        ElemBackIff(k, es[m]);
      }
      if FaithfulNumbers(k, es) {
        forall m | 0 <= m < |es| ensures back[m] == es[m] {
          assert es[m] in es;
        }
        assert back == es;
      } else {
        var e :| e in es && e < -128;
        var m :| 0 <= m < |es| && es[m] == e;
        assert back[m] != es[m];
      }
    } else {
      forall m | 0 <= m < |es| ensures back[m] == es[m] {}
      assert back == es;
    }
  }

  /** An array of numbers is restored exactly when it is faithful. */
  lemma NumbersRoundTrip(k: NumKind, es: seq<int>, b: seq<Byte>, i: nat)
    requires forall e :: e in es ==> InRange(k, e)
    requires At(b, i, EncNumbers(k, es)) && |EncNumbers(k, es)| < TWO32
    ensures ReadArray(b, i).Ok? && ReadArray(b, i).i == i + |EncNumbers(k, es)|
    ensures ReadArray(b, i).v == Numbers(k, es) <==> FaithfulNumbers(k, es)
  {
    ReadNumbersAt(k, es, b, i);
    ElemsBackIff(k, es);
  }

  lemma {:induction false} ReadChunksAt(ss: seq<seq<Byte>>, j: nat, w: nat, b: seq<Byte>, i: nat)
    requires j <= |ss| && At(b, i, EncChunks(ss, j, w))
    requires forall m :: j <= m < |ss| ==> |ss[m]| < Pow256(w)
    ensures ReadChunks(b, i, |ss| - j, w) == Ok(ss[j..], i + |EncChunks(ss, j, w)|)
    decreases |ss| - j
  {
    hide BE, Pow256, ReadChunks;
    if j == |ss| {
      ChunksNone(b, i, w);
    } else {
      var rest := EncChunks(ss, j + 1, w);
      assert BE(|ss[j]|, w) + ss[j] + rest == BE(|ss[j]|, w) + (ss[j] + rest);
      AtSplit(b, i, BE(|ss[j]|, w), ss[j] + rest);
      AtSplit(b, i + w, ss[j], rest);
      ReadNumAt(b, i, |ss[j]|, w);
      ReadChunksAt(ss, j + 1, w, b, i + w + |ss[j]|);
      assert ss[j..] == [ss[j]] + ss[j + 1..];
      ChunksStep(b, i, |ss| - j, w, ss[j], ss[j + 1..], i + |EncChunks(ss, j, w)|);
    }
  }

  lemma ChunksNone(b: seq<Byte>, i: nat, w: nat)
    requires i <= |b|
    ensures ReadChunks(b, i, 0, w) == Ok([], i)
  {
  }

  lemma ChunksStep(b: seq<Byte>, i: nat, n: nat, w: nat, s: seq<Byte>, ss: seq<seq<Byte>>, end: nat)
    requires n > 0 && i <= |b| && ReadNum(b, i, w) == Ok(|s|, i + w) && At(b, i + w, s)
    requires ReadChunks(b, i + w + |s|, n - 1, w) == Ok(ss, end)
    ensures ReadChunks(b, i, n, w) == Ok([s] + ss, end)
  {
    hide ReadNum;
  }

  lemma {:induction false} TotalLenBounds(ss: seq<seq<Byte>>, j: nat, m: nat)
    requires j <= m < |ss|
    ensures |ss[m]| <= TotalLen(ss, j)
    decreases m - j
  {
    if j < m {
      TotalLenBounds(ss, j + 1, m);
    }
  }

  /** The encoding of an array of octet strings, in terms of its body. */
  lemma EncBlobsShape(k: BlobKind, ss: seq<seq<Byte>>) returns (w: nat, code: Byte, body: seq<Byte>)
    ensures w == BlobWidth(ss) && (w == 1 || w == 4) && code == (if w == 1 then Code8(k) else Code32(k))
    ensures body == EncChunks(ss, 0, w) && |body| == TotalLen(ss, 0) + |ss| * w && |ss| <= |body|
    ensures EncBlobs(k, ss) == EncArrayHeader(|body|, |ss|, code) + body && TotalLen(ss, 0) <= |body|
  {
    hide EncChunks, TotalLen, EncArrayHeader;
    w := BlobWidth(ss);
    code := if w == 1 then Code8(k) else Code32(k);
    body := EncChunks(ss, 0, w);
    ChunksLen(ss, 0, w);
    AtLeastCount(|ss|, w);
  }

  /** Reading an array of octet strings with `w`-octet prefixes. */
  lemma ReadBlobsAt(k: BlobKind, ss: seq<seq<Byte>>, w: nat, code: Byte, b: seq<Byte>, i: nat)
    requires (w == 1 || w == 4) && code == (if w == 1 then Code8(k) else Code32(k))
    requires forall m :: 0 <= m < |ss| ==> |ss[m]| < Pow256(w)
    requires var body := EncChunks(ss, 0, w);
      && |ss| <= |body| && |EncArrayHeader(|body|, |ss|, code) + body| < TWO32
      && At(b, i, EncArrayHeader(|body|, |ss|, code) + body)
    ensures var body := EncChunks(ss, 0, w);
      var end := i + |EncArrayHeader(|body|, |ss|, code) + body|;
      ReadArray(b, i) == if 2 * |ss| > 1 + |body| + |b| - end then Bad else Ok(Blobs(k, ss), end)
  {
    hide ReadArray, ReadSized, ReadChunks, EncArrayHeader, EncChunks, TotalLen, BlobKindOf, NumKindOf;
    var body := EncChunks(ss, 0, w);
    var j := ReadArrayHeaderAt(b, i, |body|, |ss|, code, body);
    ReadChunksAt(ss, 0, w, b, j + 1);
    assert ss[0..] == ss;
    BlobCode(k, w);
    ArrayOfBlobs(k, b, i, |ss|, j);
  }

  lemma ArrayOfBlobs(k: BlobKind, b: seq<Byte>, i: nat, n: nat, j: nat)
    requires ReadSized(b, i, ARRAY8, ARRAY32) == Ok(n, j) && j < |b|
    requires b[j] == Code8(k) || b[j] == Code32(k)
    ensures ReadArray(b, i) == ReadBlobs(k, n, b, j)
  {
    hide ReadSized, ReadBlobs, ReadNumbers;
  }

  /** An array of octet strings is restored exactly when it is faithful; otherwise the decoder
      reports an error. */
  lemma BlobsRoundTrip(k: BlobKind, ss: seq<seq<Byte>>, b: seq<Byte>, i: nat)
    requires At(b, i, EncBlobs(k, ss)) && |EncBlobs(k, ss)| < TWO32
    ensures ReadArray(b, i) ==
      if FaithfulBlobs(ss, |b| - (i + |EncBlobs(k, ss)|)) then Ok(Blobs(k, ss), i + |EncBlobs(k, ss)|) else Bad
  {
    var w, code, body := EncBlobsShape(k, ss);
    assert |body| <= |EncBlobs(k, ss)|;
    BlobElemsFit(ss);
    var following := |b| - (i + |EncBlobs(k, ss)|);
    assert FaithfulBlobs(ss, following) <==> 2 * |ss| <= 1 + |body| + following;
    hide ReadArray, EncBlobs, EncArrayHeader, EncChunks, FaithfulBlobs, BlobWidth;
    ReadBlobsAt(k, ss, w, code, b, i);
  }

  lemma BlobCode(k: BlobKind, w: nat)
    ensures var code := if w == 1 then Code8(k) else Code32(k);
      NumKindOf(code) == None && BlobKindOf(code) == Some(k) && (code == Code8(k) <==> w == 1)
  {
  }

  /** Each length fits in its prefix. */
  lemma BlobElemsFit(ss: seq<seq<Byte>>)
    requires TotalLen(ss, 0) < TWO32
    ensures forall m :: 0 <= m < |ss| ==> |ss[m]| < Pow256(BlobWidth(ss))
  {
    Pow256Values();
    forall m | 0 <= m < |ss| ensures |ss[m]| < Pow256(BlobWidth(ss)) {
      assert ss[m] in ss;
      TotalLenBounds(ss, 0, m);
    }
  }
}
