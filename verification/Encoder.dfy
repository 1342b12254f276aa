/** `Marshal` on a buffer: writers append, and fill in the sizes of compounds afterwards. */
module Encoder {
  import opened Bytes
  import opened Values
  import opened Encode
  import opened ByteBuffer
  import Arrays

  /** The buffer has only been appended to. */
  predicate Extends(before: seq<Byte>, after: seq<Byte>) {
    |before| <= |after| && after[..|before|] == before
  }

  lemma ExtendsSelf(b: seq<Byte>)
    ensures Extends(b, b)
  {
  }

  lemma ExtendsAppend(before: seq<Byte>, after: seq<Byte>, x: seq<Byte>)
    requires Extends(before, after)
    ensures Extends(before, after + x)
  {
  }

  lemma ExtendsTrans(a: seq<Byte>, b: seq<Byte>, c: seq<Byte>)
    requires Extends(a, b) && Extends(b, c)
    ensures Extends(a, c)
  {
    assert c[..|a|] == c[..|b|][..|a|];
  }

  // Lengths and texts.

  method WriteVar(wr: Buffer, narrow: Byte, wide: Byte, s: seq<Byte>) returns (ok: bool)
    requires wr.Valid()
    modifies wr`b
    ensures wr.Valid() && (ok <==> |s| < TWO32 - 1)
    ensures wr.b == old(wr.b) + if ok then EncVar(narrow, wide, s) else []
  {
    VarIs(narrow, wide, s);
    hide BE, EncVar;
    ghost var before := wr.b;
    if |s| < 256 {
      wr.Append([narrow, |s|]);
      wr.Append(s);
      ThreeParts(before, [narrow, |s|], s, []);
      return true;
    }
    if |s| < TWO32 - 1 {
      wr.Append([wide]);
      wr.AppendUint(|s|, 4);
      wr.Append(s);
      ThreeParts(before, [wide], BE(|s|, 4), s);
      return true;
    }
    return false;
  }

  lemma VarIs(narrow: Byte, wide: Byte, s: seq<Byte>)
    ensures EncVar(narrow, wide, s) == if |s| < 256 then [narrow, |s|] + s + [] else [wide] + BE(|s|, 4) + s
  {
    hide BE;
  }

  predicate IsCompound(v: Value) { v.List? || v.Map? || v.Described? || v.Composite? || v.Numbers? || v.Blobs? }

  method WriteUnsigned(wr: Buffer, v: Value)
    requires wr.Valid() && (v.Ubyte? || v.Ushort? || v.Uint? || v.Ulong?)
    modifies wr`b
    ensures wr.Valid() && wr.b == old(wr.b) + Enc(v)
  {
    hide BE;
    if v.Ubyte? {
      wr.Append([UBYTE, v.ubyte]);
    } else if v.Ushort? {
      wr.Append([USHORT]);
      wr.AppendUint(v.ushort, 2);
    } else if v.Uint? {
      var n := v.uint;
      if n == 0 {
        wr.Append([UINT0]);
      } else if n < 256 {
        wr.Append([SMALL_UINT, n]);
      } else {
        wr.Append([UINT]);
        wr.AppendUint(n, 4);
      }
    } else {
      var n := v.ulong;
      if n == 0 {
        wr.Append([ULONG0]);
      } else if n < 256 {
        wr.Append([SMALL_ULONG, n]);
      } else {
        wr.Append([ULONG]);
        wr.AppendUint(n, 8);
      }
    }
  }

  method WriteSigned(wr: Buffer, v: Value)
    requires wr.Valid() && (v.SByte? || v.Short? || v.Int? || v.Long?)
    modifies wr`b
    ensures wr.Valid() && wr.b == old(wr.b) + Enc(v)
  {
    hide BE;
    if v.SByte? {
      wr.Append([BYTE]);
      wr.AppendUint(v.sbyte, 1);
    } else if v.Short? {
      wr.Append([SHORT]);
      wr.AppendUint(v.short, 2);
    } else if v.Int? {
      var n := v.int32;
      if n < 128 && n >= -128 {
        wr.Append([SMALL_INT]);
        wr.AppendUint(n, 1);
      } else {
        wr.Append([INT]);
        wr.AppendUint(n, 4);
      }
    } else {
      var n := v.long;
      if n < 128 && n >= -128 {
        wr.Append([SMALL_LONG]);
        wr.AppendUint(n, 1);
      } else {
        wr.Append([LONG]);
        wr.AppendUint(n, 8);
      }
    }
  }

  method WriteFixed(wr: Buffer, v: Value)
    requires wr.Valid() && (v.Null? || v.Bool? || v.Float? || v.Double? || v.Timestamp? || v.Uuid?)
    modifies wr`b
    ensures wr.Valid() && wr.b == old(wr.b) + Enc(v)
  {
    hide BE;
    if v.Null? {
      wr.Append([NULL]);
    } else if v.Bool? {
      wr.Append([if v.b then TRUE else FALSE]);
    } else if v.Float? {
      wr.Append([FLOAT]);
      wr.AppendUint(v.bits32, 4);
    } else if v.Double? {
      wr.Append([DOUBLE]);
      wr.AppendUint(v.bits64, 8);
    } else if v.Timestamp? {
      wr.Append([TIMESTAMP]);
      wr.AppendUint(v.ms, 8);
    } else {
      wr.Append([UUID]);
      wr.AppendUint(v.id, 16);
    }
  }

  method WriteText(wr: Buffer, v: Value) returns (ok: bool)
    requires wr.Valid() && (v.Binary? || v.Str? || v.Sym?)
    modifies wr`b
    ensures wr.Valid() && ok == Encodable(v)
    ensures wr.b == old(wr.b) + if ok then Enc(v) else []
  {
    if v.Binary? {
      ok := WriteVar(wr, VBIN8, VBIN32, v.bin);
    } else if v.Sym? {
      ok := WriteVar(wr, SYM8, SYM32, v.sym);
    } else {
      if !ValidUtf8(v.str) {
        return false;
      }
      ok := WriteVar(wr, STR8, STR32, v.str);
    }
  }

  // Arrays.

  method WriteArrayHeader(wr: Buffer, size: nat, count: nat, code: Byte)
    requires wr.Valid()
    modifies wr`b
    ensures wr.Valid() && wr.b == old(wr.b) + EncArrayHeader(size, count, code)
  {
    hide BE;
    if size + 2 <= 255 {
      wr.Append([ARRAY8]);
      wr.AppendUint(size + 2, 1);
      wr.AppendUint(count, 1);
      wr.Append([code]);
    } else {
      wr.Append([ARRAY32]);
      wr.AppendUint(size + 5, 4);
      wr.AppendUint(count, 4);
      wr.Append([code]);
    }
  }

  lemma {:induction false} EncElemsSnoc(es: seq<int>, j: nat, k: nat, w: nat)
    requires j <= k < |es|
    ensures EncElems(es[..k + 1], j, w) == EncElems(es[..k], j, w) + BE(es[k], w)
    decreases k - j
  {
    if j < k { EncElemsSnoc(es, j + 1, k, w); }
  }

  /** The first pass over an array of 32- or 64-bit integers. */
  method FitsNarrow(kind: NumKind, es: seq<int>) returns (narrow: bool)
    ensures narrow == UseNarrow(kind, es)
  {
    if !IsAdaptive(kind) {
      return false;
    }
    var max := if IsSigned(kind) then 127 else 255;
    var k := 0;
    while k < |es|
      invariant 0 <= k <= |es|
      invariant forall j :: 0 <= j < k ==> es[j] <= max
    {
      if es[k] > max {
        assert es[k] in es;
        return false;
      }
      k := k + 1;
    }
    return true;
  }

  method WriteElems(wr: Buffer, es: seq<int>, w: nat)
    requires wr.Valid()
    modifies wr`b
    ensures wr.Valid() && wr.b == old(wr.b) + EncElems(es, 0, w)
  {
    hide BE;
    var k := 0;
    while k < |es|
      invariant 0 <= k <= |es| && wr.Valid()
      invariant wr.b == old(wr.b) + EncElems(es[..k], 0, w)
    {
      wr.AppendUint(es[k], w);
      EncElemsSnoc(es, 0, k, w);
      k := k + 1;
    }
    assert es[..k] == es;
  }

  method WriteNumbers(wr: Buffer, kind: NumKind, es: seq<int>)
    requires wr.Valid()
    modifies wr`b
    ensures wr.Valid() && wr.b == old(wr.b) + EncNumbers(kind, es)
  {
    Arrays.UseNarrowKind(kind, es);
    hide EncArrayHeader, EncElems, UseNarrow, WideWidth, WideCode, NarrowCode;
    var narrow := FitsNarrow(kind, es);
    var w := if narrow then 1 else WideWidth(kind);
    var code := if narrow then NarrowCode(kind) else WideCode(kind);
    WriteArrayHeader(wr, |es| * w, |es|, code);
    WriteElems(wr, es, w);
  }

  lemma {:induction false} EncChunksSnoc(ss: seq<seq<Byte>>, j: nat, k: nat, w: nat)
    requires j <= k < |ss|
    ensures EncChunks(ss[..k + 1], j, w) == EncChunks(ss[..k], j, w) + (BE(|ss[k]|, w) + ss[k])
    decreases k - j
  {
    if j < k { EncChunksSnoc(ss, j + 1, k, w); }
  }

  lemma {:induction false} TotalLenSnoc(ss: seq<seq<Byte>>, j: nat, k: nat)
    requires j <= k < |ss|
    ensures TotalLen(ss[..k + 1], j) == TotalLen(ss[..k], j) + |ss[k]|
    decreases k - j
  {
    if j < k { TotalLenSnoc(ss, j + 1, k); }
  }

  /** The first pass over an array of octet strings. */
  method Survey(kind: BlobKind, ss: seq<seq<Byte>>) returns (ok: bool, total: nat, w: nat)
    ensures ok == Encodable(Blobs(kind, ss))
    ensures ok ==> total == TotalLen(ss, 0) && w == BlobWidth(ss)
  {
    ok, total, w := true, 0, 1;
    var k := 0;
    while k < |ss|
      invariant 0 <= k <= |ss|
      invariant kind.ArrString? ==> forall s :: s in ss[..k] ==> ValidUtf8(s)
      invariant total == TotalLen(ss[..k], 0) && w == BlobWidth(ss[..k])
    {
      assert ss[..k + 1] == ss[..k] + [ss[k]];
      TotalLenSnoc(ss, 0, k);
      if kind.ArrString? && !ValidUtf8(ss[k]) {
        assert ss[k] in ss;
        return false, 0, 1;
      }
      total := total + |ss[k]|;
      if |ss[k]| > 255 {
        w := 4;
        assert ss[k] in ss[..k + 1];
      }
      k := k + 1;
    }
    assert ss[..k] == ss;
  }

  method WriteBlobs(wr: Buffer, kind: BlobKind, ss: seq<seq<Byte>>) returns (ok: bool)
    requires wr.Valid()
    modifies wr`b
    ensures wr.Valid() && ok == Encodable(Blobs(kind, ss))
    ensures wr.b == old(wr.b) + if ok then EncBlobs(kind, ss) else []
  {
    hide EncArrayHeader, EncChunks, TotalLen, BlobWidth, Encodable;
    var total, w;
    ok, total, w := Survey(kind, ss);
    if !ok {
      return;
    }
    WriteArrayHeader(wr, total + |ss| * w, |ss|, if w == 1 then Code8(kind) else Code32(kind));
    WriteChunks(wr, ss, w);
  }

  method WriteChunks(wr: Buffer, ss: seq<seq<Byte>>, w: nat)
    requires wr.Valid()
    modifies wr`b
    ensures wr.Valid() && wr.b == old(wr.b) + EncChunks(ss, 0, w)
  {
    hide BE;
    var k := 0;
    while k < |ss|
      invariant 0 <= k <= |ss| && wr.Valid()
      invariant wr.b == old(wr.b) + EncChunks(ss[..k], 0, w)
    {
      wr.AppendUint(|ss[k]|, w);
      wr.Append(ss[k]);
      EncChunksSnoc(ss, 0, k, w);
      k := k + 1;
    }
    assert ss[..k] == ss;
  }

  // Compounds.

  /** A placeholder for the size, filled in after the elements. */
  lemma Patched(before: seq<Byte>, code: Byte, count: nat, body: seq<Byte>)
    ensures var b := before + [code] + [0, 0, 0, 0] + BE(count, 4) + body; var at := |before| + 1;
      b[..at] + BE(4 + |body|, 4) + b[at + 4..] == before + EncCompound(code, count, body)
  {
  }

  lemma {:induction false} EncItemsSnoc(vs: seq<Value>, j: nat, n: nat)
    requires j <= n < |vs|
    ensures EncItems(vs, j, n + 1) == EncItems(vs, j, n) + Enc(vs[n])
    decreases n - j
  {
    hide Enc;
    if j < n { EncItemsSnoc(vs, j + 1, n); }
  }

  /** The first `n` values as a list, for lists and for the fields of composites. */
  method MarshalItems(wr: Buffer, vs: seq<Value>, n: nat) returns (ok: bool)
    requires wr.Valid() && n <= |vs|
    modifies wr`b
    ensures wr.Valid() && (ok <==> forall x :: x in vs[..n] ==> Encodable(x))
    ensures Extends(old(wr.b), wr.b)
    ensures ok ==> wr.b == old(wr.b) + EncCompound(LIST32, n, EncItems(vs, 0, n))
    decreases vs, 0
  {
    hide Enc, Encodable, BE, EncCompound;
    ghost var before := wr.b;
    wr.Append([LIST32]);
    var sizeIdx := wr.Len();
    wr.Append([0, 0, 0, 0]);
    wr.AppendUint(n, 4);
    ghost var head := wr.b;
    var k := 0;
    while k < n
      invariant 0 <= k <= n && wr.Valid()
      invariant forall x :: x in vs[..k] ==> Encodable(x)
      invariant wr.b == head + EncItems(vs, 0, k)
    {
      assert vs[..k + 1] == vs[..k] + [vs[k]];
      ghost var b0 := wr.b;
      ok := Marshal(wr, vs[k]);
      if !ok {
        assert vs[k] in vs[..n];
        ExtendsTrans(before, b0, wr.b);
        return;
      }
      EncItemsSnoc(vs, 0, k);
      k := k + 1;
    }
    FillList(wr, sizeIdx, n, before, EncItems(vs, 0, n));
    return true;
  }

  /** The size is written over its placeholder. */
  method FillList(wr: Buffer, sizeIdx: nat, ghost n: nat, ghost before: seq<Byte>, ghost body: seq<Byte>)
    requires wr.Valid() && |before| + 1 == wr.i + sizeIdx
    requires wr.b == before + [LIST32] + [0, 0, 0, 0] + BE(n, 4) + body
    modifies wr`b
    ensures wr.Valid() && wr.b == before + EncCompound(LIST32, n, body) && Extends(before, wr.b)
  {
    hide BE, EncCompound;
    Patched(before, LIST32, n, body);
    wr.PutUint32(sizeIdx, wr.Len() - (sizeIdx + 4));
  }

  lemma {:induction false} EncEntriesSnoc(es: seq<Entry>, j: nat, k: nat)
    requires j <= k < |es|
    ensures EncEntries(es[..k + 1], j) == EncEntries(es[..k], j) + EncEntry(es[k])
    decreases k - j
  {
    hide EncEntry;
    if j < k { EncEntriesSnoc(es, j + 1, k); }
  }

  predicate EntryEncodable(e: Entry) { Encodable(e.key) && Encodable(e.val) }

  method MarshalEntries(wr: Buffer, es: seq<Entry>) returns (ok: bool)
    requires wr.Valid()
    modifies wr`b
    ensures wr.Valid() && (ok <==> forall e :: e in es ==> EntryEncodable(e))
    ensures Extends(old(wr.b), wr.b)
    ensures ok ==> wr.b == old(wr.b) + EncEntries(es, 0)
    decreases es, 0
  {
    hide EncEntry, EntryEncodable, EncEntries;
    EncEntriesNone(es);
    var k := 0;
    while k < |es|
      invariant 0 <= k <= |es| && wr.Valid()
      invariant forall e :: e in es[..k] ==> EntryEncodable(e)
      invariant wr.b == old(wr.b) + EncEntries(es[..k], 0)
    {
      assert es[..k + 1] == es[..k] + [es[k]];
      ghost var b0 := wr.b;
      ok := MarshalEntry(wr, es[k]);
      if !ok {
        assert es[k] in es;
        ExtendsTrans(old(wr.b), b0, wr.b);
        return;
      }
      EncEntriesSnoc(es, 0, k);
      k := k + 1;
    }
    assert es[..k] == es;
    return true;
  }

  lemma EncEntriesNone(es: seq<Entry>)
    ensures EncEntries(es[..0], 0) == []
  {
  }

  lemma MapIs(es: seq<Entry>)
    ensures Enc(Map(es)) == EncCompound(MAP32, 2 * |es|, EncEntries(es, 0))
    ensures Encodable(Map(es)) <==> 2 * |es| <= TWO32 - 5 && forall e :: e in es ==> EntryEncodable(e)
  {
    MapEncodable(es);
    hide Encodable, EncCompound, EncEntries;
  }

  lemma MapEncodable(es: seq<Entry>)
    ensures Encodable(Map(es)) <==> 2 * |es| <= TWO32 - 5 && forall e :: e in es ==> EntryEncodable(e)
  {
  }

  /** Both placeholders of a map are filled in. */
  lemma PatchedTwice(before: seq<Byte>, code: Byte, count: nat, body: seq<Byte>)
    ensures var b := before + [code, 0, 0, 0, 0, 0, 0, 0, 0] + body; var at := |before| + 1;
      var b1 := b[..at] + BE(4 + |body|, 4) + b[at + 4..];
      b1[..at + 4] + BE(count, 4) + b1[at + 8..] == before + EncCompound(code, count, body)
  {
    hide BE;
    var b := before + [code, 0, 0, 0, 0, 0, 0, 0, 0] + body;
    var at := |before| + 1;
    var b1 := b[..at] + BE(4 + |body|, 4) + b[at + 4..];
    assert b1[at + 8..] == body;
    assert b1[..at + 4] == before + [code] + BE(4 + |body|, 4);
  }

  method MarshalMap(wr: Buffer, es: seq<Entry>) returns (ok: bool)
    requires wr.Valid()
    modifies wr`b
    ensures wr.Valid() && ok == Encodable(Map(es))
    ensures Extends(old(wr.b), wr.b)
    ensures ok ==> wr.b == old(wr.b) + Enc(Map(es))
    decreases es, 1
  {
    MapIs(es);
    hide Enc, Encodable, EncEntries, EncCompound, BE;
    ghost var before := wr.b;
    var startIdx := wr.Len();
    wr.Append([MAP32, 0, 0, 0, 0, 0, 0, 0, 0]);
    ghost var b0 := wr.b;
    ok := MarshalEntries(wr, es);
    ExtendsTrans(before, b0, wr.b);
    if !ok {
      return;
    }
    var pairs := 2 * |es|;
    if pairs > TWO32 - 5 {
      return false;
    }
    FillMap(wr, startIdx, pairs, before, EncEntries(es, 0));
    return true;
  }

  /** Size and count are written over their placeholders. */
  method FillMap(wr: Buffer, startIdx: nat, pairs: nat, ghost before: seq<Byte>, ghost body: seq<Byte>)
    requires wr.Valid() && |before| == wr.i + startIdx
    requires wr.b == before + [MAP32, 0, 0, 0, 0, 0, 0, 0, 0] + body
    modifies wr`b
    ensures wr.Valid() && wr.b == before + EncCompound(MAP32, pairs, body) && Extends(before, wr.b)
  {
    hide BE, EncCompound;
    PatchedTwice(before, MAP32, pairs, body);
    wr.PutUint32(startIdx + 1, wr.Len() - startIdx - 1 - 4);
    wr.PutUint32(startIdx + 5, pairs);
  }

  method MarshalEntry(wr: Buffer, e: Entry) returns (ok: bool)
    requires wr.Valid()
    modifies wr`b
    ensures wr.Valid() && ok == EntryEncodable(e) && Extends(old(wr.b), wr.b)
    ensures ok ==> wr.b == old(wr.b) + EncEntry(e)
    decreases e, 0
  {
    hide Enc, Encodable;
    ok := Marshal(wr, e.key);
    if !ok {
      return;
    }
    ghost var b0 := wr.b;
    ok := Marshal(wr, e.val);
    ExtendsTrans(old(wr.b), b0, wr.b);
  }

  /** Omitted fields are written as nulls up to the last one that is set, and not at all after it. */
  method MarshalComposite(wr: Buffer, code: Byte, fs: seq<Value>) returns (ok: bool)
    requires wr.Valid()
    modifies wr`b
    ensures wr.Valid() && ok == Encodable(Composite(code, fs))
    ensures Extends(old(wr.b), wr.b)
    ensures ok ==> wr.b == old(wr.b) + Enc(Composite(code, fs))
    decreases fs, 1
  {
    CompositeIs(code, fs);
    hide Enc, Encodable, SetCount, EncItems, EncCompound;
    var last := LastSet(fs);
    if last == 0 {
      wr.Append([0, SMALL_ULONG, code, LIST0]);
      return true;
    }
    ghost var before := wr.b;
    wr.Append([0, SMALL_ULONG, code]);
    ghost var b0 := wr.b;
    ok := MarshalItems(wr, fs, last);
    ExtendsTrans(before, b0, wr.b);
  }

  /** The first pass over the fields: one more than the index of the last one that is set. */
  method LastSet(fs: seq<Value>) returns (last: nat)
    ensures last == SetCount(fs)
  {
    last := 0;
    var k := 0;
    while k < |fs|
      invariant 0 <= k <= |fs| && last <= k
      invariant (last > 0 ==> !fs[last - 1].Null?) && forall j :: last <= j < k ==> fs[j].Null?
    {
      if !fs[k].Null? {
        last := k + 1;
      }
      k := k + 1;
    }
    SetCountIs(fs, last);
  }

  lemma CompositeIs(code: Byte, fs: seq<Value>)
    ensures var n := SetCount(fs);
      Enc(Composite(code, fs)) ==
        if n == 0 then [0, SMALL_ULONG, code, LIST0]
        else [0, SMALL_ULONG, code] + EncCompound(LIST32, n, EncItems(fs, 0, n))
    ensures Encodable(Composite(code, fs)) <==> forall x :: x in fs[..SetCount(fs)] ==> Encodable(x)
  {
    CompositeEncodable(code, fs);
    hide Encodable, SetCount, EncItems, EncCompound;
  }

  lemma CompositeEncodable(code: Byte, fs: seq<Value>)
    ensures Encodable(Composite(code, fs)) <==> forall x :: x in fs[..SetCount(fs)] ==> Encodable(x)
  {
    var n := SetCount(fs);
    assert Encodable(Null);
    assert Encodable(Composite(code, fs)) <==> forall x :: x in fs ==> Encodable(x);
    hide Encodable, SetCount;
    forall x | x in fs && (forall y :: y in fs[..n] ==> Encodable(y)) ensures Encodable(x) {
      var k :| 0 <= k < |fs| && fs[k] == x;
      if k < n { assert x == fs[..n][k]; }
    }
  }

  lemma CompoundIs(v: Value)
    ensures v.List? && v.items == [] ==> Enc(v) == [LIST0]
    ensures v.List? && v.items != [] ==> Enc(v) == EncCompound(LIST32, |v.items|, EncItems(v.items, 0, |v.items|))
    ensures v.List? ==> (Encodable(v) <==> forall x :: x in v.items[..|v.items|] ==> Encodable(x))
    ensures v.Described? ==> Enc(v) == [0] + Enc(v.descriptor) + Enc(v.value)
    ensures v.Described? ==> (Encodable(v) <==> Encodable(v.descriptor) && Encodable(v.value))
    ensures v.Numbers? ==> Enc(v) == EncNumbers(v.num, v.elems) && Encodable(v)
    ensures v.Blobs? ==> Enc(v) == EncBlobs(v.blob, v.blobs)
    ensures !IsCompound(v) && !(v.Binary? || v.Str? || v.Sym?) ==> Encodable(v)
  {
    if v.List? { assert v.items[..|v.items|] == v.items; }
  }

  /** `Marshal` appends exactly the encoding of every value that it accepts; otherwise it reports an
      error and has only appended. */
  method Marshal(wr: Buffer, v: Value) returns (ok: bool)
    requires wr.Valid()
    modifies wr`b
    ensures wr.Valid() && ok == Encodable(v)
    ensures Extends(old(wr.b), wr.b)
    ensures ok ==> wr.b == old(wr.b) + Enc(v)
    decreases v, 0
  {
    CompoundIs(v);
    hide Enc, Encodable, EncNumbers, EncBlobs, EncItems;
    if v.List? {
      if v.items == [] {
        wr.Append([LIST0]);
        return true;
      }
      ok := MarshalItems(wr, v.items, |v.items|);
    } else if v.Map? {
      ok := MarshalMap(wr, v.entries);
    } else if v.Described? {
      ok := MarshalDescribed(wr, v.descriptor, v.value);
    } else if v.Composite? {
      ok := MarshalComposite(wr, v.code, v.fields);
    } else if v.Numbers? {
      WriteNumbers(wr, v.num, v.elems);
      ok := true;
    } else if v.Blobs? {
      ok := WriteBlobs(wr, v.blob, v.blobs);
    } else {
      ok := MarshalScalar(wr, v);
    }
  }

  method MarshalDescribed(wr: Buffer, d: Value, x: Value) returns (ok: bool)
    requires wr.Valid()
    modifies wr`b
    ensures wr.Valid() && ok == (Encodable(d) && Encodable(x))
    ensures Extends(old(wr.b), wr.b)
    ensures ok ==> wr.b == old(wr.b) + ([0] + Enc(d) + Enc(x))
    decreases Described(d, x), -1
  {
    hide Enc, Encodable, Extends;
    ghost var before := wr.b;
    wr.Append([0]);
    ExtendsAppend(before, before, [0]) by { ExtendsSelf(before); }
    ghost var b0 := wr.b;
    ok := Marshal(wr, d);
    ExtendsTrans(before, b0, wr.b);
    if !ok {
      return;
    }
    ghost var b1 := wr.b;
    ok := Marshal(wr, x);
    ExtendsTrans(before, b1, wr.b);
    if ok { ThreeParts(before, [0], Enc(d), Enc(x)); }
  }

  lemma ThreeParts(a: seq<Byte>, x: seq<Byte>, y: seq<Byte>, z: seq<Byte>)
    ensures a + x + y + z == a + (x + y + z)
  {
  }

  method MarshalScalar(wr: Buffer, v: Value) returns (ok: bool)
    requires wr.Valid() && !IsCompound(v)
    modifies wr`b
    ensures wr.Valid() && ok == Encodable(v)
    ensures wr.b == old(wr.b) + if ok then Enc(v) else []
  {
    CompoundIs(v);
    hide Enc, Encodable;
    if v.Binary? || v.Str? || v.Sym? {
      ok := WriteText(wr, v);
      return;
    }
    if v.Ubyte? || v.Ushort? || v.Uint? || v.Ulong? {
      WriteUnsigned(wr, v);
    } else if v.SByte? || v.Short? || v.Int? || v.Long? {
      WriteSigned(wr, v);
    } else {
      WriteFixed(wr, v);
    }
    return true;
  }
}
