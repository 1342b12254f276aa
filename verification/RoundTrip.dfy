/** Decoding inverts encoding, up to the normalisation that the decoder performs. */
module RoundTrip {
  import opened Bytes
  import opened Values
  import opened Encode
  import opened Decode
  import opened Arrays

  // What the decoder gives back.

  /** `ReadAny` returns symbols as strings and composites with all their fields. */
  function Norm(v: Value): Value
    decreases v, 1
  {
    match v
    case Sym(s) => Str(s)
    case List(vs) => List(NormItems(vs, 0))
    case Map(es) => Map(NormMap(KAny, es))
    case Described(d, x) => Described(Norm(d), Norm(x))
    case Composite(code, fs) => if |fs| == |Schema(code)| then Composite(code, NormFields(Schema(code), fs, 0)) else v
    case _ => v
  }

  function NormItems(vs: seq<Value>, j: nat): (r: seq<Value>)
    requires j <= |vs|
    ensures |r| == |vs| - j
    decreases vs, |vs| - j
  {
    if j == |vs| then [] else [Norm(vs[j])] + NormItems(vs, j + 1)
  }

  function NormEntry(keys: Kind, e: Entry): Entry
    decreases e, 1
  {
    Entry(NormKey(keys, e.key), Norm(e.val))
  }

  function NormKey(keys: Kind, k: Value): Value
    decreases k, 2
  {
    if !keys.KSym? then Norm(k) else if k.Str? then Sym(k.str) else k
  }

  function NormEntries(keys: Kind, es: seq<Entry>, j: nat): (r: seq<Entry>)
    requires j <= |es|
    ensures |r| == |es| - j
    decreases es, |es| - j
  {
    if j == |es| then [] else [NormEntry(keys, es[j])] + NormEntries(keys, es, j + 1)
  }

  /** The entries of a map once decoded: those with equal keys are one. */
  function NormMap(keys: Kind, es: seq<Entry>): seq<Entry>
    decreases es, |es| + 1
  {
    PutAll([], NormEntries(keys, es, 0))
  }

  /** What a target of the given type holds after decoding `v`. */
  function NormAs(kind: Kind, v: Value): Value
    decreases v, 2
  {
    match (kind, v)
    case (KSym, Str(s)) => Sym(s)
    case (KSym, _) => v
    case (KMillis, Ubyte(n)) => Ulong(n)
    case (KMillis, Ushort(n)) => Ulong(n)
    case (KMillis, Uint(n)) => Ulong(n)
    case (KSymbols, Sym(s)) => Blobs(ArrSymbol, [s])
    case (KMapSym, Map(es)) => Map(NormMap(KSym, es))
    case _ => Norm(v)
  }

  function NormFields(specs: seq<Spec>, fs: seq<Value>, k: nat): (r: seq<Value>)
    requires |specs| == |fs| && k <= |fs|
    ensures |r| == |fs| - k
    decreases fs, |fs| - k
  {
    if k == |fs| then [] else [NormAs(specs[k].kind, fs[k])] + NormFields(specs, fs, k + 1)
  }

  lemma {:induction false} NormFieldsAt(specs: seq<Spec>, fs: seq<Value>, k: nat, j: nat)
    requires |specs| == |fs| && k <= j < |fs|
    ensures NormFields(specs, fs, k)[j - k] == NormAs(specs[j].kind, fs[j])
    decreases j - k
  {
    hide NormAs;
    if k < j {
      NormFieldsAt(specs, fs, k + 1, j);
    }
  }

  lemma NormFieldsAll(specs: seq<Spec>, fs: seq<Value>)
    requires |specs| == |fs|
    ensures forall j :: 0 <= j < |fs| ==> NormFields(specs, fs, 0)[j] == NormAs(specs[j].kind, fs[j])
  {
    hide NormAs;
    forall j | 0 <= j < |fs| ensures NormFields(specs, fs, 0)[j] == NormAs(specs[j].kind, fs[j]) {
      NormFieldsAt(specs, fs, 0, j);
    }
  }

  // Which values come back.

  predicate HasKind(kind: Kind, v: Value) {
    match kind
    case KAny => !v.Null?
    case KBool => v.Bool?
    case KUbyte => v.Ubyte?
    case KUshort => v.Ushort?
    case KUint => v.Uint?
    case KUlong => v.Ulong?
    case KMillis => v.Uint?
    case KTime => v.Timestamp?
    case KStr => v.Str?
    case KSym => v.Sym?
    case KBin => v.Binary?
    case KMapStr => v.Map? && forall e :: e in v.entries ==> e.key.Str?
    case KMapSym => v.Map? && forall e :: e in v.entries ==> e.key.Sym?
    case KAnnotations => v.Map? && forall e :: e in v.entries ==> e.key.Sym? || e.key.Long?
    case KList => v.List?
    case KState => v.Composite? && IsState(v.code)
    case KError => v.Composite? && v.code == ERROR
    case KSymbols => v.Blobs? && v.blob.ArrSymbol?
  }

  /** Fields agree with a composite's table. */
  predicate FieldsMatch(specs: seq<Spec>, fs: seq<Value>) {
    && |fs| == |specs|
    && forall k :: 0 <= k < |fs| ==> if fs[k].Null? then !specs[k].required else HasKind(specs[k].kind, fs[k])
  }

  /** Values that decoding restores, or refuses for want of room. The exclusions are descriptors reserved for
      composites, map keys that Go cannot hash, composites that do not agree with their table, and arrays of
      numbers that come back as others. */
  predicate Regular(v: Value)
    decreases v
  {
    match v
    case List(vs) => forall x :: x in vs ==> Regular(x)
    case Map(es) => forall e :: e in es ==> Regular(e.key) && Regular(e.val) && Hashable(Norm(e.key))
    case Described(d, x) => Regular(d) && Regular(x) && (d.Ulong? ==> !IsReserved(d.ulong))
    case Composite(code, fs) =>
      && (code == ERROR || IsState(code) || IsLifetime(code))
      && FieldsMatch(Schema(code), fs)
      && forall x :: x in fs ==> Regular(x)
    case Numbers(k, es) => FaithfulNumbers(k, es)
    case _ => true
  }

  /** Every array of strings, symbols or binaries in the value finds two octets for each element when
      `following` octets come after the value. */
  predicate Roomy(v: Value, following: nat)
    decreases v
  {
    match v
    case List(vs) => RoomyItems(vs, 0, |vs|, following)
    case Map(es) => RoomyEntries(es, 0, following)
    case Described(d, x) => Roomy(d, |Enc(x)| + following) && Roomy(x, following)
    case Composite(code, fs) => RoomyItems(fs, 0, SetCount(fs), following)
    case Blobs(_, ss) => FaithfulBlobs(ss, following)
    case _ => true
  }

  predicate RoomyItems(vs: seq<Value>, j: nat, n: nat, following: nat)
    requires j <= n <= |vs|
    decreases vs, n - j
  {
    j == n || (Roomy(vs[j], |EncItems(vs, j + 1, n)| + following) && RoomyItems(vs, j + 1, n, following))
  }

  predicate RoomyEntry(e: Entry, following: nat)
    decreases e
  {
    Roomy(e.key, |Enc(e.val)| + following) && Roomy(e.val, following)
  }

  predicate RoomyEntries(es: seq<Entry>, j: nat, following: nat)
    requires j <= |es|
    decreases es, |es| - j
  {
    j == |es| || (RoomyEntry(es[j], |EncEntries(es, j + 1)| + following) && RoomyEntries(es, j + 1, following))
  }

  /** What is read where there is room for it. */
  function Given<T>(room: bool, v: T, i: nat): Read<T> { if room then Ok(v, i) else Bad }

  // Scalars.

  predicate IsScalar(v: Value) {
    !(v.Null? || v.List? || v.Map? || v.Described? || v.Composite? || v.Numbers? || v.Blobs?)
  }

  predicate IsVar(v: Value) { v.Binary? || v.Str? || v.Sym? }

  lemma ScalarVar(v: Value, b: seq<Byte>, i: nat)
    requires IsVar(v) && At(b, i, Enc(v)) && |Enc(v)| < TWO32
    ensures i < |b| && ReadScalar(b, i) == Ok(if v.Sym? then Str(v.sym) else v, i + |Enc(v)|)
    ensures v.Str? ==> ReadString(b, i) == Ok(v.str, i + |Enc(v)|)
    ensures v.Sym? ==> ReadString(b, i) == Ok(v.sym, i + |Enc(v)|)
    ensures v.Binary? ==> ReadBinary(b, i) == Ok(v.bin, i + |Enc(v)|)
  {
    hide ReadVar;
    FirstByte(v, b, i);
    if v.Binary? {
      ReadVarAt(b, i, VBIN8, VBIN32, v.bin, {VBIN8}, {VBIN32});
    } else if v.Str? {
      ReadVarAt(b, i, STR8, STR32, v.str, {STR8, SYM8}, {STR32, SYM32});
    } else {
      ReadVarAt(b, i, SYM8, SYM32, v.sym, {STR8, SYM8}, {STR32, SYM32});
    }
  }

  lemma FirstByte(v: Value, b: seq<Byte>, i: nat)
    requires At(b, i, Enc(v))
    ensures i < |b| && b[i] == Enc(v)[0]
  {
    assert b[i..i + |Enc(v)|][0] == b[i];
  }

  /** A scalar whose encoding is a constructor and `k` octets. */
  lemma FixedAt(b: seq<Byte>, i: nat, code: Byte, n: int, k: nat)
    requires At(b, i, [code] + BE(n, k))
    ensures i < |b| && b[i] == code && At(b, i + 1, BE(n, k))
    ensures 0 <= n < Pow256(k) ==> ReadNum(b, i + 1, k) == Ok(n, i + 1 + k)
    ensures 0 <= 2 * n + Pow256(k) && 2 * n < Pow256(k) ==> ReadSigned(b, i + 1, k) == Ok(n, i + 1 + k)
  {
    AtByte(b, i, code, BE(n, k));
    ReadNumAt(b, i + 1, n, k);
  }

  lemma PairAt(b: seq<Byte>, i: nat, code: Byte, n: Byte)
    requires At(b, i, [code, n])
    ensures i + 1 < |b| && b[i] == code && b[i + 1] == n
  {
    assert [code, n] == [code] + [n];
    AtByte(b, i, code, [n]);
    assert [n] == [n] + [];
    AtByte(b, i + 1, n, []);
  }

  lemma ScalarUnsigned(v: Value, b: seq<Byte>, i: nat)
    requires v.Ubyte? || v.Ushort? || v.Uint? || v.Ulong?
    requires At(b, i, Enc(v))
    ensures i < |b| && ReadScalar(b, i) == Ok(v, i + |Enc(v)|)
    ensures v.Ubyte? ==> ReadUbyte(b, i) == Ok(v.ubyte, i + |Enc(v)|)
    ensures v.Ushort? ==> ReadUshort(b, i) == Ok(v.ushort, i + |Enc(v)|)
    ensures v.Uint? ==> ReadUint(b, i) == Ok(v.uint, i + |Enc(v)|) && ReadAnyUint(b, i) == Ok(v.uint, i + |Enc(v)|)
    ensures v.Ulong? ==> ReadUlong(b, i) == Ok(v.ulong, i + |Enc(v)|)
  {
    hide Num, BE, Pow256, ReadSignedScalar, ReadText, ReadOther, Signed;
    Pow256Values();
    FirstByte(v, b, i);
    if v.Ubyte? {
      PairAt(b, i, UBYTE, v.ubyte);
    } else if v.Ushort? {
      FixedAt(b, i, USHORT, v.ushort, 2);
    } else if v.Uint? {
      if v.uint >= 256 { FixedAt(b, i, UINT, v.uint, 4); } else if v.uint > 0 { PairAt(b, i, SMALL_UINT, v.uint); }
    } else {
      if v.ulong >= 256 {
        FixedAt(b, i, ULONG, v.ulong, 8);
      } else if v.ulong > 0 {
        PairAt(b, i, SMALL_ULONG, v.ulong);
      }
    }
  }

  lemma SignedCode(b: seq<Byte>, i: nat, code: Byte, n: int, k: nat)
    requires At(b, i, [code] + BE(n, k))
    requires code in {BYTE, SHORT, SMALL_INT, INT, SMALL_LONG, LONG}
    requires k == if code == SHORT then 2 else if code == INT then 4 else if code == LONG then 8 else 1
    requires 0 <= 2 * n + Pow256(k) && 2 * n < Pow256(k)
    ensures i < |b| && b[i] == code && ReadScalar(b, i) == ReadSignedScalar(b, i)
    ensures ReadSigned(b, i + 1, k) == Ok(n, i + 1 + k)
  {
    FixedAt(b, i, code, n, k);
  }

  lemma ScalarSigned(v: Value, b: seq<Byte>, i: nat)
    requires v.SByte? || v.Short? || v.Int? || v.Long?
    requires At(b, i, Enc(v))
    ensures i < |b| && ReadScalar(b, i) == Ok(v, i + |Enc(v)|)
  {
    hide Num, BE, Pow256, ReadUnsignedScalar, ReadText, ReadOther, Signed;
    Pow256Values();
    if v.SByte? {
      SignedCode(b, i, BYTE, v.sbyte, 1);
    } else if v.Short? {
      SignedCode(b, i, SHORT, v.short, 2);
    } else if v.Int? {
      if -128 <= v.int32 < 128 { SignedCode(b, i, SMALL_INT, v.int32, 1); } else { SignedCode(b, i, INT, v.int32, 4); }
    } else {
      if -128 <= v.long < 128 { SignedCode(b, i, SMALL_LONG, v.long, 1); } else { SignedCode(b, i, LONG, v.long, 8); }
    }
  }

  lemma ScalarOther(v: Value, b: seq<Byte>, i: nat)
    requires v.Bool? || v.Float? || v.Double? || v.Uuid? || v.Timestamp?
    requires At(b, i, Enc(v))
    ensures i < |b| && ReadScalar(b, i) == Ok(v, i + |Enc(v)|)
    ensures v.Bool? ==> ReadBool(b, i) == Ok(v.b, i + |Enc(v)|)
    ensures v.Timestamp? ==> ReadTimestamp(b, i) == Ok(v.ms, i + |Enc(v)|)
  {
    hide Num, BE, Pow256, ReadUnsignedScalar, ReadSignedScalar, ReadText, Signed;
    Pow256Values();
    FirstByte(v, b, i);
    if v.Float? {
      FixedAt(b, i, FLOAT, v.bits32, 4);
    } else if v.Double? {
      FixedAt(b, i, DOUBLE, v.bits64, 8);
    } else if v.Timestamp? {
      FixedAt(b, i, TIMESTAMP, v.ms, 8);
    } else if v.Uuid? {
      FixedAt(b, i, UUID, v.id, 16);
    }
  }

  lemma ScalarFirst(v: Value)
    requires IsScalar(v)
    ensures Enc(v)[0] !in {0, NULL, ARRAY8, ARRAY32, LIST0, LIST8, LIST32, MAP8, MAP32}
  {
  }

  lemma ScalarAny(v: Value, b: seq<Byte>, i: nat)
    requires IsScalar(v) && At(b, i, Enc(v)) && |Enc(v)| < TWO32
    ensures ReadAny(b, i) == Ok(Norm(v), i + |Enc(v)|)
  {
    FirstByte(v, b, i);
    ScalarFirst(v);
    if IsVar(v) { ScalarVar(v, b, i); }
    else if v.Ubyte? || v.Ushort? || v.Uint? || v.Ulong? { ScalarUnsigned(v, b, i); }
    else if v.SByte? || v.Short? || v.Int? || v.Long? { ScalarSigned(v, b, i); }
    else { ScalarOther(v, b, i); }
  }

  // One step of each recursive reader.

  lemma ItemsStep(b: seq<Byte>, i: nat, n: nat, first: bool, v: Value, j: nat, rest: bool, vs: seq<Value>, k: nat)
    requires n > 0 && i <= |b| && ReadAny(b, i) == Given(first, v, j)
    requires j <= |b| && ReadItems(b, j, n - 1) == Given(rest, vs, k)
    ensures ReadItems(b, i, n) == Given(first && rest, [v] + vs, k)
  {
  }

  lemma EmptyItems(b: seq<Byte>, i: nat)
    requires i <= |b|
    ensures ReadItems(b, i, 0) == Ok([], i)
  {
  }

  lemma ListStep(b: seq<Byte>, i: nat, n: U32, j: nat, room: bool, vs: seq<Value>, k: nat)
    requires ReadListHeader(b, i) == Ok(n, j) && n <= |b| - j && ReadItems(b, j, n) == Given(room, vs, k)
    ensures ReadList(b, i) == Given(room, List(vs), k)
  {
    hide ReadListHeader, ReadItems;
  }

  lemma DescribedStep(b: seq<Byte>, i: nat, first: bool, d: Value, j: nat, second: bool, x: Value, k: nat)
    requires i < |b| && b[i] == 0 && PeekDescriptor(b, i).Some? && !IsReserved(PeekDescriptor(b, i).value)
    requires ReadAny(b, i + 1) == Given(first, d, j) && j <= |b| && ReadAny(b, j) == Given(second, x, k)
    ensures ReadComposite(b, i) == Given(first && second, Described(d, x), k)
  {
    hide ReadAny, PeekDescriptor;
  }

  lemma EntriesStep(keys: Kind, b: seq<Byte>, i: nat, n: nat, m: seq<Entry>, first: bool, key: Value, j: nat,
      second: bool, val: Value, k: nat)
    requires n > 0 && i <= |b| && ReadKey(keys, b, i) == Given(first, key, j)
    requires j <= |b| && ReadAny(b, j) == Given(second, val, k) && k <= |b| && Hashable(key)
    ensures ReadEntries(keys, b, i, n, m) ==
      if first && second then ReadEntries(keys, b, k, n - 1, Put(m, key, val)) else Bad
  {
    hide ReadKey, ReadAny, Put;
  }

  lemma MapStep(keys: Kind, b: seq<Byte>, i: nat, count: U32, j: nat, room: bool, m: seq<Entry>, k: nat)
    requires ReadMapHeader(b, i) == Ok(count, j)
    requires ReadEntries(keys, b, j, (count + 1) / 2, []) == Given(room, m, k)
    ensures ReadMap(keys, b, i) == Given(room, Map(m), k)
  {
    hide ReadMapHeader, ReadEntries;
  }

  lemma FieldsStep(specs: seq<Spec>, k: nat, n: nat, b: seq<Byte>, i: nat, first: bool, f: Value, j: nat,
      rest: bool, fs: seq<Value>, l: nat)
    requires k < |specs| && n <= |specs| && i <= |b|
    requires (if k < n then Unmarshal(specs[k].kind, b, i) else Ok(Null, i)) == Given(first, f, j)
    requires f.Null? ==> !specs[k].required
    requires j <= |b| && ReadFields(specs, k + 1, n, b, j) == Given(rest, fs, l)
    ensures ReadFields(specs, k, n, b, i) == Given(first && rest, [f] + fs, l)
  {
    hide Unmarshal;
  }

  lemma UnmarshalStep(kind: Kind, b: seq<Byte>, i: nat)
    requires i < |b| && b[i] != NULL
    ensures kind.KMapStr? ==> Unmarshal(kind, b, i) == ReadMap(KStr, b, i)
    ensures kind.KMapSym? ==> Unmarshal(kind, b, i) == ReadMap(KSym, b, i)
    ensures kind.KAnnotations? ==> Unmarshal(kind, b, i) == ReadMap(KAnnotations, b, i)
    ensures kind.KList? ==> Unmarshal(kind, b, i) == ReadList(b, i)
    ensures kind.KSymbols? ==> Unmarshal(kind, b, i) == ReadSymbols(b, i)
    ensures kind.KAny? ==> Unmarshal(kind, b, i) == ReadAny(b, i)
  {
  }

  lemma UnmarshalComposite(kind: Kind, code: Byte, room: bool, fs: seq<Value>, b: seq<Byte>, i: nat, j: nat)
    requires i < |b| && b[i] == 0 && PeekDescriptor(b, i) == Some(code)
    requires ReadFieldsOf(code, Schema(code), b, i) == Given(room, fs, j)
    ensures kind.KError? && code == ERROR ==> Unmarshal(kind, b, i) == Given(room, Composite(code, fs), j)
    ensures kind.KState? && IsState(code) ==> Unmarshal(kind, b, i) == Given(room, Composite(code, fs), j)
  {
  }

  // Compound values.

  lemma {:induction false} ItemsLen(vs: seq<Value>, j: nat, n: nat)
    requires j <= n <= |vs|
    ensures n - j <= |EncItems(vs, j, n)|
    decreases n - j
  {
    if j < n {
      ItemsLen(vs, j + 1, n);
    }
  }

  lemma {:induction false} EntriesLen(es: seq<Entry>, j: nat)
    requires j <= |es|
    ensures 2 * (|es| - j) <= |EncEntries(es, j)|
    decreases |es| - j
  {
    if j < |es| {
      EntriesLen(es, j + 1);
    }
  }

  /** A list header is read back and the cursor is at the first item. */
  lemma ListHeaderAt(vs: seq<Value>, n: nat, b: seq<Byte>, i: nat)
    requires 0 < n <= |vs|
    requires At(b, i, EncCompound(LIST32, n, EncItems(vs, 0, n)))
    requires |EncCompound(LIST32, n, EncItems(vs, 0, n))| < TWO32
    ensures i < |b| && b[i] == LIST32
    ensures ReadListHeader(b, i) == Ok(n, i + 9)
    ensures At(b, i + 9, EncItems(vs, 0, n)) && n <= |b| - (i + 9)
  {
    ItemsLen(vs, 0, n);
    ReadSizedAt(b, i, LIST8, LIST32, n, EncItems(vs, 0, n));
  }

  lemma MapHeaderAt(es: seq<Entry>, b: seq<Byte>, i: nat)
    requires At(b, i, Enc(Map(es))) && |Enc(Map(es))| < TWO32
    ensures i < |b| && b[i] == MAP32
    ensures ReadMapHeader(b, i) == Ok(2 * |es|, i + 9)
    ensures At(b, i + 9, EncEntries(es, 0))
  {
    EntriesLen(es, 0);
    ReadSizedAt(b, i, MAP8, MAP32, 2 * |es|, EncEntries(es, 0));
  }

  /** The constructor octet of a value selects its reader. */
  lemma AnyDispatch(v: Value, b: seq<Byte>, i: nat)
    requires !IsScalar(v) && i < |b| && b[i] == Enc(v)[0]
    ensures v.Null? ==> ReadAny(b, i) == Ok(Null, i + 1)
    ensures v.List? ==> ReadAny(b, i) == ReadList(b, i)
    ensures v.Map? ==> ReadAny(b, i) == ReadMap(KAny, b, i)
    ensures v.Numbers? || v.Blobs? ==> ReadAny(b, i) == ReadArray(b, i)
    ensures v.Described? || v.Composite? ==> b[i] == 0 && ReadAny(b, i) == ReadComposite(b, i)
  {
    hide ReadList, ReadMap, ReadArray, ReadComposite, ReadScalar;
  }

  /** Decoding restores a regular value and leaves the cursor right after it, if and only if all its arrays of
      strings have room where they are; otherwise it is an error. */
  lemma {:induction false} AnyRoundTrip(v: Value, b: seq<Byte>, i: nat)
    requires Regular(v) && At(b, i, Enc(v)) && |Enc(v)| < TWO32
    ensures ReadAny(b, i) == Given(Roomy(v, |b| - (i + |Enc(v)|)), Norm(v), i + |Enc(v)|)
    decreases v, 1
  {
    hide *;
    AtEnd(b, i, Enc(v));
    FirstByte(v, b, i);
    ValueCases(v, |b| - (i + |Enc(v)|));
    GivenIs(Roomy(v, |b| - (i + |Enc(v)|)), Norm(v), i + |Enc(v)|);
    if !IsScalar(v) { AnyDispatch(v, b, i); }
    if IsScalar(v) {
      ScalarAny(v, b, i);
    } else if v.List? {
      ListRoundTrip(v.items, b, i);
    } else if v.Map? {
      MapRoundTrip(KAny, v.entries, b, i);
    } else if v.Numbers? {
      NumbersRoundTrip(v.num, v.elems, b, i);
    } else if v.Blobs? {
      BlobsRoundTrip(v.blob, v.blobs, b, i);
    } else if v.Described? {
      DescribedRoundTrip(v.descriptor, v.value, b, i);
    } else if v.Composite? {
      CompositeRoundTrip(v.code, v.fields, b, i);
    }
  }

  lemma GivenIs<T>(room: bool, v: T, i: nat)
    ensures Given(room, v, i) == if room then Ok(v, i) else Bad
  {
  }

  lemma AtEnd(b: seq<Byte>, i: nat, x: seq<Byte>)
    requires At(b, i, x)
    ensures i + |x| <= |b|
  {
  }

  /** What encoding, normalisation and room come to for each kind of value. */
  lemma ValueCases(v: Value, following: nat)
    ensures IsScalar(v) || v.Null? || v.List? || v.Map? || v.Numbers? || v.Blobs? || v.Described? || v.Composite?
    ensures IsScalar(v) || v.Null? || v.Numbers? ==> Roomy(v, following)
    ensures v.Null? ==> Norm(v) == v && |Enc(v)| == 1
    ensures v.Map? ==> Norm(v) == Map(NormMap(KAny, v.entries)) && KeysMatch(KAny, v.entries)
    ensures v.Map? ==> (Roomy(v, following) <==> RoomyEntries(v.entries, 0, following))
    ensures v.Numbers? ==> Norm(v) == v && Enc(v) == EncNumbers(v.num, v.elems)
    ensures v.Numbers? && Regular(v) ==>
      FaithfulNumbers(v.num, v.elems) && forall e :: e in v.elems ==> InRange(v.num, e)
    ensures v.Blobs? ==> Norm(v) == v && Enc(v) == EncBlobs(v.blob, v.blobs)
    ensures v.Blobs? ==> (Roomy(v, following) <==> FaithfulBlobs(v.blobs, following))
  {
    hide RoomyItems, RoomyEntries, FaithfulBlobs, EncItems, EncEntries, EncNumbers, EncBlobs, BE, InRange,
      NormItems, NormMap, NormFields;
  }

  lemma {:induction false} ListRoundTrip(vs: seq<Value>, b: seq<Byte>, i: nat)
    requires Regular(List(vs)) && At(b, i, Enc(List(vs))) && |Enc(List(vs))| < TWO32
    ensures ReadList(b, i) ==
      Given(Roomy(List(vs), |b| - (i + |Enc(List(vs))|)), Norm(List(vs)), i + |Enc(List(vs))|)
    decreases vs, |vs| + 1
  {
    hide ReadList, ReadItems, ReadListHeader, EncItems, NormItems, RoomyItems;
    FirstByte(List(vs), b, i);
    var end := i + |Enc(List(vs))|;
    var room := RoomyItems(vs, 0, |vs|, |b| - end);
    if vs == [] {
      EmptyListAt(b, i);
      ListStep(b, i, 0, i + 1, true, [], i + 1) by { EmptyItems(b, i + 1); }
      assert NormItems(vs, 0) == [];
      NoItems(vs, 0, |b| - end);
    } else {
      ListHeaderAt(vs, |vs|, b, i);
      ItemsRoundTrip(vs, 0, b, i + 9);
      ListStep(b, i, |vs|, i + 9, room, NormItems(vs, 0), end);
    }
  }

  lemma NoItems(vs: seq<Value>, n: nat, following: nat)
    requires n <= |vs|
    ensures RoomyItems(vs, n, n, following)
  {
  }

  lemma {:induction false} ItemsRoundTrip(vs: seq<Value>, j: nat, b: seq<Byte>, i: nat)
    requires j <= |vs| && forall x :: x in vs ==> Regular(x)
    requires At(b, i, EncItems(vs, j, |vs|)) && |EncItems(vs, j, |vs|)| < TWO32
    ensures var end := i + |EncItems(vs, j, |vs|)|;
      ReadItems(b, i, |vs| - j) == Given(RoomyItems(vs, j, |vs|, |b| - end), NormItems(vs, j), end)
    decreases vs, |vs| - j
  {
    hide Enc, Norm, Regular, ReadAny, Roomy;
    if j < |vs| {
      AtSplit(b, i, Enc(vs[j]), EncItems(vs, j + 1, |vs|));
      var k, end := i + |Enc(vs[j])|, i + |EncItems(vs, j, |vs|)|;
      AnyRoundTrip(vs[j], b, i);
      ItemsRoundTrip(vs, j + 1, b, k);
      ItemsStep(b, i, |vs| - j, Roomy(vs[j], |b| - k), Norm(vs[j]), k, RoomyItems(vs, j + 1, |vs|, |b| - end),
        NormItems(vs, j + 1), end);
    }
  }

  /** The key type agrees with the keys. */
  predicate KeysMatch(keys: Kind, es: seq<Entry>) {
    match keys
    case KStr => forall e :: e in es ==> e.key.Str?
    case KSym => forall e :: e in es ==> e.key.Sym?
    case _ => keys.KAny? || keys.KAnnotations?
  }

  lemma {:induction false} MapRoundTrip(keys: Kind, es: seq<Entry>, b: seq<Byte>, i: nat)
    requires Regular(Map(es)) && KeysMatch(keys, es) && At(b, i, Enc(Map(es))) && |Enc(Map(es))| < TWO32
    ensures var end := i + |Enc(Map(es))|;
      ReadMap(keys, b, i) == Given(RoomyEntries(es, 0, |b| - end), Map(NormMap(keys, es)), end)
    decreases es, |es| + 1
  {
    MapParts(es);
    hide Enc, Regular, Norm, NormKey, ReadMap, ReadEntries, EncEntries, NormEntries, PutAll, KeysMatch, Hashable,
      RoomyEntries;
    MapHeaderAt(es, b, i);
    EntriesRoundTrip(keys, es, 0, b, i + 9, []);
    var end := i + |Enc(Map(es))|;
    MapStep(keys, b, i, 2 * |es|, i + 9, RoomyEntries(es, 0, |b| - end), NormMap(keys, es), end);
  }

  lemma MapParts(es: seq<Entry>)
    ensures |Enc(Map(es))| == 9 + |EncEntries(es, 0)|
    ensures Regular(Map(es)) ==> forall e :: e in es ==> Regular(e.key) && Regular(e.val) && Hashable(Norm(e.key))
  {
    hide EncEntries;
  }

  lemma {:induction false} EntriesRoundTrip(keys: Kind, es: seq<Entry>, j: nat, b: seq<Byte>, i: nat, m: seq<Entry>)
    requires j <= |es| && KeysMatch(keys, es)
    requires forall e :: e in es ==> Regular(e.key) && Regular(e.val) && Hashable(Norm(e.key))
    requires At(b, i, EncEntries(es, j)) && |EncEntries(es, j)| < TWO32
    ensures var end := i + |EncEntries(es, j)|;
      ReadEntries(keys, b, i, |es| - j, m) ==
        Given(RoomyEntries(es, j, |b| - end), PutAll(m, NormEntries(keys, es, j)), end)
    decreases es, |es| - j
  {
    hide Enc, EncEntry, Norm, Regular, ReadAny, ReadKey, Hashable, Put, ReadEntries, Roomy;
    if j == |es| {
      EntriesEnd(keys, b, i, m);
    } else {
      var e := es[j];
      AtSplit(b, i, EncEntry(e), EncEntries(es, j + 1));
      var l, k := i + |Enc(e.key)|, i + |EncEntry(e)|;
      EntryRoundTrip(keys, e, b, i);
      var m' := Put(m, NormKey(keys, e.key), Norm(e.val));
      KeyHashable(keys, es, e);
      EntriesStep(keys, b, i, |es| - j, m, Roomy(e.key, |b| - l), NormKey(keys, e.key), l, Roomy(e.val, |b| - k),
        Norm(e.val), k);
      EntriesRoundTrip(keys, es, j + 1, b, k, m');
      var ws := NormEntries(keys, es, j);
      assert ws[0] == NormEntry(keys, e) && ws[1..] == NormEntries(keys, es, j + 1);
    }
  }

  lemma KeyHashable(keys: Kind, es: seq<Entry>, e: Entry)
    requires KeysMatch(keys, es) && e in es && Hashable(Norm(e.key))
    ensures Hashable(NormKey(keys, e.key))
  {
  }

  lemma EntriesEnd(keys: Kind, b: seq<Byte>, i: nat, m: seq<Entry>)
    requires i <= |b|
    ensures ReadEntries(keys, b, i, 0, m) == Ok(m, i)
  {
  }

  /** The keys are different once decoded. */
  predicate DistinctKeys(keys: Kind, es: seq<Entry>) {
    forall j, k :: 0 <= j < k < |es| ==> !SameKey(NormKey(keys, es[j].key), NormKey(keys, es[k].key))
  }

  /** A map comes back entry for entry if and only if its keys are still different once decoded. */
  lemma MapKeptIff(keys: Kind, es: seq<Entry>)
    ensures NormMap(keys, es) == NormEntries(keys, es, 0) <==> DistinctKeys(keys, es)
  {
    hide NormEntries, DistinctKeys, Distinct, AllNew, PutAll;
    var ws := NormEntries(keys, es, 0);
    PutAllKeeps([], ws);
    assert [] + ws == ws;
    NoneHasKey(ws);
    DistinctOf(keys, es, ws);
  }

  lemma DistinctOf(keys: Kind, es: seq<Entry>, ws: seq<Entry>)
    requires ws == NormEntries(keys, es, 0)
    ensures Distinct(ws) <==> DistinctKeys(keys, es)
  {
    hide NormEntries, NormKey, SameKey;
    KeysOf(keys, es, ws);
    if Distinct(ws) {
      forall j, k | 0 <= j < k < |es| ensures !SameKey(NormKey(keys, es[j].key), NormKey(keys, es[k].key)) {
        assert !SameKey(ws[j].key, ws[k].key);
      }
    }
    if DistinctKeys(keys, es) {
      forall j, k | 0 <= j < k < |ws| ensures !SameKey(ws[j].key, ws[k].key) {
        assert !SameKey(NormKey(keys, es[j].key), NormKey(keys, es[k].key));
      }
    }
  }

  lemma NoneHasKey(ws: seq<Entry>)
    ensures AllNew([], ws)
  {
  }

  lemma KeysOf(keys: Kind, es: seq<Entry>, ws: seq<Entry>)
    requires ws == NormEntries(keys, es, 0)
    ensures forall j :: 0 <= j < |es| ==> ws[j].key == NormKey(keys, es[j].key)
  {
    hide NormEntries, NormKey;
    forall j | 0 <= j < |es| ensures ws[j].key == NormKey(keys, es[j].key) {
      NormEntriesAt(keys, es, 0, j);
    }
  }

  lemma {:induction false} NormEntriesAt(keys: Kind, es: seq<Entry>, j: nat, k: nat)
    requires j <= k < |es|
    ensures NormEntries(keys, es, j)[k - j] == NormEntry(keys, es[k])
    decreases k - j
  {
    hide NormEntry;
    if j < k { NormEntriesAt(keys, es, j + 1, k); }
  }

  /** For example, a string and the equal symbol are one key once decoded, and the later value is kept. */
  lemma CollidingKeys(s: seq<Byte>, x: Value, y: Value)
    ensures NormMap(KAny, [Entry(Str(s), x), Entry(Sym(s), y)]) == [Entry(Str(s), Norm(y))]
  {
    var es := [Entry(Str(s), x), Entry(Sym(s), y)];
    var a, b := Entry(Str(s), Norm(x)), Entry(Str(s), Norm(y));
    assert Norm(Str(s)) == Str(s) && Norm(Sym(s)) == Str(s);
    assert NormEntry(KAny, es[0]) == a && NormEntry(KAny, es[1]) == b;
    hide Norm, NormEntry;
    assert NormEntries(KAny, es, 2) == [];
    assert NormEntries(KAny, es, 1) == [b];
    assert NormEntries(KAny, es, 0) == [a, b];
    assert [a, b][1..] == [b] && [b][1..] == [];
    assert Put([], a.key, a.val) == [a];
    assert Put([a], b.key, b.val) == [b];
    assert PutAll([b], []) == [b];
    assert PutAll([a], [b]) == [b];
  }

  /** One key and one value, for every key type. */
  lemma {:induction false} EntryRoundTrip(keys: Kind, e: Entry, b: seq<Byte>, i: nat)
    requires Regular(e.key) && Regular(e.val) && At(b, i, EncEntry(e)) && |EncEntry(e)| < TWO32
    requires KeysMatch(keys, [e])
    ensures var k := i + |Enc(e.key)|;
      k <= |b| && ReadKey(keys, b, i) == Given(Roomy(e.key, |b| - k), NormKey(keys, e.key), k)
    ensures var k, end := i + |Enc(e.key)|, i + |EncEntry(e)|;
      && k <= |b| && |b| - k == |Enc(e.val)| + (|b| - end)
      && ReadAny(b, k) == Given(Roomy(e.val, |b| - end), Norm(e.val), end)
    decreases e
  {
    hide Enc, Norm, Regular, ReadAny, ReadKey, NormKey, Roomy;
    AtSplit(b, i, Enc(e.key), Enc(e.val));
    AnyRoundTrip(e.val, b, i + |Enc(e.key)|);
    assert e in [e];
    if keys.KStr? || keys.KSym? {
      TextKey(keys, e.key, b, i);
    } else {
      AnyRoundTrip(e.key, b, i);
      AnyKey(keys, e.key, b, i);
    }
  }

  lemma TextKey(keys: Kind, k: Value, b: seq<Byte>, i: nat)
    requires (keys.KStr? && k.Str?) || (keys.KSym? && k.Sym?)
    requires At(b, i, Enc(k)) && |Enc(k)| < TWO32
    ensures ReadKey(keys, b, i) == Ok(NormKey(keys, k), i + |Enc(k)|) && forall n: nat :: Roomy(k, n)
  {
    hide ReadString;
    ScalarVar(k, b, i);
  }

  lemma AnyKey(keys: Kind, k: Value, b: seq<Byte>, i: nat)
    requires !keys.KStr? && !keys.KSym? && i <= |b|
    ensures ReadKey(keys, b, i) == ReadAny(b, i) && NormKey(keys, k) == Norm(k)
  {
  }

  // Described types and composites.

  lemma {:induction false} DescribedRoundTrip(d: Value, x: Value, b: seq<Byte>, i: nat)
    requires Regular(Described(d, x)) && At(b, i, Enc(Described(d, x))) && |Enc(Described(d, x))| < TWO32
    ensures i < |b| && b[i] == 0
    ensures var v := Described(d, x); var end := i + |Enc(v)|;
      ReadComposite(b, i) == Given(Roomy(v, |b| - end), Norm(v), end)
    decreases Described(d, x), 0
  {
    RoomyParts(d, x);
    hide Enc, Norm, Regular, ReadAny, ReadComposite, PeekDescriptor, Roomy;
    DescribedParts(d, x);
    RegularParts(d, x);
    assert [0] + Enc(d) + Enc(x) == [0] + (Enc(d) + Enc(x));
    AtByte(b, i, 0, Enc(d) + Enc(x));
    AtSplit(b, i + 1, Enc(d), Enc(x));
    DescriptorAt(d, b, i);
    var k := i + 1 + |Enc(d)|;
    var end := k + |Enc(x)|;
    AnyRoundTrip(d, b, i + 1);
    AnyRoundTrip(x, b, k);
    DescribedStep(b, i, Roomy(d, |b| - k), Norm(d), k, Roomy(x, |b| - end), Norm(x), end);
  }

  lemma RoomyParts(d: Value, x: Value)
    ensures forall n: nat :: Roomy(Described(d, x), n) <==> Roomy(d, |Enc(x)| + n) && Roomy(x, n)
  {
    hide Enc;
  }

  lemma DescribedParts(d: Value, x: Value)
    ensures Enc(Described(d, x)) == [0] + Enc(d) + Enc(x)
    ensures Norm(Described(d, x)) == Described(Norm(d), Norm(x))
  {
    hide Regular;
  }

  lemma RegularParts(d: Value, x: Value)
    requires Regular(Described(d, x))
    ensures Regular(d) && Regular(x) && (d.Ulong? ==> !IsReserved(d.ulong))
  {
    hide IsReserved;
  }

  /** A descriptor that is not reserved is not mistaken for a composite. */
  lemma DescriptorAt(d: Value, b: seq<Byte>, i: nat)
    requires At(b, i + 1, Enc(d)) && (d.Ulong? ==> !IsReserved(d.ulong))
    ensures PeekDescriptor(b, i).Some? && !IsReserved(PeekDescriptor(b, i).value)
  {
    FirstByte(d, b, i + 1);
    if d.Ulong? && d.ulong >= 256 {
      Pow256Values();
      FixedAt(b, i + 1, ULONG, d.ulong, 8);
    } else if d.Ulong? && d.ulong > 0 {
      PairAt(b, i + 1, SMALL_ULONG, d.ulong);
    } else {
      DescriptorFirst(d);
    }
  }

  lemma DescriptorFirst(d: Value)
    requires d.Ulong? ==> d.ulong == 0
    ensures Enc(d)[0] !in {SMALL_ULONG, ULONG}
  {
    if IsVar(d) {
      VarFirst(d);
    } else if d.Numbers? || d.Blobs? {
      ArrayFirst(d);
    } else if IsScalar(d) {
      NumberFirst(d);
    } else {
      CompoundFirst(d);
    }
  }

  lemma VarFirst(d: Value)
    requires IsVar(d)
    ensures Enc(d)[0] !in {SMALL_ULONG, ULONG}
  {
  }

  lemma ArrayFirst(d: Value)
    requires d.Numbers? || d.Blobs?
    ensures Enc(d)[0] !in {SMALL_ULONG, ULONG}
  {
    hide EncElems, EncChunks, TotalLen, BlobWidth, UseNarrow, WideCode, WideWidth;
  }

  lemma NumberFirst(d: Value)
    requires IsScalar(d) && !IsVar(d) && (d.Ulong? ==> d.ulong == 0)
    ensures Enc(d)[0] !in {SMALL_ULONG, ULONG}
  {
    hide BE;
  }

  lemma CompoundFirst(d: Value)
    requires !IsScalar(d) && !d.Numbers? && !d.Blobs?
    ensures Enc(d)[0] !in {SMALL_ULONG, ULONG}
  {
    hide EncItems, EncEntries, BE;
  }

  lemma EmptyListAt(b: seq<Byte>, i: nat)
    requires i < |b| && b[i] == LIST0
    ensures ReadListHeader(b, i) == Ok(0, i + 1)
  {
  }

  lemma CompositeStep(code: Byte, n: U32, b: seq<Byte>, i: nat, k: nat)
    requires i + 2 < |b| && b[i] == 0 && b[i + 1] == SMALL_ULONG && b[i + 2] == code
    requires ReadListHeader(b, i + 3) == Ok(n, k)
    ensures PeekDescriptor(b, i) == Some(code) && ReadCompositeHeader(b, i) == Ok((code, n), k)
  {
    hide ReadListHeader;
  }

  /** The header of an encoded composite is read back, and the cursor is at its first field. */
  lemma CompositeHeaderAt(code: Byte, fs: seq<Value>, b: seq<Byte>, i: nat) returns (k: nat)
    requires At(b, i, Enc(Composite(code, fs))) && |Enc(Composite(code, fs))| < TWO32
    ensures i < |b| && b[i] == 0 && PeekDescriptor(b, i) == Some(code)
    ensures ReadCompositeHeader(b, i) == Ok((code, SetCount(fs)), k)
    ensures At(b, k, EncItems(fs, 0, SetCount(fs)))
    ensures k + |EncItems(fs, 0, SetCount(fs))| == i + |Enc(Composite(code, fs))|
  {
    hide ReadListHeader, ReadCompositeHeader, PeekDescriptor, ReadSized;
    var n := SetCount(fs);
    var tail := if n == 0 then [LIST0] else EncCompound(LIST32, n, EncItems(fs, 0, n));
    assert Enc(Composite(code, fs)) == [0] + ([SMALL_ULONG] + ([code] + tail));
    AtByte(b, i, 0, [SMALL_ULONG] + ([code] + tail));
    AtByte(b, i + 1, SMALL_ULONG, [code] + tail);
    AtByte(b, i + 2, code, tail);
    if n == 0 {
      assert tail == [LIST0] + [];
      AtByte(b, i + 3, LIST0, []);
      EmptyListAt(b, i + 3);
      k := i + 4;
    } else {
      ListHeaderAt(fs, n, b, i + 3);
      k := i + 12;
    }
    CompositeStep(code, n, b, i, k);
  }

  lemma {:induction false} CompositeRoundTrip(code: Byte, fs: seq<Value>, b: seq<Byte>, i: nat)
    requires Regular(Composite(code, fs))
    requires At(b, i, Enc(Composite(code, fs))) && |Enc(Composite(code, fs))| < TWO32
    ensures i < |b| && b[i] == 0
    ensures var v := Composite(code, fs); var end := i + |Enc(v)|;
      ReadComposite(b, i) == Given(Roomy(v, |b| - end), Norm(v), end)
    decreases fs, |fs| + 2
  {
    hide *;
    var v := Composite(code, fs);
    var end := i + |Enc(v)|;
    AtEnd(b, i, Enc(v));
    CompositeCases(code, fs);
    var k := CompositeHeaderAt(code, fs, b, i);
    if IsLifetime(code) {
      LifetimeStep(code, b, i, k, |b| - end);
    } else {
      FieldsOfRoundTrip(code, Schema(code), fs, b, i);
      CompositeFields(code, b, i, Roomy(v, |b| - end), NormFields(Schema(code), fs, 0), end);
    }
  }

  lemma CompositeCases(code: Byte, fs: seq<Value>)
    requires Regular(Composite(code, fs))
    ensures if IsLifetime(code) then fs == [] else code == ERROR || IsState(code)
    ensures FieldsMatch(Schema(code), fs) && |Schema(code)| == |fs| && forall x :: x in fs ==> Regular(x)
    ensures Norm(Composite(code, fs)) == Composite(code, NormFields(Schema(code), fs, 0))
  {
    hide NormFields, HasKind;
  }

  lemma CompositeFields(code: Byte, b: seq<Byte>, i: nat, room: bool, fs: seq<Value>, j: nat)
    requires i < |b| && b[i] == 0 && PeekDescriptor(b, i) == Some(code) && (code == ERROR || IsState(code))
    requires ReadFieldsOf(code, Schema(code), b, i) == Given(room, fs, j)
    ensures ReadComposite(b, i) == Given(room, Composite(code, fs), j)
  {
    hide ReadFieldsOf, Schema, PeekDescriptor;
  }

  lemma LifetimeStep(code: Byte, b: seq<Byte>, i: nat, k: nat, following: nat)
    requires IsLifetime(code) && k + |EncItems([], 0, SetCount([]))| == i + |Enc(Composite(code, []))|
    requires i < |b| && b[i] == 0 && PeekDescriptor(b, i) == Some(code)
    requires ReadCompositeHeader(b, i) == Ok((code, SetCount([])), k)
    ensures var v := Composite(code, []);
      ReadComposite(b, i) == Given(Roomy(v, following), Norm(v), i + |Enc(v)|)
  {
    hide ReadCompositeHeader, PeekDescriptor, ReadFieldsOf, ReadAny;
  }

  /** Composite round trip, for every field table: present fields are restored, and every
      omitted one is null, whether it was encoded as null or cut off at the end. */
  lemma {:induction false} FieldsOfRoundTrip(code: Byte, specs: seq<Spec>, fs: seq<Value>, b: seq<Byte>, i: nat)
    requires FieldsMatch(specs, fs) && forall x :: x in fs ==> Regular(x)
    requires At(b, i, Enc(Composite(code, fs))) && |Enc(Composite(code, fs))| < TWO32
    ensures var v := Composite(code, fs); var end := i + |Enc(v)|;
      ReadFieldsOf(code, specs, b, i) == Given(Roomy(v, |b| - end), NormFields(specs, fs, 0), end)
    decreases fs, |fs| + 1
  {
    hide Enc, EncItems, Regular, Roomy, RoomyItems, HasKind, NormFields, ReadCompositeHeader, ReadFields, FieldsMatch,
      PeekDescriptor;
    var k := CompositeHeaderAt(code, fs, b, i);
    assert |specs| == |fs| by { SameLength(specs, fs); }
    var end := i + |Enc(Composite(code, fs))|;
    RoomyFields(code, fs, |b| - end);
    FieldsRoundTrip(specs, fs, 0, b, k);
  }

  lemma SameLength(specs: seq<Spec>, fs: seq<Value>)
    requires FieldsMatch(specs, fs)
    ensures |specs| == |fs|
  {
  }

  lemma RoomyFields(code: Byte, fs: seq<Value>, following: nat)
    ensures Roomy(Composite(code, fs), following) <==>
      (SetCount(fs) > 0 ==> RoomyItems(fs, 0, SetCount(fs), following))
    ensures SetCount(fs) == 0 ==> EncItems(fs, 0, 0) == []
  {
  }

  /** The fields from `k` on, of which those up to `SetCount(fs)` are in the buffer. */
  lemma {:induction false} FieldsRoundTrip(specs: seq<Spec>, fs: seq<Value>, k: nat, b: seq<Byte>, i: nat)
    requires FieldsMatch(specs, fs) && k <= |fs| && forall x :: x in fs ==> Regular(x)
    requires var n := SetCount(fs); var rest := if k < n then EncItems(fs, k, n) else [];
      At(b, i, rest) && |rest| < TWO32
    ensures var n := SetCount(fs); var end := i + if k < n then |EncItems(fs, k, n)| else 0;
      ReadFields(specs, k, n, b, i) ==
        Given(k < n ==> RoomyItems(fs, k, n, |b| - end), NormFields(specs, fs, k), end)
    decreases fs, |fs| - k
  {
    hide Enc, Regular, Norm, NormAs, Unmarshal, HasKind, ReadFields, SetCount, Roomy;
    var n := SetCount(fs);
    if k >= n {
      AbsentFields(specs, fs, k, n, b, i);
    } else {
      FieldPresent(specs, fs, k);
      hide FieldsMatch;
      AtSplit(b, i, Enc(fs[k]), EncItems(fs, k + 1, n));
      UnmarshalRoundTrip(specs[k].kind, fs[k], b, i);
      var j, end := i + |Enc(fs[k])|, i + |EncItems(fs, k, n)|;
      FieldsRoundTrip(specs, fs, k + 1, b, j);
      FieldsStep(specs, k, n, b, i, Roomy(fs[k], |b| - j), NormAs(specs[k].kind, fs[k]), j,
        RoomyItems(fs, k + 1, n, |b| - end), NormFields(specs, fs, k + 1), end);
    }
  }

  lemma FieldPresent(specs: seq<Spec>, fs: seq<Value>, k: nat)
    requires FieldsMatch(specs, fs) && k < |fs| && forall x :: x in fs ==> Regular(x)
    ensures Regular(fs[k]) && (fs[k].Null? || HasKind(specs[k].kind, fs[k]))
    ensures NormAs(specs[k].kind, fs[k]).Null? ==> !specs[k].required
  {
    NormAsNull(specs[k].kind, fs[k]);
    hide Regular, HasKind, NormAs;
  }

  /** The fields that were cut off are null. */
  lemma {:induction false} AbsentFields(specs: seq<Spec>, fs: seq<Value>, k: nat, n: nat, b: seq<Byte>, i: nat)
    requires FieldsMatch(specs, fs) && n <= k <= |fs| && i <= |b| && forall j :: k <= j < |fs| ==> fs[j].Null?
    ensures ReadFields(specs, k, n, b, i) == Ok(NormFields(specs, fs, k), i)
    decreases |fs| - k
  {
    hide NormAs, Unmarshal, HasKind, ReadFields;
    if k == |fs| {
      FieldsEnd(specs, n, b, i);
    } else {
      NormAsNull(specs[k].kind, fs[k]);
      AbsentFields(specs, fs, k + 1, n, b, i);
      FieldsStep(specs, k, n, b, i, true, Null, i, true, NormFields(specs, fs, k + 1), i);
    }
  }

  lemma FieldsEnd(specs: seq<Spec>, n: nat, b: seq<Byte>, i: nat)
    requires n <= |specs| && i <= |b|
    ensures ReadFields(specs, |specs|, n, b, i) == Ok([], i)
  {
  }

  lemma NormAsNull(kind: Kind, v: Value)
    ensures NormAs(kind, v).Null? <==> v.Null?
  {
  }

  /** Decoding into a target of the value's own type, or a null into any target. */
  lemma {:induction false} UnmarshalRoundTrip(kind: Kind, v: Value, b: seq<Byte>, i: nat)
    requires (v.Null? || HasKind(kind, v)) && Regular(v) && At(b, i, Enc(v)) && |Enc(v)| < TWO32
    ensures Unmarshal(kind, b, i) == Given(Roomy(v, |b| - (i + |Enc(v)|)), NormAs(kind, v), i + |Enc(v)|)
    decreases v, 2
  {
    hide *;
    AtEnd(b, i, Enc(v));
    FirstByte(v, b, i);
    NotNull(v);
    UntypedTargets(kind, v, b, i);
    ValueCases(v, |b| - (i + |Enc(v)|));
    GivenIs(Roomy(v, |b| - (i + |Enc(v)|)), NormAs(kind, v), i + |Enc(v)|);
    if v.Null? {
    } else if kind.KAny? {
      AnyRoundTrip(v, b, i);
    } else if IsScalar(v) {
      TypedScalar(kind, v, b, i);
    } else {
      TypedCompound(kind, v, b, i);
    }
  }

  /** Nulls, and targets of any type. */
  lemma UntypedTargets(kind: Kind, v: Value, b: seq<Byte>, i: nat)
    requires i < |b|
    ensures b[i] == NULL ==> Unmarshal(kind, b, i) == Ok(Null, i + 1)
    ensures b[i] != NULL ==> Unmarshal(KAny, b, i) == ReadAny(b, i)
    ensures NormAs(KAny, v) == Norm(v) && (v.Null? ==> NormAs(kind, v) == Null)
  {
    hide ReadAny, Norm;
    assert Norm(Null) == Null by { NullNorm(); }
  }

  lemma NullNorm()
    ensures Norm(Null) == Null
  {
  }

  lemma NotNull(v: Value)
    ensures Enc(v)[0] == NULL <==> v.Null?
  {
  }

  lemma TypedScalar(kind: Kind, v: Value, b: seq<Byte>, i: nat)
    requires !kind.KAny? && HasKind(kind, v) && IsScalar(v) && At(b, i, Enc(v)) && |Enc(v)| < TWO32
    ensures Unmarshal(kind, b, i) == Ok(NormAs(kind, v), i + |Enc(v)|)
  {
    hide Enc, Num, BE, ReadScalar, ReadVar, ReadBool, ReadUint, ReadUlong, ReadAnyUint, ReadUbyte, ReadUshort,
      ReadTimestamp, ReadAny, ReadMap, ReadList, ReadFieldsOf, PeekDescriptor;
    FirstByte(v, b, i);
    ScalarFirst(v);
    if IsVar(v) { ScalarVar(v, b, i); }
    else if v.Bool? || v.Timestamp? { ScalarOther(v, b, i); }
    else { ScalarUnsigned(v, b, i); }
  }

  lemma {:induction false} TypedCompound(kind: Kind, v: Value, b: seq<Byte>, i: nat)
    requires !kind.KAny? && HasKind(kind, v) && !IsScalar(v) && Regular(v) && At(b, i, Enc(v)) && |Enc(v)| < TWO32
    ensures Unmarshal(kind, b, i) == Given(Roomy(v, |b| - (i + |Enc(v)|)), NormAs(kind, v), i + |Enc(v)|)
    decreases v, 1
  {
    hide *;
    AtEnd(b, i, Enc(v));
    ValueCases(v, |b| - (i + |Enc(v)|));
    StartsNotNull(v, b, i);
    CompoundKinds(kind, v);
    UnmarshalStep(kind, b, i);
    if v.List? {
      ListRoundTrip(v.items, b, i);
    } else if v.Map? {
      TypedMap(kind, v.entries, b, i);
    } else if v.Blobs? {
      TypedSymbols(v.blobs, b, i);
    } else {
      TypedComposite(kind, v, b, i);
    }
  }

  lemma StartsNotNull(v: Value, b: seq<Byte>, i: nat)
    requires !IsScalar(v) && At(b, i, Enc(v))
    ensures i < |b| && (b[i] != NULL || v.Null?)
  {
    FirstByte(v, b, i);
    NotNull(v);
  }

  /** What the type of a target says about a compound value. */
  lemma CompoundKinds(kind: Kind, v: Value)
    requires !kind.KAny? && HasKind(kind, v) && !IsScalar(v) && Regular(v)
    ensures !v.Null? && (v.List? || v.Map? || v.Blobs? || v.Composite?)
    ensures v.List? ==> kind.KList? && v == List(v.items) && NormAs(kind, v) == Norm(v)
    ensures v.Map? ==> (kind.KMapStr? || kind.KMapSym? || kind.KAnnotations?) && v == Map(v.entries)
    ensures v.Blobs? ==>
      && kind.KSymbols? && v == Blobs(ArrSymbol, v.blobs) && NormAs(kind, v) == v
          && Enc(v) == EncBlobs(ArrSymbol, v.blobs)
    ensures v.Composite? ==> (kind.KError? && v.code == ERROR) || (kind.KState? && IsState(v.code))
  {
    hide EncItems, EncEntries, NormEntries, NormItems, NormFields, EncBlobs, Schema;
  }

  lemma CompositeParts(kind: Kind, v: Value)
    requires v.Composite? && Regular(v) && (kind.KError? || kind.KState?)
    ensures v == Composite(v.code, v.fields)
    ensures FieldsMatch(Schema(v.code), v.fields) && |Schema(v.code)| == |v.fields|
        && forall x :: x in v.fields ==> Regular(x)
    ensures NormAs(kind, v) == Composite(v.code, NormFields(Schema(v.code), v.fields, 0))
  {
    hide NormFields, HasKind;
  }

  lemma {:induction false} TypedComposite(kind: Kind, v: Value, b: seq<Byte>, i: nat)
    requires v.Composite? && ((kind.KError? && v.code == ERROR) || (kind.KState? && IsState(v.code)))
    requires Regular(v) && At(b, i, Enc(v)) && |Enc(v)| < TWO32
    ensures Unmarshal(kind, b, i) == Given(Roomy(v, |b| - (i + |Enc(v)|)), NormAs(kind, v), i + |Enc(v)|)
    decreases v, 0
  {
    hide *;
    AtEnd(b, i, Enc(v));
    CompositeParts(kind, v);
    var _ := CompositeHeaderAt(v.code, v.fields, b, i);
    FieldsOfRoundTrip(v.code, Schema(v.code), v.fields, b, i);
    var end := i + |Enc(v)|;
    UnmarshalComposite(kind, v.code, Roomy(v, |b| - end), NormFields(Schema(v.code), v.fields, 0), b, i, end);
  }

  lemma {:induction false} TypedMap(kind: Kind, es: seq<Entry>, b: seq<Byte>, i: nat)
    requires (kind.KMapStr? || kind.KMapSym? || kind.KAnnotations?) && HasKind(kind, Map(es)) && Regular(Map(es))
    requires At(b, i, Enc(Map(es))) && |Enc(Map(es))| < TWO32
    ensures var keys := if kind.KMapStr? then KStr else if kind.KMapSym? then KSym else KAnnotations;
      var end := i + |Enc(Map(es))|;
      ReadMap(keys, b, i) == Given(RoomyEntries(es, 0, |b| - end), NormAs(kind, Map(es)), end)
    decreases es, |es| + 2
  {
    hide *;
    var keys := if kind.KMapStr? then KStr else if kind.KMapSym? then KSym else KAnnotations;
    TypedKeys(kind, es);
    MapRoundTrip(keys, es, b, i);
  }

  lemma TypedKeys(kind: Kind, es: seq<Entry>)
    requires (kind.KMapStr? || kind.KMapSym? || kind.KAnnotations?) && HasKind(kind, Map(es))
    ensures var keys := if kind.KMapStr? then KStr else if kind.KMapSym? then KSym else KAnnotations;
      KeysMatch(keys, es) && NormAs(kind, Map(es)) == Map(NormMap(keys, es))
  {
    var keys := if kind.KMapStr? then KStr else if kind.KMapSym? then KSym else KAnnotations;
    if keys.KSym? {
      assert NormAs(kind, Map(es)) == Map(NormMap(KSym, es));
    } else {
      SameEntries(keys, es, 0);
      assert NormAs(kind, Map(es)) == Norm(Map(es)) == Map(NormMap(KAny, es));
    }
  }

  lemma TypedSymbols(ss: seq<seq<Byte>>, b: seq<Byte>, i: nat)
    requires At(b, i, EncBlobs(ArrSymbol, ss)) && |EncBlobs(ArrSymbol, ss)| < TWO32
    ensures var end := i + |EncBlobs(ArrSymbol, ss)|;
      ReadSymbols(b, i) == Given(FaithfulBlobs(ss, |b| - end), Blobs(ArrSymbol, ss), end)
  {
    hide ReadArray, FaithfulBlobs;
    ArrayStart(ss, b, i);
    hide EncBlobs;
    BlobsRoundTrip(ArrSymbol, ss, b, i);
  }

  lemma ArrayStart(ss: seq<seq<Byte>>, b: seq<Byte>, i: nat)
    requires At(b, i, EncBlobs(ArrSymbol, ss))
    ensures i < |b| && b[i] != SYM8 && b[i] != SYM32
  {
    hide EncChunks, TotalLen, BlobWidth;
    assert EncBlobs(ArrSymbol, ss)[0] == b[i..i + |EncBlobs(ArrSymbol, ss)|][0] == b[i];
  }

  lemma {:induction false} SameEntries(keys: Kind, es: seq<Entry>, j: nat)
    requires j <= |es| && !keys.KSym?
    ensures NormEntries(keys, es, j) == NormEntries(KAny, es, j)
    decreases |es| - j
  {
    if j < |es| {
      SameEntries(keys, es, j + 1);
      assert NormEntry(keys, es[j]) == NormEntry(KAny, es[j]);
    }
  }

  /** The codec law: what `Marshal` writes, followed by anything, is read back by `ReadAny`
      up to normalisation, and exactly the rest is left; if and only if the arrays of strings have room. */
  lemma CodecRoundTrip(v: Value, suffix: seq<Byte>)
    requires Regular(v) && |Enc(v)| < TWO32
    ensures ReadAny(Enc(v) + suffix, 0) == if Roomy(v, |suffix|) then Ok(Norm(v), |Enc(v)|) else Bad
    ensures (Enc(v) + suffix)[|Enc(v)|..] == suffix
  {
    hide Regular, Enc, ReadAny, Norm, Roomy;
    AnyRoundTrip(v, Enc(v) + suffix, 0);
  }

  /** For example, an array of two empty strings is refused at the end of a buffer, and read anywhere else. */
  lemma EmptyStringsNeedRoom(k: BlobKind, suffix: seq<Byte>)
    ensures var v := Blobs(k, [[], []]);
      ReadAny(Enc(v) + suffix, 0) == if suffix == [] then Bad else Ok(v, |Enc(v)|)
  {
    hide *;
    var v := Blobs(k, [[], []]);
    TwoEmpty(k, |suffix|);
    ValueCases(v, |suffix|);
    CodecRoundTrip(v, suffix);
  }

  lemma TwoEmpty(k: BlobKind, following: nat)
    ensures Regular(Blobs(k, [[], []])) && |EncBlobs(k, [[], []])| < TWO32
    ensures FaithfulBlobs([[], []], following) <==> following > 0
  {
    var ss: seq<seq<Byte>> := [[], []];
    assert TotalLen(ss, 2) == 0 && TotalLen(ss, 1) == 0 && TotalLen(ss, 0) == 0;
    assert EncChunks(ss, 2, 1) == [] && |EncChunks(ss, 1, 1)| == 1 && |EncChunks(ss, 0, 1)| == 2;
    assert BlobWidth(ss) == 1;
  }

  /** Encodings are unambiguous: a stream starts with the encoding of one value at most, up to
      normalisation. */
  lemma Unambiguous(v: Value, w: Value, s: seq<Byte>, t: seq<Byte>)
    requires Regular(v) && Regular(w) && |Enc(v)| < TWO32 && |Enc(w)| < TWO32
    requires Enc(v) + s == Enc(w) + t && Roomy(v, |s|)
    ensures Norm(v) == Norm(w) && Enc(v) == Enc(w) && s == t
  {
    hide Regular, Enc, ReadAny, Norm, Roomy;
    CodecRoundTrip(v, s);
    CodecRoundTrip(w, t);
    assert Enc(v) == (Enc(v) + s)[..|Enc(v)|];
    assert Enc(w) == (Enc(w) + t)[..|Enc(w)|];
  }

  /** A descriptor that is reserved for a composite never comes back as a plain described value. */
  lemma ReservedDescriptor(code: U64, x: Value, suffix: seq<Byte>)
    requires IsReserved(code)
    ensures var v := Described(Ulong(code), x); var r := ReadAny(Enc(v) + suffix, 0);
      r.Ok? ==> r.v.Composite?
  {
    hide ReadFieldsOf, ReadCompositeHeader, Schema;
    var b := Enc(Described(Ulong(code), x)) + suffix;
    assert Enc(Described(Ulong(code), x)) == [0] + [SMALL_ULONG, code] + Enc(x);
    assert b[0] == 0 && b[1] == SMALL_ULONG && b[2] == code;
    assert PeekDescriptor(b, 0) == Some(code);
    assert ReadAny(b, 0) == ReadComposite(b, 0);
  }
}
