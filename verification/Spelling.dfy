/** Every way to write a value that the decoder reads (section 1.6 of AMQP 1.0 Part 1), in literal octets:
    peers may choose among them, while this client's encoder uses one. */
module Spelling {
  import opened Bytes
  import opened Values
  import opened Encode
  import opened Decode
  import opened Arrays
  import opened RoundTrip

  /** A value as it is written. `width` is the number of octets of a size and of a count, 0 for the empty list
      without either. `size` is the size that is announced, and `count` the number of keys and values: an odd one
      stands for one more. The descriptor of a composite is in one octet or,
      if `wide`, in eight. */
  datatype Form =
    | Atom(value: Value, text: seq<Byte>)
    | ListForm(width: nat, size: nat, items: seq<Form>)
    | MapForm(width: nat, size: nat, count: nat, pairs: seq<Pair>)
    | DescribedForm(descriptor: Form, content: Form)
    | CompositeForm(code: Byte, wide: bool, width: nat, size: nat, fields: seq<Form>)
    | NumbersForm(width: nat, size: nat, element: Byte, elems: seq<int>)
    | BlobsForm(width: nat, size: nat, kind: BlobKind, prefix: nat, blobs: seq<seq<Byte>>)

  datatype Pair = Pair(key: Form, val: Form)

  // Atoms.

  predicate TextOk(narrow: Byte, wide: Byte, t: seq<Byte>, s: seq<Byte>) {
    (|t| < 0x100 && s == [narrow] + BE(|t|, 1) + t) || (|t| < TWO32 && s == [wide] + BE(|t|, 4) + t)
  }

  /** The constructors of the primitive types. */
  predicate AtomOk(v: Value, s: seq<Byte>) {
    match v
    case Null => s == [0x40]
    case Bool(b) => s == [if b then 0x41 else 0x42] || (|s| == 2 && s[0] == 0x56 && (s[1] != 0 <==> b))
    case Ubyte(n) => s == [0x50] + BE(n, 1)
    case Ushort(n) => s == [0x60] + BE(n, 2)
    case Uint(n) => s == [0x70] + BE(n, 4) || (n < 0x100 && s == [0x52] + BE(n, 1)) || (n == 0 && s == [0x43])
    case Ulong(n) => s == [0x80] + BE(n, 8) || (n < 0x100 && s == [0x53] + BE(n, 1)) || (n == 0 && s == [0x44])
    case SByte(n) => s == [0x51] + BE(n, 1)
    case Short(n) => s == [0x61] + BE(n, 2)
    case Int(n) => s == [0x71] + BE(n, 4) || (-0x80 <= n < 0x80 && s == [0x54] + BE(n, 1))
    case Long(n) => s == [0x81] + BE(n, 8) || (-0x80 <= n < 0x80 && s == [0x55] + BE(n, 1))
    case Float(n) => s == [0x72] + BE(n, 4)
    case Double(n) => s == [0x82] + BE(n, 8)
    case Timestamp(n) => s == [0x83] + BE(n, 8)
    case Uuid(n) => s == [0x98] + BE(n, 16)
    case Binary(t) => TextOk(0xa0, 0xb0, t, s)
    case Str(t) => TextOk(0xa1, 0xb1, t, s)
    case Sym(t) => TextOk(0xa3, 0xb3, t, s)
    case _ => false
  }

  // Octets.

  function Compound(code: Byte, width: nat, size: nat, count: nat, body: seq<Byte>): (s: seq<Byte>)
    ensures |s| == 1 + 2 * width + |body|
  {
    [code] + BE(size, width) + BE(count, width) + body
  }

  function ListText(width: nat, size: nat, count: nat, body: seq<Byte>): seq<Byte> {
    if width == 0 then [0x45] else Compound(if width == 1 then 0xc0 else 0xd0, width, size, count, body)
  }

  function ArrayText(width: nat, size: nat, count: nat, element: Byte, body: seq<Byte>): seq<Byte> {
    Compound(if width == 1 then 0xe0 else 0xf0, width, size, count, [element] + body)
  }

  /** A composite is a described list. */
  function CompositeText(code: Byte, wide: bool, list: seq<Byte>): seq<Byte> {
    [0x00] + (DescriptorText(code, wide) + list)
  }

  function DescriptorText(code: Byte, wide: bool): (s: seq<Byte>)
    ensures |s| == if wide then 9 else 2
  {
    if wide then [0x80] + BE(code, 8) else [0x53] + BE(code, 1)
  }

  function Text(f: Form): seq<Byte>
    decreases f
  {
    match f
    case Atom(_, s) => s
    case ListForm(width, size, items) => ListText(width, size, |items|, Texts(items, 0))
    case MapForm(width, size, count, ps) =>
      Compound(if width == 1 then 0xc1 else 0xd1, width, size, count, PairTexts(ps, 0))
    case DescribedForm(d, x) => [0x00] + (Text(d) + Text(x))
    case CompositeForm(code, wide, width, size, fs) =>
      CompositeText(code, wide, ListText(width, size, |fs|, Texts(fs, 0)))
    case NumbersForm(width, size, element, es) =>
      ArrayText(width, size, |es|, element, EncElems(es, 0, ElementWidth(element)))
    case BlobsForm(width, size, k, prefix, ss) =>
      ArrayText(width, size, |ss|, BlobElement(k, prefix), EncChunks(ss, 0, prefix))
  }

  function Texts(fs: seq<Form>, j: nat): seq<Byte>
    requires j <= |fs|
    decreases fs, |fs| - j
  {
    if j == |fs| then [] else Text(fs[j]) + Texts(fs, j + 1)
  }

  function PairText(p: Pair): seq<Byte>
    decreases p
  {
    Text(p.key) + Text(p.val)
  }

  function PairTexts(ps: seq<Pair>, j: nat): seq<Byte>
    requires j <= |ps|
    decreases ps, |ps| - j
  {
    if j == |ps| then [] else PairText(ps[j]) + PairTexts(ps, j + 1)
  }

  // Arrays.

  /** The type and the width of the elements behind an element constructor. */
  function Element(code: Byte): Option<(NumKind, nat)> {
    match code
    case 0x50 => Some((ArrUbyte, 1))
    case 0x51 => Some((ArrByte, 1))
    case 0x60 => Some((ArrUshort, 2))
    case 0x61 => Some((ArrShort, 2))
    case 0x43 => Some((ArrUint, 0))
    case 0x52 => Some((ArrUint, 1))
    case 0x70 => Some((ArrUint, 4))
    case 0x54 => Some((ArrInt, 1))
    case 0x71 => Some((ArrInt, 4))
    case 0x44 => Some((ArrUlong, 0))
    case 0x53 => Some((ArrUlong, 1))
    case 0x80 => Some((ArrUlong, 8))
    case 0x55 => Some((ArrLong, 1))
    case 0x81 => Some((ArrLong, 8))
    case 0x72 => Some((ArrFloat, 4))
    case 0x82 => Some((ArrDouble, 8))
    case 0x41 => Some((ArrBool, 0))
    case 0x42 => Some((ArrBool, 0))
    case 0x56 => Some((ArrBool, 1))
    case 0x83 => Some((ArrTimestamp, 8))
    case 0x98 => Some((ArrUuid, 16))
    case _ => None
  }

  function ElementWidth(code: Byte): nat { if Element(code).Some? then Element(code).value.1 else 0 }

  /** The element can be written behind its constructor. */
  predicate ElementOk(code: Byte, e: int)
    requires Element(code).Some?
  {
    var (k, w) := Element(code).value;
    if w == 0 then e == (if code == 0x41 then 1 else 0)
    else if k.ArrBool? then e == 0 || e == 1
    else if IsSigned(k) then 0 <= 2 * e + Pow256(w) && 2 * e < Pow256(w)
    else 0 <= e < Pow256(w)
  }

  function BlobElement(k: BlobKind, prefix: nat): Byte {
    match k
    case ArrBinary => if prefix == 1 then 0xa0 else 0xb0
    case ArrString => if prefix == 1 then 0xa1 else 0xb1
    case ArrSymbol => if prefix == 1 then 0xa3 else 0xb3
  }

  // Meaning.

  function Meaning(f: Form): Value
    decreases f, 1
  {
    match f
    case Atom(v, _) => v
    case ListForm(_, _, items) => List(Meanings(items))
    case MapForm(_, _, _, ps) => Map(PairMeanings(ps))
    case DescribedForm(d, x) => Described(Meaning(d), Meaning(x))
    case CompositeForm(code, _, _, _, fs) => Composite(code, Padded(Meanings(fs), |Schema(code)|))
    case NumbersForm(_, _, element, es) =>
      if Element(element).None? then Null else Numbers(Element(element).value.0, es)
    case BlobsForm(_, _, k, _, ss) => Blobs(k, ss)
  }

  function Meanings(fs: seq<Form>): (vs: seq<Value>)
    ensures |vs| == |fs| && forall k :: 0 <= k < |fs| ==> vs[k] == Meaning(fs[k])
    decreases fs, 0
  {
    seq(|fs|, k requires 0 <= k < |fs| => Meaning(fs[k]))
  }

  function PairMeaning(p: Pair): Entry
    decreases p, 1
  {
    Entry(Meaning(p.key), Meaning(p.val))
  }

  function PairMeanings(ps: seq<Pair>): (es: seq<Entry>)
    ensures |es| == |ps| && forall k :: 0 <= k < |ps| ==> es[k] == PairMeaning(ps[k])
    decreases ps, 0
  {
    seq(|ps|, k requires 0 <= k < |ps| => PairMeaning(ps[k]))
  }

  /** Fields that are left out at the end are null. */
  function Padded(vs: seq<Value>, n: nat): (fs: seq<Value>)
    ensures |fs| == if |vs| < n then n else |vs|
    ensures forall k :: 0 <= k < |fs| ==> fs[k] == if k < |vs| then vs[k] else Null
  {
    vs + if |vs| < n then seq(n - |vs|, _ => Null) else []
  }

  // Well-formed spellings.

  /** Size and count fit in their octets, and the announced size is within the buffer; `rest` octets come after
      the count. The decoder does not look at the size otherwise. */
  predicate Announced(width: nat, size: nat, count: nat, rest: nat) {
    (width == 1 || width == 4) && size < Pow256(width) && count < Pow256(width) && size <= width + rest
  }

  predicate ListOk(width: nat, size: nat, count: nat, rest: nat) {
    if width == 0 then count == 0 else Announced(width, size, count, rest)
  }

  predicate IsText(v: Value) { v.Str? || v.Sym? }

  /** The types of value that a target of the given type accepts. */
  predicate Takes(kind: Kind, v: Value) {
    match kind
    case KStr => IsText(v)
    case KSym => IsText(v)
    case KMillis => v.Ubyte? || v.Ushort? || v.Uint? || v.Ulong?
    case KMapStr => v.Map? && forall e :: e in v.entries ==> IsText(e.key)
    case KMapSym => v.Map? && forall e :: e in v.entries ==> IsText(e.key)
    case KAnnotations => v.Map?
    case KSymbols => v.Sym? || (v.Blobs? && v.blob.ArrSymbol?)
    case _ => HasKind(kind, v)
  }

  /** The fields agree with the table. */
  predicate FieldsTake(specs: seq<Spec>, vs: seq<Value>) {
    && |vs| == |specs|
    && forall k :: 0 <= k < |vs| ==> if vs[k].Null? then !specs[k].required else Takes(specs[k].kind, vs[k])
  }

  /** Well-formed, when `following` octets come after the form: the exceptions are those of `Regular`. */
  predicate FormOk(f: Form, following: nat)
    decreases f
  {
    match f
    case Atom(v, s) => AtomOk(v, s)
    case ListForm(width, size, items) =>
      ListOk(width, size, |items|, |Texts(items, 0)| + following) && FormsOk(items, 0, following)
    case MapForm(width, size, count, ps) =>
      && (count == 2 * |ps| || count == 2 * |ps| - 1)
      && Announced(width, size, count, |PairTexts(ps, 0)| + following) && PairsOk(ps, 0, following)
    case DescribedForm(d, x) =>
      && FormOk(d, |Text(x)| + following) && FormOk(x, following)
      && (Meaning(d).Ulong? ==> !IsReserved(Meaning(d).ulong))
    case CompositeForm(code, _, width, size, fs) =>
      && (code == ERROR || IsState(code) || IsLifetime(code)) && |fs| <= |Schema(code)|
      && FieldsTake(Schema(code), Padded(Meanings(fs), |Schema(code)|))
      && ListOk(width, size, |fs|, |Texts(fs, 0)| + following) && FormsOk(fs, 0, following)
    case NumbersForm(width, size, element, es) =>
      && Element(element).Some? && (forall e :: e in es ==> ElementOk(element, e))
      && Announced(width, size, |es|, 1 + |EncElems(es, 0, ElementWidth(element))| + following)
    case BlobsForm(width, size, k, prefix, ss) =>
      && (prefix == 1 || prefix == 4) && (forall s :: s in ss ==> |s| < Pow256(prefix))
      && Announced(width, size, |ss|, 1 + |EncChunks(ss, 0, prefix)| + following)
      && 2 * |ss| <= 1 + |EncChunks(ss, 0, prefix)| + following
  }

  predicate FormsOk(fs: seq<Form>, j: nat, following: nat)
    requires j <= |fs|
    decreases fs, |fs| - j
  {
    j == |fs| || (FormOk(fs[j], |Texts(fs, j + 1)| + following) && FormsOk(fs, j + 1, following))
  }

  predicate PairOk(p: Pair, following: nat)
    decreases p
  {
    && FormOk(p.key, |Text(p.val)| + following) && FormOk(p.val, following)
    && Hashable(Norm(Meaning(p.key)))
  }

  predicate PairsOk(ps: seq<Pair>, j: nat, following: nat)
    requires j <= |ps|
    decreases ps, |ps| - j
  {
    j == |ps| || (PairOk(ps[j], |PairTexts(ps, j + 1)| + following) && PairsOk(ps, j + 1, following))
  }

  // Atoms are read.

  lemma HeadAt(b: seq<Byte>, i: nat, s: seq<Byte>)
    requires At(b, i, s) && s != []
    ensures i < |b| && b[i] == s[0]
  {
    assert b[i..i + |s|][0] == b[i];
  }

  /** One octet after the constructor. */
  lemma OctetAt(b: seq<Byte>, i: nat, code: Byte, n: Byte)
    requires At(b, i, [code] + BE(n, 1))
    ensures i + 1 < |b| && b[i] == code && b[i + 1] == n && ReadByte(b, i + 1) == Ok(n, i + 2)
  {
    assert BE(n, 1) == [n];
    PairAt(b, i, code, n);
  }

  lemma UnsignedAtom(v: Value, s: seq<Byte>, b: seq<Byte>, i: nat)
    requires (v.Ubyte? || v.Ushort? || v.Uint? || v.Ulong?) && AtomOk(v, s) && At(b, i, s)
    ensures i < |b| && ReadScalar(b, i) == Ok(v, i + |s|)
    ensures v.Ubyte? ==> ReadUbyte(b, i) == Ok(v.ubyte, i + |s|) && ReadAnyUint(b, i) == Ok(v.ubyte, i + |s|)
    ensures v.Ushort? ==> ReadUshort(b, i) == Ok(v.ushort, i + |s|) && ReadAnyUint(b, i) == Ok(v.ushort, i + |s|)
    ensures v.Uint? ==> ReadUint(b, i) == Ok(v.uint, i + |s|) && ReadAnyUint(b, i) == Ok(v.uint, i + |s|)
    ensures v.Ulong? ==> ReadUlong(b, i) == Ok(v.ulong, i + |s|) && ReadAnyUint(b, i) == Ok(v.ulong, i + |s|)
  {
    hide Num, BE, Pow256, ReadSignedScalar, ReadText, ReadOther, Signed;
    Pow256Values();
    HeadAt(b, i, s);
    match v {
      case Ubyte(n) => OctetAt(b, i, 0x50, n);
      case Ushort(n) => FixedAt(b, i, 0x60, n, 2);
      case Uint(n) => if s[0] == 0x70 { FixedAt(b, i, 0x70, n, 4); } else if s[0] == 0x52 { OctetAt(b, i, 0x52, n); }
      case Ulong(n) => if s[0] == 0x80 { FixedAt(b, i, 0x80, n, 8); } else if s[0] == 0x53 { OctetAt(b, i, 0x53, n); }
    }
  }

  lemma SignedAtom(v: Value, s: seq<Byte>, b: seq<Byte>, i: nat)
    requires (v.SByte? || v.Short? || v.Int? || v.Long?) && AtomOk(v, s) && At(b, i, s)
    ensures i < |b| && ReadScalar(b, i) == Ok(v, i + |s|)
  {
    hide Num, BE, Pow256, ReadUnsignedScalar, ReadText, ReadOther, Signed;
    Pow256Values();
    match v {
      case SByte(n) => SignedCode(b, i, 0x51, n, 1);
      case Short(n) => SignedCode(b, i, 0x61, n, 2);
      case Int(n) => if s[0] == 0x71 { SignedCode(b, i, 0x71, n, 4); } else { SignedCode(b, i, 0x54, n, 1); }
      case Long(n) => if s[0] == 0x81 { SignedCode(b, i, 0x81, n, 8); } else { SignedCode(b, i, 0x55, n, 1); }
    }
  }

  lemma OtherAtom(v: Value, s: seq<Byte>, b: seq<Byte>, i: nat)
    requires (v.Bool? || v.Float? || v.Double? || v.Uuid? || v.Timestamp?) && AtomOk(v, s) && At(b, i, s)
    ensures i < |b| && ReadScalar(b, i) == Ok(v, i + |s|)
    ensures v.Bool? ==> ReadBool(b, i) == Ok(v.b, i + |s|)
    ensures v.Timestamp? ==> ReadTimestamp(b, i) == Ok(v.ms, i + |s|)
  {
    hide Num, BE, Pow256, ReadUnsignedScalar, ReadSignedScalar, ReadText, Signed;
    Pow256Values();
    HeadAt(b, i, s);
    match v {
      case Bool(x) => if s[0] == 0x56 { PairAt(b, i, 0x56, s[1]); }
      case Float(n) => FixedAt(b, i, 0x72, n, 4);
      case Double(n) => FixedAt(b, i, 0x82, n, 8);
      case Timestamp(n) => FixedAt(b, i, 0x83, n, 8);
      case Uuid(n) => FixedAt(b, i, 0x98, n, 16);
    }
  }

  lemma TextAt(b: seq<Byte>, i: nat, narrow: Byte, wide: Byte, t: seq<Byte>, s: seq<Byte>, ns: set<Byte>, ws: set<Byte>)
    requires TextOk(narrow, wide, t, s) && At(b, i, s) && narrow in ns && wide in ws && wide !in ns && narrow != wide
    ensures i < |b| && b[i] == s[0] && (s[0] == narrow || s[0] == wide) && ReadVar(b, i, ns, ws) == Ok(t, i + |s|)
  {
    HeadAt(b, i, s);
    if s[0] == narrow {
      assert s == [narrow] + (BE(|t|, 1) + t) && BE(|t|, 1) == [|t|];
      AtByte(b, i, narrow, [|t|] + t);
      AtByte(b, i + 1, |t|, t);
    } else {
      assert s == [wide] + (BE(|t|, 4) + t);
      AtByte(b, i, wide, BE(|t|, 4) + t);
      AtSplit(b, i + 1, BE(|t|, 4), t);
      Pow256Values();
      ReadNumAt(b, i + 1, |t|, 4);
    }
  }

  lemma TextAtom(v: Value, s: seq<Byte>, b: seq<Byte>, i: nat)
    requires (v.Binary? || v.Str? || v.Sym?) && AtomOk(v, s) && At(b, i, s)
    ensures i < |b| && ReadScalar(b, i) == Ok(if v.Sym? then Str(v.sym) else v, i + |s|)
    ensures v.Str? ==> ReadString(b, i) == Ok(v.str, i + |s|)
    ensures v.Sym? ==> ReadString(b, i) == Ok(v.sym, i + |s|)
    ensures v.Binary? ==> ReadBinary(b, i) == Ok(v.bin, i + |s|)
    ensures v.Sym? <==> b[i] in {0xa3, 0xb3}
  {
    hide ReadVar, TextOk;
    match v {
      case Binary(t) => TextAt(b, i, 0xa0, 0xb0, t, s, {VBIN8}, {VBIN32});
      case Str(t) => TextAt(b, i, 0xa1, 0xb1, t, s, {STR8, SYM8}, {STR32, SYM32});
      case Sym(t) => TextAt(b, i, 0xa3, 0xb3, t, s, {STR8, SYM8}, {STR32, SYM32});
    }
  }

  /** The constructor of an atom is that of no other type. */
  lemma AtomHead(v: Value, s: seq<Byte>)
    requires AtomOk(v, s)
    ensures s != [] && (s[0] == NULL <==> v.Null?)
    ensures s[0] !in {0x00, 0x45, 0xc0, 0xd0, 0xc1, 0xd1, 0xe0, 0xf0}
    ensures s[0] in {0x53, 0x80} ==> v.Ulong?
  {
    hide BE;
  }

  lemma AtomAny(v: Value, s: seq<Byte>, b: seq<Byte>, i: nat)
    requires AtomOk(v, s) && At(b, i, s)
    ensures ReadAny(b, i) == Ok(Norm(v), i + |s|)
  {
    hide BE, ReadScalar, ReadComposite, ReadArray, ReadList, ReadMap;
    AtomHead(v, s);
    HeadAt(b, i, s);
    if v.Ubyte? || v.Ushort? || v.Uint? || v.Ulong? { UnsignedAtom(v, s, b, i); }
    else if v.SByte? || v.Short? || v.Int? || v.Long? { SignedAtom(v, s, b, i); }
    else if v.Binary? || v.Str? || v.Sym? { TextAtom(v, s, b, i); }
    else if !v.Null? { OtherAtom(v, s, b, i); }
  }

  lemma AtomTyped(kind: Kind, v: Value, s: seq<Byte>, b: seq<Byte>, i: nat)
    requires AtomOk(v, s) && At(b, i, s) && (v.Null? || Takes(kind, v))
    ensures Unmarshal(kind, b, i) == Ok(NormAs(kind, v), i + |s|)
  {
    hide *;
    AtomHead(v, s);
    HeadAt(b, i, s);
    UntypedTargets(kind, v, b, i);
    if v.Null? {
      NullText(s);
    } else if kind.KAny? {
      AtomAny(v, s, b, i);
    } else if v.Ubyte? || v.Ushort? || v.Uint? || v.Ulong? {
      UnsignedAtom(v, s, b, i);
      UnsignedTyped(kind, v, b, i, i + |s|);
    } else if v.Binary? || v.Str? || v.Sym? {
      TextAtom(v, s, b, i);
      TextTyped(kind, v, b, i, i + |s|);
    } else if v.Bool? || v.Timestamp? {
      OtherAtom(v, s, b, i);
      OtherTyped(kind, v, b, i, i + |s|);
    } else {
      NoTarget(kind, v, s);
    }
  }

  lemma NullText(s: seq<Byte>)
    ensures AtomOk(Null, s) ==> |s| == 1
  {
  }

  lemma NoTarget(kind: Kind, v: Value, s: seq<Byte>)
    requires AtomOk(v, s) && Takes(kind, v) && !kind.KAny? && !v.Null?
    ensures v.Ubyte? || v.Ushort? || v.Uint? || v.Ulong? || v.Binary? || v.Str? || v.Sym? || v.Bool? || v.Timestamp?
  {
    hide BE, TextOk;
  }

  lemma UnsignedTyped(kind: Kind, v: Value, b: seq<Byte>, i: nat, j: nat)
    requires i < |b| && b[i] != NULL && Takes(kind, v) && !kind.KAny?
    requires v.Ubyte? || v.Ushort? || v.Uint? || v.Ulong?
    requires v.Ubyte? ==> ReadUbyte(b, i) == Ok(v.ubyte, j) && ReadAnyUint(b, i) == Ok(v.ubyte, j)
    requires v.Ushort? ==> ReadUshort(b, i) == Ok(v.ushort, j) && ReadAnyUint(b, i) == Ok(v.ushort, j)
    requires v.Uint? ==> ReadUint(b, i) == Ok(v.uint, j) && ReadAnyUint(b, i) == Ok(v.uint, j)
    requires v.Ulong? ==> ReadUlong(b, i) == Ok(v.ulong, j) && ReadAnyUint(b, i) == Ok(v.ulong, j)
    ensures Unmarshal(kind, b, i) == Ok(NormAs(kind, v), j)
  {
    hide ReadUbyte, ReadUshort, ReadUint, ReadUlong, ReadAnyUint;
  }

  lemma TextTyped(kind: Kind, v: Value, b: seq<Byte>, i: nat, j: nat)
    requires i < |b| && b[i] != NULL && Takes(kind, v) && !kind.KAny? && (v.Binary? || v.Str? || v.Sym?)
    requires v.Str? ==> ReadString(b, i) == Ok(v.str, j)
    requires v.Sym? ==> ReadString(b, i) == Ok(v.sym, j) && b[i] in {0xa3, 0xb3}
    requires v.Binary? ==> ReadBinary(b, i) == Ok(v.bin, j)
    ensures Unmarshal(kind, b, i) == Ok(NormAs(kind, v), j)
  {
    hide ReadString, ReadBinary;
  }

  lemma OtherTyped(kind: Kind, v: Value, b: seq<Byte>, i: nat, j: nat)
    requires i < |b| && b[i] != NULL && Takes(kind, v) && !kind.KAny? && (v.Bool? || v.Timestamp?)
    requires v.Bool? ==> ReadBool(b, i) == Ok(v.b, j)
    requires v.Timestamp? ==> ReadTimestamp(b, i) == Ok(v.ms, j)
    ensures Unmarshal(kind, b, i) == Ok(NormAs(kind, v), j)
  {
    hide ReadBool, ReadTimestamp;
  }

  // Headers.

  lemma SizedAt(b: seq<Byte>, i: nat, narrow: Byte, wide: Byte, width: nat, size: nat, count: nat, body: seq<Byte>)
    requires narrow != wide && At(b, i, Compound(if width == 1 then narrow else wide, width, size, count, body))
    requires Announced(width, size, count, |b| - (i + 1 + 2 * width))
    ensures i < |b| && b[i] == (if width == 1 then narrow else wide)
    ensures ReadSized(b, i, narrow, wide) == Ok(count, i + 1 + 2 * width) && At(b, i + 1 + 2 * width, body)
  {
    hide Num, BE, Pow256;
    var code := if width == 1 then narrow else wide;
    var rest := BE(count, width) + body;
    assert Compound(code, width, size, count, body) == [code] + (BE(size, width) + rest);
    AtByte(b, i, code, BE(size, width) + rest);
    AtSplit(b, i + 1, BE(size, width), rest);
    AtSplit(b, i + 1 + width, BE(count, width), body);
    Pow256Values();
    ReadNumAt(b, i + 1, size, width);
    ReadNumAt(b, i + 1 + width, count, width);
    if width == 1 {
      OneOctet(b, i + 1);
      OneOctet(b, i + 2);
    }
  }

  lemma OneOctet(b: seq<Byte>, i: nat)
    requires i < |b|
    ensures ReadNum(b, i, 1) == Ok(b[i], i + 1)
  {
    var s := b[i..i + 1];
    assert s[..0] == [] && Num([]) == 0;
    assert Num(s) == Num(s[..0]) * 256 + s[0];
  }

  lemma ListHead(b: seq<Byte>, i: nat, width: nat, size: nat, count: nat, body: seq<Byte>) returns (k: nat)
    requires At(b, i, ListText(width, size, count, body)) && (width == 0 ==> body == [])
    requires ListOk(width, size, count, |b| - (i + 1 + 2 * width))
    ensures i < |b| && b[i] in {0x45, 0xc0, 0xd0}
    ensures ReadListHeader(b, i) == Ok(count, k) && At(b, k, body)
    ensures k + |body| == i + |ListText(width, size, count, body)|
  {
    hide ReadSized, Announced, Compound;
    HeadAt(b, i, ListText(width, size, count, body));
    k := i + 1 + 2 * width;
    if width == 0 {
      EmptyListAt(b, i);
    } else {
      SizedAt(b, i, 0xc0, 0xd0, width, size, count, body);
    }
  }

  lemma FormStarts(f: Form, following: nat)
    requires FormOk(f, following)
    ensures |Text(f)| > 0
  {
    hide FormsOk, PairsOk, AtomOk, Texts, PairTexts, Announced;
    if f.Atom? { AtomHead(f.value, f.text); }
  }

  lemma {:induction false} TextsLen(fs: seq<Form>, j: nat, following: nat)
    requires j <= |fs| && FormsOk(fs, j, following)
    ensures |fs| - j <= |Texts(fs, j)|
    decreases |fs| - j
  {
    hide FormOk, Text;
    if j < |fs| {
      FormStarts(fs[j], |Texts(fs, j + 1)| + following);
      TextsLen(fs, j + 1, following);
    }
  }

  lemma {:induction false} PairTextsLen(ps: seq<Pair>, j: nat, following: nat)
    requires j <= |ps| && PairsOk(ps, j, following)
    ensures 2 * (|ps| - j) <= |PairTexts(ps, j)|
    decreases |ps| - j
  {
    hide FormOk, Text, Hashable, Norm, Meaning;
    if j < |ps| {
      var rest := |PairTexts(ps, j + 1)| + following;
      FormStarts(ps[j].key, |Text(ps[j].val)| + rest);
      FormStarts(ps[j].val, rest);
      PairTextsLen(ps, j + 1, following);
    }
  }

  // Arrays.

  lemma ArrayHead(b: seq<Byte>, i: nat, width: nat, size: nat, count: nat, element: Byte, body: seq<Byte>)
    returns (j: nat)
    requires At(b, i, ArrayText(width, size, count, element, body))
    requires Announced(width, size, count, |b| - (i + 1 + 2 * width))
    ensures i < |b| && b[i] in {0xe0, 0xf0} && j == i + 1 + 2 * width
    ensures ReadSized(b, i, ARRAY8, ARRAY32) == Ok(count, j) && j < |b| && b[j] == element && At(b, j + 1, body)
  {
    hide ReadSized, Announced, Compound;
    j := i + 1 + 2 * width;
    SizedAt(b, i, 0xe0, 0xf0, width, size, count, [element] + body);
    AtByte(b, j, element, body);
  }

  /** The table of element constructors agrees with the decoder's. */
  lemma ElementKind(code: Byte)
    requires Element(code).Some?
    ensures var (k, w) := Element(code).value;
      && NumKindOf(code) == Some(k)
      && (w == 0 <==> code in {UINT0, ULONG0, FALSE, TRUE}) && (code == TRUE <==> code == 0x41)
      && (w > 0 ==> w == if IsAdaptive(k) && code == NarrowCode(k) then 1 else WideWidth(k))
      && (w > 0 ==> w == WideWidth(k) || (w == 1 && IsAdaptive(k)))
  {
  }

  lemma ElementRange(code: Byte, e: int)
    requires Element(code).Some? && Element(code).value.1 > 0 && ElementOk(code, e)
    ensures var (k, w) := Element(code).value;
      && InRange(k, e) && ElemBack(k, e, w) == e
      && (w == WideWidth(k) || (w == 1 && IsAdaptive(k) && e <= if IsSigned(k) then 127 else 255))
  {
    Pow256Values();
    hide Pow256;
  }

  lemma NumbersAt(f: Form, b: seq<Byte>, i: nat)
    requires f.NumbersForm? && At(b, i, Text(f)) && FormOk(f, |b| - (i + |Text(f)|))
    ensures i < |b| && b[i] in {0xe0, 0xf0} && ReadArray(b, i) == Ok(Meaning(f), i + |Text(f)|)
  {
    hide EncElems, ReadNumbers, ReadSized, ElementOk, Element, Pow256, NumKindOf, BlobKindOf, ReadBlobs, ArrayText;
    var code, es := f.element, f.elems;
    var (k, w) := Element(code).value;
    assert ElementWidth(code) == w;
    var body := EncElems(es, 0, w);
    ArrayLen(f.width, f.size, |es|, code, body);
    var j := ArrayHead(b, i, f.width, f.size, |es|, code, body);
    ElementKind(code);
    ElemsLen(es, 0, w);
    ElementsRead(code, es, b, j);
  }

  lemma ArrayLen(width: nat, size: nat, count: nat, element: Byte, body: seq<Byte>)
    ensures |ArrayText(width, size, count, element, body)| == 2 + 2 * width + |body|
  {
  }

  lemma ElementsRead(code: Byte, es: seq<int>, b: seq<Byte>, j: nat)
    requires Element(code).Some? && forall e :: e in es ==> ElementOk(code, e)
    requires j < |b| && b[j] == code && At(b, j + 1, EncElems(es, 0, Element(code).value.1))
    ensures var (k, w) := Element(code).value; ReadNumbers(k, |es|, b, j) == Ok(Numbers(k, es), j + 1 + |es| * w)
  {
    hide *;
    var (k, w) := Element(code).value;
    ElementKind(code);
    ElemsLen(es, 0, w);
    if w == 0 {
      ZeroWidth(code, es, b, j);
    } else {
      ElementsBack(code, es);
      ReadBodyIs(k, |es|, w, b, j, EncElems(es, 0, w));
    }
  }

  /** The constructor alone stands for every element. */
  lemma ZeroWidth(code: Byte, es: seq<int>, b: seq<Byte>, j: nat)
    requires Element(code).Some? && Element(code).value.1 == 0 && forall e :: e in es ==> ElementOk(code, e)
    requires j < |b| && b[j] == code
    ensures var (k, _) := Element(code).value; ReadNumbers(k, |es|, b, j) == Ok(Numbers(k, es), j + 1)
  {
    ElementKind(code);
    hide Pow256, ReadElems, NarrowCode, WideWidth;
    forall m | 0 <= m < |es| ensures es[m] == if code == 0x41 then 1 else 0 { assert es[m] in es; }
    if code == 0x41 { assert es == seq(|es|, _ => 1); } else { assert es == seq(|es|, _ => 0); }
  }

  lemma ElementsBack(code: Byte, es: seq<int>)
    requires Element(code).Some? && Element(code).value.1 > 0 && forall e :: e in es ==> ElementOk(code, e)
    ensures var (k, w) := Element(code).value; ReadElems(k, EncElems(es, 0, w), w) == es
  {
    hide Element, ElementOk, InRange, ElemBack, WideWidth, ReadElems, EncElems;
    var (k, w) := Element(code).value;
    ElementKind(code);
    forall m | 0 <= m < |es|
      ensures InRange(k, es[m]) && ElemBack(k, es[m], w) == es[m]
      ensures w == WideWidth(k) || (w == 1 && IsAdaptive(k) && es[m] <= if IsSigned(k) then 127 else 255)
    {
      assert es[m] in es;
      ElementRange(code, es[m]);
    }
    if es == [] {
      assert EncElems(es, 0, w) == [] by { ElemsLen(es, 0, w); }
      NoElems(k, w);
    } else {
      ReadElemsAt(k, es, 0, w);
      assert ElemsBack(k, es, 0, w) == es;
    }
  }

  lemma NoElems(k: NumKind, w: nat)
    requires w > 0
    ensures ReadElems(k, [], w) == []
  {
  }

  lemma BlobsAt(f: Form, b: seq<Byte>, i: nat)
    requires f.BlobsForm? && At(b, i, Text(f)) && FormOk(f, |b| - (i + |Text(f)|))
    ensures i < |b| && b[i] in {0xe0, 0xf0} && ReadArray(b, i) == Ok(Meaning(f), i + |Text(f)|)
  {
    hide EncChunks, ReadChunks, ReadArray, ReadBlobs, Pow256, NumKindOf, BlobKindOf, ReadSized, BlobElement;
    var k, w, ss := f.kind, f.prefix, f.blobs;
    var code, body := BlobElement(k, w), EncChunks(ss, 0, w);
    var j := ArrayHead(b, i, f.width, f.size, |ss|, code, body);
    BlobsRead(k, w, ss, b, j);
    BlobCodes(k, w);
    ArrayOfBlobs(k, b, i, |ss|, j);
  }

  lemma BlobCodes(k: BlobKind, prefix: nat)
    requires prefix == 1 || prefix == 4
    ensures BlobElement(k, prefix) == if prefix == 1 then Code8(k) else Code32(k)
    ensures Code8(k) != Code32(k)
  {
  }

  lemma BlobsRead(k: BlobKind, w: nat, ss: seq<seq<Byte>>, b: seq<Byte>, j: nat)
    requires (w == 1 || w == 4) && forall s :: s in ss ==> |s| < Pow256(w)
    requires j < |b| && b[j] == BlobElement(k, w) && At(b, j + 1, EncChunks(ss, 0, w)) && 2 * |ss| <= |b| - j
    ensures ReadBlobs(k, |ss|, b, j) == Ok(Blobs(k, ss), j + 1 + |EncChunks(ss, 0, w)|)
  {
    hide EncChunks, ReadChunks, Pow256, BlobElement, Code8, Code32;
    BlobCodes(k, w);
    assert forall m :: 0 <= m < |ss| ==> ss[m] in ss;
    ReadChunksAt(ss, 0, w, b, j + 1);
    assert ss[0..] == ss;
  }

  // Compound values are read.

  /** A form is read as the value that it means, wherever it is in a buffer, and the cursor is left right
      after it. */
  lemma {:induction false} SpellingAny(f: Form, b: seq<Byte>, i: nat)
    requires At(b, i, Text(f)) && FormOk(f, |b| - (i + |Text(f)|))
    ensures ReadAny(b, i) == Ok(Norm(Meaning(f)), i + |Text(f)|)
    decreases f, 2
  {
    hide *;
    AtEnd(b, i, Text(f));
    FormCases(f, |b| - (i + |Text(f)|));
    FormHead(f, b, i);
    match f {
      case Atom(v, s) => AtomAny(v, s, b, i);
      case ListForm(_, _, _) => ListRead(f, b, i);
      case MapForm(_, _, _, _) => MapRead(KAny, f, b, i);
      case DescribedForm(_, _) => DescribedRead(f, b, i);
      case CompositeForm(_, _, _, _, _) => CompositeRead(f, b, i);
      case NumbersForm(_, _, _, _) => NumbersAt(f, b, i);
      case BlobsForm(_, _, _, _, _) => BlobsAt(f, b, i);
    }
  }

  lemma FormCases(f: Form, following: nat)
    requires FormOk(f, following)
    ensures f.Atom? ==> AtomOk(f.value, f.text) && Meaning(f) == f.value && Text(f) == f.text
    ensures f.MapForm? ==> KeysTake(KAny, f.pairs) && Norm(Meaning(f)) == Map(NormMap(KAny, PairMeanings(f.pairs)))
    ensures f.NumbersForm? || f.BlobsForm? ==> Norm(Meaning(f)) == Meaning(f)
  {
    hide FormsOk, PairsOk, Texts, PairTexts, Pow256, AtomOk, ElementOk, NormMap;
  }

  /** The first octet of a form selects its reader. */
  lemma FormHead(f: Form, b: seq<Byte>, i: nat)
    requires At(b, i, Text(f)) && FormOk(f, |b| - (i + |Text(f)|))
    ensures i < |b|
    ensures f.ListForm? ==> ReadAny(b, i) == ReadList(b, i)
    ensures f.MapForm? ==> ReadAny(b, i) == ReadMap(KAny, b, i)
    ensures f.NumbersForm? || f.BlobsForm? ==> ReadAny(b, i) == ReadArray(b, i)
    ensures f.DescribedForm? || f.CompositeForm? ==> b[i] == 0 && ReadAny(b, i) == ReadComposite(b, i)
    ensures !f.Atom? ==> b[i] != NULL
  {
    hide *;
    AtEnd(b, i, Text(f));
    FormOctet(f, |b| - (i + |Text(f)|));
    HeadAt(b, i, Text(f));
    AnyByOctet(b, i);
  }

  lemma FormOctet(f: Form, following: nat)
    requires FormOk(f, following)
    ensures Text(f) != [] && (!f.Atom? ==> Text(f)[0] != NULL)
    ensures f.ListForm? ==> Text(f)[0] in {0x45, 0xc0, 0xd0}
    ensures f.MapForm? ==> Text(f)[0] in {0xc1, 0xd1}
    ensures f.NumbersForm? || f.BlobsForm? ==> Text(f)[0] in {0xe0, 0xf0}
    ensures f.DescribedForm? || f.CompositeForm? ==> Text(f)[0] == 0
  {
    FormStarts(f, following);
    hide FormsOk, PairsOk, Texts, PairTexts, EncElems, EncChunks, BE, AtomOk, Pow256, ElementOk, FieldsTake;
  }

  lemma AnyByOctet(b: seq<Byte>, i: nat)
    requires i < |b|
    ensures b[i] in {0x45, 0xc0, 0xd0} ==> ReadAny(b, i) == ReadList(b, i)
    ensures b[i] in {0xc1, 0xd1} ==> ReadAny(b, i) == ReadMap(KAny, b, i)
    ensures b[i] in {0xe0, 0xf0} ==> ReadAny(b, i) == ReadArray(b, i)
    ensures b[i] == 0 ==> ReadAny(b, i) == ReadComposite(b, i)
  {
    hide ReadList, ReadMap, ReadArray, ReadComposite, ReadScalar;
  }

  lemma {:induction false} ListRead(f: Form, b: seq<Byte>, i: nat)
    requires f.ListForm? && At(b, i, Text(f)) && FormOk(f, |b| - (i + |Text(f)|))
    ensures ReadList(b, i) == Ok(Norm(Meaning(f)), i + |Text(f)|)
    decreases f, 1
  {
    hide *;
    var items, end := f.items, i + |Text(f)|;
    AtEnd(b, i, Text(f));
    ListParts(f, |b| - end);
    var k := ListHead(b, i, f.width, f.size, |items|, Texts(items, 0));
    AtEnd(b, k, Texts(items, 0));
    TextsLen(items, 0, |b| - end);
    FormsRead(items, 0, b, k);
    var vs := NormItems(Meanings(items), 0);
    GivenIs(true, vs, end);
    ListStep(b, i, |items|, k, true, vs, end);
    GivenIs(true, List(vs), end);
  }

  lemma ListParts(f: Form, following: nat)
    requires f.ListForm? && FormOk(f, following)
    ensures var body := Texts(f.items, 0);
      && Text(f) == ListText(f.width, f.size, |f.items|, body) && FormsOk(f.items, 0, following)
      && (f.width == 0 ==> body == []) && ListOk(f.width, f.size, |f.items|, |body| + following)
      && |Text(f)| == 1 + 2 * f.width + |body| && |f.items| < TWO32
      && Norm(Meaning(f)) == List(NormItems(Meanings(f.items), 0))
  {
    hide *;
    ListUnfold(f.width, f.size, f.items, following);
    ListFits(f.width, f.size, f.items, |Texts(f.items, 0)| + following);
    ListNorm(Meanings(f.items));
  }

  lemma ListFits(width: nat, size: nat, fs: seq<Form>, rest: nat)
    requires ListOk(width, size, |fs|, rest)
    ensures |fs| < TWO32 && (width == 0 ==> Texts(fs, 0) == [])
    ensures |ListText(width, size, |fs|, Texts(fs, 0))| == 1 + 2 * width + |Texts(fs, 0)|
  {
    Pow256Values();
    hide Pow256, Text;
  }

  lemma ListNorm(vs: seq<Value>)
    ensures Norm(List(vs)) == List(NormItems(vs, 0))
  {
    hide NormItems;
  }

  lemma {:induction false} FormsRead(fs: seq<Form>, j: nat, b: seq<Byte>, i: nat)
    requires j <= |fs| && At(b, i, Texts(fs, j)) && FormsOk(fs, j, |b| - (i + |Texts(fs, j)|))
    ensures ReadItems(b, i, |fs| - j) == Ok(NormItems(Meanings(fs), j), i + |Texts(fs, j)|)
    decreases fs, |fs| - j
  {
    hide *;
    AtEnd(b, i, Texts(fs, j));
    FormsParts(fs, j, |b| - (i + |Texts(fs, j)|));
    if j == |fs| {
      EmptyItems(b, i);
    } else {
      AtSplit(b, i, Text(fs[j]), Texts(fs, j + 1));
      var k, end := i + |Text(fs[j])|, i + |Texts(fs, j)|;
      SpellingAny(fs[j], b, i);
      FormsRead(fs, j + 1, b, k);
      var v, vs := Norm(Meaning(fs[j])), NormItems(Meanings(fs), j + 1);
      GivenIs(true, v, k);
      GivenIs(true, vs, end);
      ItemsStep(b, i, |fs| - j, true, v, k, true, vs, end);
      GivenIs(true, [v] + vs, end);
    }
  }

  /** Taking the first of the forms from `j` on. */
  lemma FormsParts(fs: seq<Form>, j: nat, following: nat)
    requires j <= |fs| && FormsOk(fs, j, following)
    ensures j == |fs| ==> Texts(fs, j) == [] && NormItems(Meanings(fs), j) == []
    ensures j < |fs| ==>
      && Texts(fs, j) == Text(fs[j]) + Texts(fs, j + 1)
      && FormOk(fs[j], |Texts(fs, j + 1)| + following) && FormsOk(fs, j + 1, following)
      && NormItems(Meanings(fs), j) == [Norm(Meaning(fs[j]))] + NormItems(Meanings(fs), j + 1)
  {
    hide Text, FormOk, Norm, Meaning;
  }

  // Maps.

  /** String and symbol keys are read as text, by either name. */
  predicate KeysTake(keys: Kind, ps: seq<Pair>) {
    (keys.KStr? || keys.KSym? ==> forall p :: p in ps ==> IsText(Meaning(p.key)))
    && (keys.KStr? || keys.KSym? || keys.KAny? || keys.KAnnotations?)
  }

  lemma {:induction false} MapRead(keys: Kind, f: Form, b: seq<Byte>, i: nat)
    requires f.MapForm? && KeysTake(keys, f.pairs) && At(b, i, Text(f)) && FormOk(f, |b| - (i + |Text(f)|))
    ensures ReadMap(keys, b, i) == Ok(Map(NormMap(keys, PairMeanings(f.pairs))), i + |Text(f)|)
    decreases f, 1
  {
    hide *;
    var ps, end := f.pairs, i + |Text(f)|;
    AtEnd(b, i, Text(f));
    MapFormParts(f, |b| - end);
    var body := PairTexts(ps, 0);
    SizedAt(b, i, 0xc1, 0xd1, f.width, f.size, f.count, body);
    var k := i + 1 + 2 * f.width;
    AtEnd(b, k, body);
    PairTextsLen(ps, 0, |b| - end);
    MapHead(b, i, f.count, k);
    PairsRead(keys, ps, 0, b, k, []);
    var m := NormMap(keys, PairMeanings(ps));
    NormMapIs(keys, PairMeanings(ps));
    GivenIs(true, m, end);
    MapStep(keys, b, i, f.count, k, true, m, end);
    GivenIs(true, Map(m), end);
  }

  lemma NormMapIs(keys: Kind, es: seq<Entry>)
    ensures NormMap(keys, es) == PutAll([], NormEntries(keys, es, 0))
  {
  }

  lemma MapHead(b: seq<Byte>, i: nat, count: U32, k: nat)
    requires ReadSized(b, i, 0xc1, 0xd1) == Ok(count, k) && count <= |b| - k
    ensures ReadMapHeader(b, i) == Ok(count, k)
  {
    hide ReadSized;
  }

  lemma MapFormParts(f: Form, following: nat)
    requires f.MapForm? && FormOk(f, following)
    ensures var body := PairTexts(f.pairs, 0);
      && Text(f) == Compound(if f.width == 1 then 0xc1 else 0xd1, f.width, f.size, f.count, body)
      && PairsOk(f.pairs, 0, following) && Announced(f.width, f.size, f.count, |body| + following)
      && |Text(f)| == 1 + 2 * f.width + |body| && f.count < TWO32 && f.count <= 2 * |f.pairs| <= f.count + 1
  {
    Pow256Values();
    hide Pow256, PairsOk, PairTexts;
  }

  lemma {:induction false} PairsRead(keys: Kind, ps: seq<Pair>, j: nat, b: seq<Byte>, i: nat, m: seq<Entry>)
    requires j <= |ps| && KeysTake(keys, ps)
    requires At(b, i, PairTexts(ps, j)) && PairsOk(ps, j, |b| - (i + |PairTexts(ps, j)|))
    ensures var es := PairMeanings(ps);
      ReadEntries(keys, b, i, |ps| - j, m) == Ok(PutAll(m, NormEntries(keys, es, j)), i + |PairTexts(ps, j)|)
    decreases ps, |ps| - j
  {
    hide PairText, PairOk, Norm, ReadAny, ReadKey, Hashable, Put, ReadEntries, Meaning, KeysTake, NormKey;
    var es := PairMeanings(ps);
    if j == |ps| {
      EntriesEnd(keys, b, i, m);
    } else {
      var p, e := ps[j], es[j];
      AtSplit(b, i, PairText(p), PairTexts(ps, j + 1));
      var k := i + |PairText(p)|;
      var l := PairRead(keys, ps, p, b, i);
      var key := NormKey(keys, e.key);
      EntriesStep(keys, b, i, |ps| - j, m, true, key, l, true, Norm(e.val), k);
      PairsRead(keys, ps, j + 1, b, k, Put(m, key, Norm(e.val)));
      var ws := NormEntries(keys, es, j);
      assert ws[0] == NormEntry(keys, e) && ws[1..] == NormEntries(keys, es, j + 1);
    }
  }

  lemma {:induction false} PairRead(keys: Kind, ps: seq<Pair>, p: Pair, b: seq<Byte>, i: nat) returns (l: nat)
    requires KeysTake(keys, ps) && p in ps && At(b, i, PairText(p)) && PairOk(p, |b| - (i + |PairText(p)|))
    ensures i <= l <= |b| && ReadKey(keys, b, i) == Ok(NormKey(keys, Meaning(p.key)), l)
    ensures ReadAny(b, l) == Ok(Norm(Meaning(p.val)), i + |PairText(p)|)
    ensures Hashable(NormKey(keys, Meaning(p.key)))
    decreases p
  {
    hide Text, FormOk, Norm, ReadAny, ReadKey, Hashable, Meaning, NormKey;
    AtSplit(b, i, Text(p.key), Text(p.val));
    l := i + |Text(p.key)|;
    SpellingAny(p.val, b, l);
    if keys.KStr? || keys.KSym? {
      TextKeyRead(keys, p.key, b, i);
    } else {
      SpellingAny(p.key, b, i);
      AnyKey(keys, Meaning(p.key), b, i);
    }
  }

  lemma TextKeyRead(keys: Kind, f: Form, b: seq<Byte>, i: nat)
    requires (keys.KStr? || keys.KSym?) && IsText(Meaning(f)) && At(b, i, Text(f)) && FormOk(f, |b| - (i + |Text(f)|))
    ensures ReadKey(keys, b, i) == Ok(NormKey(keys, Meaning(f)), i + |Text(f)|)
    ensures Hashable(NormKey(keys, Meaning(f)))
  {
    hide ReadString, AtomOk, FormsOk, PairsOk, Texts, PairTexts;
    TextAtom(f.value, f.text, b, i);
  }

  // Described values and composites.

  lemma {:induction false} DescribedRead(f: Form, b: seq<Byte>, i: nat)
    requires f.DescribedForm? && At(b, i, Text(f)) && FormOk(f, |b| - (i + |Text(f)|))
    ensures i < |b| && b[i] == 0 && ReadComposite(b, i) == Ok(Norm(Meaning(f)), i + |Text(f)|)
    decreases f, 1
  {
    hide *;
    var d, x, end := f.descriptor, f.content, i + |Text(f)|;
    AtEnd(b, i, Text(f));
    DescribedFormParts(f, |b| - end);
    AtByte(b, i, 0, Text(d) + Text(x));
    AtSplit(b, i + 1, Text(d), Text(x));
    var k := i + 1 + |Text(d)|;
    SpellingAny(d, b, i + 1);
    SpellingAny(x, b, k);
    DescriptorPeek(d, b, i);
    GivenIs(true, Norm(Meaning(d)), k);
    GivenIs(true, Norm(Meaning(x)), end);
    DescribedStep(b, i, true, Norm(Meaning(d)), k, true, Norm(Meaning(x)), end);
    GivenIs(true, Norm(Meaning(f)), end);
  }

  lemma DescribedFormParts(f: Form, following: nat)
    requires f.DescribedForm? && FormOk(f, following)
    ensures var d, x := f.descriptor, f.content;
      && Text(f) == [0] + (Text(d) + Text(x)) && |Text(f)| == 1 + |Text(d)| + |Text(x)|
      && FormOk(d, |Text(x)| + following) && FormOk(x, following)
      && (Meaning(d).Ulong? ==> !IsReserved(Meaning(d).ulong))
      && Norm(Meaning(f)) == Described(Norm(Meaning(d)), Norm(Meaning(x)))
  {
    hide IsReserved;
  }

  lemma DescriptorPeek(d: Form, b: seq<Byte>, i: nat)
    requires At(b, i + 1, Text(d)) && FormOk(d, |b| - (i + 1 + |Text(d)|))
    requires Meaning(d).Ulong? ==> !IsReserved(Meaning(d).ulong)
    ensures PeekDescriptor(b, i).Some? && !IsReserved(PeekDescriptor(b, i).value)
  {
    hide *;
    AtEnd(b, i + 1, Text(d));
    FormStarts(d, |b| - (i + 1 + |Text(d)|));
    HeadAt(b, i + 1, Text(d));
    if Text(d)[0] in {0x53, 0x80} {
      UlongAtom(d, |b| - (i + 1 + |Text(d)|));
      PeekUlong(Meaning(d).ulong, Text(d), b, i);
    } else {
      PeekOther(b, i);
      ZeroFree();
    }
  }

  lemma PeekUlong(n: U64, s: seq<Byte>, b: seq<Byte>, i: nat)
    requires At(b, i + 1, s) && (s == [0x80] + BE(n, 8) || (n < 0x100 && s == [0x53] + BE(n, 1)))
    ensures PeekDescriptor(b, i) == Some(n)
  {
    hide BE, Num, Pow256;
    Pow256Values();
    if s[0] == 0x53 { OctetAt(b, i + 1, 0x53, n); } else { FixedAt(b, i + 1, 0x80, n, 8); }
  }

  lemma PeekOther(b: seq<Byte>, i: nat)
    requires i + 1 < |b| && b[i + 1] !in {0x53, 0x80}
    ensures PeekDescriptor(b, i) == Some(0)
  {
  }

  lemma ZeroFree()
    ensures !IsReserved(0)
  {
  }

  lemma UlongAtom(d: Form, following: nat)
    requires FormOk(d, following) && Text(d) != [] && Text(d)[0] in {0x53, 0x80}
    ensures d.Atom? && Meaning(d).Ulong?
    ensures Text(d) == if Text(d)[0] == 0x53 then [0x53] + BE(Meaning(d).ulong, 1) else [0x80] + BE(Meaning(d).ulong, 8)
    ensures Text(d)[0] == 0x53 ==> Meaning(d).ulong < 0x100
  {
    hide FormsOk, PairsOk, Texts, PairTexts, EncElems, EncChunks, BE, Pow256;
    if d.Atom? { AtomHead(d.value, d.text); }
  }

  /** The descriptor and the list header of a composite, for every table. */
  lemma CompositeHead(code: Byte, wide: bool, width: nat, size: nat, fs: seq<Form>, b: seq<Byte>, i: nat)
      returns (k: nat)
    requires At(b, i, CompositeText(code, wide, ListText(width, size, |fs|, Texts(fs, 0))))
    requires ListOk(width, size, |fs|, |b| - (i + (if wide then 10 else 3) + 1 + 2 * width))
    requires |fs| < TWO32 && (width == 0 ==> fs == [])
    ensures i < |b| && b[i] == 0 && PeekDescriptor(b, i) == Some(code)
    ensures ReadCompositeHeader(b, i) == Ok((code, |fs|), k) && At(b, k, Texts(fs, 0))
    ensures k + |Texts(fs, 0)| == i + |CompositeText(code, wide, ListText(width, size, |fs|, Texts(fs, 0)))|
  {
    hide ListText, ListOk, BE, ReadListHeader, ReadUlong, PeekDescriptor, DescriptorText;
    var body := Texts(fs, 0);
    assert width == 0 ==> body == [];
    hide Texts;
    var list, d := ListText(width, size, |fs|, body), DescriptorText(code, wide);
    AtByte(b, i, 0, d + list);
    AtSplit(b, i + 1, d, list);
    DescriptorRead(code, wide, b, i);
    k := ListHead(b, i + 1 + |d|, width, size, |fs|, body);
  }

  lemma DescriptorRead(code: Byte, wide: bool, b: seq<Byte>, i: nat)
    requires At(b, i + 1, DescriptorText(code, wide))
    ensures PeekDescriptor(b, i) == Some(code) && ReadUlong(b, i + 1) == Ok(code, i + if wide then 10 else 3)
  {
    hide BE, Num, Pow256;
    Pow256Values();
    if wide { FixedAt(b, i + 1, 0x80, code, 8); } else { OctetAt(b, i + 1, 0x53, code); }
  }

  /** A composite in any spelling is read into the fields of its table: those that are present are restored, and
      those that are null or left out are null. */
  lemma {:induction false} SpellingFieldsOf(code: Byte, specs: seq<Spec>, wide: bool, width: nat, size: nat,
      fs: seq<Form>, b: seq<Byte>, i: nat)
    requires |fs| <= |specs| && FieldsTake(specs, Padded(Meanings(fs), |specs|))
    requires At(b, i, CompositeText(code, wide, ListText(width, size, |fs|, Texts(fs, 0))))
    requires var end := i + |CompositeText(code, wide, ListText(width, size, |fs|, Texts(fs, 0)))|;
      && ListOk(width, size, |fs|, |Texts(fs, 0)| + (|b| - end)) && FormsOk(fs, 0, |b| - end)
    ensures var end := i + |CompositeText(code, wide, ListText(width, size, |fs|, Texts(fs, 0)))|;
      ReadFieldsOf(code, specs, b, i) == Ok(NormFields(specs, Padded(Meanings(fs), |specs|), 0), end)
    decreases fs, |fs| + 1
  {
    CompositeLen(code, wide, width, size, fs);
    hide CompositeText, ListText, Texts, FormsOk, FieldsTake, NormFields, ReadCompositeHeader, ReadFields,
      PeekDescriptor, Meanings;
    var k := CompositeHead(code, wide, width, size, fs, b, i);
    FieldsRead(specs, fs, 0, b, k);
  }

  lemma CompositeLen(code: Byte, wide: bool, width: nat, size: nat, fs: seq<Form>)
    ensures (width == 0 ==> fs == []) ==>
      |CompositeText(code, wide, ListText(width, size, |fs|, Texts(fs, 0)))| ==
        (if wide then 10 else 3) + 1 + 2 * width + |Texts(fs, 0)|
    ensures forall rest: nat :: ListOk(width, size, |fs|, rest) ==> |fs| < TWO32
  {
    Pow256Values();
    hide Pow256;
  }

  lemma {:induction false} FieldsRead(specs: seq<Spec>, fs: seq<Form>, k: nat, b: seq<Byte>, i: nat)
    requires |fs| <= |specs| && k <= |fs| && FieldsTake(specs, Padded(Meanings(fs), |specs|))
    requires At(b, i, Texts(fs, k)) && FormsOk(fs, k, |b| - (i + |Texts(fs, k)|))
    ensures ReadFields(specs, k, |fs|, b, i) ==
      Ok(NormFields(specs, Padded(Meanings(fs), |specs|), k), i + |Texts(fs, k)|)
    decreases fs, |fs| - k
  {
    hide Text, FormOk, Norm, NormAs, Unmarshal, Takes, ReadFields, Meaning;
    var vs, n := Padded(Meanings(fs), |specs|), |fs|;
    if k == n {
      FieldsAbsent(specs, vs, k, n, b, i);
    } else {
      AtSplit(b, i, Text(fs[k]), Texts(fs, k + 1));
      var j, end := i + |Text(fs[k])|, i + |Texts(fs, k)|;
      SpellingTyped(specs[k].kind, fs[k], b, i);
      NormAsNull(specs[k].kind, vs[k]);
      FieldsRead(specs, fs, k + 1, b, j);
      FieldsStep(specs, k, n, b, i, true, NormAs(specs[k].kind, vs[k]), j, true, NormFields(specs, vs, k + 1), end);
    }
  }

  lemma {:induction false} FieldsAbsent(specs: seq<Spec>, vs: seq<Value>, k: nat, n: nat, b: seq<Byte>, i: nat)
    requires FieldsTake(specs, vs) && n <= k <= |vs| && i <= |b| && forall j :: k <= j < |vs| ==> vs[j].Null?
    ensures ReadFields(specs, k, n, b, i) == Ok(NormFields(specs, vs, k), i)
    decreases |vs| - k
  {
    hide NormAs, Unmarshal, Takes, ReadFields;
    if k == |vs| {
      FieldsEnd(specs, n, b, i);
    } else {
      NormAsNull(specs[k].kind, vs[k]);
      FieldsAbsent(specs, vs, k + 1, n, b, i);
      FieldsStep(specs, k, n, b, i, true, Null, i, true, NormFields(specs, vs, k + 1), i);
    }
  }

  lemma {:induction false} CompositeRead(f: Form, b: seq<Byte>, i: nat)
    requires f.CompositeForm? && At(b, i, Text(f)) && FormOk(f, |b| - (i + |Text(f)|))
    ensures i < |b| && b[i] == 0 && PeekDescriptor(b, i) == Some(f.code)
    ensures ReadComposite(b, i) == Ok(Norm(Meaning(f)), i + |Text(f)|)
    ensures Norm(Meaning(f)).Composite? && Norm(Meaning(f)).code == f.code
    ensures !IsLifetime(f.code) ==>
      ReadFieldsOf(f.code, Schema(f.code), b, i) == Ok(Norm(Meaning(f)).fields, i + |Text(f)|)
    decreases f, 1
  {
    hide *;
    var code, fs, end := f.code, f.fields, i + |Text(f)|;
    AtEnd(b, i, Text(f));
    CompositeFormParts(f, |b| - end);
    CompositeNorm(f);
    var k := CompositeHead(code, f.wide, f.width, f.size, fs, b, i);
    if IsLifetime(code) {
      LifetimeRead(f, b, i, k);
    } else {
      SpellingFieldsOf(code, Schema(code), f.wide, f.width, f.size, fs, b, i);
      var vs := NormFields(Schema(code), Padded(Meanings(fs), |Schema(code)|), 0);
      GivenIs(true, vs, end);
      CompositeFields(code, b, i, true, vs, end);
      GivenIs(true, Composite(code, vs), end);
    }
  }

  lemma CompositeFormParts(f: Form, following: nat)
    requires f.CompositeForm? && FormOk(f, following)
    ensures var code, fs := f.code, f.fields;
      && (IsLifetime(code) || code == ERROR || IsState(code)) && (IsLifetime(code) || f.width == 0 ==> fs == [])
      && Text(f) == CompositeText(code, f.wide, ListText(f.width, f.size, |fs|, Texts(fs, 0)))
      && |Text(f)| == (if f.wide then 10 else 3) + 1 + 2 * f.width + |Texts(fs, 0)|
      && ListOk(f.width, f.size, |fs|, |Texts(fs, 0)| + following) && FormsOk(fs, 0, following)
      && |fs| <= |Schema(code)| && |fs| < TWO32 && FieldsTake(Schema(code), Padded(Meanings(fs), |Schema(code)|))
  {
    hide Meaning, FormsOk, Texts, CompositeText, ListText, FieldsTake, Announced, Schema, IsState, IsLifetime;
    CompositeLen(f.code, f.wide, f.width, f.size, f.fields);
    LifetimeEmpty(f.code);
  }

  lemma CompositeNorm(f: Form)
    requires f.CompositeForm? && |f.fields| <= |Schema(f.code)|
    ensures var vs := Padded(Meanings(f.fields), |Schema(f.code)|);
      |vs| == |Schema(f.code)| && Norm(Meaning(f)) == Composite(f.code, NormFields(Schema(f.code), vs, 0))
  {
    hide NormFields, Schema;
  }

  lemma LifetimeEmpty(code: Byte)
    ensures IsLifetime(code) ==> Schema(code) == []
  {
  }

  lemma LifetimeRead(f: Form, b: seq<Byte>, i: nat, k: nat)
    requires f.CompositeForm? && IsLifetime(f.code) && f.fields == []
    requires k + |Texts(f.fields, 0)| == i + |Text(f)|
    requires i < |b| && b[i] == 0 && PeekDescriptor(b, i) == Some(f.code)
    requires ReadCompositeHeader(b, i) == Ok((f.code, 0), k)
    ensures ReadComposite(b, i) == Ok(Norm(Meaning(f)), i + |Text(f)|)
  {
    hide ReadCompositeHeader, PeekDescriptor, ReadFieldsOf, ReadAny, Text;
    assert Texts(f.fields, 0) == [];
    assert Meaning(f).fields == [];
  }

  // Typed targets.

  /** A form is read into a target of any type that accepts its value. */
  lemma {:induction false} SpellingTyped(kind: Kind, f: Form, b: seq<Byte>, i: nat)
    requires At(b, i, Text(f)) && FormOk(f, |b| - (i + |Text(f)|)) && (Meaning(f).Null? || Takes(kind, Meaning(f)))
    ensures Unmarshal(kind, b, i) == Ok(NormAs(kind, Meaning(f)), i + |Text(f)|)
    decreases f, 3
  {
    hide *;
    AtEnd(b, i, Text(f));
    FormCases(f, |b| - (i + |Text(f)|));
    if f.Atom? {
      AtomTyped(kind, f.value, f.text, b, i);
    } else {
      FormHead(f, b, i);
      TypedCases(kind, f, |b| - (i + |Text(f)|));
      UnmarshalStep(kind, b, i);
      if kind.KAny? {
        SpellingAny(f, b, i);
      } else if f.ListForm? {
        ListRead(f, b, i);
      } else if f.MapForm? {
        TypedMapKeys(kind, f);
        MapRead(KeysOf(kind), f, b, i);
        KeysOfIs(kind);
      } else if f.BlobsForm? {
        BlobsAt(f, b, i);
        SymbolsRead(f, b, i);
      } else {
        CompositeRead(f, b, i);
        TypedCompositeRead(kind, f, b, i);
      }
    }
  }

  lemma TypedCases(kind: Kind, f: Form, following: nat)
    requires FormOk(f, following) && !f.Atom? && (Meaning(f).Null? || Takes(kind, Meaning(f)))
    ensures kind.KAny? ==> NormAs(kind, Meaning(f)) == Norm(Meaning(f))
    ensures !kind.KAny? ==> Takes(kind, Meaning(f))
    ensures !kind.KAny? ==> f.ListForm? || f.MapForm? || f.BlobsForm? || f.CompositeForm?
    ensures !kind.KAny? && f.ListForm? ==> kind.KList? && NormAs(kind, Meaning(f)) == Norm(Meaning(f))
    ensures !kind.KAny? && f.MapForm? ==> kind.KMapStr? || kind.KMapSym? || kind.KAnnotations?
    ensures !kind.KAny? && f.BlobsForm? ==>
      kind.KSymbols? && f.kind.ArrSymbol? && NormAs(kind, Meaning(f)) == Meaning(f)
    ensures !kind.KAny? && f.CompositeForm? ==>
      && ((kind.KError? && f.code == ERROR) || (kind.KState? && IsState(f.code))) && !IsLifetime(f.code)
      && NormAs(kind, Meaning(f)) == Norm(Meaning(f))
  {
    hide FormsOk, PairsOk, Texts, PairTexts, Pow256, ElementOk, NormItems, NormFields;
  }

  function KeysOf(kind: Kind): Kind { if kind.KMapStr? then KStr else if kind.KMapSym? then KSym else KAnnotations }

  lemma KeysOfIs(kind: Kind)
    ensures KeysOf(kind) == if kind.KMapStr? then KStr else if kind.KMapSym? then KSym else KAnnotations
  {
  }

  lemma TypedMapKeys(kind: Kind, f: Form)
    requires f.MapForm? && (kind.KMapStr? || kind.KMapSym? || kind.KAnnotations?) && Takes(kind, Meaning(f))
    ensures KeysTake(KeysOf(kind), f.pairs)
    ensures NormAs(kind, Meaning(f)) == Map(NormMap(KeysOf(kind), PairMeanings(f.pairs)))
  {
    var ps, es := f.pairs, PairMeanings(f.pairs);
    assert Meaning(f) == Map(es);
    TypedMapNorm(kind, es);
    hide IsText, NormAs, NormMap;
    forall p | p in ps && (kind.KMapStr? || kind.KMapSym?) ensures IsText(Meaning(p.key)) {
      var k :| 0 <= k < |ps| && ps[k] == p;
      assert es[k] in es && es[k] == PairMeaning(p);
    }
  }

  lemma TypedMapNorm(kind: Kind, es: seq<Entry>)
    requires kind.KMapStr? || kind.KMapSym? || kind.KAnnotations?
    ensures NormAs(kind, Map(es)) == Map(NormMap(KeysOf(kind), es))
  {
    if kind.KMapSym? {
      assert NormAs(kind, Map(es)) == Map(NormMap(KSym, es));
    } else {
      SameEntries(KeysOf(kind), es, 0);
      assert NormAs(kind, Map(es)) == Norm(Map(es)) == Map(NormMap(KAny, es));
    }
  }

  lemma SymbolsRead(f: Form, b: seq<Byte>, i: nat)
    requires f.BlobsForm? && f.kind.ArrSymbol? && i < |b| && b[i] in {0xe0, 0xf0}
    requires ReadArray(b, i) == Ok(Meaning(f), i + |Text(f)|)
    ensures ReadSymbols(b, i) == Ok(Meaning(f), i + |Text(f)|)
  {
    hide ReadArray, Text;
  }

  lemma TypedCompositeRead(kind: Kind, f: Form, b: seq<Byte>, i: nat)
    requires f.CompositeForm? && ((kind.KError? && f.code == ERROR) || (kind.KState? && IsState(f.code)))
    requires i < |b| && b[i] == 0 && PeekDescriptor(b, i) == Some(f.code) && Norm(Meaning(f)).Composite?
    requires Norm(Meaning(f)).code == f.code && !IsLifetime(f.code)
    requires ReadFieldsOf(f.code, Schema(f.code), b, i) == Ok(Norm(Meaning(f)).fields, i + |Text(f)|)
    ensures Unmarshal(kind, b, i) == Ok(Norm(Meaning(f)), i + |Text(f)|)
  {
    hide *;
    var vs, end := Norm(Meaning(f)).fields, i + |Text(f)|;
    GivenIs(true, vs, end);
    UnmarshalComposite(kind, f.code, true, vs, b, i, end);
    GivenIs(true, Norm(Meaning(f)), end);
  }

  /** The same for a form at the start of a stream: what follows it is left untouched. */
  lemma SpellingCodec(f: Form, suffix: seq<Byte>)
    requires FormOk(f, |suffix|)
    ensures ReadAny(Text(f) + suffix, 0) == Ok(Norm(Meaning(f)), |Text(f)|)
    ensures (Text(f) + suffix)[|Text(f)|..] == suffix
  {
    hide Text, FormOk, ReadAny, Norm, Meaning;
    SpellingAny(f, Text(f) + suffix, 0);
  }

  /** For example, a list of one small number in the short form that this client's encoder never uses. */
  lemma ShortList(n: Byte, suffix: seq<Byte>)
    ensures ReadAny([0xc0, 3, 1, 0x50, n] + suffix, 0) == Ok(List([Ubyte(n)]), 5)
  {
    var x := Atom(Ubyte(n), [0x50, n]);
    var f := ListForm(1, 3, [x]);
    assert BE(n, 1) == [n] && BE(3, 1) == [3] && BE(1, 1) == [1];
    assert Texts([x], 1) == [];
    assert Texts([x], 0) == [0x50, n];
    assert Text(f) == [0xc0, 3, 1, 0x50, n];
    assert Pow256(1) == 256;
    assert FormsOk([x], 1, |suffix|);
    assert FormsOk([x], 0, |suffix|);
    SpellingCodec(f, suffix);
    assert Meanings([x]) == [Ubyte(n)];
    assert NormItems([Ubyte(n)], 1) == [];
    assert NormItems([Ubyte(n)], 0) == [Ubyte(n)];
  }

  // The encoder's spelling.

  /** The spelling that the encoder uses. */
  function FormOf(v: Value): Form
    decreases v, 1
  {
    match v
    case List(vs) =>
      if vs == [] then ListForm(0, 0, []) else ListForm(4, 4 + |EncItems(vs, 0, |vs|)|, FormsOf(vs, |vs|))
    case Map(es) => MapForm(4, 4 + |EncEntries(es, 0)|, 2 * |es|, PairsOf(es))
    case Described(d, x) => DescribedForm(FormOf(d), FormOf(x))
    case Composite(code, fs) =>
      var n := SetCount(fs);
      CompositeForm(code, false, if n == 0 then 0 else 4, 4 + |EncItems(fs, 0, n)|, FormsOf(fs, n))
    case Numbers(k, es) =>
      var w := if UseNarrow(k, es) then 1 else WideWidth(k);
      var body := |es| * w;
      NumbersForm(if body + 2 <= 255 then 1 else 4, body + if body + 2 <= 255 then 2 else 5,
        if UseNarrow(k, es) then NarrowCode(k) else WideCode(k), es)
    case Blobs(k, ss) =>
      var body := TotalLen(ss, 0) + |ss| * BlobWidth(ss);
      BlobsForm(if body + 2 <= 255 then 1 else 4, body + (if body + 2 <= 255 then 2 else 5), k, BlobWidth(ss), ss)
    case _ => Atom(v, Enc(v))
  }

  function FormsOf(vs: seq<Value>, n: nat): (fs: seq<Form>)
    requires n <= |vs|
    ensures |fs| == n && forall k :: 0 <= k < n ==> fs[k] == FormOf(vs[k])
    decreases vs, 0
  {
    seq(n, k requires 0 <= k < n => FormOf(vs[k]))
  }

  function PairOf(e: Entry): Pair
    decreases e, 1
  {
    Pair(FormOf(e.key), FormOf(e.val))
  }

  function PairsOf(es: seq<Entry>): (ps: seq<Pair>)
    ensures |ps| == |es| && forall k :: 0 <= k < |es| ==> ps[k] == PairOf(es[k])
    decreases es, 0
  {
    seq(|es|, k requires 0 <= k < |es| => PairOf(es[k]))
  }

  lemma OneByte(n: Byte)
    ensures BE(n, 1) == [n]
  {
  }

  lemma VarSpelling(narrow: Byte, wide: Byte, t: seq<Byte>)
    requires |t| < TWO32
    ensures TextOk(narrow, wide, t, EncVar(narrow, wide, t))
  {
    if |t| < 256 {
      OneByte(|t|);
      assert [narrow, |t|] + t == [narrow] + [|t|] + t;
    }
  }

  lemma AtomSpelling(v: Value)
    requires (IsScalar(v) || v.Null?) && |Enc(v)| < TWO32
    ensures AtomOk(v, Enc(v))
  {
    match v {
      case Ubyte(n) => OneByte(n);
      case Uint(n) => if n < 256 { OneByte(n); }
      case Ulong(n) => if n < 256 { OneByte(n); }
      case Binary(t) => VarSpelling(0xa0, 0xb0, t);
      case Str(t) => VarSpelling(0xa1, 0xb1, t);
      case Sym(t) => VarSpelling(0xa3, 0xb3, t);
      case _ => hide BE;
    }
  }

  /** And it is the shortest spelling of a primitive value. */
  lemma AtomShortest(v: Value, s: seq<Byte>)
    requires AtomOk(v, s)
    ensures |Enc(v)| <= |s|
  {
    hide BE;
  }

  predicate Spelled(v: Value, following: nat) {
    Text(FormOf(v)) == Enc(v) && Meaning(FormOf(v)) == v && FormOk(FormOf(v), following)
  }

  /** What the encoder writes is one of the spellings of the value, for every value that decoding restores. */
  lemma {:induction false} EncIsSpelling(v: Value, following: nat)
    requires Regular(v) && |Enc(v)| < TWO32 && Roomy(v, following)
    ensures Spelled(v, following)
    decreases v, 1
  {
    hide *;
    ValueCases(v, following);
    if IsScalar(v) || v.Null? {
      AtomSpelling(v);
      AtomForm(v, following);
    } else if v.List? {
      ListSpelling(v.items, following);
    } else if v.Map? {
      MapSpelling(v.entries, following);
    } else if v.Numbers? {
      NumbersSpelling(v.num, v.elems, following);
    } else if v.Blobs? {
      BlobsSpelling(v.blob, v.blobs, following);
    } else if v.Described? {
      DescribedSpelling(v.descriptor, v.value, following);
    } else {
      CompositeSpelling(v.code, v.fields, following);
    }
  }

  lemma AtomForm(v: Value, following: nat)
    requires (IsScalar(v) || v.Null?) && AtomOk(v, Enc(v))
    ensures Spelled(v, following)
  {
    hide AtomOk, Enc;
  }

  lemma {:induction false} ItemsSpelling(vs: seq<Value>, n: nat, j: nat, following: nat)
    requires j <= n <= |vs| && forall x :: x in vs ==> Regular(x)
    requires |EncItems(vs, j, n)| < TWO32 && RoomyItems(vs, j, n, following)
    ensures Texts(FormsOf(vs, n), j) == EncItems(vs, j, n) && FormsOk(FormsOf(vs, n), j, following)
    ensures forall k :: j <= k < n ==> Meaning(FormsOf(vs, n)[k]) == vs[k]
    decreases vs, n - j
  {
    hide Enc, Regular, Roomy, Text, FormOk, Meaning, FormOf;
    if j < n {
      EncIsSpelling(vs[j], |EncItems(vs, j + 1, n)| + following);
      ItemsSpelling(vs, n, j + 1, following);
    }
  }

  lemma {:induction false} ListSpelling(vs: seq<Value>, following: nat)
    requires Regular(List(vs)) && |Enc(List(vs))| < TWO32 && Roomy(List(vs), following)
    ensures Spelled(List(vs), following)
    decreases vs, |vs| + 1
  {
    hide EncItems, RoomyItems, FormsOk, Meaning, FormOf, Pow256;
    if vs == [] {
      EmptyListSpelling(following);
    } else {
      ItemsSpelling(vs, |vs|, 0, following);
      ItemsLen(vs, 0, |vs|);
      ListFormOf(vs, following);
    }
  }

  lemma EmptyListSpelling(following: nat)
    ensures Spelled(List([]), following)
  {
    assert Texts([], 0) == [];
    assert FormsOk([], 0, following);
    assert Meanings([]) == [];
  }

  lemma ListFormOf(vs: seq<Value>, following: nat)
    requires vs != [] && |Enc(List(vs))| < TWO32 && |vs| <= |EncItems(vs, 0, |vs|)|
    requires var fs := FormsOf(vs, |vs|);
      && Texts(fs, 0) == EncItems(vs, 0, |vs|) && FormsOk(fs, 0, following)
      && forall k :: 0 <= k < |vs| ==> Meaning(fs[k]) == vs[k]
    ensures Spelled(List(vs), following)
  {
    hide *;
    var fs, body := FormsOf(vs, |vs|), EncItems(vs, 0, |vs|);
    var f := ListForm(4, 4 + |body|, fs);
    assert Meanings(fs) == vs;
    ListUnfold(4, 4 + |body|, fs, following);
    ListEncoding(vs);
    Pow256Values();
    WideFits(4 + |body|, |vs|, |body| + following);
    SpelledIs(List(vs), f, following);
  }

  lemma SpelledIs(v: Value, f: Form, following: nat)
    requires FormOf(v) == f && Text(f) == Enc(v) && Meaning(f) == v && FormOk(f, following)
    ensures Spelled(v, following)
  {
  }

  lemma WideFits(size: nat, count: nat, rest: nat)
    requires size < TWO32 && count < TWO32 && size <= 4 + rest
    ensures Announced(4, size, count, rest) && ListOk(4, size, count, rest)
  {
    Pow256Values();
    hide Pow256;
  }

  lemma ListUnfold(width: nat, size: nat, fs: seq<Form>, following: nat)
    ensures var f := ListForm(width, size, fs);
      && Text(f) == ListText(width, size, |fs|, Texts(fs, 0)) && Meaning(f) == List(Meanings(fs))
      && (FormOk(f, following) <==>
            ListOk(width, size, |fs|, |Texts(fs, 0)| + following) && FormsOk(fs, 0, following))
  {
    hide ListText, ListOk, FormsOk, Texts;
  }

  lemma ListEncoding(vs: seq<Value>)
    requires vs != []
    ensures var body := EncItems(vs, 0, |vs|);
      && FormOf(List(vs)) == ListForm(4, 4 + |body|, FormsOf(vs, |vs|))
      && Enc(List(vs)) == ListText(4, 4 + |body|, |vs|, body) && |Enc(List(vs))| == 9 + |body|
  {
    hide EncItems, BE;
  }

  lemma {:induction false} EntriesSpelling(es: seq<Entry>, j: nat, following: nat)
    requires j <= |es| && forall e :: e in es ==> Regular(e.key) && Regular(e.val) && Hashable(Norm(e.key))
    requires |EncEntries(es, j)| < TWO32 && RoomyEntries(es, j, following)
    ensures PairTexts(PairsOf(es), j) == EncEntries(es, j) && PairsOk(PairsOf(es), j, following)
    ensures forall k :: j <= k < |es| ==> PairMeaning(PairsOf(es)[k]) == es[k]
    decreases es, |es| - j
  {
    hide EncEntry, Regular, RoomyEntry, PairText, PairOk, PairMeaning, PairOf, Norm, Hashable;
    if j < |es| {
      EntrySpelling(es[j], |EncEntries(es, j + 1)| + following);
      EntriesSpelling(es, j + 1, following);
    }
  }

  lemma {:induction false} EntrySpelling(e: Entry, following: nat)
    requires Regular(e.key) && Regular(e.val) && Hashable(Norm(e.key))
    requires |EncEntry(e)| < TWO32 && RoomyEntry(e, following)
    ensures PairText(PairOf(e)) == EncEntry(e) && PairOk(PairOf(e), following) && PairMeaning(PairOf(e)) == e
    decreases e
  {
    hide Enc, Regular, Roomy, Text, FormOk, Meaning, FormOf, Norm, Hashable;
    EncIsSpelling(e.key, |Enc(e.val)| + following);
    EncIsSpelling(e.val, following);
  }

  lemma {:induction false} MapSpelling(es: seq<Entry>, following: nat)
    requires Regular(Map(es)) && |Enc(Map(es))| < TWO32 && Roomy(Map(es), following)
    ensures Spelled(Map(es), following)
    decreases es, |es| + 1
  {
    MapParts(es);
    hide Enc, Regular, EncEntries, RoomyEntries, PairsOk, Meaning, FormOf, Pow256, FormOk, Text;
    EntriesSpelling(es, 0, following);
    EntriesLen(es, 0);
    MapFormOf(es, following);
  }

  lemma MapFormOf(es: seq<Entry>, following: nat)
    requires |Enc(Map(es))| < TWO32 && 2 * |es| <= |EncEntries(es, 0)|
    requires var ps := PairsOf(es);
      && PairTexts(ps, 0) == EncEntries(es, 0) && PairsOk(ps, 0, following)
      && forall k :: 0 <= k < |es| ==> PairMeaning(ps[k]) == es[k]
    ensures Spelled(Map(es), following)
  {
    hide *;
    var ps, body := PairsOf(es), EncEntries(es, 0);
    assert PairMeanings(ps) == es;
    MapUnfold(4, 4 + |body|, ps, following);
    MapEncoding(es);
    WideFits(4 + |body|, 2 * |es|, |body| + following);
    SpelledIs(Map(es), MapForm(4, 4 + |body|, 2 * |es|, ps), following);
  }

  lemma MapUnfold(width: nat, size: nat, ps: seq<Pair>, following: nat)
    ensures var f := MapForm(width, size, 2 * |ps|, ps); var body := PairTexts(ps, 0);
      && Text(f) == Compound(if width == 1 then 0xc1 else 0xd1, width, size, 2 * |ps|, body)
      && Meaning(f) == Map(PairMeanings(ps))
      && (FormOk(f, following) <==> Announced(width, size, 2 * |ps|, |body| + following) && PairsOk(ps, 0, following))
  {
    hide Compound, Announced, PairsOk, PairTexts;
  }

  lemma MapEncoding(es: seq<Entry>)
    ensures var body := EncEntries(es, 0);
      && FormOf(Map(es)) == MapForm(4, 4 + |body|, 2 * |es|, PairsOf(es))
      && Enc(Map(es)) == Compound(0xd1, 4, 4 + |body|, 2 * |es|, body) && |Enc(Map(es))| == 9 + |body|
  {
    hide EncEntries, BE;
  }

  lemma {:induction false} DescribedSpelling(d: Value, x: Value, following: nat)
    requires var v := Described(d, x); Regular(v) && |Enc(v)| < TWO32 && Roomy(v, following)
    ensures Spelled(Described(d, x), following)
    decreases Described(d, x), 0
  {
    hide *;
    RoomyParts(d, x);
    RegularParts(d, x);
    DescribedParts(d, x);
    EncIsSpelling(d, |Enc(x)| + following);
    EncIsSpelling(x, following);
    DescribedFormOf(d, x, following);
  }

  lemma DescribedFormOf(d: Value, x: Value, following: nat)
    requires Spelled(d, |Enc(x)| + following) && Spelled(x, following) && (d.Ulong? ==> !IsReserved(d.ulong))
    ensures Spelled(Described(d, x), following)
  {
    hide *;
    SpelledParts(d, |Enc(x)| + following);
    SpelledParts(x, following);
    DescribedParts(d, x);
    DescribedUnfold(FormOf(d), FormOf(x), following);
    DescribedFormIs(d, x);
    assert [0] + Enc(d) + Enc(x) == [0] + (Enc(d) + Enc(x));
    SpelledIs(Described(d, x), DescribedForm(FormOf(d), FormOf(x)), following);
  }

  lemma SpelledParts(v: Value, following: nat)
    requires Spelled(v, following)
    ensures Text(FormOf(v)) == Enc(v) && Meaning(FormOf(v)) == v && FormOk(FormOf(v), following)
  {
  }

  lemma DescribedFormIs(d: Value, x: Value)
    ensures FormOf(Described(d, x)) == DescribedForm(FormOf(d), FormOf(x))
  {
  }

  lemma DescribedUnfold(d: Form, x: Form, following: nat)
    ensures var f := DescribedForm(d, x);
      && Text(f) == [0] + (Text(d) + Text(x)) && Meaning(f) == Described(Meaning(d), Meaning(x))
      && (FormOk(f, following) <==>
            && FormOk(d, |Text(x)| + following) && FormOk(x, following)
            && (Meaning(d).Ulong? ==> !IsReserved(Meaning(d).ulong)))
  {
    hide IsReserved, FormsOk, PairsOk, AtomOk, Texts, PairTexts, ListText, Compound, CompositeText, ArrayText, Meanings,
      PairMeanings, FieldsTake, Announced, ListOk, ElementOk;
  }

  lemma {:induction false} CompositeSpelling(code: Byte, fs: seq<Value>, following: nat)
    requires var v := Composite(code, fs); Regular(v) && |Enc(v)| < TWO32 && Roomy(v, following)
    ensures Spelled(Composite(code, fs), following)
    decreases fs, |fs| + 1
  {
    hide *;
    var n := SetCount(fs);
    CompositeCases(code, fs);
    RoomyFields(code, fs, following);
    CompositeTextOf(code, fs, n);
    if n == 0 { NoItems(fs, 0, following); NoWidth(); }
    ItemsSpelling(fs, n, 0, following);
    ItemsLen(fs, 0, n);
    MatchTakes(Schema(code), fs);
    CompositeFormOf(code, fs, following);
  }

  lemma NoWidth()
    ensures 0 < TWO32
  {
  }

  /** Fields of their own type are accepted. */
  lemma MatchTakes(specs: seq<Spec>, fs: seq<Value>)
    requires FieldsMatch(specs, fs)
    ensures FieldsTake(specs, fs)
  {
    hide HasKind, Takes;
    forall k | 0 <= k < |fs| && !fs[k].Null? ensures Takes(specs[k].kind, fs[k]) {
      KindTakes(specs[k].kind, fs[k]);
    }
  }

  lemma KindTakes(kind: Kind, v: Value)
    requires HasKind(kind, v)
    ensures Takes(kind, v)
  {
  }

  lemma CompositeFormOf(code: Byte, fs: seq<Value>, following: nat)
    requires (code == ERROR || IsState(code) || IsLifetime(code)) && FieldsTake(Schema(code), fs)
    requires |Enc(Composite(code, fs))| < TWO32 && SetCount(fs) <= |EncItems(fs, 0, SetCount(fs))|
    requires var n := SetCount(fs); var ws := FormsOf(fs, n);
      && Texts(ws, 0) == EncItems(fs, 0, n) && FormsOk(ws, 0, following)
      && forall k :: 0 <= k < n ==> Meaning(ws[k]) == fs[k]
    ensures Spelled(Composite(code, fs), following)
  {
    hide *;
    var n := SetCount(fs);
    var ws, body := FormsOf(fs, n), EncItems(fs, 0, n);
    TakesLength(Schema(code), fs);
    assert Padded(Meanings(ws), |fs|) == fs;
    var width, size := if n == 0 then 0 else 4, 4 + |body|;
    CompositeTextOf(code, fs, n);
    CompositeUnfold(code, width, size, ws, following);
    if n > 0 { WideFits(size, n, |body| + following); } else { NoListOk(size, |body| + following); }
    CompositeFormIs(code, fs);
    SpelledIs(Composite(code, fs), CompositeForm(code, false, width, size, ws), following);
  }

  lemma TakesLength(specs: seq<Spec>, vs: seq<Value>)
    requires FieldsTake(specs, vs)
    ensures |vs| == |specs|
  {
  }

  lemma NoListOk(size: nat, rest: nat)
    ensures ListOk(0, size, 0, rest)
  {
  }

  lemma CompositeFormIs(code: Byte, fs: seq<Value>)
    ensures var n := SetCount(fs);
      FormOf(Composite(code, fs)) ==
        CompositeForm(code, false, if n == 0 then 0 else 4, 4 + |EncItems(fs, 0, n)|, FormsOf(fs, n))
  {
    hide EncItems;
  }

  lemma CompositeUnfold(code: Byte, width: nat, size: nat, fs: seq<Form>, following: nat)
    requires (code == ERROR || IsState(code) || IsLifetime(code)) && |fs| <= |Schema(code)|
    ensures var f := CompositeForm(code, false, width, size, fs); var vs := Padded(Meanings(fs), |Schema(code)|);
      && Text(f) == CompositeText(code, false, ListText(width, size, |fs|, Texts(fs, 0)))
      && Meaning(f) == Composite(code, vs)
      && (FormOk(f, following) <==>
            && FieldsTake(Schema(code), vs) && ListOk(width, size, |fs|, |Texts(fs, 0)| + following)
            && FormsOk(fs, 0, following))
  {
    hide ListText, CompositeText, ListOk, FormsOk, Texts, FieldsTake, Schema, IsState, IsLifetime;
  }

  lemma CompositeTextOf(code: Byte, fs: seq<Value>, n: nat)
    requires n == SetCount(fs)
    ensures var width := if n == 0 then 0 else 4; var body := EncItems(fs, 0, n);
      && Enc(Composite(code, fs)) == CompositeText(code, false, ListText(width, 4 + |body|, n, body))
      && (n > 0 ==> |Enc(Composite(code, fs))| == 12 + |body|) && (n == 0 ==> body == [])
  {
    hide *;
    var body := EncItems(fs, 0, n);
    if n == 0 {
      NoFields(code, fs);
    } else {
      SomeFields(code, fs, n, body);
    }
  }

  lemma NoFields(code: Byte, fs: seq<Value>)
    requires SetCount(fs) == 0
    ensures EncItems(fs, 0, 0) == []
    ensures Enc(Composite(code, fs)) == CompositeText(code, false, ListText(0, 4 + |EncItems(fs, 0, 0)|, 0, []))
  {
    OneByte(code);
    hide BE, SetCount;
    assert [0, 0x53, code, 0x45] == [0] + (([0x53] + [code]) + [0x45]);
  }

  lemma SomeFields(code: Byte, fs: seq<Value>, n: nat, body: seq<Byte>)
    requires n == SetCount(fs) > 0 && body == EncItems(fs, 0, n)
    ensures Enc(Composite(code, fs)) == CompositeText(code, false, ListText(4, 4 + |body|, n, body))
    ensures |Enc(Composite(code, fs))| == 12 + |body|
  {
    hide EncItems, SetCount;
    OneByte(code);
    hide BE;
    var list := EncCompound(LIST32, n, body);
    assert [0, 0x53, code] + list == [0] + (([0x53] + [code]) + list);
  }

  lemma ArrayTextOf(size: nat, count: nat, code: Byte, body: seq<Byte>)
    requires size == |body|
    ensures var width := if size + 2 <= 255 then 1 else 4;
      EncArrayHeader(size, count, code) + body ==
        ArrayText(width, size + (if size + 2 <= 255 then 2 else 5), count, code, body)
  {
    hide BE;
    var width := if size + 2 <= 255 then 1 else 4;
    var n := size + if size + 2 <= 255 then 2 else 5;
    var head := [if width == 1 then 0xe0 else 0xf0] + BE(n, width) + BE(count, width);
    assert head + [code] + body == head + ([code] + body);
  }

  lemma NumbersSpelling(k: NumKind, es: seq<int>, following: nat)
    requires FaithfulNumbers(k, es) && |Enc(Numbers(k, es))| < TWO32
    ensures Spelled(Numbers(k, es), following)
  {
    hide EncElems, Pow256, BE, InRange, Element, ElementOk, WideCode, NarrowCode, UseNarrow, FaithfulNumbers, ArrayText,
      EncArrayHeader, WideWidth;
    UseNarrowKind(k, es);
    var w := if UseNarrow(k, es) then 1 else WideWidth(k);
    var code := if UseNarrow(k, es) then NarrowCode(k) else WideCode(k);
    var body := EncElems(es, 0, w);
    ElementsOf(k, es);
    ElemsLen(es, 0, w);
    AtLeastCount(|es|, w);
    ArrayTextOf(|body|, |es|, code, body);
    ArrayLen(if |body| + 2 <= 255 then 1 else 4, |body| + (if |body| + 2 <= 255 then 2 else 5), |es|, code, body);
    Pow256Values();
  }

  lemma ElementsOf(k: NumKind, es: seq<int>)
    requires FaithfulNumbers(k, es)
    ensures var w := if UseNarrow(k, es) then 1 else WideWidth(k);
      var code := if UseNarrow(k, es) then NarrowCode(k) else WideCode(k);
      && Element(code) == Some((k, w)) && w > 0 && ElementWidth(code) == w
      && forall e :: e in es ==> ElementOk(code, e)
  {
    hide *;
    UseNarrowKind(k, es);
    var w := if UseNarrow(k, es) then 1 else WideWidth(k);
    var code := if UseNarrow(k, es) then NarrowCode(k) else WideCode(k);
    ElementCodes(k);
    forall e | e in es ensures ElementOk(code, e) {
      FaithfulElement(k, es, e);
      ElementFits(code, k, w, e);
    }
  }

  lemma ElementCodes(k: NumKind)
    ensures Element(WideCode(k)) == Some((k, WideWidth(k))) && ElementWidth(WideCode(k)) == WideWidth(k)
    ensures IsAdaptive(k) ==> Element(NarrowCode(k)) == Some((k, 1)) && ElementWidth(NarrowCode(k)) == 1
  {
  }

  lemma FaithfulElement(k: NumKind, es: seq<int>, e: int)
    requires FaithfulNumbers(k, es) && e in es
    ensures InRange(k, e)
    ensures UseNarrow(k, es) ==> IsAdaptive(k) && if IsSigned(k) then -128 <= e <= 127 else 0 <= e <= 255
  {
    hide Pow256;
  }

  lemma ElementFits(code: Byte, k: NumKind, w: nat, e: int)
    requires Element(code) == Some((k, w)) && InRange(k, e) && w > 0
    requires w == WideWidth(k) || (w == 1 && IsAdaptive(k) && if IsSigned(k) then -128 <= e <= 127 else 0 <= e <= 255)
    ensures ElementOk(code, e)
  {
    hide Element, WideWidth, Pow256;
    Pow256Values();
  }

  lemma BlobsSpelling(k: BlobKind, ss: seq<seq<Byte>>, following: nat)
    requires FaithfulBlobs(ss, following) && |Enc(Blobs(k, ss))| < TWO32
    ensures Spelled(Blobs(k, ss), following)
  {
    var w, code, body := EncBlobsShape(k, ss);
    hide EncChunks, TotalLen, Pow256, BE, BlobWidth, ArrayText, EncArrayHeader, BlobElement, Code8, Code32;
    BlobCodes(k, w);
    BlobElemsFit(ss);
    ArrayTextOf(|body|, |ss|, code, body);
    ArrayLen(if |body| + 2 <= 255 then 1 else 4, |body| + (if |body| + 2 <= 255 then 2 else 5), |ss|, code, body);
    Pow256Values();
    forall s | s in ss ensures |s| < Pow256(w) {
      var m :| 0 <= m < |ss| && ss[m] == s;
    }
  }
}
