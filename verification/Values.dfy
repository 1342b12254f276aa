/** The values that the codec carries: the AMQP primitive, compound, described and
    composite types, together with the type codes and the composite field tables. */
module Values {
  import opened Bytes

  /** Element types of an array of numbers. */
  datatype NumKind =
    | ArrUbyte | ArrByte | ArrUshort | ArrShort | ArrUint | ArrInt | ArrUlong | ArrLong
    | ArrFloat | ArrDouble | ArrBool | ArrTimestamp | ArrUuid

  /** Element types of an array of octet strings. */
  datatype BlobKind = ArrBinary | ArrString | ArrSymbol

  /** A dynamically typed value. Floats are their bit patterns, a timestamp is its number of
      milliseconds, and a UUID is its 16 octets read as one big-endian number. A map is its
      list of entries in iteration order; its static key type is determined by those keys. A
      composite holds one value for each field of its table, null for an omitted one. */
  datatype Value =
    | Null
    | Bool(b: bool)
    | Ubyte(ubyte: Byte)
    | Ushort(ushort: U16)
    | Uint(uint: U32)
    | Ulong(ulong: U64)
    | SByte(sbyte: I8)
    | Short(short: I16)
    | Int(int32: I32)
    | Long(long: I64)
    | Float(bits32: U32)
    | Double(bits64: U64)
    | Timestamp(ms: I64)
    | Uuid(id: U128)
    | Binary(bin: seq<Byte>)
    | Str(str: seq<Byte>)
    | Sym(sym: seq<Byte>)
    | List(items: seq<Value>)
    | Map(entries: seq<Entry>)
    | Described(descriptor: Value, value: Value)
    | Composite(code: Byte, fields: seq<Value>)
    | Numbers(num: NumKind, elems: seq<int>)
    | Blobs(blob: BlobKind, blobs: seq<seq<Byte>>)

  datatype Entry = Entry(key: Value, val: Value)

  // Type codes.
  const NULL: Byte := 0x40
  const TRUE: Byte := 0x41
  const FALSE: Byte := 0x42
  const BOOL: Byte := 0x56
  const UBYTE: Byte := 0x50
  const USHORT: Byte := 0x60
  const UINT: Byte := 0x70
  const SMALL_UINT: Byte := 0x52
  const UINT0: Byte := 0x43
  const ULONG: Byte := 0x80
  const SMALL_ULONG: Byte := 0x53
  const ULONG0: Byte := 0x44
  const BYTE: Byte := 0x51
  const SHORT: Byte := 0x61
  const INT: Byte := 0x71
  const SMALL_INT: Byte := 0x54
  const LONG: Byte := 0x81
  const SMALL_LONG: Byte := 0x55
  const FLOAT: Byte := 0x72
  const DOUBLE: Byte := 0x82
  const TIMESTAMP: Byte := 0x83
  const UUID: Byte := 0x98
  const VBIN8: Byte := 0xa0
  const VBIN32: Byte := 0xb0
  const STR8: Byte := 0xa1
  const STR32: Byte := 0xb1
  const SYM8: Byte := 0xa3
  const SYM32: Byte := 0xb3
  const LIST0: Byte := 0x45
  const LIST8: Byte := 0xc0
  const LIST32: Byte := 0xd0
  const MAP8: Byte := 0xc1
  const MAP32: Byte := 0xd1
  const ARRAY8: Byte := 0xe0
  const ARRAY32: Byte := 0xf0

  // Composite codes.
  const ERROR: Byte := 0x1d
  const RECEIVED: Byte := 0x23
  const REJECTED: Byte := 0x25
  const MODIFIED: Byte := 0x27

  /** received, accepted, rejected, released and modified. */
  predicate IsState(code: int) { RECEIVED <= code <= MODIFIED }

  /** delete-on-close, -no-links, -no-messages and -no-links-or-messages. */
  predicate IsLifetime(code: int) { 0x2b <= code <= 0x2e }

  /** Composite codes for which reading a dynamically typed value reports an error: the
      performatives, source, target, message sections and SASL bodies. */
  predicate IsUnreadable(code: int) {
    0x10 <= code <= 0x18 || code == 0x28 || code == 0x29 || 0x40 <= code <= 0x44 || 0x70 <= code <= 0x78
  }

  /** Descriptors that select a composite type instead of a plain described value. */
  predicate IsReserved(code: int) {
    code == ERROR || IsState(code) || IsLifetime(code) || IsUnreadable(code)
  }

  // Tables for arrays of numbers.

  function WideCode(k: NumKind): Byte {
    match k
    case ArrUbyte => UBYTE
    case ArrByte => BYTE
    case ArrUshort => USHORT
    case ArrShort => SHORT
    case ArrUint => UINT
    case ArrInt => INT
    case ArrUlong => ULONG
    case ArrLong => LONG
    case ArrFloat => FLOAT
    case ArrDouble => DOUBLE
    case ArrBool => BOOL
    case ArrTimestamp => TIMESTAMP
    case ArrUuid => UUID
  }

  function WideWidth(k: NumKind): (w: nat)
    ensures w > 0
  {
    match k
    case ArrUbyte => 1
    case ArrByte => 1
    case ArrUshort => 2
    case ArrShort => 2
    case ArrUint => 4
    case ArrInt => 4
    case ArrUlong => 8
    case ArrLong => 8
    case ArrFloat => 4
    case ArrDouble => 8
    case ArrBool => 1
    case ArrTimestamp => 8
    case ArrUuid => 16
  }

  predicate IsSigned(k: NumKind) {
    k.ArrByte? || k.ArrShort? || k.ArrInt? || k.ArrLong? || k.ArrTimestamp?
  }

  /** Arrays of 32- and 64-bit integers have a one-octet element form. */
  predicate IsAdaptive(k: NumKind) {
    k.ArrUint? || k.ArrInt? || k.ArrUlong? || k.ArrLong?
  }

  function NarrowCode(k: NumKind): Byte
    requires IsAdaptive(k)
  {
    match k
    case ArrUint => SMALL_UINT
    case ArrInt => SMALL_INT
    case ArrUlong => SMALL_ULONG
    case ArrLong => SMALL_LONG
  }

  /** The element type of an array whose element constructor is `code`. */
  function NumKindOf(code: Byte): Option<NumKind> {
    if code == BYTE then Some(ArrByte)
    else if code == UBYTE then Some(ArrUbyte)
    else if code == USHORT then Some(ArrUshort)
    else if code == SHORT then Some(ArrShort)
    else if code == UINT0 || code == SMALL_UINT || code == UINT then Some(ArrUint)
    else if code == SMALL_INT || code == INT then Some(ArrInt)
    else if code == ULONG0 || code == SMALL_ULONG || code == ULONG then Some(ArrUlong)
    else if code == SMALL_LONG || code == LONG then Some(ArrLong)
    else if code == FLOAT then Some(ArrFloat)
    else if code == DOUBLE then Some(ArrDouble)
    else if code == BOOL || code == TRUE || code == FALSE then Some(ArrBool)
    else if code == TIMESTAMP then Some(ArrTimestamp)
    else if code == UUID then Some(ArrUuid)
    else None
  }

  predicate InRange(k: NumKind, e: int) {
    if k.ArrBool? then e == 0 || e == 1
    else if IsSigned(k) then 0 <= 2 * e + Pow256(WideWidth(k)) && 2 * e < Pow256(WideWidth(k))
    else 0 <= e < Pow256(WideWidth(k))
  }

  // Tables for arrays of octet strings.

  function Code8(k: BlobKind): Byte {
    match k
    case ArrBinary => VBIN8
    case ArrString => STR8
    case ArrSymbol => SYM8
  }

  function Code32(k: BlobKind): Byte {
    match k
    case ArrBinary => VBIN32
    case ArrString => STR32
    case ArrSymbol => SYM32
  }

  function BlobKindOf(code: Byte): Option<BlobKind> {
    if code == STR8 || code == STR32 then Some(ArrString)
    else if code == SYM8 || code == SYM32 then Some(ArrSymbol)
    else if code == VBIN8 || code == VBIN32 then Some(ArrBinary)
    else None
  }

  /** The static type of a decoding target. */
  datatype Kind =
    | KAny | KBool | KUbyte | KUshort | KUint | KUlong | KTime | KMillis | KStr | KSym | KBin
    | KMapStr | KMapSym | KAnnotations | KList | KState | KError | KSymbols

  /** A field of a composite: its target type, and whether a null is an error. */
  datatype Spec = Spec(kind: Kind, required: bool)

  function Opt(k: Kind): Spec { Spec(k, false) }

  function Req(k: Kind): Spec { Spec(k, true) }

  /** Field tables of the composites that can appear inside values. */
  function Schema(code: int): seq<Spec> {
    if code == ERROR then [Req(KSym), Opt(KStr), Opt(KMapStr)]
    else if code == RECEIVED then [Req(KUint), Req(KUlong)]
    else if code == REJECTED then [Opt(KError)]
    else if code == MODIFIED then [Opt(KBool), Opt(KBool), Opt(KAnnotations)]
    else []
  }

  predicate IsNaN32(bits: U32) { bits % 0x8000_0000 > 0x7f80_0000 }

  predicate IsNaN64(bits: U64) { bits % 0x8000_0000_0000_0000 > 0x7ff0_0000_0000_0000 }

  /** Go's equality on keys: floats are compared as numbers, errors and delivery states are pointers to what
      was decoded and so never equal, and all else is compared by value. */
  predicate SameKey(a: Value, b: Value)
    decreases a
  {
    if a.Float? && b.Float? then
      !IsNaN32(a.bits32) && (a.bits32 == b.bits32 || (a.bits32 % 0x8000_0000 == 0 && b.bits32 % 0x8000_0000 == 0))
    else if a.Double? && b.Double? then
      && !IsNaN64(a.bits64)
      && (a.bits64 == b.bits64 || (a.bits64 % 0x8000_0000_0000_0000 == 0 && b.bits64 % 0x8000_0000_0000_0000 == 0))
    else if a.Described? && b.Described? then SameKey(a.descriptor, b.descriptor) && SameKey(a.value, b.value)
    else a == b && (a.Composite? ==> IsLifetime(a.code))
  }

  /** For example, the two zeros are equal, and a number that is not one is not equal to itself. */
  lemma FloatKeys()
    ensures SameKey(Float(0), Float(0x8000_0000)) && SameKey(Double(0), Double(0x8000_0000_0000_0000))
    ensures !SameKey(Float(0x7fc0_0000), Float(0x7fc0_0000))
    ensures !SameKey(Double(0x7ff8_0000_0000_0000), Double(0x7ff8_0000_0000_0000))
    ensures SameKey(Float(0x7f80_0000), Float(0x7f80_0000)) && !SameKey(Float(0), Double(0))
  {
  }

  predicate HasKey(m: seq<Entry>, key: Value) {
    m != [] && (SameKey(m[0].key, key) || HasKey(m[1..], key))
  }

  /** Go map assignment on an entry list: a new value for the entry of an equal key, else a new entry. */
  function Put(m: seq<Entry>, key: Value, val: Value): (r: seq<Entry>)
    ensures |r| == |m| + if HasKey(m, key) then 0 else 1
  {
    if m == [] then [Entry(key, val)]
    else if SameKey(m[0].key, key) then [Entry(m[0].key, val)] + m[1..]
    else [m[0]] + Put(m[1..], key, val)
  }

  lemma {:induction false} PutFresh(m: seq<Entry>, key: Value, val: Value)
    requires !HasKey(m, key)
    ensures Put(m, key, val) == m + [Entry(key, val)]
  {
    if m != [] {
      PutFresh(m[1..], key, val);
      assert m == [m[0]] + m[1..];
    }
  }

  lemma {:induction false} HasKeyAppend(m: seq<Entry>, e: Entry, key: Value)
    ensures HasKey(m + [e], key) <==> HasKey(m, key) || SameKey(e.key, key)
  {
    if m == [] {
      assert (m + [e])[1..] == [];
    } else {
      HasKeyAppend(m[1..], e, key);
      assert (m + [e])[1..] == m[1..] + [e];
    }
  }

  /** Entries stored one after the other. */
  function PutAll(m: seq<Entry>, es: seq<Entry>): seq<Entry>
    decreases |es|
  {
    if es == [] then m else PutAll(Put(m, es[0].key, es[0].val), es[1..])
  }

  predicate Distinct(es: seq<Entry>) { forall j, k :: 0 <= j < k < |es| ==> !SameKey(es[j].key, es[k].key) }

  predicate AllNew(m: seq<Entry>, es: seq<Entry>) { forall k :: 0 <= k < |es| ==> !HasKey(m, es[k].key) }

  /** All entries are kept, in order, if and only if no key is equal to one that is already there. */
  lemma {:induction false} PutAllKeeps(m: seq<Entry>, es: seq<Entry>)
    ensures |PutAll(m, es)| <= |m| + |es|
    ensures PutAll(m, es) == m + es <==> AllNew(m, es) && Distinct(es)
    decreases |es|
  {
    hide HasKey, SameKey, Put;
    if es == [] {
      assert m + es == m;
    } else {
      var e, rest := es[0], es[1..];
      PutAllKeeps(Put(m, e.key, e.val), rest);
      if HasKey(m, e.key) {
        assert |PutAll(m, es)| < |m| + |es|;
      } else {
        PutFresh(m, e.key, e.val);
        assert e == Entry(e.key, e.val) && es == [e] + rest;
        assert (m + [e]) + rest == m + es;
        NewAfter(m, e, rest);
        hide AllNew, Distinct;
      }
    }
  }

  lemma NewAfter(m: seq<Entry>, e: Entry, es: seq<Entry>)
    requires !HasKey(m, e.key)
    ensures AllNew(m + [e], es) && Distinct(es) <==> AllNew(m, [e] + es) && Distinct([e] + es)
  {
    var all := [e] + es;
    forall k | 0 <= k < |es| ensures HasKey(m + [e], es[k].key) <==> HasKey(m, es[k].key) || SameKey(e.key, es[k].key) {
      HasKeyAppend(m, e, es[k].key);
    }
    hide HasKey, SameKey;
    assert forall k :: 0 <= k < |es| ==> all[k + 1] == es[k];
    if AllNew(m + [e], es) && Distinct(es) {
      forall j, k | 0 <= j < k < |all| ensures !SameKey(all[j].key, all[k].key) {
        if j > 0 { assert all[j] == es[j - 1] && all[k] == es[k - 1]; } else { assert all[k] == es[k - 1]; }
      }
      forall k | 0 <= k < |all| ensures !HasKey(m, all[k].key) {
        if k > 0 { assert all[k] == es[k - 1]; }
      }
    }
    if AllNew(m, all) && Distinct(all) {
      forall k | 0 <= k < |es| ensures !HasKey(m + [e], es[k].key) {
        assert all[k + 1] == es[k] && all[0] == e;
      }
      forall j, k | 0 <= j < k < |es| ensures !SameKey(es[j].key, es[k].key) {
        assert all[j + 1] == es[j] && all[k + 1] == es[k];
      }
    }
  }

  /** Values that are slices or maps in Go. */
  predicate IsSlice(v: Value) { v.Binary? || v.List? || v.Map? || v.Numbers? || v.Blobs? }

  /** Keys that Go can hash: neither slices and maps, nor described values that hold one. */
  predicate Hashable(v: Value)
    decreases v
  {
    !IsSlice(v) && (v.Described? ==> Hashable(v.descriptor) && Hashable(v.value))
  }
}
