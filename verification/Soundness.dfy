/** What the decoder returns is well typed, for every input: the other half of reading every spelling. */
module Soundness {
  import opened Bytes
  import opened Values
  import opened Decode
  import opened RoundTrip

  /** What a target of the given type may hold. */
  predicate Holds(kind: Kind, v: Value) {
    match kind
    case KAny => !v.Sym?
    case KBool => v.Bool?
    case KUbyte => v.Ubyte?
    case KUshort => v.Ushort?
    case KUint => v.Uint?
    case KUlong => v.Ulong?
    case KMillis => v.Ulong?
    case KTime => v.Timestamp?
    case KStr => v.Str?
    case KSym => v.Sym?
    case KBin => v.Binary?
    case KMapStr => v.Map? && forall e :: e in v.entries ==> e.key.Str?
    case KMapSym => v.Map? && forall e :: e in v.entries ==> e.key.Sym?
    case KAnnotations => v.Map?
    case KList => v.List?
    case KState => v.Composite? && IsState(v.code)
    case KError => v.Composite? && v.code == ERROR
    case KSymbols => v.Blobs? && v.blob.ArrSymbol?
  }

  predicate HoldsAll(specs: seq<Spec>, fs: seq<Value>) {
    && |fs| == |specs|
    && forall k :: 0 <= k < |fs| ==> if fs[k].Null? then !specs[k].required else Holds(specs[k].kind, fs[k])
  }

  /** Composites agree with their tables, with no required field missing, and map keys can be hashed. */
  predicate Typed(v: Value)
    decreases v
  {
    match v
    case List(vs) => forall x :: x in vs ==> Typed(x)
    case Map(es) => forall e :: e in es ==> Typed(e.key) && Typed(e.val) && Hashable(e.key)
    case Described(d, x) => Typed(d) && Typed(x)
    case Composite(code, fs) =>
      && (code == ERROR || IsState(code) || IsLifetime(code)) && HoldsAll(Schema(code), fs)
      && forall x :: x in fs ==> Typed(x)
    case _ => true
  }

  predicate AllTyped(vs: seq<Value>) { forall x :: x in vs ==> Typed(x) }

  predicate EntriesTyped(keys: Kind, es: seq<Entry>) {
    forall e :: e in es ==>
      && Typed(e.key) && Typed(e.val) && Hashable(e.key)
      && (keys.KStr? ==> e.key.Str?) && (keys.KSym? ==> e.key.Sym?) && (keys.KAny? ==> !IsSlice(e.key))
  }

  lemma {:induction false} PutTyped(keys: Kind, m: seq<Entry>, key: Value, val: Value)
    requires EntriesTyped(keys, m) && EntriesTyped(keys, [Entry(key, val)])
    ensures EntriesTyped(keys, Put(m, key, val))
  {
    hide Typed, Hashable, SameKey, IsSlice, EntriesTyped, HasKey;
    if m != [] {
      assert m == [m[0]] + m[1..];
      TypedAppend(keys, [m[0]], m[1..]);
      if SameKey(m[0].key, key) {
        KeyKept(keys, m[0], Entry(key, val));
        TypedAppend(keys, [Entry(m[0].key, val)], m[1..]);
      } else {
        PutTyped(keys, m[1..], key, val);
        TypedAppend(keys, [m[0]], Put(m[1..], key, val));
      }
    }
  }

  lemma TypedAppend(keys: Kind, xs: seq<Entry>, ys: seq<Entry>)
    ensures EntriesTyped(keys, xs + ys) <==> EntriesTyped(keys, xs) && EntriesTyped(keys, ys)
  {
    hide Typed, Hashable, IsSlice;
    assert forall e :: e in xs + ys <==> e in xs || e in ys;
  }

  lemma KeyKept(keys: Kind, a: Entry, b: Entry)
    requires EntriesTyped(keys, [a]) && EntriesTyped(keys, [b])
    ensures EntriesTyped(keys, [Entry(a.key, b.val)])
  {
    hide Typed, Hashable, IsSlice;
    assert a in [a] && b in [b];
  }

  /** Every value that is read is well typed. */
  lemma {:induction false} AnyTyped(b: seq<Byte>, i: nat)
    ensures var r := ReadAny(b, i); r.Ok? ==> Typed(r.v) && Holds(KAny, r.v)
    decreases |b| - i, 2
  {
    hide ReadList, ReadMap, ReadComposite, ReadArray, ReadScalar, Typed;
    if i < |b| && ReadAny(b, i).Ok? {
      if b[i] == 0 {
        CompositeTyped(b, i);
      } else if b[i] == ARRAY8 || b[i] == ARRAY32 {
        ArrayTyped(b, i);
      } else if b[i] == LIST0 || b[i] == LIST8 || b[i] == LIST32 {
        ListTyped(b, i);
      } else if b[i] == MAP8 || b[i] == MAP32 {
        MapTyped(KAny, b, i);
      } else {
        ScalarTyped(b, i);
        NullTyped();
      }
    }
  }

  lemma NullTyped()
    ensures Typed(Null)
  {
  }

  lemma ScalarTyped(b: seq<Byte>, i: nat)
    requires i < |b|
    ensures var r := ReadScalar(b, i); r.Ok? ==> Typed(r.v) && Holds(KAny, r.v)
  {
    hide Num, Pow256;
  }

  lemma ArrayTyped(b: seq<Byte>, i: nat)
    ensures var r := ReadArray(b, i); r.Ok? ==> Typed(r.v) && (r.v.Numbers? || r.v.Blobs?)
  {
    hide ReadSized, ReadChunks, ReadElems, NumKindOf, BlobKindOf;
  }

  lemma {:induction false} ListTyped(b: seq<Byte>, i: nat)
    ensures var r := ReadList(b, i); r.Ok? ==> r.v.List? && Typed(r.v)
    decreases |b| - i, 0
  {
    hide ReadListHeader, ReadItems;
    var h := ReadListHeader(b, i);
    if h.Ok? && h.v <= |b| - h.i { ItemsTyped(b, h.i, h.v); }
  }

  lemma {:induction false} ItemsTyped(b: seq<Byte>, i: nat, n: nat)
    requires i <= |b|
    ensures var r := ReadItems(b, i, n); r.Ok? ==> AllTyped(r.v)
    decreases |b| - i, 4, n
  {
    hide ReadAny, Typed;
    if n > 0 {
      AnyTyped(b, i);
      var v := ReadAny(b, i);
      if v.Ok? { ItemsTyped(b, v.i, n - 1); }
    }
  }

  lemma {:induction false} MapTyped(keys: Kind, b: seq<Byte>, i: nat)
    ensures var r := ReadMap(keys, b, i); r.Ok? ==> r.v.Map? && Typed(r.v) && EntriesTyped(keys, r.v.entries)
    decreases |b| - i, 0
  {
    hide ReadMapHeader, ReadEntries;
    var h := ReadMapHeader(b, i);
    if h.Ok? {
      var count: int := h.v;
      EntriesRead(keys, b, h.i, (count + 1) / 2, []);
    }
  }

  lemma {:induction false} EntriesRead(keys: Kind, b: seq<Byte>, i: nat, n: nat, m: seq<Entry>)
    requires i <= |b| && EntriesTyped(keys, m)
    ensures var r := ReadEntries(keys, b, i, n, m); r.Ok? ==> EntriesTyped(keys, r.v)
    decreases |b| - i, 4, n
  {
    hide ReadAny, ReadKey, Typed, Hashable, Put, EntriesTyped, IsSlice;
    if n > 0 {
      var key := ReadKey(keys, b, i);
      KeyTyped(keys, b, i);
      if key.Ok? {
        AnyTyped(b, key.i);
        var val := ReadAny(b, key.i);
        if val.Ok? && Hashable(key.v) && !(keys.KAny? && IsSlice(key.v)) {
          OneTyped(keys, key.v, val.v);
          PutTyped(keys, m, key.v, val.v);
          EntriesRead(keys, b, val.i, n - 1, Put(m, key.v, val.v));
        }
      }
    }
  }

  lemma OneTyped(keys: Kind, key: Value, val: Value)
    requires Typed(key) && Typed(val) && Hashable(key)
    requires (keys.KStr? ==> key.Str?) && (keys.KSym? ==> key.Sym?) && (keys.KAny? ==> !IsSlice(key))
    ensures EntriesTyped(keys, [Entry(key, val)])
  {
    hide Typed, Hashable, IsSlice;
  }

  lemma {:induction false} KeyTyped(keys: Kind, b: seq<Byte>, i: nat)
    requires i <= |b|
    ensures var r := ReadKey(keys, b, i);
      r.Ok? ==> Typed(r.v) && (keys.KStr? ==> r.v.Str?) && (keys.KSym? ==> r.v.Sym?)
    decreases |b| - i, 3
  {
    hide ReadAny, ReadString;
    if !keys.KStr? && !keys.KSym? { AnyTyped(b, i); }
  }

  lemma {:induction false} CompositeTyped(b: seq<Byte>, i: nat)
    requires i < |b| && b[i] == 0
    ensures var r := ReadComposite(b, i); r.Ok? ==> Typed(r.v) && (r.v.Composite? || r.v.Described?)
    decreases |b| - i, 1
  {
    hide ReadAny, ReadFieldsOf, PeekDescriptor, HoldsAll, Schema;
    var d := PeekDescriptor(b, i);
    if d.Some? {
      var code := d.value;
      if code == ERROR || IsState(code) {
        FieldsOfTyped(code, Schema(code), b, i);
      } else if IsLifetime(code) {
        LifetimeTyped(b, i, code);
      } else if !IsUnreadable(code) {
        AnyTyped(b, i + 1);
        var x := ReadAny(b, i + 1);
        if x.Ok? { AnyTyped(b, x.i); }
      }
    }
  }

  /** The header says what the descriptor said. */
  lemma LifetimeTyped(b: seq<Byte>, i: nat, code: U64)
    requires PeekDescriptor(b, i) == Some(code) && IsLifetime(code)
    ensures var h := ReadCompositeHeader(b, i); h.Ok? ==> h.v.0 == code && HoldsAll(Schema(code), [])
  {
    hide ReadListHeader, Pow256;
    Pow256Values();
  }

  /** The fields of a composite agree with the table, and none that is required is missing. */
  lemma {:induction false} FieldsOfTyped(code: Byte, specs: seq<Spec>, b: seq<Byte>, i: nat)
    ensures var r := ReadFieldsOf(code, specs, b, i); r.Ok? ==> HoldsAll(specs, r.v) && AllTyped(r.v)
    decreases |b| - i, 0
  {
    hide ReadCompositeHeader, ReadFields;
    var h := ReadCompositeHeader(b, i);
    if h.Ok? && h.v.1 <= |specs| {
      FieldsTyped(specs, 0, h.v.1, b, h.i);
      assert specs[0..] == specs;
    }
  }

  lemma {:induction false} FieldsTyped(specs: seq<Spec>, k: nat, n: nat, b: seq<Byte>, i: nat)
    requires k <= |specs| && n <= |specs| && i <= |b|
    ensures var r := ReadFields(specs, k, n, b, i); r.Ok? ==> HoldsAll(specs[k..], r.v) && AllTyped(r.v)
    decreases |b| - i, 4, |specs| - k
  {
    hide Unmarshal, Holds, Typed;
    if k < |specs| {
      if k < n { UnmarshalTyped(specs[k].kind, b, i); }
      NullTyped();
      var f := if k < n then Unmarshal(specs[k].kind, b, i) else Ok(Null, i);
      if f.Ok? {
        FieldsTyped(specs, k + 1, n, b, f.i);
        var fs := ReadFields(specs, k + 1, n, b, f.i);
        if fs.Ok? && (f.v.Null? ==> !specs[k].required) { HoldsCons(specs, k, f.v, fs.v); }
      }
    }
  }

  lemma HoldsCons(specs: seq<Spec>, k: nat, f: Value, fs: seq<Value>)
    requires k < |specs| && HoldsAll(specs[k + 1..], fs) && AllTyped(fs) && Typed(f)
    requires if f.Null? then !specs[k].required else Holds(specs[k].kind, f)
    ensures HoldsAll(specs[k..], [f] + fs) && AllTyped([f] + fs)
  {
    hide Holds, Typed;
    assert specs[k..] == [specs[k]] + specs[k + 1..];
  }

  /** A target holds null or a value of its own type, for every input that is read into it. */
  lemma {:induction false} UnmarshalTyped(kind: Kind, b: seq<Byte>, i: nat)
    requires i <= |b|
    ensures var r := Unmarshal(kind, b, i); r.Ok? ==> Typed(r.v) && (r.v.Null? || Holds(kind, r.v))
    decreases |b| - i, 3
  {
    hide ReadAny, ReadMap, ReadList, ReadFieldsOf, ReadArray, ReadString, ReadBinary, ReadBool, ReadUbyte, ReadUshort,
      ReadUint, ReadUlong, ReadAnyUint, ReadTimestamp, PeekDescriptor, Schema, HoldsAll, IsState;
    if i < |b| && b[i] == NULL {
      NullTyped();
    } else if kind.KAny? {
      AnyTyped(b, i);
    } else if kind.KMapStr? || kind.KMapSym? || kind.KAnnotations? {
      MapTyped(if kind.KMapStr? then KStr else if kind.KMapSym? then KSym else KAnnotations, b, i);
    } else if kind.KList? {
      ListTyped(b, i);
    } else if kind.KError? {
      FieldsOfTyped(ERROR, Schema(ERROR), b, i);
    } else if kind.KState? {
      var d := PeekDescriptor(b, i);
      if d.Some? { FieldsOfTyped(d.value % 256, Schema(d.value % 256), b, i); }
    } else if kind.KSymbols? {
      ArrayTyped(b, i);
    }
  }

  // What is refused.

  /** Nothing else than the constructors of section 1.6, without decimals and char, is read. */
  lemma KnownConstructor(b: seq<Byte>, i: nat)
    requires ReadAny(b, i).Ok?
    ensures i < |b| && b[i] in
      {0x00, 0x40, 0x41, 0x42, 0x43, 0x44, 0x45, 0x50, 0x51, 0x52, 0x53, 0x54, 0x55, 0x56, 0x60, 0x61, 0x70, 0x71, 0x72,
       0x80, 0x81, 0x82, 0x83, 0x98, 0xa0, 0xa1, 0xa3, 0xb0, 0xb1, 0xb3, 0xc0, 0xc1, 0xd0, 0xd1, 0xe0, 0xf0}
  {
    hide ReadList, ReadMap, ReadComposite, ReadArray, ReadUnsignedScalar, ReadSignedScalar, ReadText, Num;
  }

  /** The size that a compound or an array announces, behind its constructor. */
  function AnnouncedSize(b: seq<Byte>, i: nat): nat
    requires i < |b|
  {
    if b[i] in {0xc0, 0xc1, 0xe0} && i + 1 < |b| then b[i + 1]
    else if b[i] in {0xd0, 0xd1, 0xf0} && i + 5 <= |b| then Num(b[i + 1..i + 5])
    else 0
  }

  /** No compound or array is read whose announced size is more than what is there, counted after the size. */
  lemma SizeChecked(b: seq<Byte>, i: nat)
    requires i < |b| && b[i] in {0xc0, 0xd0, 0xc1, 0xd1, 0xe0, 0xf0} && ReadAny(b, i).Ok?
    ensures AnnouncedSize(b, i) <= |b| - (i + if b[i] in {0xc0, 0xc1, 0xe0} then 2 else 5)
  {
    hide ReadItems, ReadEntries, ReadNumbers, ReadBlobs, ReadComposite, ReadScalar, NumKindOf, BlobKindOf;
  }

  /** Of a descriptor in eight octets only the last one is looked at, wherever the type of the composite is known. */
  lemma HighOctetsIgnored(b: seq<Byte>, i: nat)
    requires i + 10 <= |b| && b[i] == 0x00 && b[i + 1] == 0x80
    ensures ReadCompositeHeader(b, i) ==
      match ReadListHeader(b, i + 10)
      case Ok(n, k) => Ok((b[i + 9], n), k)
      case Bad => Bad
      case Panic => Panic
  {
    hide ReadListHeader;
    var s := b[i + 2..i + 10];
    assert Num(s) == Num(s[..7]) * 256 + s[7];
    hide Num;
  }

  /** Fields are read only from a composite with the right descriptor and no more fields than the table has. */
  lemma HeaderChecked(code: Byte, specs: seq<Spec>, b: seq<Byte>, i: nat)
    requires ReadFieldsOf(code, specs, b, i).Ok?
    ensures var h := ReadCompositeHeader(b, i);
      && h.Ok? && h.v.0 == code && h.v.1 <= |specs|
      && i + 1 < |b| && b[i] == 0x00 && b[i + 1] in {0x44, 0x53, 0x80}
      && (b[i + 1] == 0x53 ==> i + 2 < |b| && b[i + 2] == code)
  {
    hide ReadListHeader, ReadFields, Num, Pow256;
  }
}
