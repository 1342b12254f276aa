/** What the decoder does for each buffer and cursor. `b` is the whole buffer and `i` the cursor; a
    successful read gives the value and the new cursor. The other outcomes are an error and a run-time
    panic. Every function here is total, and its contract bounds the cursor. */
module Decode {
  import opened Bytes
  import opened Values

  datatype Read<+T> = Bad | Panic | Ok(v: T, i: nat) {
    predicate IsFailure() { !Ok? }

    function PropagateFailure<U>(): Read<U>
      requires !Ok?
    {
      if Bad? then Bad else Panic
    }

    function Extract(): (T, nat)
      requires Ok?
    {
      (v, i)
    }
  }

  /** The cursor moved forward and stayed inside the buffer. */
  predicate Advanced<T>(r: Read<T>, b: seq<Byte>, i: nat) {
    r.Ok? ==> i < r.i <= |b|
  }

  // Raw reads.

  function ReadByte(b: seq<Byte>, i: nat): (r: Read<Byte>)
    ensures Advanced(r, b, i)
  {
    if i + 1 > |b| then Bad else Ok(b[i], i + 1)
  }

  function Next(b: seq<Byte>, i: nat, n: nat): (r: Read<seq<Byte>>)
    ensures r.Ok? ==> r.i == i + n <= |b| && |r.v| == n && At(b, i, r.v)
  {
    if i + n > |b| then Bad else Ok(b[i..i + n], i + n)
  }

  function ReadNum(b: seq<Byte>, i: nat, k: nat): (r: Read<nat>)
    ensures r.Ok? ==> r.i == i + k <= |b| && r.v < Pow256(k)
  {
    if i + k > |b| then Bad else Ok(Num(b[i..i + k]), i + k)
  }

  function ReadU32(b: seq<Byte>, i: nat): (r: Read<U32>)
    ensures Advanced(r, b, i)
  {
    Pow256Values();
    var (n, j) :- ReadNum(b, i, 4);
    Ok(n, j)
  }

  function ReadU64(b: seq<Byte>, i: nat): (r: Read<U64>)
    ensures Advanced(r, b, i)
  {
    Pow256Values();
    var (n, j) :- ReadNum(b, i, 8);
    Ok(n, j)
  }

  function ReadSigned(b: seq<Byte>, i: nat, k: nat): (r: Read<int>)
    ensures r.Ok? ==> r.i == i + k <= |b| && 0 <= 2 * r.v + Pow256(k) && 2 * r.v < Pow256(k)
  {
    var (n, j) :- ReadNum(b, i, k);
    Ok(Signed(n, k), j)
  }

  // Typed scalar readers; each consumes the constructor octet first.

  function ReadUbyte(b: seq<Byte>, i: nat): (r: Read<Byte>)
    ensures Advanced(r, b, i)
  {
    if i < |b| && b[i] == UBYTE then ReadByte(b, i + 1) else Bad
  }

  function ReadUshort(b: seq<Byte>, i: nat): (r: Read<U16>)
    ensures Advanced(r, b, i)
  {
    if i < |b| && b[i] == USHORT then
      Pow256Values();
      var (n, j) :- ReadNum(b, i + 1, 2);
      Ok(n, j)
    else Bad
  }

  function ReadUint(b: seq<Byte>, i: nat): (r: Read<U32>)
    ensures Advanced(r, b, i)
  {
    if i >= |b| then Bad
    else if b[i] == UINT0 then Ok(0, i + 1)
    else if b[i] == SMALL_UINT then var (n, j) :- ReadByte(b, i + 1); Ok(n, j)
    else if b[i] == UINT then ReadU32(b, i + 1)
    else Bad
  }

  function ReadUlong(b: seq<Byte>, i: nat): (r: Read<U64>)
    ensures Advanced(r, b, i)
  {
    if i >= |b| then Bad
    else if b[i] == ULONG0 then Ok(0, i + 1)
    else if b[i] == SMALL_ULONG then var (n, j) :- ReadByte(b, i + 1); Ok(n, j)
    else if b[i] == ULONG then ReadU64(b, i + 1)
    else Bad
  }

  /** `readUint`: any unsigned type. */
  function ReadAnyUint(b: seq<Byte>, i: nat): (r: Read<U64>)
    ensures Advanced(r, b, i)
  {
    if i >= |b| then Bad
    else if b[i] == UINT0 || b[i] == ULONG0 then Ok(0, i + 1)
    else if b[i] == UBYTE || b[i] == SMALL_UINT || b[i] == SMALL_ULONG then var (n, j) :- ReadByte(b, i + 1); Ok(n, j)
    else if b[i] == USHORT then var (n, j) :- ReadUshort(b, i); Ok(n, j)
    else if b[i] == UINT then var (n, j) :- ReadU32(b, i + 1); Ok(n, j)
    else if b[i] == ULONG then ReadU64(b, i + 1)
    else Bad
  }

  function ReadBool(b: seq<Byte>, i: nat): (r: Read<bool>)
    ensures Advanced(r, b, i)
  {
    if i >= |b| then Bad
    else if b[i] == BOOL then var (n, j) :- ReadByte(b, i + 1); Ok(n != 0, j)
    else if b[i] == TRUE then Ok(true, i + 1)
    else if b[i] == FALSE then Ok(false, i + 1)
    else Bad
  }

  function ReadTimestamp(b: seq<Byte>, i: nat): (r: Read<I64>)
    ensures Advanced(r, b, i)
  {
    if i < |b| && b[i] == TIMESTAMP then
      Pow256Values();
      var (n, j) :- ReadSigned(b, i + 1, 8);
      Ok(n, j)
    else Bad
  }

  /** A length-prefixed octet string whose constructor is one of the given codes. */
  function ReadVar(b: seq<Byte>, i: nat, narrow: set<Byte>, wide: set<Byte>): (r: Read<seq<Byte>>)
    ensures Advanced(r, b, i)
  {
    if i >= |b| then Bad
    else if b[i] in narrow then
      var (n, j) :- ReadByte(b, i + 1);
      Next(b, j, n)
    else if b[i] in wide then
      var (n, j) :- ReadU32(b, i + 1);
      Next(b, j, n)
    else Bad
  }

  function ReadString(b: seq<Byte>, i: nat): (r: Read<seq<Byte>>)
    ensures Advanced(r, b, i)
  {
    ReadVar(b, i, {STR8, SYM8}, {STR32, SYM32})
  }

  function ReadBinary(b: seq<Byte>, i: nat): (r: Read<seq<Byte>>)
    ensures Advanced(r, b, i)
  {
    ReadVar(b, i, {VBIN8}, {VBIN32})
  }

  // Headers.

  /** Constructor, size and count of a compound or array; the size must fit in the buffer. */
  function ReadSized(b: seq<Byte>, i: nat, narrow: Byte, wide: Byte): (r: Read<U32>)
    ensures Advanced(r, b, i)
  {
    if i >= |b| then Bad
    else
      var avail := |b| - (i + 1);
      if b[i] == narrow then
        if i + 3 > |b| || b[i + 1] > avail - 1 then Bad else Ok(b[i + 2], i + 3)
      else if b[i] == wide then
        var (size, j) :- ReadU32(b, i + 1);
        var (count, k) :- ReadU32(b, j);
        if size > avail - 4 then Bad else Ok(count, k)
      else Bad
  }

  function ReadListHeader(b: seq<Byte>, i: nat): (r: Read<U32>)
    ensures Advanced(r, b, i)
  {
    if i < |b| && b[i] == LIST0 then Ok(0, i + 1) else ReadSized(b, i, LIST8, LIST32)
  }

  function ReadMapHeader(b: seq<Byte>, i: nat): (r: Read<U32>)
    ensures Advanced(r, b, i)
  {
    var (count, j) :- ReadSized(b, i, MAP8, MAP32);
    if count > |b| - j then Bad else Ok(count, j)
  }

  /** Descriptor code (its low octet) and field count of a composite. */
  function ReadCompositeHeader(b: seq<Byte>, i: nat): (r: Read<(Byte, U32)>)
    ensures Advanced(r, b, i)
  {
    if i >= |b| || b[i] != 0 then Bad
    else
      var (code, j) :- ReadUlong(b, i + 1);
      var (count, k) :- ReadListHeader(b, j);
      Ok((code % 256, count), k)
  }

  // Arrays.

  function Elem(k: NumKind, s: seq<Byte>): int {
    if k.ArrBool? then (if Num(s) == 0 then 0 else 1)
    else if IsSigned(k) then Signed(Num(s), |s|)
    else Num(s)
  }

  /** The elements in a slice, `w` octets each. */
  function ReadElems(k: NumKind, s: seq<Byte>, w: nat): (es: seq<int>)
    requires w > 0
  {
    if |s| < w then [] else [Elem(k, s[..w])] + ReadElems(k, s[w..], w)
  }

  function ReadChunks(b: seq<Byte>, i: nat, n: nat, w: nat): (r: Read<seq<seq<Byte>>>)
    requires i <= |b|
    ensures r.Ok? ==> i <= r.i <= |b| && |r.v| == n
    decreases n
  {
    if n == 0 then Ok([], i)
    else
      var (len, j) :- ReadNum(b, i, w);
      var (s, k) :- Next(b, j, len);
      var (ss, l) :- ReadChunks(b, k, n - 1, w);
      Ok([s] + ss, l)
  }

  /** The body of an array of numbers whose element constructor is at the cursor. */
  function ReadNumbers(k: NumKind, n: nat, b: seq<Byte>, i: nat): (r: Read<Value>)
    ensures Advanced(r, b, i)
  {
    if i >= |b| then Bad
    else if b[i] == UINT0 || b[i] == ULONG0 || b[i] == FALSE then Ok(Numbers(k, seq(n, _ => 0)), i + 1)
    else if b[i] == TRUE then Ok(Numbers(k, seq(n, _ => 1)), i + 1)
    else
      var w := if IsAdaptive(k) && b[i] == NarrowCode(k) then 1 else WideWidth(k);
      if i + 1 + n * w > |b| then Bad
      else Ok(Numbers(k, ReadElems(k, b[i + 1..i + 1 + n * w], w)), i + 1 + n * w)
  }

  /** The body of an array of octet strings; an element is assumed to take at least two octets. */
  function ReadBlobs(k: BlobKind, n: nat, b: seq<Byte>, i: nat): (r: Read<Value>)
    requires i < |b|
    ensures Advanced(r, b, i)
  {
    if 2 * n > |b| - i then Bad
    else
      var (ss, j) :- ReadChunks(b, i + 1, n, if b[i] == Code8(k) then 1 else 4);
      Ok(Blobs(k, ss), j)
  }

  function ReadArray(b: seq<Byte>, i: nat): (r: Read<Value>)
    ensures Advanced(r, b, i)
  {
    var (n, j) :- ReadSized(b, i, ARRAY8, ARRAY32);
    if j >= |b| then Bad
    else match (NumKindOf(b[j]), BlobKindOf(b[j]))
      case (Some(k), _) => ReadNumbers(k, n, b, j)
      case (None, Some(k)) => ReadBlobs(k, n, b, j)
      case (None, None) => Bad
  }

  // Recursive values.

  /** `ReadAny`. */
  function ReadAny(b: seq<Byte>, i: nat): (r: Read<Value>)
    ensures Advanced(r, b, i)
    decreases |b| - i, 2
  {
    if i >= |b| then Bad
    else if b[i] == NULL then Ok(Null, i + 1)
    else if b[i] == 0 then ReadComposite(b, i)
    else if b[i] == ARRAY8 || b[i] == ARRAY32 then ReadArray(b, i)
    else if b[i] == LIST0 || b[i] == LIST8 || b[i] == LIST32 then ReadList(b, i)
    else if b[i] == MAP8 || b[i] == MAP32 then ReadMap(KAny, b, i)
    else ReadScalar(b, i)
  }

  function ReadScalar(b: seq<Byte>, i: nat): (r: Read<Value>)
    requires i < |b|
    ensures Advanced(r, b, i)
  {
    var c := b[i];
    if c == UBYTE || c == USHORT || c == UINT || c == SMALL_UINT || c == UINT0
       || c == ULONG || c == SMALL_ULONG || c == ULONG0
    then ReadUnsignedScalar(b, i)
    else if c == BYTE || c == SHORT || c == SMALL_INT || c == INT || c == SMALL_LONG || c == LONG
    then ReadSignedScalar(b, i)
    else if c == VBIN8 || c == VBIN32 || c == STR8 || c == STR32 || c == SYM8 || c == SYM32
    then ReadText(b, i)
    else ReadOther(b, i)
  }

  function ReadUnsignedScalar(b: seq<Byte>, i: nat): (r: Read<Value>)
    requires i < |b|
    ensures Advanced(r, b, i)
  {
    var c := b[i];
    if c == UBYTE then var (n, j) :- ReadUbyte(b, i); Ok(Ubyte(n), j)
    else if c == USHORT then var (n, j) :- ReadUshort(b, i); Ok(Ushort(n), j)
    else if c == UINT || c == SMALL_UINT || c == UINT0 then var (n, j) :- ReadUint(b, i); Ok(Uint(n), j)
    else var (n, j) :- ReadUlong(b, i); Ok(Ulong(n), j)
  }

  function ReadSignedScalar(b: seq<Byte>, i: nat): (r: Read<Value>)
    requires i < |b|
    ensures Advanced(r, b, i)
  {
    Pow256Values();
    var c := b[i];
    var k := if c == SHORT then 2 else if c == INT then 4 else if c == LONG then 8 else 1;
    var (n, j) :- ReadSigned(b, i + 1, k);
    if c == BYTE then Ok(SByte(n), j)
    else if c == SHORT then Ok(Short(n), j)
    else if c == SMALL_INT || c == INT then Ok(Int(n), j)
    else Ok(Long(n), j)
  }

  /** Binaries, strings and symbols; symbols are decoded as strings. */
  function ReadText(b: seq<Byte>, i: nat): (r: Read<Value>)
    requires i < |b|
    ensures Advanced(r, b, i)
  {
    if b[i] == VBIN8 || b[i] == VBIN32 then var (s, j) :- ReadBinary(b, i); Ok(Binary(s), j)
    else var (s, j) :- ReadString(b, i); Ok(Str(s), j)
  }

  function ReadOther(b: seq<Byte>, i: nat): (r: Read<Value>)
    requires i < |b|
    ensures Advanced(r, b, i)
  {
    var c := b[i];
    if c == BOOL || c == TRUE || c == FALSE then var (x, j) :- ReadBool(b, i); Ok(Bool(x), j)
    else if c == FLOAT then var (n, j) :- ReadU32(b, i + 1); Ok(Float(n), j)
    else if c == DOUBLE then var (n, j) :- ReadU64(b, i + 1); Ok(Double(n), j)
    else if c == TIMESTAMP then var (n, j) :- ReadTimestamp(b, i); Ok(Timestamp(n), j)
    else if c == UUID then Pow256Values(); var (n, j) :- ReadNum(b, i + 1, 16); Ok(Uuid(n), j)
    else Bad
  }

  function ReadList(b: seq<Byte>, i: nat): (r: Read<Value>)
    ensures Advanced(r, b, i)
    decreases |b| - i, 0
  {
    var (n, j) :- ReadListHeader(b, i);
    // every element takes at least one octet
    if n > |b| - j then Bad
    else
      var (vs, k) :- ReadItems(b, j, n);
      Ok(List(vs), k)
  }

  function ReadItems(b: seq<Byte>, i: nat, n: nat): (r: Read<seq<Value>>)
    requires i <= |b|
    ensures r.Ok? ==> i <= r.i <= |b| && |r.v| == n
    decreases |b| - i, 4, n
  {
    if n == 0 then Ok([], i)
    else
      var (v, j) :- ReadAny(b, i);
      var (vs, k) :- ReadItems(b, j, n - 1);
      Ok([v] + vs, k)
  }

  /** The map decoders, which differ in their key type: `KStr` and `KSym` keys are read as strings;
      `KAny` keys are refused when they are slices or maps, but not when they hold one; `KAnnotations`
      keys are not checked. Storing a key that cannot be hashed panics. */
  function ReadMap(keys: Kind, b: seq<Byte>, i: nat): (r: Read<Value>)
    ensures Advanced(r, b, i)
    decreases |b| - i, 0
  {
    var (count, j) :- ReadMapHeader(b, i);
    var (m, k) :- ReadEntries(keys, b, j, (count + 1) / 2, []);
    Ok(Map(m), k)
  }

  function ReadEntries(keys: Kind, b: seq<Byte>, i: nat, n: nat, m: seq<Entry>): (r: Read<seq<Entry>>)
    requires i <= |b|
    ensures r.Ok? ==> i <= r.i <= |b|
    decreases |b| - i, 4, n
  {
    if n == 0 then Ok(m, i)
    else
      var (key, j) :- ReadKey(keys, b, i);
      var (val, k) :- ReadAny(b, j);
      if keys.KAny? && IsSlice(key) then Bad
      else if !Hashable(key) then Panic
      else ReadEntries(keys, b, k, n - 1, Put(m, key, val))
  }

  function ReadKey(keys: Kind, b: seq<Byte>, i: nat): (r: Read<Value>)
    requires i <= |b|
    ensures Advanced(r, b, i)
    decreases |b| - i, 3
  {
    if keys.KStr? then var (s, j) :- ReadString(b, i); Ok(Str(s), j)
    else if keys.KSym? then var (s, j) :- ReadString(b, i); Ok(Sym(s), j)
    else ReadAny(b, i)
  }

  /** The descriptor code that decides how a described value is decoded: zero unless the
      descriptor is an unsigned long with an explicit value. */
  function PeekDescriptor(b: seq<Byte>, i: nat): Option<U64> {
    if |b| < i + 2 then None
    else if b[i + 1] == SMALL_ULONG then (if |b| < i + 3 then None else Some(b[i + 2]))
    else if b[i + 1] == ULONG then
      (if |b| < i + 10 then None else Pow256Values(); Some(Num(b[i + 2..i + 10])))
    else Some(0)
  }

  /** `readComposite`. */
  function ReadComposite(b: seq<Byte>, i: nat): (r: Read<Value>)
    requires i < |b| && b[i] == 0
    ensures Advanced(r, b, i)
    decreases |b| - i, 1
  {
    match PeekDescriptor(b, i)
    case None => Bad
    case Some(code) =>
      if code == ERROR || IsState(code) then
        var (fs, j) :- ReadFieldsOf(code, Schema(code), b, i);
        Ok(Composite(code, fs), j)
      else if IsLifetime(code) then
        var (h, j) :- ReadCompositeHeader(b, i);
        if h.1 != 0 then Bad else Ok(Composite(h.0, []), j)
      else if IsUnreadable(code) then Bad
      else
        var (d, j) :- ReadAny(b, i + 1);
        var (x, k) :- ReadAny(b, j);
        Ok(Described(d, x), k)
  }

  /** `UnmarshalComposite`: one value for each field of the table, null for those that are
      null or missing. A null in a required field is an error. */
  function ReadFieldsOf(code: Byte, specs: seq<Spec>, b: seq<Byte>, i: nat): (r: Read<seq<Value>>)
    ensures Advanced(r, b, i)
    ensures r.Ok? ==> |r.v| == |specs|
    decreases |b| - i, 0
  {
    var (h, j) :- ReadCompositeHeader(b, i);
    if h.0 != code || h.1 > |specs| then Bad
    else ReadFields(specs, 0, h.1, b, j)
  }

  function ReadFields(specs: seq<Spec>, k: nat, n: nat, b: seq<Byte>, i: nat): (r: Read<seq<Value>>)
    requires k <= |specs| && n <= |specs| && i <= |b|
    ensures r.Ok? ==> i <= r.i <= |b| && |r.v| == |specs| - k
    decreases |b| - i, 4, |specs| - k
  {
    if k == |specs| then Ok([], i)
    else
      var (f, j) :- if k < n then Unmarshal(specs[k].kind, b, i) else Ok(Null, i);
      if f.Null? && specs[k].required then Bad
      else
        var (fs, l) :- ReadFields(specs, k + 1, n, b, j);
        Ok([f] + fs, l)
  }

  /** `Unmarshal` into a target of the given type; a null leaves the target unset. */
  function Unmarshal(kind: Kind, b: seq<Byte>, i: nat): (r: Read<Value>)
    requires i <= |b|
    ensures Advanced(r, b, i)
    decreases |b| - i, 3
  {
    if i < |b| && b[i] == NULL then Ok(Null, i + 1)
    else match kind
      case KAny => ReadAny(b, i)
      case KBool => var (x, j) :- ReadBool(b, i); Ok(Bool(x), j)
      case KUbyte => var (n, j) :- ReadUbyte(b, i); Ok(Ubyte(n), j)
      case KUshort => var (n, j) :- ReadUshort(b, i); Ok(Ushort(n), j)
      case KUint => var (n, j) :- ReadUint(b, i); Ok(Uint(n), j)
      case KUlong => var (n, j) :- ReadUlong(b, i); Ok(Ulong(n), j)
      case KMillis => var (n, j) :- ReadAnyUint(b, i); Ok(Ulong(n), j)
      case KTime => var (n, j) :- ReadTimestamp(b, i); Ok(Timestamp(n), j)
      case KStr => var (s, j) :- ReadString(b, i); Ok(Str(s), j)
      case KSym => var (s, j) :- ReadString(b, i); Ok(Sym(s), j)
      case KBin => var (s, j) :- ReadBinary(b, i); Ok(Binary(s), j)
      case KMapStr => ReadMap(KStr, b, i)
      case KMapSym => ReadMap(KSym, b, i)
      case KAnnotations => ReadMap(KAnnotations, b, i)
      case KList => ReadList(b, i)
      case KSymbols => ReadSymbols(b, i)
      case KError =>
        var (fs, j) :- ReadFieldsOf(ERROR, Schema(ERROR), b, i);
        Ok(Composite(ERROR, fs), j)
      case KState =>
        match PeekDescriptor(b, i) {
          case Some(code) =>
            if i < |b| && b[i] == 0 && IsState(code % 256) then
              var (fs, j) :- ReadFieldsOf(code % 256, Schema(code % 256), b, i);
              Ok(Composite(code % 256, fs), j)
            else Bad
          case None => Bad
        }
  }

  /** `MultiSymbol`: a single symbol or an array of symbols. */
  function ReadSymbols(b: seq<Byte>, i: nat): (r: Read<Value>)
    ensures Advanced(r, b, i)
  {
    if i < |b| && (b[i] == SYM8 || b[i] == SYM32) then
      var (s, j) :- ReadString(b, i);
      Ok(Blobs(ArrSymbol, [s]), j)
    else
      var (v, j) :- ReadArray(b, i);
      if v.Blobs? && v.blob.ArrSymbol? then Ok(v, j) else Bad
  }
}
