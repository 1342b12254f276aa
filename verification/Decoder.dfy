/** The decoder on a buffer: every reader advances the shared cursor. Each method returns what the
    function of the same name in `Decode` gives for the octets from the cursor on. */
module Decoder {
  import opened Bytes
  import opened Values
  import opened ByteBuffer
  import D = Decode

  /** What becomes of a call: a value, an error, or a run-time panic. */
  datatype Outcome<+T> = Got(value: T) | Failed | Crashed {
    predicate IsFailure() { !Got? }

    function PropagateFailure<U>(): Outcome<U>
      requires !Got?
    {
      if Failed? then Failed else Crashed
    }

    function Extract(): T
      requires Got?
    {
      value
    }
  }

  function Lift<T>(o: Option<T>): Outcome<T> { if o.Some? then Got(o.value) else Failed }

  /** The result of a reader that started at `i` and left the cursor at `j`: the specified value and
      cursor, an error or a panic. The cursor never goes back and never leaves the buffer. */
  ghost predicate Gets<T(!new)>(want: D.Read<T>, got: Outcome<T>, b: seq<Byte>, i: nat, j: nat) {
    && i <= j <= |b|
    && (want.Ok? <==> got.Got?)
    && (want.Panic? <==> got.Crashed?)
    && (want.Ok? ==> got.value == want.v && j == want.i)
  }

  /** The same for a reader that cannot panic. */
  ghost predicate Reads<T(!new)>(want: D.Read<T>, got: Option<T>, b: seq<Byte>, i: nat, j: nat) {
    Gets(want, Lift(got), b, i, j)
  }

  // Raw reads.

  method ReadNum(r: Buffer, k: nat) returns (n: Option<nat>)
    requires r.Valid()
    modifies r`i
    ensures r.Valid() && Reads(D.ReadNum(r.b, old(r.i), k), n, r.b, old(r.i), r.i)
  {
    n := r.ReadUint(k);
  }

  method ReadSigned(r: Buffer, k: nat) returns (n: Option<int>)
    requires r.Valid()
    modifies r`i
    ensures r.Valid() && Reads(D.ReadSigned(r.b, old(r.i), k), n, r.b, old(r.i), r.i)
  {
    var raw := r.ReadUint(k);
    n := if raw.Some? then Some(Signed(raw.value, k)) else None;
  }

  /** The next `n` octets; without enough of them, the cursor stays where the length ended. */
  method Take(r: Buffer, n: nat) returns (s: Option<seq<Byte>>)
    requires r.Valid()
    modifies r`i
    ensures r.Valid() && Reads(D.Next(r.b, old(r.i), n), s, r.b, old(r.i), r.i)
  {
    var x, ok := r.Next(n);
    if !ok {
      return None;
    }
    assert x == (x + r.Bytes())[..n] == r.b[old(r.i)..][..n] == r.b[old(r.i)..old(r.i) + n];
    return Some(x);
  }

  method ReadVar(r: Buffer, narrow: set<Byte>, wide: set<Byte>) returns (s: Option<seq<Byte>>)
    requires r.Valid()
    modifies r`i
    ensures r.Valid() && Reads(D.ReadVar(r.b, old(r.i), narrow, wide), s, r.b, old(r.i), r.i)
  {
    Pow256Values();
    var c := r.ReadByte();
    if c.None? {
      return None;
    }
    var n: Option<nat> := None;
    if c.value in narrow {
      var x := r.ReadByte();
      n := if x.Some? then Some(x.value) else None;
    } else if c.value in wide {
      n := r.ReadUint(4);
    }
    if n.None? {
      return None;
    }
    s := Take(r, n.value);
  }

  // Headers.

  method ReadSized(r: Buffer, narrow: Byte, wide: Byte) returns (n: Option<U32>)
    requires r.Valid()
    modifies r`i
    ensures r.Valid() && Reads(D.ReadSized(r.b, old(r.i), narrow, wide), n, r.b, old(r.i), r.i)
  {
    Pow256Values();
    hide Num;
    var c := r.ReadByte();
    if c.None? {
      return None;
    }
    var avail := r.Len();
    if c.value == narrow {
      var size := r.ReadByte();
      if size.None? {
        return None;
      }
      var count := r.ReadByte();
      if count.None? || size.value > avail - 1 {
        return None;
      }
      return Some(count.value);
    }
    if c.value == wide {
      var size := r.ReadUint(4);
      if size.None? {
        return None;
      }
      var count := r.ReadUint(4);
      if count.None? || size.value > avail - 4 {
        return None;
      }
      return Some(count.value);
    }
    return None;
  }

  method ReadListHeader(r: Buffer) returns (n: Option<U32>)
    requires r.Valid()
    modifies r`i
    ensures r.Valid() && Reads(D.ReadListHeader(r.b, old(r.i)), n, r.b, old(r.i), r.i)
  {
    hide D.ReadSized;
    if r.Len() > 0 && r.b[r.i] == LIST0 {
      r.Skip(1);
      return Some(0);
    }
    n := ReadSized(r, LIST8, LIST32);
  }

  method ReadMapHeader(r: Buffer) returns (n: Option<U32>)
    requires r.Valid()
    modifies r`i
    ensures r.Valid() && Reads(D.ReadMapHeader(r.b, old(r.i)), n, r.b, old(r.i), r.i)
  {
    hide D.ReadSized;
    n := ReadSized(r, MAP8, MAP32);
    if n.Some? && n.value > r.Len() {
      n := None;
    }
  }

  method ReadUlong(r: Buffer) returns (n: Option<U64>)
    requires r.Valid()
    modifies r`i
    ensures r.Valid() && Reads(D.ReadUlong(r.b, old(r.i)), n, r.b, old(r.i), r.i)
  {
    Pow256Values();
    hide Num;
    var c := r.ReadByte();
    if c.None? {
      return None;
    }
    if c.value == ULONG0 {
      return Some(0);
    }
    if c.value == SMALL_ULONG {
      var x := r.ReadByte();
      return if x.Some? then Some(x.value) else None;
    }
    if c.value == ULONG {
      var x := r.ReadUint(8);
      return if x.Some? then Some(x.value) else None;
    }
    return None;
  }

  method ReadCompositeHeader(r: Buffer) returns (h: Option<(Byte, U32)>)
    requires r.Valid()
    modifies r`i
    ensures r.Valid() && Reads(D.ReadCompositeHeader(r.b, old(r.i)), h, r.b, old(r.i), r.i)
  {
    hide D.ReadUlong, D.ReadListHeader;
    var c := r.ReadByte();
    if c != Some(0) {
      return None;
    }
    var code := ReadUlong(r);
    if code.None? {
      return None;
    }
    var count := ReadListHeader(r);
    if count.None? {
      return None;
    }
    return Some((code.value % 256, count.value));
  }

  // Scalars.

  method ReadUint(r: Buffer) returns (n: Option<U32>)
    requires r.Valid()
    modifies r`i
    ensures r.Valid() && Reads(D.ReadUint(r.b, old(r.i)), n, r.b, old(r.i), r.i)
  {
    Pow256Values();
    hide Num;
    var c := r.ReadByte();
    if c.None? {
      return None;
    }
    if c.value == UINT0 {
      return Some(0);
    }
    if c.value == SMALL_UINT {
      var x := r.ReadByte();
      return if x.Some? then Some(x.value) else None;
    }
    if c.value == UINT {
      var x := r.ReadUint(4);
      return if x.Some? then Some(x.value) else None;
    }
    return None;
  }

  /** `readUint`: any unsigned type. */
  method ReadAnyUint(r: Buffer) returns (n: Option<U64>)
    requires r.Valid()
    modifies r`i
    ensures r.Valid() && Reads(D.ReadAnyUint(r.b, old(r.i)), n, r.b, old(r.i), r.i)
  {
    Pow256Values();
    hide Num;
    var c := r.ReadByte();
    if c.None? {
      return None;
    }
    if c.value == UINT0 || c.value == ULONG0 {
      return Some(0);
    }
    var k := if c.value == UBYTE || c.value == SMALL_UINT || c.value == SMALL_ULONG then 1
             else if c.value == USHORT then 2 else if c.value == UINT then 4 else if c.value == ULONG then 8 else 0;
    if k == 1 {
      var x := r.ReadByte();
      return if x.Some? then Some(x.value) else None;
    }
    if k == 0 {
      return None;
    }
    var x := r.ReadUint(k);
    return if x.Some? then Some(x.value) else None;
  }

  method ReadBool(r: Buffer) returns (x: Option<bool>)
    requires r.Valid()
    modifies r`i
    ensures r.Valid() && Reads(D.ReadBool(r.b, old(r.i)), x, r.b, old(r.i), r.i)
  {
    var c := r.ReadByte();
    if c.None? {
      return None;
    }
    if c.value == BOOL {
      var n := r.ReadByte();
      return if n.Some? then Some(n.value != 0) else None;
    }
    if c.value == TRUE {
      return Some(true);
    }
    if c.value == FALSE {
      return Some(false);
    }
    return None;
  }

  method ReadUnsignedScalar(r: Buffer) returns (v: Option<Value>)
    requires r.Valid() && r.Len() > 0
    modifies r`i
    ensures r.Valid() && Reads(D.ReadUnsignedScalar(r.b, old(r.i)), v, r.b, old(r.i), r.i)
  {
    Pow256Values();
    hide Num, D.ReadUint, D.ReadUlong;
    var c := r.b[r.i];
    if c == UBYTE {
      r.Skip(1);
      var n := r.ReadByte();
      return if n.Some? then Some(Ubyte(n.value)) else None;
    }
    if c == USHORT {
      r.Skip(1);
      var n := r.ReadUint(2);
      return if n.Some? then Some(Ushort(n.value)) else None;
    }
    if c == UINT || c == SMALL_UINT || c == UINT0 {
      var n := ReadUint(r);
      return if n.Some? then Some(Uint(n.value)) else None;
    }
    var n := ReadUlong(r);
    return if n.Some? then Some(Ulong(n.value)) else None;
  }

  method ReadSignedScalar(r: Buffer) returns (v: Option<Value>)
    requires r.Valid() && r.Len() > 0
    modifies r`i
    ensures r.Valid() && Reads(D.ReadSignedScalar(r.b, old(r.i)), v, r.b, old(r.i), r.i)
  {
    Pow256Values();
    hide Num, D.ReadSigned;
    var c := r.b[r.i];
    r.Skip(1);
    var n := ReadSigned(r, if c == SHORT then 2 else if c == INT then 4 else if c == LONG then 8 else 1);
    if n.None? {
      return None;
    }
    if c == BYTE {
      return Some(SByte(n.value));
    }
    if c == SHORT {
      return Some(Short(n.value));
    }
    if c == SMALL_INT || c == INT {
      return Some(Int(n.value));
    }
    return Some(Long(n.value));
  }

  method ReadText(r: Buffer) returns (v: Option<Value>)
    requires r.Valid() && r.Len() > 0
    modifies r`i
    ensures r.Valid() && Reads(D.ReadText(r.b, old(r.i)), v, r.b, old(r.i), r.i)
  {
    hide D.ReadVar;
    if r.b[r.i] == VBIN8 || r.b[r.i] == VBIN32 {
      var s := ReadVar(r, {VBIN8}, {VBIN32});
      return if s.Some? then Some(Binary(s.value)) else None;
    }
    var s := ReadVar(r, {STR8, SYM8}, {STR32, SYM32});
    return if s.Some? then Some(Str(s.value)) else None;
  }

  method ReadOther(r: Buffer) returns (v: Option<Value>)
    requires r.Valid() && r.Len() > 0
    modifies r`i
    ensures r.Valid() && Reads(D.ReadOther(r.b, old(r.i)), v, r.b, old(r.i), r.i)
  {
    Pow256Values();
    hide Num, D.ReadBool, D.ReadSigned;
    var c := r.b[r.i];
    if c == BOOL || c == TRUE || c == FALSE {
      var x := ReadBool(r);
      return if x.Some? then Some(Bool(x.value)) else None;
    }
    r.Skip(1);
    if c == TIMESTAMP {
      var n := ReadSigned(r, 8);
      return if n.Some? then Some(Timestamp(n.value)) else None;
    }
    if c != FLOAT && c != DOUBLE && c != UUID {
      return None;
    }
    var n := r.ReadUint(if c == FLOAT then 4 else if c == DOUBLE then 8 else 16);
    if n.None? {
      return None;
    }
    if c == FLOAT {
      return Some(Float(n.value));
    }
    if c == DOUBLE {
      return Some(Double(n.value));
    }
    return Some(Uuid(n.value));
  }

  method ReadScalar(r: Buffer) returns (v: Option<Value>)
    requires r.Valid() && r.Len() > 0
    modifies r`i
    ensures r.Valid() && Reads(D.ReadScalar(r.b, old(r.i)), v, r.b, old(r.i), r.i)
  {
    hide D.ReadUnsignedScalar, D.ReadSignedScalar, D.ReadText, D.ReadOther;
    var c := r.b[r.i];
    if c == UBYTE || c == USHORT || c == UINT || c == SMALL_UINT || c == UINT0
       || c == ULONG || c == SMALL_ULONG || c == ULONG0 {
      v := ReadUnsignedScalar(r);
    } else if c == BYTE || c == SHORT || c == SMALL_INT || c == INT || c == SMALL_LONG || c == LONG {
      v := ReadSignedScalar(r);
    } else if c == VBIN8 || c == VBIN32 || c == STR8 || c == STR32 || c == SYM8 || c == SYM32 {
      v := ReadText(r);
    } else {
      v := ReadOther(r);
    }
  }

  // Arrays.

  /** The elements of an array of numbers, from the slice that holds them. */
  method ReadElems(kind: NumKind, buf: seq<Byte>, w: nat) returns (es: seq<int>)
    requires w > 0
    ensures es == D.ReadElems(kind, buf, w)
  {
    hide D.Elem;
    es := [];
    var k := 0;
    while k + w <= |buf|
      invariant 0 <= k <= |buf|
      invariant es + D.ReadElems(kind, buf[k..], w) == D.ReadElems(kind, buf, w)
    {
      assert buf[k..][..w] == buf[k..k + w] && buf[k..][w..] == buf[k + w..];
      es := es + [D.Elem(kind, buf[k..k + w])];
      k := k + w;
    }
  }

  method ReadNumbers(r: Buffer, kind: NumKind, n: nat) returns (v: Option<Value>)
    requires r.Valid()
    modifies r`i
    ensures r.Valid() && Reads(D.ReadNumbers(kind, n, r.b, old(r.i)), v, r.b, old(r.i), r.i)
  {
    hide D.ReadElems;
    var c := r.ReadByte();
    if c.None? {
      return None;
    }
    if c.value == UINT0 || c.value == ULONG0 || c.value == FALSE {
      return Some(Numbers(kind, seq(n, _ => 0)));
    }
    if c.value == TRUE {
      return Some(Numbers(kind, seq(n, _ => 1)));
    }
    var w := if IsAdaptive(kind) && c.value == NarrowCode(kind) then 1 else WideWidth(kind);
    var buf := Take(r, n * w);
    if buf.None? {
      return None;
    }
    var es := ReadElems(kind, buf.value, w);
    return Some(Numbers(kind, es));
  }

  /** `done`, and then what is read next. */
  ghost function After<T>(done: seq<T>, rest: D.Read<seq<T>>): D.Read<seq<T>> {
    if rest.Ok? then D.Ok(done + rest.v, rest.i) else rest
  }

  lemma AfterNone<T>(rest: D.Read<seq<T>>)
    ensures After([], rest) == rest
  {
    if rest.Ok? { assert [] + rest.v == rest.v; }
  }

  lemma AfterOne<T(!new)>(done: seq<T>, x: T, rest: D.Read<seq<T>>)
    ensures After(done, After([x], rest)) == After(done + [x], rest)
  {
    if rest.Ok? { assert done + ([x] + rest.v) == (done + [x]) + rest.v; }
  }

  method ReadChunks(r: Buffer, n: nat, w: nat) returns (ss: Option<seq<seq<Byte>>>)
    requires r.Valid()
    modifies r`i
    ensures r.Valid() && Reads(D.ReadChunks(r.b, old(r.i), n, w), ss, r.b, old(r.i), r.i)
  {
    hide D.Next, D.ReadNum;
    var done: seq<seq<Byte>> := [];
    ghost var want := D.ReadChunks(r.b, r.i, n, w);
    AfterNone(want);
    var k := 0;
    while k < n
      invariant 0 <= k <= n && r.Valid() && old(r.i) <= r.i
      invariant After(done, D.ReadChunks(r.b, r.i, n - k, w)) == want
    {
      var len := ReadNum(r, w);
      if len.None? {
        return None;
      }
      var s := Take(r, len.value);
      if s.None? {
        return None;
      }
      AfterOne(done, s.value, D.ReadChunks(r.b, r.i, n - k - 1, w));
      done := done + [s.value];
      k := k + 1;
    }
    assert done + [] == done;
    return Some(done);
  }

  method ReadBlobs(r: Buffer, kind: BlobKind, n: nat) returns (v: Option<Value>)
    requires r.Valid() && r.Len() > 0
    modifies r`i
    ensures r.Valid() && Reads(D.ReadBlobs(kind, n, r.b, old(r.i)), v, r.b, old(r.i), r.i)
  {
    hide D.ReadChunks;
    if 2 * n > r.Len() {
      return None;
    }
    var c := r.ReadByte();
    var ss := ReadChunks(r, n, if c.value == Code8(kind) then 1 else 4);
    return if ss.Some? then Some(Blobs(kind, ss.value)) else None;
  }

  method ReadArray(r: Buffer) returns (v: Option<Value>)
    requires r.Valid()
    modifies r`i
    ensures r.Valid() && Reads(D.ReadArray(r.b, old(r.i)), v, r.b, old(r.i), r.i)
  {
    hide D.ReadSized, D.ReadNumbers, D.ReadBlobs, NumKindOf, BlobKindOf;
    var n := ReadSized(r, ARRAY8, ARRAY32);
    if n.None? || r.Len() == 0 {
      return None;
    }
    var code := r.b[r.i];
    if NumKindOf(code).Some? {
      v := ReadNumbers(r, NumKindOf(code).value, n.value);
    } else if BlobKindOf(code).Some? {
      v := ReadBlobs(r, BlobKindOf(code).value, n.value);
    } else {
      v := None;
    }
  }

  // Recursive values.

  method ReadAny(r: Buffer) returns (v: Outcome<Value>)
    requires r.Valid()
    modifies r`i
    ensures r.Valid() && Gets(D.ReadAny(r.b, old(r.i)), v, r.b, old(r.i), r.i)
    decreases r.Len(), 2
  {
    hide D.ReadComposite, D.ReadArray, D.ReadList, D.ReadMap, D.ReadScalar;
    if r.Len() == 0 {
      return Failed;
    }
    var c := r.b[r.i];
    if c == NULL {
      r.Skip(1);
      return Got(Null);
    }
    if c == 0 {
      v := ReadComposite(r);
    } else if c == ARRAY8 || c == ARRAY32 {
      var a := ReadArray(r);
      v := Lift(a);
    } else if c == LIST0 || c == LIST8 || c == LIST32 {
      v := ReadList(r);
    } else if c == MAP8 || c == MAP32 {
      v := ReadMap(r, KAny);
    } else {
      var a := ReadScalar(r);
      v := Lift(a);
    }
  }

  method ReadList(r: Buffer) returns (v: Outcome<Value>)
    requires r.Valid()
    modifies r`i
    ensures r.Valid() && Gets(D.ReadList(r.b, old(r.i)), v, r.b, old(r.i), r.i)
    decreases r.Len(), 0
  {
    hide D.ReadListHeader, D.ReadAny;
    var n := ReadListHeader(r);
    if n.None? || n.value > r.Len() {
      return Failed;
    }
    var done: seq<Value> := [];
    ghost var first, want := r.i, D.ReadItems(r.b, r.i, n.value);
    AfterNone(want);
    var k := 0;
    while k < n.value
      invariant 0 <= k <= n.value && r.Valid() && first <= r.i
      invariant After(done, D.ReadItems(r.b, r.i, n.value - k)) == want
    {
      var x :- ReadAny(r);
      AfterOne(done, x, D.ReadItems(r.b, r.i, n.value - k - 1));
      done := done + [x];
      k := k + 1;
    }
    assert done + [] == done;
    return Got(List(done));
  }

  method ReadMap(r: Buffer, keys: Kind) returns (v: Outcome<Value>)
    requires r.Valid()
    modifies r`i
    ensures r.Valid() && Gets(D.ReadMap(keys, r.b, old(r.i)), v, r.b, old(r.i), r.i)
    decreases r.Len(), 0
  {
    hide D.ReadMapHeader, D.ReadEntries;
    var count := ReadMapHeader(r);
    if count.None? {
      return Failed;
    }
    var pairs: nat := count.value;
    var m :- ReadEntries(r, keys, (pairs + 1) / 2);
    return Got(Map(m));
  }

  method ReadEntries(r: Buffer, keys: Kind, n: nat) returns (es: Outcome<seq<Entry>>)
    requires r.Valid()
    modifies r`i
    ensures r.Valid() && Gets(D.ReadEntries(keys, r.b, old(r.i), n, []), es, r.b, old(r.i), r.i)
    decreases r.Len(), 4
  {
    hide D.ReadAny, D.ReadKey, Put, HasKey, Hashable, IsSlice, D.ReadEntries;
    var m: seq<Entry> := [];
    ghost var want := D.ReadEntries(keys, r.b, r.i, n, []);
    var k := 0;
    while k < n
      invariant 0 <= k <= n && r.Valid() && old(r.i) <= r.i
      invariant D.ReadEntries(keys, r.b, r.i, n - k, m) == want
    {
      EntriesStep(keys, r.b, r.i, n - k, m);
      var key :- ReadKey(r, keys);
      var val :- ReadAny(r);
      if keys.KAny? && IsSlice(key) {
        return Failed;
      }
      if !Hashable(key) {
        return Crashed;
      }
      m := Put(m, key, val);
      k := k + 1;
    }
    EntriesStep(keys, r.b, r.i, 0, m);
    return Got(m);
  }

  lemma EntriesStep(keys: Kind, b: seq<Byte>, i: nat, n: nat, m: seq<Entry>)
    requires i <= |b|
    ensures n == 0 ==> D.ReadEntries(keys, b, i, n, m) == D.Ok(m, i)
    ensures n > 0 ==>
      var key := D.ReadKey(keys, b, i);
      var val := if key.Ok? then D.ReadAny(b, key.i) else D.Bad;
      D.ReadEntries(keys, b, i, n, m) ==
        if key.Panic? || (key.Ok? && val.Panic?) then D.Panic
        else if key.Bad? || val.Bad? then D.Bad
        else if keys.KAny? && IsSlice(key.v) then D.Bad
        else if !Hashable(key.v) then D.Panic
        else D.ReadEntries(keys, b, val.i, n - 1, Put(m, key.v, val.v))
  {
    hide D.ReadKey, D.ReadAny, Put, Hashable;
  }

  method ReadKey(r: Buffer, keys: Kind) returns (v: Outcome<Value>)
    requires r.Valid()
    modifies r`i
    ensures r.Valid() && Gets(D.ReadKey(keys, r.b, old(r.i)), v, r.b, old(r.i), r.i)
    decreases r.Len(), 3
  {
    hide D.ReadVar, D.ReadAny;
    if keys.KStr? {
      var s := ReadVar(r, {STR8, SYM8}, {STR32, SYM32});
      return if s.Some? then Got(Str(s.value)) else Failed;
    }
    if keys.KSym? {
      var s := ReadVar(r, {STR8, SYM8}, {STR32, SYM32});
      return if s.Some? then Got(Sym(s.value)) else Failed;
    }
    v := ReadAny(r);
  }

  method ReadComposite(r: Buffer) returns (v: Outcome<Value>)
    requires r.Valid() && r.Len() > 0 && r.b[r.i] == 0
    modifies r`i
    ensures r.Valid() && Gets(D.ReadComposite(r.b, old(r.i)), v, r.b, old(r.i), r.i)
    decreases r.Len(), 1
  {
    hide D.ReadFieldsOf, D.ReadCompositeHeader, D.ReadAny, D.PeekDescriptor, Schema;
    var code := D.PeekDescriptor(r.b, r.i);
    if code.None? {
      return Failed;
    }
    if code.value == ERROR || IsState(code.value) {
      var fs :- ReadFieldsOf(r, code.value, Schema(code.value));
      return Got(Composite(code.value, fs));
    }
    if IsLifetime(code.value) {
      var h := ReadCompositeHeader(r);
      if h.None? || h.value.1 != 0 {
        return Failed;
      }
      return Got(Composite(h.value.0, []));
    }
    if IsUnreadable(code.value) {
      return Failed;
    }
    r.Skip(1);
    var d :- ReadAny(r);
    var x :- ReadAny(r);
    return Got(Described(d, x));
  }

  /** `UnmarshalComposite`: the fields that are there, then the null handlers of the others. */
  method ReadFieldsOf(r: Buffer, code: Byte, specs: seq<Spec>) returns (fs: Outcome<seq<Value>>)
    requires r.Valid()
    modifies r`i
    ensures r.Valid() && Gets(D.ReadFieldsOf(code, specs, r.b, old(r.i)), fs, r.b, old(r.i), r.i)
    decreases r.Len(), 0
  {
    hide D.ReadCompositeHeader, D.Unmarshal;
    var h := ReadCompositeHeader(r);
    if h.None? || h.value.0 != code || h.value.1 > |specs| {
      return Failed;
    }
    var n := h.value.1;
    var done: seq<Value> := [];
    ghost var first, want := r.i, D.ReadFields(specs, 0, n, r.b, r.i);
    AfterNone(want);
    var k := 0;
    while k < |specs|
      invariant 0 <= k <= |specs| && r.Valid() && first <= r.i
      invariant After(done, D.ReadFields(specs, k, n, r.b, r.i)) == want
    {
      var f := Null;
      if k < n {
        f :- Unmarshal(r, specs[k].kind);
      }
      if f.Null? && specs[k].required {
        return Failed;
      }
      AfterOne(done, f, D.ReadFields(specs, k + 1, n, r.b, r.i));
      done := done + [f];
      k := k + 1;
    }
    assert done + [] == done;
    return Got(done);
  }

  /** `Unmarshal` into a target of the given type. */
  method Unmarshal(r: Buffer, kind: Kind) returns (v: Outcome<Value>)
    requires r.Valid()
    modifies r`i
    ensures r.Valid() && Gets(D.Unmarshal(kind, r.b, old(r.i)), v, r.b, old(r.i), r.i)
    decreases r.Len(), 3
  {
    hide D.ReadAny, D.ReadMap, D.ReadList, D.ReadSymbols, D.ReadFieldsOf, D.PeekDescriptor, Schema,
      D.ReadUint, D.ReadUlong, D.ReadAnyUint, D.ReadBool, D.ReadTimestamp, D.ReadString, D.ReadBinary,
      D.ReadUbyte, D.ReadUshort;
    if r.Len() > 0 && r.b[r.i] == NULL {
      r.Skip(1);
      return Got(Null);
    }
    match kind {
      case KAny => v := ReadAny(r);
      case KMapStr => v := ReadMap(r, KStr);
      case KMapSym => v := ReadMap(r, KSym);
      case KAnnotations => v := ReadMap(r, KAnnotations);
      case KList => v := ReadList(r);
      case KSymbols =>
        var a := ReadSymbols(r);
        v := Lift(a);
      case KError =>
        var fs :- ReadFieldsOf(r, ERROR, Schema(ERROR));
        v := Got(Composite(ERROR, fs));
      case KState => v := ReadState(r);
      case _ =>
        var a := ReadTyped(r, kind);
        v := Lift(a);
    }
  }

  method ReadState(r: Buffer) returns (v: Outcome<Value>)
    requires r.Valid() && (r.Len() > 0 ==> r.b[r.i] != NULL)
    modifies r`i
    ensures r.Valid() && Gets(D.Unmarshal(KState, r.b, old(r.i)), v, r.b, old(r.i), r.i)
    decreases r.Len(), 2
  {
    hide D.ReadFieldsOf, D.PeekDescriptor, Schema;
    var code := D.PeekDescriptor(r.b, r.i);
    if code.None? || r.Len() == 0 || r.b[r.i] != 0 || !IsState(code.value % 256) {
      return Failed;
    }
    var fs :- ReadFieldsOf(r, code.value % 256, Schema(code.value % 256));
    return Got(Composite(code.value % 256, fs));
  }

  predicate IsTyped(kind: Kind) {
    || kind.KBool? || kind.KUbyte? || kind.KUshort? || kind.KUint? || kind.KUlong? || kind.KMillis? || kind.KTime?
    || kind.KStr? || kind.KSym? || kind.KBin?
  }

  /** Targets of a scalar type. */
  method ReadTyped(r: Buffer, kind: Kind) returns (v: Option<Value>)
    requires r.Valid() && IsTyped(kind) && (r.Len() > 0 ==> r.b[r.i] != NULL)
    modifies r`i
    ensures r.Valid() && Reads(D.Unmarshal(kind, r.b, old(r.i)), v, r.b, old(r.i), r.i)
  {
    hide D.ReadUint, D.ReadUlong, D.ReadAnyUint, D.ReadBool, D.ReadVar, D.ReadNum, D.ReadSigned, D.ReadAny, D.ReadMap,
        D.ReadList;
    if kind.KBool? {
      var x := ReadBool(r);
      return if x.Some? then Some(Bool(x.value)) else None;
    }
    if kind.KUint? {
      var n := ReadUint(r);
      return if n.Some? then Some(Uint(n.value)) else None;
    }
    if kind.KUlong? {
      var n := ReadUlong(r);
      return if n.Some? then Some(Ulong(n.value)) else None;
    }
    if kind.KMillis? {
      var n := ReadAnyUint(r);
      return if n.Some? then Some(Ulong(n.value)) else None;
    }
    if kind.KStr? || kind.KSym? {
      var s := ReadVar(r, {STR8, SYM8}, {STR32, SYM32});
      return if s.None? then None else Some(if kind.KStr? then Str(s.value) else Sym(s.value));
    }
    if kind.KBin? {
      var s := ReadVar(r, {VBIN8}, {VBIN32});
      return if s.Some? then Some(Binary(s.value)) else None;
    }
    v := ReadFixed(r, kind);
  }

  method ReadFixed(r: Buffer, kind: Kind) returns (v: Option<Value>)
    requires r.Valid() && (kind.KUbyte? || kind.KUshort? || kind.KTime?) && (r.Len() > 0 ==> r.b[r.i] != NULL)
    modifies r`i
    ensures r.Valid() && Reads(D.Unmarshal(kind, r.b, old(r.i)), v, r.b, old(r.i), r.i)
  {
    Pow256Values();
    hide Num;
    var c := r.ReadByte();
    if c != Some(if kind.KUbyte? then UBYTE else if kind.KUshort? then USHORT else TIMESTAMP) {
      return None;
    }
    if kind.KUbyte? {
      var n := r.ReadByte();
      return if n.Some? then Some(Ubyte(n.value)) else None;
    }
    if kind.KUshort? {
      var n := r.ReadUint(2);
      return if n.Some? then Some(Ushort(n.value)) else None;
    }
    var n := ReadSigned(r, 8);
    return if n.Some? then Some(Timestamp(n.value)) else None;
  }

  method ReadSymbols(r: Buffer) returns (v: Option<Value>)
    requires r.Valid()
    modifies r`i
    ensures r.Valid() && Reads(D.ReadSymbols(r.b, old(r.i)), v, r.b, old(r.i), r.i)
  {
    hide D.ReadVar, D.ReadArray;
    if r.Len() > 0 && (r.b[r.i] == SYM8 || r.b[r.i] == SYM32) {
      var s := ReadVar(r, {STR8, SYM8}, {STR32, SYM32});
      return if s.Some? then Some(Blobs(ArrSymbol, [s.value])) else None;
    }
    v := ReadArray(r);
    if v.Some? && !(v.value.Blobs? && v.value.blob.ArrSymbol?) {
      v := None;
    }
  }
}
