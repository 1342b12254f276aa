/** What `Marshal` appends to its buffer for each value, and when it reports an error. */
module Encode {
  import opened Bytes
  import opened Values

  /** Go's `utf8.ValidString`. */
  predicate ValidUtf8(s: seq<Byte>) {
    if s == [] then true
    else if s[0] < 0x80 then ValidUtf8(s[1..])
    else if 0xc2 <= s[0] <= 0xdf then |s| >= 2 && Tail(s[1]) && ValidUtf8(s[2..])
    else if 0xe0 <= s[0] <= 0xef then
      && |s| >= 3 && Tail(s[1]) && Tail(s[2])
      && (s[0] == 0xe0 ==> s[1] >= 0xa0) && (s[0] == 0xed ==> s[1] <= 0x9f)
      && ValidUtf8(s[3..])
    else if 0xf0 <= s[0] <= 0xf4 then
      && |s| >= 4 && Tail(s[1]) && Tail(s[2]) && Tail(s[3])
      && (s[0] == 0xf0 ==> s[1] >= 0x90) && (s[0] == 0xf4 ==> s[1] <= 0x8f)
      && ValidUtf8(s[4..])
    else false
  }

  predicate Tail(c: Byte) { 0x80 <= c <= 0xbf }

  /** Strings, symbols and binaries: a one-octet length when it fits, else four octets. */
  function EncVar(narrow: Byte, wide: Byte, s: seq<Byte>): seq<Byte> {
    if |s| < 256 then [narrow, |s|] + s else [wide] + BE(|s|, 4) + s
  }

  /** A 32-bit compound: its constructor, size and count, then the encoded elements. */
  function EncCompound(code: Byte, count: nat, body: seq<Byte>): seq<Byte> {
    [code] + BE(4 + |body|, 4) + BE(count, 4) + body
  }

  /** `Marshal`. */
  function Enc(v: Value): (s: seq<Byte>)
    ensures |s| > 0
    decreases v
  {
    match v
    case Null => [NULL]
    case Bool(b) => [if b then TRUE else FALSE]
    case Ubyte(n) => [UBYTE, n]
    case Ushort(n) => [USHORT] + BE(n, 2)
    case Uint(n) => if n == 0 then [UINT0] else if n < 256 then [SMALL_UINT, n] else [UINT] + BE(n, 4)
    case Ulong(n) => if n == 0 then [ULONG0] else if n < 256 then [SMALL_ULONG, n] else [ULONG] + BE(n, 8)
    case SByte(n) => [BYTE] + BE(n, 1)
    case Short(n) => [SHORT] + BE(n, 2)
    case Int(n) => if -128 <= n < 128 then [SMALL_INT] + BE(n, 1) else [INT] + BE(n, 4)
    case Long(n) => if -128 <= n < 128 then [SMALL_LONG] + BE(n, 1) else [LONG] + BE(n, 8)
    case Float(n) => [FLOAT] + BE(n, 4)
    case Double(n) => [DOUBLE] + BE(n, 8)
    case Timestamp(n) => [TIMESTAMP] + BE(n, 8)
    case Uuid(n) => [UUID] + BE(n, 16)
    case Binary(s) => EncVar(VBIN8, VBIN32, s)
    case Str(s) => EncVar(STR8, STR32, s)
    case Sym(s) => EncVar(SYM8, SYM32, s)
    case List(vs) => if vs == [] then [LIST0] else EncCompound(LIST32, |vs|, EncItems(vs, 0, |vs|))
    case Map(es) => EncCompound(MAP32, 2 * |es|, EncEntries(es, 0))
    case Described(d, x) => [0] + Enc(d) + Enc(x)
    case Composite(code, fs) =>
      var n := SetCount(fs);
      if n == 0 then [0, SMALL_ULONG, code, LIST0]
      else [0, SMALL_ULONG, code] + EncCompound(LIST32, n, EncItems(fs, 0, n))
    case Numbers(k, es) => EncNumbers(k, es)
    case Blobs(k, ss) => EncBlobs(k, ss)
  }

  /** The values with indices `j` to `n`, one after the other. */
  function EncItems(vs: seq<Value>, j: nat, n: nat): seq<Byte>
    requires j <= n <= |vs|
    decreases vs, n - j
  {
    if j == n then [] else Enc(vs[j]) + EncItems(vs, j + 1, n)
  }

  function EncEntry(e: Entry): (s: seq<Byte>)
    ensures |s| > 0
    decreases e
  {
    Enc(e.key) + Enc(e.val)
  }

  function EncEntries(es: seq<Entry>, j: nat): seq<Byte>
    requires j <= |es|
    decreases es, |es| - j
  {
    if j == |es| then [] else EncEntry(es[j]) + EncEntries(es, j + 1)
  }

  /** One more than the index of the last field that is not omitted. */
  function SetCount(fs: seq<Value>): (n: nat)
    ensures n <= |fs|
    ensures n > 0 ==> !fs[n - 1].Null?
    ensures forall k :: n <= k < |fs| ==> fs[k].Null?
  {
    if fs == [] then 0
    else if !fs[|fs| - 1].Null? then |fs|
    else SetCount(fs[..|fs| - 1])
  }

  lemma {:induction false} SetCountIs(fs: seq<Value>, n: nat)
    requires n <= |fs| && (n > 0 ==> !fs[n - 1].Null?) && forall k :: n <= k < |fs| ==> fs[k].Null?
    ensures SetCount(fs) == n
  {
  }

  // Arrays.

  /** The one-octet element form is chosen when no element exceeds its maximum. */
  predicate UseNarrow(k: NumKind, es: seq<int>) {
    IsAdaptive(k) && forall e :: e in es ==> e <= if IsSigned(k) then 127 else 255
  }

  function EncArrayHeader(size: nat, count: nat, code: Byte): seq<Byte> {
    if size + 2 <= 255 then [ARRAY8] + BE(size + 2, 1) + BE(count, 1) + [code]
    else [ARRAY32] + BE(size + 5, 4) + BE(count, 4) + [code]
  }

  function EncNumbers(k: NumKind, es: seq<int>): (s: seq<Byte>)
    ensures |s| > 0
  {
    var w := if UseNarrow(k, es) then 1 else WideWidth(k);
    var code := if UseNarrow(k, es) then NarrowCode(k) else WideCode(k);
    EncArrayHeader(|es| * w, |es|, code) + EncElems(es, 0, w)
  }

  function EncElems(es: seq<int>, j: nat, w: nat): seq<Byte>
    requires j <= |es|
    decreases |es| - j
  {
    if j == |es| then [] else BE(es[j], w) + EncElems(es, j + 1, w)
  }

  function EncBlobs(k: BlobKind, ss: seq<seq<Byte>>): (s: seq<Byte>)
    ensures |s| > 0
  {
    var w := BlobWidth(ss);
    var code := if w == 1 then Code8(k) else Code32(k);
    EncArrayHeader(TotalLen(ss, 0) + |ss| * w, |ss|, code) + EncChunks(ss, 0, w)
  }

  /** Octets of each length prefix: one if every element is short, else four. */
  function BlobWidth(ss: seq<seq<Byte>>): nat {
    if forall s :: s in ss ==> |s| <= 255 then 1 else 4
  }

  /** The octets of the elements from index `j` on, without their prefixes. */
  function TotalLen(ss: seq<seq<Byte>>, j: nat): nat
    requires j <= |ss|
    decreases |ss| - j
  {
    if j == |ss| then 0 else |ss[j]| + TotalLen(ss, j + 1)
  }

  function EncChunks(ss: seq<seq<Byte>>, j: nat, w: nat): seq<Byte>
    requires j <= |ss|
    decreases |ss| - j
  {
    if j == |ss| then [] else BE(|ss[j]|, w) + ss[j] + EncChunks(ss, j + 1, w)
  }

  /** Values that `Marshal` accepts. */
  predicate Encodable(v: Value)
    decreases v
  {
    match v
    case Str(s) => ValidUtf8(s) && |s| < TWO32 - 1
    case Sym(s) => |s| < TWO32 - 1
    case Binary(s) => |s| < TWO32 - 1
    case List(vs) => forall x :: x in vs ==> Encodable(x)
    case Map(es) => 2 * |es| <= TWO32 - 1 - 4 && forall e :: e in es ==> Encodable(e.key) && Encodable(e.val)
    case Described(d, x) => Encodable(d) && Encodable(x)
    case Composite(_, fs) => forall x :: x in fs ==> Encodable(x)
    case Blobs(k, ss) => k.ArrString? ==> forall s :: s in ss ==> ValidUtf8(s)
    case _ => true
  }
}
