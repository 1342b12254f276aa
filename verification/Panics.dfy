/** When the decoder panics: the readers that call each other, and the one place where a key that Go
    cannot hash is stored in a map. */
module Panics {
  import opened Bytes
  import opened Values
  import opened Decode

  /** A call of one of the recursive readers: a value, the items of a list, the entries of a map, the
      fields of a composite, and a typed target. */
  datatype Call =
    | Any(i: nat)
    | Items(i: nat, n: nat)
    | Entries(i: nat, keys: Kind, n: nat, m: seq<Entry>)
    | Fields(i: nat, specs: seq<Spec>, k: nat, n: nat)
    | As(i: nat, kind: Kind)

  predicate IsCall(b: seq<Byte>, c: Call) {
    c.i <= |b| && (c.Fields? ==> c.k <= |c.specs| && c.n <= |c.specs|)
  }

  predicate Crashes(b: seq<Byte>, c: Call)
    requires IsCall(b, c)
  {
    match c
    case Any(i) => ReadAny(b, i).Panic?
    case Items(i, n) => ReadItems(b, i, n).Panic?
    case Entries(i, keys, n, m) => ReadEntries(keys, b, i, n, m).Panic?
    case Fields(i, specs, k, n) => ReadFields(specs, k, n, b, i).Panic?
    case As(i, kind) => Unmarshal(kind, b, i).Panic?
  }

  /** The next entry has been read and its key passes the check of the map type, if there is one, but
      cannot be hashed. */
  predicate Offends(b: seq<Byte>, c: Call)
    requires IsCall(b, c)
  {
    && c.Entries? && c.n > 0
    && var key := ReadKey(c.keys, b, c.i);
       key.Ok? && ReadAny(b, key.i).Ok? && !(c.keys.KAny? && IsSlice(key.v)) && !Hashable(key.v)
  }

  // The calls that a call makes.

  function ListCalls(b: seq<Byte>, i: nat): seq<Call> {
    var h := ReadListHeader(b, i);
    if h.Ok? && h.v <= |b| - h.i then [Items(h.i, h.v)] else []
  }

  function MapCalls(keys: Kind, b: seq<Byte>, i: nat): seq<Call> {
    var h := ReadMapHeader(b, i);
    if h.Ok? then [Entries(h.i, keys, (h.v + 1) / 2, [])] else []
  }

  function FieldsCalls(code: Byte, specs: seq<Spec>, b: seq<Byte>, i: nat): seq<Call> {
    var h := ReadCompositeHeader(b, i);
    if h.Ok? && h.v.0 == code && h.v.1 <= |specs| then [Fields(h.i, specs, 0, h.v.1)] else []
  }

  function Following(b: seq<Byte>, i: nat): seq<Call> {
    var r := ReadAny(b, i);
    if r.Ok? then [Any(r.i)] else []
  }

  function CompositeCalls(b: seq<Byte>, i: nat): seq<Call>
    requires i < |b|
  {
    match PeekDescriptor(b, i)
    case None => []
    case Some(code) =>
      if code == ERROR || IsState(code) then FieldsCalls(code, Schema(code), b, i)
      else if IsLifetime(code) || IsUnreadable(code) then []
      else [Any(i + 1)] + Following(b, i + 1)
  }

  function AnyCalls(b: seq<Byte>, i: nat): seq<Call> {
    if i >= |b| then []
    else if b[i] == 0 then CompositeCalls(b, i)
    else if b[i] == LIST0 || b[i] == LIST8 || b[i] == LIST32 then ListCalls(b, i)
    else if b[i] == MAP8 || b[i] == MAP32 then MapCalls(KAny, b, i)
    else []
  }

  function EntriesCalls(keys: Kind, b: seq<Byte>, i: nat, n: nat, m: seq<Entry>): seq<Call>
    requires i <= |b|
  {
    if n == 0 then []
    else
      var key := ReadKey(keys, b, i);
      var val := if key.Ok? then ReadAny(b, key.i) else Bad;
      (if keys.KStr? || keys.KSym? then [] else [Any(i)])
      + (if key.Ok? then [Any(key.i)] else [])
      + (if val.Ok? && Hashable(key.v) then [Entries(val.i, keys, n - 1, Put(m, key.v, val.v))] else [])
  }

  function ItemsCalls(b: seq<Byte>, i: nat, n: nat): seq<Call> {
    if n == 0 then []
    else
      var v := ReadAny(b, i);
      [Any(i)] + if v.Ok? then [Items(v.i, n - 1)] else []
  }

  function FieldsNext(b: seq<Byte>, i: nat, specs: seq<Spec>, k: nat, n: nat): seq<Call>
    requires k <= |specs| && i <= |b|
  {
    if k == |specs| then []
    else
      var f := if k < n then Unmarshal(specs[k].kind, b, i) else Ok(Null, i);
      (if k < n then [As(i, specs[k].kind)] else [])
      + if f.Ok? && !(f.v.Null? && specs[k].required) then [Fields(f.i, specs, k + 1, n)] else []
  }

  function StateCalls(b: seq<Byte>, i: nat): seq<Call> {
    match PeekDescriptor(b, i)
    case None => []
    case Some(code) =>
      if i < |b| && b[i] == 0 && IsState(code % 256) then FieldsCalls(code % 256, Schema(code % 256), b, i) else []
  }

  function AsCalls(b: seq<Byte>, i: nat, kind: Kind): seq<Call> {
    if i < |b| && b[i] == NULL then []
    else match kind
      case KAny => [Any(i)]
      case KMapStr => MapCalls(KStr, b, i)
      case KMapSym => MapCalls(KSym, b, i)
      case KAnnotations => MapCalls(KAnnotations, b, i)
      case KList => ListCalls(b, i)
      case KError => FieldsCalls(ERROR, Schema(ERROR), b, i)
      case KState => StateCalls(b, i)
      case _ => []
  }

  function Calls(b: seq<Byte>, c: Call): seq<Call>
    requires IsCall(b, c)
  {
    match c
    case Any(i) => AnyCalls(b, i)
    case Items(i, n) => ItemsCalls(b, i, n)
    case Entries(i, keys, n, m) => EntriesCalls(keys, b, i, n, m)
    case Fields(i, specs, k, n) => FieldsNext(b, i, specs, k, n)
    case As(i, kind) => AsCalls(b, i, kind)
  }

  function Rank(c: Call): nat {
    match c
    case Any(_) => 2
    case As(_, _) => 3
    case _ => 4
  }

  function Size(c: Call): nat {
    match c
    case Fields(_, specs, k, _) => if k <= |specs| then |specs| - k else 0
    case _ => 0
  }

  /** Calls make progress: the cursor advances, or the call is of a simpler kind. */
  predicate Smaller(d: Call, c: Call) {
    d.i > c.i || (d.i == c.i && (Rank(d) < Rank(c) || (Rank(d) == Rank(c) && Size(d) < Size(c))))
  }

  // One call.

  predicate CallsOk(b: seq<Byte>, c: Call, ds: seq<Call>) { forall d :: d in ds ==> IsCall(b, d) && Smaller(d, c) }

  predicate SomeCrash(b: seq<Byte>, ds: seq<Call>)
    requires forall d :: d in ds ==> IsCall(b, d)
  {
    exists d :: d in ds && Crashes(b, d)
  }

  lemma LeavesReturn(b: seq<Byte>, i: nat)
    ensures !ReadListHeader(b, i).Panic? && !ReadMapHeader(b, i).Panic? && !ReadCompositeHeader(b, i).Panic?
    ensures !ReadString(b, i).Panic? && !ReadArray(b, i).Panic? && !ReadSymbols(b, i).Panic?
    ensures i < |b| ==> !ReadScalar(b, i).Panic?
  {
    HeadersReturn(b, i);
    ArrayReturns(b, i);
    if i < |b| { ScalarReturns(b, i); }
    hide ReadScalar, ReadArray, ReadListHeader, ReadMapHeader, ReadCompositeHeader;
  }

  lemma HeadersReturn(b: seq<Byte>, i: nat)
    ensures !ReadListHeader(b, i).Panic? && !ReadMapHeader(b, i).Panic? && !ReadCompositeHeader(b, i).Panic?
    ensures !ReadString(b, i).Panic?
  {
  }

  lemma NumbersReturn(b: seq<Byte>, i: nat)
    ensures !ReadUint(b, i).Panic? && !ReadUlong(b, i).Panic? && !ReadAnyUint(b, i).Panic? && !ReadBinary(b, i).Panic?
  {
  }

  lemma ScalarReturns(b: seq<Byte>, i: nat)
    requires i < |b|
    ensures !ReadScalar(b, i).Panic?
  {
  }

  lemma {:induction false} ChunksReturn(b: seq<Byte>, i: nat, n: nat, w: nat)
    requires i <= |b|
    ensures !ReadChunks(b, i, n, w).Panic?
    decreases n
  {
    if n > 0 {
      var len := ReadNum(b, i, w);
      if len.Ok? && Next(b, len.i, len.v).Ok? { ChunksReturn(b, Next(b, len.i, len.v).i, n - 1, w); }
    }
  }

  lemma ArrayReturns(b: seq<Byte>, i: nat)
    ensures !ReadArray(b, i).Panic?
  {
    hide ReadElems, ReadChunks, NumKindOf, BlobKindOf;
    var h := ReadSized(b, i, ARRAY8, ARRAY32);
    if h.Ok? && h.i < |b| {
      ChunksReturn(b, h.i + 1, h.v, 1);
      ChunksReturn(b, h.i + 1, h.v, 4);
    }
  }

  lemma ListCrash(b: seq<Byte>, i: nat)
    ensures forall d :: d in ListCalls(b, i) ==> IsCall(b, d) && d.i > i
    ensures ReadList(b, i).Panic? <==> SomeCrash(b, ListCalls(b, i))
  {
    HeadersReturn(b, i);
    hide ReadListHeader, ReadItems;
    var h := ReadListHeader(b, i);
    if h.Ok? && h.v <= |b| - h.i { assert Items(h.i, h.v) in ListCalls(b, i); }
  }

  lemma MapCrash(keys: Kind, b: seq<Byte>, i: nat)
    ensures forall d :: d in MapCalls(keys, b, i) ==> IsCall(b, d) && d.i > i
    ensures ReadMap(keys, b, i).Panic? <==> SomeCrash(b, MapCalls(keys, b, i))
  {
    HeadersReturn(b, i);
    hide ReadMapHeader, ReadEntries;
    var h := ReadMapHeader(b, i);
    if h.Ok? { assert MapCalls(keys, b, i)[0] in MapCalls(keys, b, i); }
  }

  lemma FieldsOfCrash(code: Byte, specs: seq<Spec>, b: seq<Byte>, i: nat)
    ensures forall d :: d in FieldsCalls(code, specs, b, i) ==> IsCall(b, d) && d.i > i
    ensures ReadFieldsOf(code, specs, b, i).Panic? <==> SomeCrash(b, FieldsCalls(code, specs, b, i))
  {
    HeadersReturn(b, i);
    hide ReadCompositeHeader, ReadFields;
    var h := ReadCompositeHeader(b, i);
    if h.Ok? && h.v.0 == code && h.v.1 <= |specs| {
      assert Fields(h.i, specs, 0, h.v.1) in FieldsCalls(code, specs, b, i);
    }
  }

  lemma CompositeCrash(b: seq<Byte>, i: nat)
    requires i < |b| && b[i] == 0
    ensures CallsOk(b, Any(i), CompositeCalls(b, i))
    ensures ReadComposite(b, i).Panic? <==> SomeCrash(b, CompositeCalls(b, i))
  {
    HeadersReturn(b, i);
    hide ReadCompositeHeader, ReadFieldsOf, PeekDescriptor, FieldsCalls, ReadAny, Schema;
    var p := PeekDescriptor(b, i);
    if p.Some? {
      var code := p.value;
      if code == ERROR || IsState(code) {
        FieldsOfCrash(code, Schema(code), b, i);
      } else if !IsLifetime(code) && !IsUnreadable(code) {
        DescribedCrash(b, i);
      }
    }
  }

  lemma DescribedCrash(b: seq<Byte>, i: nat)
    requires i < |b|
    ensures var ds := [Any(i + 1)] + Following(b, i + 1);
      && CallsOk(b, Any(i), ds)
      && (SomeCrash(b, ds) <==>
            ReadAny(b, i + 1).Panic? || (ReadAny(b, i + 1).Ok? && ReadAny(b, ReadAny(b, i + 1).i).Panic?))
  {
    hide ReadAny;
    var ds := [Any(i + 1)] + Following(b, i + 1);
    assert Any(i + 1) in ds;
    var r := ReadAny(b, i + 1);
    if r.Ok? { assert Any(r.i) in ds; }
  }

  lemma AnyCrash(b: seq<Byte>, i: nat)
    requires i <= |b|
    ensures CallsOk(b, Any(i), AnyCalls(b, i))
    ensures ReadAny(b, i).Panic? <==> SomeCrash(b, AnyCalls(b, i))
  {
    LeavesReturn(b, i);
    ListCrash(b, i);
    MapCrash(KAny, b, i);
    if i < |b| && b[i] == 0 { CompositeCrash(b, i); }
    hide ReadComposite, ReadList, ReadMap, ReadArray, ReadScalar, ListCalls, MapCalls, CompositeCalls;
  }

  lemma ItemsCrash(b: seq<Byte>, i: nat, n: nat)
    requires i <= |b|
    ensures CallsOk(b, Items(i, n), ItemsCalls(b, i, n))
    ensures ReadItems(b, i, n).Panic? <==> SomeCrash(b, ItemsCalls(b, i, n))
  {
    hide ReadAny;
    if n > 0 {
      var v, ds := ReadAny(b, i), ItemsCalls(b, i, n);
      assert Any(i) in ds;
      if v.Ok? { assert Items(v.i, n - 1) in ds; }
    }
  }

  lemma KeyCrash(keys: Kind, b: seq<Byte>, i: nat)
    requires i <= |b|
    ensures ReadKey(keys, b, i).Panic? <==> !keys.KStr? && !keys.KSym? && ReadAny(b, i).Panic?
  {
    HeadersReturn(b, i);
    hide ReadAny, ReadString;
  }

  lemma EntriesCrash(keys: Kind, b: seq<Byte>, i: nat, n: nat, m: seq<Entry>)
    requires i <= |b|
    ensures CallsOk(b, Entries(i, keys, n, m), EntriesCalls(keys, b, i, n, m))
    ensures ReadEntries(keys, b, i, n, m).Panic? <==>
      Offends(b, Entries(i, keys, n, m)) || SomeCrash(b, EntriesCalls(keys, b, i, n, m))
  {
    hide ReadEntries, ReadAny, ReadKey, ReadItems, ReadFields, Unmarshal, Put, Hashable, SomeCrash, IsSlice;
    EntriesUnfold(keys, b, i, n, m);
    KeyCrash(keys, b, i);
    if n > 0 {
      var key := ReadKey(keys, b, i);
      var val := if key.Ok? then ReadAny(b, key.i) else Bad;
      var d1 := if keys.KStr? || keys.KSym? then [] else [Any(i)];
      var d2 := if key.Ok? then [Any(key.i)] else [];
      var d3 := if val.Ok? && Hashable(key.v) then [Entries(val.i, keys, n - 1, Put(m, key.v, val.v))] else [];
      CrashThree(b, d1, d2, d3);
    } else {
      CrashOne(b, []);
    }
  }

  /** The call for the key, the one for the value and the one for the remaining entries, where they are made. */
  lemma CrashThree(b: seq<Byte>, d1: seq<Call>, d2: seq<Call>, d3: seq<Call>)
    requires |d1| <= 1 && |d2| <= 1 && |d3| <= 1 && forall d :: d in d1 + d2 + d3 ==> IsCall(b, d)
    ensures forall d :: d in d1 || d in d2 || d in d3 ==> IsCall(b, d)
    ensures SomeCrash(b, d1 + d2 + d3) <==>
      || (d1 != [] && Crashes(b, d1[0])) || (d2 != [] && Crashes(b, d2[0])) || (d3 != [] && Crashes(b, d3[0]))
  {
    hide Crashes, IsCall, SomeCrash;
    assert forall d :: d in d1 || d in d2 || d in d3 ==> d in d1 + d2 + d3;
    CrashOne(b, d1);
    CrashOne(b, d2);
    CrashOne(b, d3);
    CrashAppend(b, d1, d2);
    CrashAppend(b, d1 + d2, d3);
  }

  lemma CrashOne(b: seq<Byte>, ds: seq<Call>)
    requires |ds| <= 1 && forall d :: d in ds ==> IsCall(b, d)
    ensures SomeCrash(b, ds) <==> |ds| == 1 && Crashes(b, ds[0])
  {
    hide Crashes, IsCall;
    if |ds| == 1 { assert ds[0] in ds; }
  }

  lemma CrashAppend(b: seq<Byte>, xs: seq<Call>, ys: seq<Call>)
    requires (forall d :: d in xs ==> IsCall(b, d)) && forall d :: d in ys ==> IsCall(b, d)
    ensures SomeCrash(b, xs + ys) <==> SomeCrash(b, xs) || SomeCrash(b, ys)
  {
    hide Crashes, IsCall;
    assert forall d :: d in xs + ys <==> d in xs || d in ys;
  }

  lemma EntriesUnfold(keys: Kind, b: seq<Byte>, i: nat, n: nat, m: seq<Entry>)
    requires i <= |b|
    ensures var key := ReadKey(keys, b, i);
      var val := if key.Ok? then ReadAny(b, key.i) else Bad;
      ReadEntries(keys, b, i, n, m).Panic? <==>
        && n > 0
        && (|| key.Panic?
            || (key.Ok? && val.Panic?)
            || (val.Ok? && !(keys.KAny? && IsSlice(key.v)) && !Hashable(key.v))
            || (val.Ok? && Hashable(key.v) && ReadEntries(keys, b, val.i, n - 1, Put(m, key.v, val.v)).Panic?))
  {
    hide ReadAny, ReadKey, Put;
  }

  lemma FieldsCrash(b: seq<Byte>, i: nat, specs: seq<Spec>, k: nat, n: nat)
    requires i <= |b| && k <= |specs| && n <= |specs|
    ensures CallsOk(b, Fields(i, specs, k, n), FieldsNext(b, i, specs, k, n))
    ensures ReadFields(specs, k, n, b, i).Panic? <==> SomeCrash(b, FieldsNext(b, i, specs, k, n))
  {
    hide Unmarshal;
    if k < |specs| {
      var ds := FieldsNext(b, i, specs, k, n);
      var f := if k < n then Unmarshal(specs[k].kind, b, i) else Ok(Null, i);
      if k < n { assert As(i, specs[k].kind) in ds; }
      if f.Ok? && !(f.v.Null? && specs[k].required) { assert Fields(f.i, specs, k + 1, n) in ds; }
    }
  }

  lemma StateCrash(b: seq<Byte>, i: nat)
    requires i <= |b| && (i < |b| ==> b[i] != NULL)
    ensures forall d :: d in StateCalls(b, i) ==> IsCall(b, d) && d.i > i
    ensures Unmarshal(KState, b, i).Panic? <==> SomeCrash(b, StateCalls(b, i))
  {
    hide ReadFieldsOf, PeekDescriptor, FieldsCalls, Schema;
    var p := PeekDescriptor(b, i);
    if p.Some? && IsState(p.value % 256) { FieldsOfCrash(p.value % 256, Schema(p.value % 256), b, i); }
  }

  lemma AsCrash(b: seq<Byte>, i: nat, kind: Kind)
    requires i <= |b|
    ensures CallsOk(b, As(i, kind), AsCalls(b, i, kind))
    ensures Unmarshal(kind, b, i).Panic? <==> SomeCrash(b, AsCalls(b, i, kind))
  {
    if i < |b| && b[i] == NULL {
    } else if kind.KState? {
      StateCrash(b, i);
      hide Unmarshal, StateCalls;
    } else {
      TypedCrash(b, i, kind);
    }
  }

  lemma TypedCrash(b: seq<Byte>, i: nat, kind: Kind)
    requires i <= |b| && (i < |b| ==> b[i] != NULL) && !kind.KState?
    ensures CallsOk(b, As(i, kind), AsCalls(b, i, kind))
    ensures Unmarshal(kind, b, i).Panic? <==> SomeCrash(b, AsCalls(b, i, kind))
  {
    hide ReadAny, ReadMap, ReadList, ReadFieldsOf, ReadSymbols, ReadVar, ReadUint, ReadUlong, ReadAnyUint,
      MapCalls, ListCalls, FieldsCalls, Schema;
    NumbersReturn(b, i);
    LeavesReturn(b, i);
    if kind.KAny? { assert Any(i) in AsCalls(b, i, kind); }
    if kind.KMapStr? { MapCrash(KStr, b, i); }
    if kind.KMapSym? { MapCrash(KSym, b, i); }
    if kind.KAnnotations? { MapCrash(KAnnotations, b, i); }
    if kind.KList? { ListCrash(b, i); }
    if kind.KError? { FieldsOfCrash(ERROR, Schema(ERROR), b, i); }
  }

  /** A call panics if and only if it stores a key that cannot be hashed or makes a call that panics. */
  lemma CrashStep(b: seq<Byte>, c: Call)
    requires IsCall(b, c)
    ensures CallsOk(b, c, Calls(b, c))
    ensures Crashes(b, c) <==> Offends(b, c) || SomeCrash(b, Calls(b, c))
  {
    hide ReadAny, ReadItems, ReadEntries, ReadFields, Unmarshal, CallsOk, SomeCrash,
      AnyCalls, ItemsCalls, EntriesCalls, FieldsNext, AsCalls;
    match c {
      case Any(i) => AnyCrash(b, i);
      case Items(i, n) => ItemsCrash(b, i, n);
      case Entries(i, keys, n, m) => EntriesCrash(keys, b, i, n, m);
      case Fields(i, specs, k, n) => FieldsCrash(b, i, specs, k, n);
      case As(i, kind) => AsCrash(b, i, kind);
    }
  }

  // Chains of calls.

  predicate Chain(b: seq<Byte>, cs: seq<Call>) {
    && cs != []
    && (forall j :: 0 <= j < |cs| ==> IsCall(b, cs[j]))
    && forall j :: 0 <= j < |cs| - 1 ==> cs[j + 1] in Calls(b, cs[j])
  }

  /** A chain of calls from `c` to one that stores a key that cannot be hashed. */
  ghost predicate LeadsToBadKey(b: seq<Byte>, c: Call) {
    exists cs :: Chain(b, cs) && cs[0] == c && Offends(b, cs[|cs| - 1])
  }

  lemma {:induction false} ChainCrashes(b: seq<Byte>, cs: seq<Call>)
    requires Chain(b, cs) && Offends(b, cs[|cs| - 1])
    ensures Crashes(b, cs[0])
    decreases |cs|
  {
    hide Crashes, Offends, Calls;
    CrashStep(b, cs[0]);
    if |cs| > 1 {
      assert cs[0 + 1] in Calls(b, cs[0]);
      ChainTail(b, cs);
      ChainCrashes(b, cs[1..]);
    }
  }

  lemma ChainTail(b: seq<Byte>, cs: seq<Call>)
    requires Chain(b, cs) && |cs| > 1
    ensures Chain(b, cs[1..]) && cs[1..][|cs| - 2] == cs[|cs| - 1]
  {
    hide IsCall, Calls;
    forall j | 0 <= j < |cs| - 2 ensures cs[1..][j + 1] in Calls(b, cs[1..][j]) {
      assert cs[(j + 1) + 1] in Calls(b, cs[j + 1]);
    }
  }

  lemma {:induction false} CrashHasChain(b: seq<Byte>, c: Call)
    requires IsCall(b, c) && Crashes(b, c)
    ensures LeadsToBadKey(b, c)
    decreases |b| - c.i, Rank(c), Size(c)
  {
    hide Crashes, Offends, Calls, Rank, Size;
    CrashStep(b, c);
    if Offends(b, c) {
      assert Chain(b, [c]);
    } else {
      var d :| d in Calls(b, c) && Crashes(b, d);
      assert Smaller(d, c);
      CrashHasChain(b, d);
      var cs :| Chain(b, cs) && cs[0] == d && Offends(b, cs[|cs| - 1]);
      ChainHead(b, c, cs);
    }
  }

  lemma ChainHead(b: seq<Byte>, c: Call, cs: seq<Call>)
    requires IsCall(b, c) && Chain(b, cs) && cs[0] in Calls(b, c) && Offends(b, cs[|cs| - 1])
    ensures LeadsToBadKey(b, c)
  {
    hide IsCall, Calls, Offends;
    var all := [c] + cs;
    forall j | 0 <= j < |all| - 1 ensures all[j + 1] in Calls(b, all[j]) {
      if j > 0 { assert cs[(j - 1) + 1] in Calls(b, cs[j - 1]); }
    }
    assert Chain(b, all) && all[0] == c && Offends(b, all[|all| - 1]);
  }

  /** The decoder returns, with a value or an error, unless a chain of calls leads to a map entry whose key
      Go cannot hash: of an annotation map, or of any map if the key is a described value. */
  lemma PanicIff(b: seq<Byte>, c: Call)
    requires IsCall(b, c)
    ensures Crashes(b, c) <==> LeadsToBadKey(b, c)
  {
    hide Crashes, Offends, Calls, IsCall;
    if Crashes(b, c) { CrashHasChain(b, c); }
    if LeadsToBadKey(b, c) {
      var cs :| Chain(b, cs) && cs[0] == c && Offends(b, cs[|cs| - 1]);
      ChainCrashes(b, cs);
    }
  }

  /** A map with one entry: an empty binary and a null. As a value of unknown type it is refused; as
      annotations it makes the decoder panic. */
  lemma BinaryAnnotationKey()
    ensures var b := [MAP8, 4, 2, VBIN8, 0, NULL];
      Unmarshal(KAnnotations, b, 0).Panic? && ReadAny(b, 0).Bad?
  {
    var b := [MAP8, 4, 2, VBIN8, 0, NULL];
    assert ReadMapHeader(b, 0) == Ok(2, 3);
    assert b[5..5] == [];
    assert ReadAny(b, 3) == Ok(Binary([]), 5);
    assert ReadAny(b, 5) == Ok(Null, 6);
    assert ReadEntries(KAnnotations, b, 3, 1, []) == Panic;
    assert ReadEntries(KAny, b, 3, 1, []) == Bad;
  }

  /** A map whose key is a described empty list: it passes the check for slices and maps. */
  lemma DescribedListKey()
    ensures ReadAny([MAP8, 5, 2, 0, TRUE, LIST0, NULL], 0).Panic?
  {
    var b := [MAP8, 5, 2, 0, TRUE, LIST0, NULL];
    assert ReadMapHeader(b, 0) == Ok(2, 3);
    assert ReadAny(b, 4) == Ok(Bool(true), 5);
    assert ReadItems(b, 6, 0) == Ok([], 6);
    assert ReadAny(b, 5) == Ok(List([]), 6);
    assert ReadAny(b, 3) == Ok(Described(Bool(true), List([])), 6);
    assert ReadAny(b, 6) == Ok(Null, 7);
    assert ReadEntries(KAny, b, 3, 1, []) == Panic;
  }
}
