/** Frame header and the performatives that carry the flow control and settlement protocols. */
module Frames {
  import opened Bytes
  import opened Values
  import opened Encode
  import opened Decode
  import opened Arrays
  import opened RoundTrip
  import FR = FrameReader

  const BEGIN: Byte := 0x11
  const FLOW: Byte := 0x13
  const TRANSFER: Byte := 0x14
  const DISPOSITION: Byte := 0x15

  /** `state` is null when there is none. An absent delivery tag is `None`. */
  datatype PerformTransfer = PerformTransfer(
    handle: U32, deliveryID: Option<U32>, deliveryTag: Option<seq<Byte>>, messageFormat: Option<U32>,
    settled: bool, more: bool, receiverSettleMode: Option<Byte>, state: Value,
    resume: bool, aborted: bool, batchable: bool, payload: seq<Byte>)

  datatype PerformFlow = PerformFlow(
    nextIncomingID: Option<U32>, incomingWindow: U32, nextOutgoingID: U32, outgoingWindow: U32,
    handle: Option<U32>, deliveryCount: Option<U32>, linkCredit: Option<U32>, available: Option<U32>,
    drain: bool, echo: bool, properties: seq<Entry>)

  datatype PerformDisposition = PerformDisposition(
    receiver: bool, first: U32, last: Option<U32>, settled: bool, state: Value, batchable: bool)

  datatype PerformBegin = PerformBegin(
    remoteChannel: Option<U16>, nextOutgoingID: U32, incomingWindow: U32, outgoingWindow: U32, handleMax: U32,
    offered: seq<seq<Byte>>, desired: seq<seq<Byte>>, properties: Option<seq<Entry>>)

  datatype FrameBody =
    | Transfer(transfer: PerformTransfer)
    | Flow(flow: PerformFlow)
    | Disposition(disposition: PerformDisposition)
    | Begin(begin: PerformBegin)

  // Fields.

  function UintOf(v: Value): Option<U32> { if v.Uint? then Some(v.uint) else None }

  function OptUint(o: Option<U32>): (v: Value)
    ensures (v.Null? || v.Uint?) && UintOf(v) == o
  {
    if o.None? then Null else Uint(o.value)
  }

  predicate FlagOf(v: Value) { v.Bool? && v.b }

  function Flag(b: bool): (v: Value)
    ensures (v.Null? || v.Bool?) && FlagOf(v) == b
  {
    if b then Bool(true) else Null
  }

  function BinOf(v: Value): Option<seq<Byte>> { if v.Binary? then Some(v.bin) else None }

  /** An empty binary is omitted like an absent one. */
  function OptBin(o: Option<seq<Byte>>): (v: Value)
    ensures (v.Null? || v.Binary?) && (o != Some([]) ==> BinOf(v) == o)
  {
    if o.None? || o.value == [] then Null else Binary(o.value)
  }

  function UbyteOf(v: Value): Option<Byte> { if v.Ubyte? then Some(v.ubyte) else None }

  function OptUbyte(o: Option<Byte>): (v: Value)
    ensures (v.Null? || v.Ubyte?) && UbyteOf(v) == o
  {
    if o.None? then Null else Ubyte(o.value)
  }

  function TransferFields(t: PerformTransfer): (fs: seq<Value>)
    ensures |fs| == 11
  {
    [ Uint(t.handle),
      OptUint(t.deliveryID),
      OptBin(t.deliveryTag),
      OptUint(t.messageFormat),
      Flag(t.settled), Flag(t.more),
      OptUbyte(t.receiverSettleMode),
      t.state,
      Flag(t.resume), Flag(t.aborted), Flag(t.batchable) ]
  }

  const TRANSFER_SPECS: seq<Spec> :=
    [Req(KUint), Opt(KUint), Opt(KBin), Opt(KUint), Opt(KBool), Opt(KBool), Opt(KUbyte), Opt(KState), Opt(KBool),
        Opt(KBool), Opt(KBool)]

  function TransferFrom(fs: seq<Value>, payload: seq<Byte>): PerformTransfer
    requires |fs| == 11
  {
    PerformTransfer(
      if fs[0].Uint? then fs[0].uint else 0, UintOf(fs[1]), BinOf(fs[2]), UintOf(fs[3]),
      FlagOf(fs[4]), FlagOf(fs[5]), UbyteOf(fs[6]), fs[7],
      FlagOf(fs[8]), FlagOf(fs[9]), FlagOf(fs[10]), payload)
  }

  function FlowFields(f: PerformFlow): (fs: seq<Value>)
    ensures |fs| == 11
  {
    [ OptUint(f.nextIncomingID), Uint(f.incomingWindow), Uint(f.nextOutgoingID), Uint(f.outgoingWindow),
      OptUint(f.handle), OptUint(f.deliveryCount), OptUint(f.linkCredit), OptUint(f.available),
      Flag(f.drain), Flag(f.echo),
      if f.properties == [] then Null else Map(f.properties) ]
  }

  const FLOW_SPECS: seq<Spec> :=
    [Opt(KUint), Req(KUint), Req(KUint), Req(KUint), Opt(KUint), Opt(KUint), Opt(KUint), Opt(KUint), Opt(KBool),
        Opt(KBool), Opt(KMapSym)]

  function FlowFrom(fs: seq<Value>): PerformFlow
    requires |fs| == 11
  {
    PerformFlow(
      UintOf(fs[0]), if fs[1].Uint? then fs[1].uint else 0, if fs[2].Uint? then fs[2].uint else 0,
          if fs[3].Uint? then fs[3].uint else 0,
      UintOf(fs[4]), UintOf(fs[5]), UintOf(fs[6]), UintOf(fs[7]),
      FlagOf(fs[8]), FlagOf(fs[9]), if fs[10].Map? then fs[10].entries else [])
  }

  function DispositionFields(d: PerformDisposition): (fs: seq<Value>)
    ensures |fs| == 6
  {
    [Bool(d.receiver), Uint(d.first), OptUint(d.last), Flag(d.settled), d.state, Flag(d.batchable)]
  }

  const DISPOSITION_SPECS: seq<Spec> := [Req(KBool), Req(KUint), Opt(KUint), Opt(KBool), Opt(KState), Opt(KBool)]

  function DispositionFrom(fs: seq<Value>): PerformDisposition
    requires |fs| == 6
  {
    PerformDisposition(FlagOf(fs[0]), if fs[1].Uint? then fs[1].uint else 0, UintOf(fs[2]), FlagOf(fs[3]), fs[4],
        FlagOf(fs[5]))
  }

  const MAX_U32: U32 := 0xffff_ffff

  function BeginFields(g: PerformBegin): (fs: seq<Value>)
    ensures |fs| == 8
  {
    [ if g.remoteChannel.None? then Null else Ushort(g.remoteChannel.value),
      Uint(g.nextOutgoingID), Uint(g.incomingWindow), Uint(g.outgoingWindow),
      if g.handleMax == MAX_U32 then Null else Uint(g.handleMax),
      if g.offered == [] then Null else Blobs(ArrSymbol, g.offered),
      if g.desired == [] then Null else Blobs(ArrSymbol, g.desired),
      if g.properties.None? then Null else Map(g.properties.value) ]
  }

  const BEGIN_SPECS: seq<Spec> := [Opt(KUshort), Req(KUint), Req(KUint), Req(KUint), Opt(KUint), Opt(KSymbols),
      Opt(KSymbols), Opt(KMapSym)]

  /** A null handle-max stands for its default, the largest handle. */
  function BeginFrom(fs: seq<Value>): PerformBegin
    requires |fs| == 8
  {
    PerformBegin(
      if fs[0].Ushort? then Some(fs[0].ushort) else None,
      if fs[1].Uint? then fs[1].uint else 0, if fs[2].Uint? then fs[2].uint else 0,
          if fs[3].Uint? then fs[3].uint else 0,
      if fs[4].Uint? then fs[4].uint else MAX_U32,
      if fs[5].Blobs? then fs[5].blobs else [], if fs[6].Blobs? then fs[6].blobs else [],
      if fs[7].Map? then Some(fs[7].entries) else None)
  }

  // Bodies.

  function BodyCode(f: FrameBody): Byte {
    match f
    case Transfer(_) => TRANSFER
    case Flow(_) => FLOW
    case Disposition(_) => DISPOSITION
    case Begin(_) => BEGIN
  }

  function BodyFields(f: FrameBody): seq<Value> {
    match f
    case Transfer(t) => TransferFields(t)
    case Flow(w) => FlowFields(w)
    case Disposition(d) => DispositionFields(d)
    case Begin(g) => BeginFields(g)
  }

  function BodySpecs(code: Byte): seq<Spec> {
    if code == TRANSFER then TRANSFER_SPECS
    else if code == FLOW then FLOW_SPECS
    else if code == DISPOSITION then DISPOSITION_SPECS
    else BEGIN_SPECS
  }

  function Payload(f: FrameBody): seq<Byte> { if f.Transfer? then f.transfer.payload else [] }

  /** `Marshal` of a performative; a transfer is followed by its payload. */
  function EncBody(f: FrameBody): seq<Byte> { Enc(Composite(BodyCode(f), BodyFields(f))) + Payload(f) }

  /** `frames.Write`: a header with the size of the whole frame, then the encoded body. */
  function FrameBytes(channel: U16, body: seq<Byte>): (s: seq<Byte>)
    ensures |s| == 8 + |body|
  {
    BE(8 + |body|, 4) + [2, 0] + BE(channel, 2) + body
  }

  /** The performative with the decoded fields and what follows them. */
  function BodyFrom(code: Byte, fs: seq<Value>, rest: seq<Byte>): FrameBody
    requires |fs| == |BodySpecs(code)|
  {
    if code == TRANSFER then Transfer(TransferFrom(fs, rest))
    else if code == FLOW then Flow(FlowFrom(fs))
    else if code == DISPOSITION then Disposition(DispositionFrom(fs))
    else Begin(BeginFrom(fs))
  }

  /** `ParseBody`, for the performatives modelled here: the performative, an error or a panic. */
  function ParseBody(b: seq<Byte>): FR.Parsed<FrameBody> {
    if |b| < 3 || b[0] != 0 || b[1] != SMALL_ULONG || b[2] !in {TRANSFER, FLOW, DISPOSITION, BEGIN} then FR.Malformed
    else
      match ReadFieldsOf(b[2], BodySpecs(b[2]), b, 0)
      case Bad => FR.Malformed
      case Panic => FR.Crashed
      case Ok(fs, j) => FR.Body(BodyFrom(b[2], fs, b[j..]))
  }

  predicate StateOk(v: Value) { v.Null? || (v.Composite? && IsState(v.code) && Regular(v)) }

  predicate PropertiesOk(es: seq<Entry>) { HasKind(KMapSym, Map(es)) && Regular(Map(es)) }

  /** Performatives that are restored by decoding, or refused for want of room. */
  predicate BodyOk(f: FrameBody) {
    && |EncBody(f)| < TWO32
    && match f
       case Transfer(t) => StateOk(t.state) && t.deliveryTag != Some([])
       case Flow(w) => PropertiesOk(w.properties)
       case Disposition(d) => StateOk(d.state)
       case Begin(g) =>
         g.properties.Some? ==> PropertiesOk(g.properties.value)
  }

  /** The arrays of strings in the performative have room where they are. */
  predicate RoomyBody(f: FrameBody) { Roomy(Composite(BodyCode(f), BodyFields(f)), |Payload(f)|) }

  /** The performative up to the normalisation of dynamically typed values inside it. */
  function NormBody(f: FrameBody): FrameBody {
    match f
    case Transfer(t) => Transfer(t.(state := Norm(t.state)))
    case Flow(w) => Flow(w.(properties := NormMap(KSym, w.properties)))
    case Disposition(d) => Disposition(d.(state := Norm(d.state)))
    case Begin(g) =>
      Begin(g.(properties := if g.properties.None? then None else Some(NormMap(KSym, g.properties.value))))
  }

  predicate IsSimple(v: Value) { v.Null? || v.Bool? || v.Ubyte? || v.Ushort? || v.Uint? || v.Binary? || v.Blobs? }

  lemma SimpleRegular(v: Value)
    requires IsSimple(v)
    ensures Regular(v)
  {
  }

  /** Fields of a simple type are restored as they are. */
  lemma FieldsBack(specs: seq<Spec>, fs: seq<Value>, r: seq<Value>, m: nat)
    requires |specs| == |fs| && r == NormFields(specs, fs, 0)
    requires forall j :: 0 <= j < |fs| && j != m ==> IsSimple(fs[j]) && !specs[j].kind.KMillis?
    ensures forall j :: 0 <= j < |fs| && j != m ==> r[j] == fs[j]
    ensures m < |fs| ==> r[m] == NormAs(specs[m].kind, fs[m])
  {
    hide NormFields, NormAs, IsSimple;
    forall j | 0 <= j < |fs| && j != m ensures r[j] == fs[j] {
      NormFieldsAt(specs, fs, 0, j);
      SimpleBack(specs[j].kind, fs[j]);
    }
    if m < |fs| { NormFieldsAt(specs, fs, 0, m); }
  }

  lemma SimpleBack(kind: Kind, v: Value)
    requires IsSimple(v) && !kind.KMillis?
    ensures NormAs(kind, v) == v
  {
    assert Norm(v) == v;
  }

  lemma PlainRoomy(v: Value, following: nat)
    requires IsSimple(v) && !v.Blobs?
    ensures Roomy(v, following)
  {
  }

  lemma {:induction false} PlainItems(vs: seq<Value>, j: nat, n: nat, following: nat)
    requires j <= n <= |vs| && forall x :: x in vs ==> IsSimple(x) && !x.Blobs?
    ensures RoomyItems(vs, j, n, following)
    decreases n - j
  {
    hide EncItems, Roomy;
    if j < n {
      PlainRoomy(vs[j], |EncItems(vs, j + 1, n)| + following);
      PlainItems(vs, j + 1, n, following);
    }
  }

  /** A transfer without a state has no arrays in it. */
  lemma TransferRoomy(t: PerformTransfer)
    requires t.state.Null?
    ensures RoomyBody(Transfer(t))
  {
    hide *;
    var fs := TransferFields(t);
    TransferPlain(t);
    PlainItems(fs, 0, SetCount(fs), |t.payload|);
    RoomyFields(TRANSFER, fs, |t.payload|);
  }

  lemma TransferPlain(t: PerformTransfer)
    requires t.state.Null?
    ensures forall x :: x in TransferFields(t) ==> IsSimple(x) && !x.Blobs?
    ensures RoomyBody(Transfer(t)) == Roomy(Composite(TRANSFER, TransferFields(t)), |t.payload|)
  {
    hide Roomy, OptUint, UintOf, Flag, FlagOf, OptBin, BinOf, OptUbyte, UbyteOf;
  }

  predicate FieldOk(spec: Spec, v: Value) { if v.Null? then !spec.required else HasKind(spec.kind, v) }

  lemma UintOk(o: Option<U32>)
    ensures FieldOk(Opt(KUint), OptUint(o))
  {
  }

  lemma FlagOk(b: bool)
    ensures FieldOk(Opt(KBool), Flag(b))
  {
  }

  lemma TransferMatch(t: PerformTransfer)
    requires StateOk(t.state)
    ensures FieldsMatch(TRANSFER_SPECS, TransferFields(t))
  {
    hide Regular, OptUint, UintOf, Flag, FlagOf, OptBin, BinOf, OptUbyte, UbyteOf;
    var fs := TransferFields(t);
    assert FieldOk(Req(KUint), fs[0]) && FieldOk(Opt(KBin), fs[2]) && FieldOk(Opt(KUbyte), fs[6])
        && FieldOk(Opt(KState), fs[7]);
    hide HasKind, StateOk, FieldOk;
    UintOk(t.deliveryID);
    UintOk(t.messageFormat);
    FlagOk(t.settled);
    FlagOk(t.more);
    FlagOk(t.resume);
    FlagOk(t.aborted);
    FlagOk(t.batchable);
    assert forall k :: 0 <= k < 11 ==> FieldOk(TRANSFER_SPECS[k], fs[k]);
    FieldsOk(TRANSFER_SPECS, fs);
  }

  lemma FieldsOk(specs: seq<Spec>, fs: seq<Value>)
    requires |specs| == |fs| && forall k :: 0 <= k < |fs| ==> FieldOk(specs[k], fs[k])
    ensures FieldsMatch(specs, fs)
  {
    hide HasKind;
  }

  lemma FlowMatch(w: PerformFlow)
    requires PropertiesOk(w.properties)
    ensures FieldsMatch(FLOW_SPECS, FlowFields(w))
  {
    hide Regular, OptUint, UintOf, Flag, FlagOf, OptBin, BinOf, OptUbyte, UbyteOf;
    var fs := FlowFields(w);
    assert FieldOk(Opt(KUint), fs[0]) && FieldOk(Req(KUint), fs[1]) && FieldOk(Req(KUint), fs[2])
        && FieldOk(Req(KUint), fs[3]);
    assert FieldOk(Opt(KUint), fs[4]) && FieldOk(Opt(KUint), fs[5]) && FieldOk(Opt(KUint), fs[6])
        && FieldOk(Opt(KUint), fs[7]);
    assert FieldOk(Opt(KBool), fs[8]) && FieldOk(Opt(KBool), fs[9]) && FieldOk(Opt(KMapSym), fs[10]);
    hide HasKind, PropertiesOk;
    forall k | 0 <= k < 11 ensures FieldOk(FLOW_SPECS[k], fs[k]) {}
  }

  lemma DispositionMatch(d: PerformDisposition)
    requires StateOk(d.state)
    ensures FieldsMatch(DISPOSITION_SPECS, DispositionFields(d))
  {
    hide Regular;
    var fs := DispositionFields(d);
    assert FieldOk(Req(KBool), fs[0]) && FieldOk(Req(KUint), fs[1]) && FieldOk(Opt(KUint), fs[2]);
    assert FieldOk(Opt(KBool), fs[3]) && FieldOk(Opt(KState), fs[4]) && FieldOk(Opt(KBool), fs[5]);
    hide HasKind, StateOk;
    forall k | 0 <= k < 6 ensures FieldOk(DISPOSITION_SPECS[k], fs[k]) {}
  }

  lemma BeginMatch(g: PerformBegin)
    requires g.properties.Some? ==> PropertiesOk(g.properties.value)
    ensures FieldsMatch(BEGIN_SPECS, BeginFields(g))
  {
    hide Regular;
    var fs := BeginFields(g);
    assert FieldOk(Opt(KUshort), fs[0]) && FieldOk(Req(KUint), fs[1]) && FieldOk(Req(KUint), fs[2])
        && FieldOk(Req(KUint), fs[3]);
    assert FieldOk(Opt(KUint), fs[4]) && FieldOk(Opt(KSymbols), fs[5]) && FieldOk(Opt(KSymbols), fs[6])
        && FieldOk(Opt(KMapSym), fs[7]);
    hide HasKind, PropertiesOk;
    forall k | 0 <= k < 8 ensures FieldOk(BEGIN_SPECS[k], fs[k]) {}
  }

  /** The fields of an acceptable performative agree with its table. */
  lemma BodyFieldsOk(f: FrameBody)
    requires BodyOk(f)
    ensures FieldsMatch(BodySpecs(BodyCode(f)), BodyFields(f)) && forall x :: x in BodyFields(f) ==> Regular(x)
  {
    hide Regular, EncBody, FieldsMatch, HasKind, TransferFields, FlowFields, DispositionFields,
        BeginFields;
    match f {
      case Transfer(t) => TransferMatch(t); TransferRegular(t);
      case Flow(w) => FlowMatch(w); FlowRegular(w);
      case Disposition(d) => DispositionMatch(d); DispositionRegular(d);
      case Begin(g) => BeginMatch(g); BeginRegular(g);
    }
  }

  lemma TransferRegular(t: PerformTransfer)
    requires StateOk(t.state)
    ensures forall x :: x in TransferFields(t) ==> Regular(x)
  {
    hide Regular, OptUint, UintOf, Flag, FlagOf, OptBin, BinOf, OptUbyte, UbyteOf;
    NullRegular(t.state);
    FieldsRegular(TransferFields(t), 7);
  }

  lemma FlowRegular(w: PerformFlow)
    requires PropertiesOk(w.properties)
    ensures forall x :: x in FlowFields(w) ==> Regular(x)
  {
    hide Regular, OptUint, UintOf, Flag, FlagOf, OptBin, BinOf, OptUbyte, UbyteOf;
    NullRegular(FlowFields(w)[10]);
    FieldsRegular(FlowFields(w), 10);
  }

  lemma DispositionRegular(d: PerformDisposition)
    requires StateOk(d.state)
    ensures forall x :: x in DispositionFields(d) ==> Regular(x)
  {
    hide Regular, OptUint, UintOf, Flag, FlagOf, OptBin, BinOf, OptUbyte, UbyteOf;
    NullRegular(d.state);
    FieldsRegular(DispositionFields(d), 4);
  }

  lemma BeginRegular(g: PerformBegin)
    requires g.properties.Some? ==> PropertiesOk(g.properties.value)
    ensures forall x :: x in BeginFields(g) ==> Regular(x)
  {
    hide Regular;
    NullRegular(BeginFields(g)[7]);
    FieldsRegular(BeginFields(g), 7);
  }

  lemma NullRegular(v: Value)
    ensures v.Null? ==> Regular(v)
  {
  }

  lemma FieldsRegular(fs: seq<Value>, m: nat)
    requires m < |fs| && Regular(fs[m])
    requires forall j :: 0 <= j < |fs| && j != m ==> IsSimple(fs[j])
    ensures forall x :: x in fs ==> Regular(x)
  {
    hide Regular;
    forall x | x in fs ensures Regular(x) {
      var j :| 0 <= j < |fs| && fs[j] == x;
      if j != m { SimpleRegular(x); }
    }
  }

  lemma TransferBack(t: PerformTransfer)
    requires t.deliveryTag != Some([])
    ensures TransferFrom(NormFields(TRANSFER_SPECS, TransferFields(t), 0), t.payload) == t.(state := Norm(t.state))
  {
    hide Norm, NormFields;
    var fs := TransferFields(t);
    NormState(t.state);
    hide NormAs, OptUint, UintOf, Flag, FlagOf, OptBin, BinOf, OptUbyte, UbyteOf;
    FieldsBack(TRANSFER_SPECS, fs, NormFields(TRANSFER_SPECS, fs, 0), 7);
  }

  lemma FlowBack(w: PerformFlow)
    ensures FlowFrom(NormFields(FLOW_SPECS, FlowFields(w), 0)) == w.(properties := NormMap(KSym, w.properties))
  {
    hide Norm, NormFields, OptUint, UintOf, Flag, FlagOf, OptBin, BinOf, OptUbyte, UbyteOf;
    var fs := FlowFields(w);
    FieldsBack(FLOW_SPECS, fs, NormFields(FLOW_SPECS, fs, 0), 10);
    NormMapSym(fs[10]);
  }

  lemma NormState(v: Value)
    ensures NormAs(KState, v) == Norm(v)
  {
  }

  lemma NormMapSym(v: Value)
    requires v.Null? || v.Map?
    ensures NormAs(KMapSym, v) == if v.Null? then v else Map(NormMap(KSym, v.entries))
  {
    hide NormEntries, NormItems, NormFields;
  }

  lemma DispositionBack(d: PerformDisposition)
    ensures DispositionFrom(NormFields(DISPOSITION_SPECS, DispositionFields(d), 0)) == d.(state := Norm(d.state))
  {
    hide Norm, NormFields;
    var fs := DispositionFields(d);
    NormState(d.state);
    hide NormAs;
    FieldsBack(DISPOSITION_SPECS, fs, NormFields(DISPOSITION_SPECS, fs, 0), 4);
  }

  lemma BeginBack(g: PerformBegin)
    ensures BeginFrom(NormFields(BEGIN_SPECS, BeginFields(g), 0)) ==
      g.(properties := if g.properties.None? then None else Some(NormMap(KSym, g.properties.value)))
  {
    hide Norm, NormFields;
    var fs := BeginFields(g);
    FieldsBack(BEGIN_SPECS, fs, NormFields(BEGIN_SPECS, fs, 0), 7);
    NormMapSym(fs[7]);
  }

  /** `ParseBody` inverts `Marshal` for every performative whose arrays of strings have room, and the transfer's
      payload is exactly what follows its fields. The others are malformed. */
  lemma BodyRoundTrip(f: FrameBody)
    requires BodyOk(f)
    ensures ParseBody(EncBody(f)) == if RoomyBody(f) then FR.Body(NormBody(f)) else FR.Malformed
  {
    hide *;
    var b, code := EncBody(f), BodyCode(f);
    var v := Composite(code, BodyFields(f));
    BodyFieldsOk(f);
    SameLength(BodySpecs(code), BodyFields(f));
    BodyParts(f);
    AtEnd(b, 0, Enc(v));
    CompositeStart(v, b);
    FieldsOfRoundTrip(code, BodySpecs(code), BodyFields(f), b, 0);
    var fs := NormFields(BodySpecs(code), BodyFields(f), 0);
    ParseStep(b, RoomyBody(f), fs, |Enc(v)|);
    BodyBack(f);
  }

  lemma BodyParts(f: FrameBody)
    requires BodyOk(f)
    ensures var v := Composite(BodyCode(f), BodyFields(f)); var b := EncBody(f);
      && At(b, 0, Enc(v)) && |Enc(v)| < TWO32 && b[|Enc(v)|..] == Payload(f)
      && RoomyBody(f) == Roomy(v, |b| - |Enc(v)|)
      && BodyCode(f) in {TRANSFER, FLOW, DISPOSITION, BEGIN}
  {
    hide Enc, Roomy, Regular, BodyFields;
  }

  lemma ParseStep(b: seq<Byte>, room: bool, fs: seq<Value>, j: nat)
    requires |b| >= 3 && b[0] == 0 && b[1] == SMALL_ULONG && b[2] in {TRANSFER, FLOW, DISPOSITION, BEGIN}
    requires ReadFieldsOf(b[2], BodySpecs(b[2]), b, 0) == Given(room, fs, j)
    requires |fs| == |BodySpecs(b[2])| && j <= |b|
    ensures ParseBody(b) == if room then FR.Body(BodyFrom(b[2], fs, b[j..])) else FR.Malformed
  {
    hide ReadFieldsOf, BodySpecs, BodyFrom;
  }

  lemma BodyBack(f: FrameBody)
    requires BodyOk(f) && |BodySpecs(BodyCode(f))| == |BodyFields(f)|
    ensures BodyFrom(BodyCode(f), NormFields(BodySpecs(BodyCode(f)), BodyFields(f), 0), Payload(f)) == NormBody(f)
  {
    hide NormFields, Norm, NormMap, TransferFields, FlowFields, DispositionFields, BeginFields, TransferFrom, FlowFrom,
      DispositionFrom, BeginFrom, Regular, EncBody, HasKind;
    match f {
      case Transfer(t) => TransferBack(t);
      case Flow(w) => FlowBack(w);
      case Disposition(d) => DispositionBack(d);
      case Begin(g) => BeginBack(g);
    }
  }

  lemma CompositeStart(v: Value, b: seq<Byte>)
    requires v.Composite? && At(b, 0, Enc(v))
    ensures |b| >= 3 && b[0] == 0 && b[1] == SMALL_ULONG && b[2] == v.code
  {
    hide EncItems;
    var x := Enc(v);
    assert |x| >= 4 && x[0] == 0 && x[1] == SMALL_ULONG && x[2] == v.code;
    assert b[0..|x|][0] == b[0] && b[0..|x|][1] == b[1] && b[0..|x|][2] == b[2];
  }
}
