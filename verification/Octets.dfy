/** Frames and messages octet by octet, as section 2.7 of AMQP 1.0 Part 2 and section 3.2 of Part 3 lay them out, and
    what is read when a peer spells them differently. */
module Octets {
  import opened Bytes
  import opened Values
  import opened Encode
  import opened Decode
  import opened RoundTrip
  import opened Spelling
  import opened Frames
  import opened MessageCodec
  import FR = FrameReader
  import Soundness

  // Pieces.

  function UintText(n: U32): seq<Byte> { if n == 0 then [0x43] else if n < 0x100 then [0x52, n] else [0x70] + BE(n, 4) }

  function OptUintText(o: Option<U32>): seq<Byte> { if o.None? then [0x40] else UintText(o.value) }

  function FlagText(b: bool): seq<Byte> { if b then [0x41] else [0x40] }

  function Cat(xs: seq<seq<Byte>>): seq<Byte> { if xs == [] then [] else Cat(xs[..|xs| - 1]) + xs[|xs| - 1] }

  /** A composite: its descriptor, and a list with four octets for its size and count. */
  function Composed(code: Byte, xs: seq<seq<Byte>>): seq<Byte> {
    [0x00, 0x53, code, 0xd0] + BE(4 + |Cat(xs)|, 4) + BE(|xs|, 4) + Cat(xs)
  }

  lemma UintOctets(n: U32)
    ensures Enc(Uint(n)) == UintText(n)
  {
  }

  lemma FixedOctets()
    ensures Enc(Null) == [0x40] && Enc(Bool(true)) == [0x41] && Enc(Bool(false)) == [0x42]
  {
  }

  lemma OptOctets(o: Option<U32>)
    ensures Enc(OptUint(o)) == OptUintText(o)
  {
    FixedOctets();
    if o.Some? { UintOctets(o.value); }
    hide Enc;
  }

  lemma FlagOctets(b: bool)
    ensures Enc(Flag(b)) == FlagText(b)
  {
    FixedOctets();
    hide Enc;
  }

  lemma {:induction false} ItemsSnoc(fs: seq<Value>, j: nat, k: nat)
    requires j <= k < |fs|
    ensures EncItems(fs, j, k + 1) == EncItems(fs, j, k) + Enc(fs[k])
    decreases k - j
  {
    hide Enc;
    if j < k {
      ItemsSnoc(fs, j + 1, k);
      assert Enc(fs[j]) + (EncItems(fs, j + 1, k) + Enc(fs[k])) == Enc(fs[j]) + EncItems(fs, j + 1, k) + Enc(fs[k]);
    } else {
      assert EncItems(fs, k + 1, k + 1) == [];
    }
  }

  lemma ItemsNone(fs: seq<Value>)
    ensures EncItems(fs, 0, 0) == []
  {
  }

  lemma {:induction false} ItemsUpTo(fs: seq<Value>, xs: seq<seq<Byte>>, n: nat)
    requires n <= |xs| <= |fs| && forall k :: 0 <= k < |xs| ==> Enc(fs[k]) == xs[k]
    ensures EncItems(fs, 0, n) == Cat(xs[..n])
  {
    hide Enc, EncItems;
    if n == 0 {
      ItemsNone(fs);
    } else {
      ItemsUpTo(fs, xs, n - 1);
      ItemsSnoc(fs, 0, n - 1);
      assert xs[..n][..n - 1] == xs[..n - 1];
    }
  }

  /** A composite whose fields are written as `xs`, and all later ones are null. */
  lemma Laid(code: Byte, fs: seq<Value>, xs: seq<seq<Byte>>)
    requires 0 < |xs| <= |fs| && forall k :: 0 <= k < |xs| ==> Enc(fs[k]) == xs[k]
    requires !fs[|xs| - 1].Null? && forall k :: |xs| <= k < |fs| ==> fs[k].Null?
    ensures Enc(Composite(code, fs)) == Composed(code, xs)
  {
    hide *;
    var n := |xs|;
    SetCountIs(fs, n);
    ItemsUpTo(fs, xs, n);
    assert xs[..n] == xs;
    CompositeTextOf(code, fs, n);
    LaidText(code, n, xs);
  }

  lemma LaidText(code: Byte, n: nat, xs: seq<seq<Byte>>)
    requires n == |xs| > 0
    ensures CompositeText(code, false, ListText(4, 4 + |Cat(xs)|, n, Cat(xs))) == Composed(code, xs)
  {
    hide Cat;
    OneByte(code);
    hide BE;
    var size, count, body := BE(4 + |Cat(xs)|, 4), BE(n, 4), Cat(xs);
    assert [0x00] + (([0x53] + [code]) + ([0xd0] + size + count + body)) ==
      [0x00, 0x53, code, 0xd0] + size + count + body;
  }

  // Performatives, with their last field set so that all are written.

  /** next-incoming-id, incoming-window, next-outgoing-id, outgoing-window, handle, delivery-count, link-credit,
      available, drain and echo. */
  lemma FlowOctets(w: PerformFlow)
    requires w.echo && w.properties == []
    ensures EncBody(Flow(w)) == Composed(0x13,
      [OptUintText(w.nextIncomingID), UintText(w.incomingWindow), UintText(w.nextOutgoingID),
       UintText(w.outgoingWindow), OptUintText(w.handle), OptUintText(w.deliveryCount), OptUintText(w.linkCredit),
       OptUintText(w.available), FlagText(w.drain), [0x41]])
  {
    hide Enc, Composed, UintText, OptUintText, FlagText, OptUint, UintOf, Flag, FlagOf;
    OptOctets(w.nextIncomingID);
    UintOctets(w.incomingWindow);
    UintOctets(w.nextOutgoingID);
    UintOctets(w.outgoingWindow);
    OptOctets(w.handle);
    OptOctets(w.deliveryCount);
    OptOctets(w.linkCredit);
    OptOctets(w.available);
    FlagOctets(w.drain);
    FlagOctets(true);
    SetFlag();
    Laid(0x13, FlowFields(w),
      [OptUintText(w.nextIncomingID), UintText(w.incomingWindow), UintText(w.nextOutgoingID),
       UintText(w.outgoingWindow), OptUintText(w.handle), OptUintText(w.deliveryCount), OptUintText(w.linkCredit),
       OptUintText(w.available), FlagText(w.drain), [0x41]]);
  }

  lemma SetFlag()
    ensures FlagText(true) == [0x41] && !Flag(true).Null?
  {
  }

  /** role, first, last, settled, state and batchable. */
  lemma DispositionOctets(d: PerformDisposition)
    requires d.batchable
    ensures EncBody(Disposition(d)) == Composed(0x15,
      [if d.receiver then [0x41] else [0x42], UintText(d.first), OptUintText(d.last), FlagText(d.settled),
       Enc(d.state), [0x41]])
  {
    hide Enc, Composed, UintText, OptUintText, FlagText, OptUint, UintOf, Flag, FlagOf;
    FixedOctets();
    UintOctets(d.first);
    OptOctets(d.last);
    FlagOctets(d.settled);
    FlagOctets(true);
    SetFlag();
    Laid(0x15, DispositionFields(d),
      [if d.receiver then [0x41] else [0x42], UintText(d.first), OptUintText(d.last), FlagText(d.settled),
       Enc(d.state), [0x41]]);
  }

  function TagText(tag: Option<seq<Byte>>): seq<Byte> {
    if tag.None? || tag.value == [] then [0x40]
    else if |tag.value| < 0x100 then [0xa0, |tag.value|] + tag.value
    else [0xb0] + BE(|tag.value|, 4) + tag.value
  }

  lemma TagOctets(tag: Option<seq<Byte>>)
    ensures Enc(OptBin(tag)) == TagText(tag)
  {
  }

  lemma ModeOctets(o: Option<Byte>)
    ensures Enc(OptUbyte(o)) == if o.None? then [0x40] else [0x50, o.value]
  {
  }

  /** handle, delivery-id, delivery-tag, message-format, settled, more, rcv-settle-mode, state, resume, aborted and
      batchable; then the payload. */
  lemma TransferOctets(t: PerformTransfer)
    requires t.batchable
    ensures EncBody(Transfer(t)) == Composed(0x14,
      [UintText(t.handle), OptUintText(t.deliveryID), TagText(t.deliveryTag), OptUintText(t.messageFormat),
       FlagText(t.settled), FlagText(t.more),
       if t.receiverSettleMode.None? then [0x40] else [0x50, t.receiverSettleMode.value],
       Enc(t.state), FlagText(t.resume), FlagText(t.aborted), [0x41]]) + t.payload
  {
    hide Enc, Composed, UintText, OptUintText, FlagText, TagText, OptUint, UintOf, Flag, FlagOf, OptBin, BinOf,
      OptUbyte, UbyteOf;
    UintOctets(t.handle);
    OptOctets(t.deliveryID);
    TagOctets(t.deliveryTag);
    OptOctets(t.messageFormat);
    FlagOctets(t.settled);
    FlagOctets(t.more);
    ModeOctets(t.receiverSettleMode);
    FlagOctets(t.resume);
    FlagOctets(t.aborted);
    FlagOctets(true);
    SetFlag();
    Laid(0x14, TransferFields(t),
      [UintText(t.handle), OptUintText(t.deliveryID), TagText(t.deliveryTag), OptUintText(t.messageFormat),
       FlagText(t.settled), FlagText(t.more),
       if t.receiverSettleMode.None? then [0x40] else [0x50, t.receiverSettleMode.value],
       Enc(t.state), FlagText(t.resume), FlagText(t.aborted), [0x41]]);
  }

  /** remote-channel, next-outgoing-id, incoming-window, outgoing-window, handle-max, offered and desired capabilities,
      and properties. */
  lemma BeginOctets(g: PerformBegin)
    requires g.properties.Some? && g.offered != [] && g.desired != [] && g.handleMax != MAX_U32
    ensures EncBody(Begin(g)) == Composed(0x11,
      [if g.remoteChannel.None? then [0x40] else [0x60] + BE(g.remoteChannel.value, 2), UintText(g.nextOutgoingID),
       UintText(g.incomingWindow), UintText(g.outgoingWindow), UintText(g.handleMax), Enc(Blobs(ArrSymbol, g.offered)),
       Enc(Blobs(ArrSymbol, g.desired)), Enc(Map(g.properties.value))])
  {
    UshortOctets(g.remoteChannel);
    hide Enc, Composed, UintText, BE;
    UintOctets(g.nextOutgoingID);
    UintOctets(g.incomingWindow);
    UintOctets(g.outgoingWindow);
    UintOctets(g.handleMax);
    Laid(0x11, BeginFields(g),
      [if g.remoteChannel.None? then [0x40] else [0x60] + BE(g.remoteChannel.value, 2), UintText(g.nextOutgoingID),
       UintText(g.incomingWindow), UintText(g.outgoingWindow), UintText(g.handleMax), Enc(Blobs(ArrSymbol, g.offered)),
       Enc(Blobs(ArrSymbol, g.desired)), Enc(Map(g.properties.value))]);
  }

  lemma UshortOctets(o: Option<U16>)
    ensures Enc(if o.None? then Null else Ushort(o.value)) == if o.None? then [0x40] else [0x60] + BE(o.value, 2)
  {
  }

  // Messages.

  /** A value behind its descriptor. */
  function Behind(code: Byte, text: seq<Byte>): seq<Byte> { [0x00, 0x53, code] + text }

  function OptMap(code: Byte, m: Option<seq<Entry>>): seq<Byte> {
    if m.None? then [] else Behind(code, Enc(Map(m.value)))
  }

  function Data(data: seq<seq<Byte>>): seq<Byte> {
    if data == [] then [] else Behind(0x75, Enc(Binary(data[0]))) + Data(data[1..])
  }

  function Sequences(vs: seq<seq<Value>>): seq<Byte> {
    if vs == [] then [] else Behind(0x76, Enc(List(vs[0]))) + Sequences(vs[1..])
  }

  lemma {:induction false} SectionsAppend(xs: seq<Section>, ys: seq<Section>)
    ensures EncSections(xs + ys) == EncSections(xs) + EncSections(ys)
    decreases |xs|
  {
    hide EncSection;
    if xs == [] {
      assert xs + ys == ys;
    } else {
      assert (xs + ys)[1..] == xs[1..] + ys;
      SectionsAppend(xs[1..], ys);
      assert EncSection(xs[0]) + (EncSections(xs[1..]) + EncSections(ys)) ==
        EncSection(xs[0]) + EncSections(xs[1..]) + EncSections(ys);
    }
  }

  lemma OneSection(s: Section)
    ensures EncSections([s]) == EncSection(s)
  {
    hide EncSection;
    assert EncSections([s][1..]) == [];
  }

  lemma {:induction false} DataOctets(data: seq<seq<Byte>>)
    ensures EncSections(DataSections(data)) == Data(data)
    decreases |data|
  {
    hide Enc;
    if data != [] {
      assert DataSections(data)[1..] == DataSections(data[1..]);
      DataOctets(data[1..]);
    }
  }

  lemma {:induction false} SequenceOctets(vs: seq<seq<Value>>)
    ensures EncSections(SequenceSections(vs)) == Sequences(vs)
    decreases |vs|
  {
    hide Enc;
    if vs != [] {
      assert SequenceSections(vs)[1..] == SequenceSections(vs[1..]);
      SequenceOctets(vs[1..]);
    }
  }

  lemma MapOctets(code: Byte, m: Option<seq<Entry>>, annotations: bool)
    requires code in {0x71, 0x72, 0x74, 0x78}
    ensures EncSections(MapSection(code, m, annotations)) ==
      OptMap(code, if m.Some? && annotations then Some(AnnotationEntries(m.value)) else m)
  {
    hide Enc;
    if m.Some? { OneSection(MapSection(code, m, annotations)[0]); }
  }

  function OptComposite(code: Byte, fs: Option<seq<Value>>): seq<Byte> {
    if fs.None? then [] else Enc(Composite(code, fs.value))
  }

  function Symbolic(m: Option<seq<Entry>>): Option<seq<Entry>> {
    if m.None? then None else Some(AnnotationEntries(m.value))
  }

  /** Header, delivery annotations, message annotations, properties, application properties, data, value, sequences
      and footer, in this order, each behind its descriptor. */
  lemma MessageOctets(m: Message)
    ensures EncMessage(m) ==
      OptComposite(0x70, if m.header.None? then None else Some(HeaderFields(m.header.value)))
      + OptMap(0x71, Symbolic(m.deliveryAnnotations)) + OptMap(0x72, Symbolic(m.annotations))
      + OptComposite(0x73, if m.properties.None? then None else Some(PropertiesFields(m.properties.value)))
      + OptMap(0x74, m.applicationProperties) + Data(m.data)
      + (if m.value.Null? then [] else Behind(0x77, Enc(m.value)))
      + Sequences(m.sequences) + OptMap(0x78, Symbolic(m.footer))
  {
    hide Enc, Data, Sequences, EncSections, HeaderFields, PropertiesFields;
    SectionPieces(m);
    DataOctets(m.data);
    SequenceOctets(m.sequences);
    MapOctets(0x71, m.deliveryAnnotations, true);
    MapOctets(0x72, m.annotations, true);
    MapOctets(0x74, m.applicationProperties, false);
    MapOctets(0x78, m.footer, true);
    OneSection(Section(0x70, Composite(0x70, HeaderFields(if m.header.Some? then m.header.value else DEFAULT_HEADER))));
    OneSection(Section(0x73, Composite(0x73, PropertiesFields(if m.properties.Some? then m.properties.value else []))));
    OneSection(Section(0x77, m.value));
    NoSections();
  }

  lemma NoSections()
    ensures EncSections([]) == []
  {
  }

  lemma SectionPieces(m: Message)
    ensures EncMessage(m) ==
      EncSections(HeaderSections(m))
      + EncSections(MapSection(0x71, m.deliveryAnnotations, true)) + EncSections(MapSection(0x72, m.annotations, true))
      + EncSections(PropertiesSections(m)) + EncSections(MapSection(0x74, m.applicationProperties, false))
      + EncSections(DataSections(m.data)) + EncSections(ValueSections(m)) + EncSections(SequenceSections(m.sequences))
      + EncSections(MapSection(0x78, m.footer, true))
  {
    hide EncSections, MapSection, HeaderSections, PropertiesSections, DataSections, ValueSections, SequenceSections;
    var a, b := HeaderSections(m), MapSection(0x71, m.deliveryAnnotations, true);
    var c := MapSection(0x72, m.annotations, true);
    var d, e := PropertiesSections(m), MapSection(0x74, m.applicationProperties, false);
    var f, g, h := DataSections(m.data), ValueSections(m), SequenceSections(m.sequences);
    SectionsAppend(a, b);
    SectionsAppend(a + b, c);
    SectionsAppend(a + b + c, d);
    SectionsAppend(a + b + c + d, e);
    SectionsAppend(a + b + c + d + e, f);
    SectionsAppend(a + b + c + d + e + f, g);
    SectionsAppend(a + b + c + d + e + f + g, h);
    SectionsAppend(a + b + c + d + e + f + g + h, MapSection(0x78, m.footer, true));
  }

  /** durable, priority, ttl, first-acquirer and delivery-count. */
  lemma MessageHeaderOctets(h: MessageHeader)
    requires h.deliveryCount > 0
    ensures Enc(Composite(0x70, HeaderFields(h))) == Composed(0x70,
      [FlagText(h.durable), if h.priority == 4 then [0x40] else [0x50, h.priority],
       if h.ttl == 0 then [0x40] else UintText(Millis(h.ttl)), FlagText(h.firstAcquirer), UintText(h.deliveryCount)])
  {
    FixedOctets();
    UbyteOctets(h.priority);
    hide Enc, Composed, UintText, Millis;
    UintOctets(Millis(h.ttl));
    UintOctets(h.deliveryCount);
    Laid(0x70, HeaderFields(h),
      [FlagText(h.durable), if h.priority == 4 then [0x40] else [0x50, h.priority],
       if h.ttl == 0 then [0x40] else UintText(Millis(h.ttl)), FlagText(h.firstAcquirer), UintText(h.deliveryCount)]);
  }

  lemma UbyteOctets(n: Byte)
    ensures Enc(Ubyte(n)) == [0x50, n]
  {
  }

  // What is read.

  /** A performative in any spelling is parsed into its fields; a transfer's payload is exactly what follows. */
  lemma ParseSpelled(code: Byte, width: nat, size: nat, fs: seq<Form>, payload: seq<Byte>)
    requires code in {0x11, 0x13, 0x14, 0x15} && |fs| <= |BodySpecs(code)|
    requires FieldsTake(BodySpecs(code), Padded(Meanings(fs), |BodySpecs(code)|))
    requires ListOk(width, size, |fs|, |Texts(fs, 0)| + |payload|) && FormsOk(fs, 0, |payload|)
    ensures ParseBody(CompositeText(code, false, ListText(width, size, |fs|, Texts(fs, 0))) + payload) ==
      FR.Body(BodyFrom(code, NormFields(BodySpecs(code), Padded(Meanings(fs), |BodySpecs(code)|), 0), payload))
  {
    hide *;
    var text := CompositeText(code, false, ListText(width, size, |fs|, Texts(fs, 0)));
    var b := text + payload;
    SpelledStart(code, false, ListText(width, size, |fs|, Texts(fs, 0)), payload);
    Prefix(text, payload);
    SpellingFieldsOf(code, BodySpecs(code), false, width, size, fs, b, 0);
    var vs := NormFields(BodySpecs(code), Padded(Meanings(fs), |BodySpecs(code)|), 0);
    GivenIs(true, vs, |text|);
    BodyCodes(code);
    ParseStep(b, true, vs, |text|);
  }

  lemma BodyCodes(code: Byte)
    requires code in {0x11, 0x13, 0x14, 0x15}
    ensures code in {TRANSFER, FLOW, DISPOSITION, BEGIN} && SMALL_ULONG == 0x53
  {
  }

  lemma Prefix(x: seq<Byte>, y: seq<Byte>)
    ensures At(x + y, 0, x) && (x + y)[|x|..] == y
  {
  }

  lemma SpelledStart(code: Byte, wide: bool, list: seq<Byte>, rest: seq<Byte>)
    ensures var b := CompositeText(code, wide, list) + rest;
      |b| >= 3 && b[0] == 0x00 && (!wide ==> b[1] == 0x53 && b[2] == code)
  {
    OneByte(code);
  }

  /** No performative is parsed without its required fields: the handle of a transfer, the windows and the next
      outgoing id of a flow and a begin, and the role and the first id of a disposition. */
  lemma RequiredFields(b: seq<Byte>)
    requires ParseBody(b).Body?
    ensures |b| >= 3 && b[0] == 0x00 && b[1] == 0x53 && b[2] in {0x11, 0x13, 0x14, 0x15}
    ensures var r := ReadFieldsOf(b[2], BodySpecs(b[2]), b, 0);
      && r.Ok? && |r.v| == |BodySpecs(b[2])| && ParseBody(b).value == BodyFrom(b[2], r.v, b[r.i..])
      && (b[2] == 0x14 ==> r.v[0].Uint?)
      && (b[2] == 0x13 ==> r.v[1].Uint? && r.v[2].Uint? && r.v[3].Uint?)
      && (b[2] == 0x15 ==> r.v[0].Bool? && r.v[1].Uint?)
      && (b[2] == 0x11 ==> r.v[1].Uint? && r.v[2].Uint? && r.v[3].Uint?)
  {
    hide ReadFieldsOf, BodyFrom;
    Soundness.FieldsOfTyped(b[2], BodySpecs(b[2]), b, 0);
    hide Soundness.AllTyped;
  }

  /** A section in any spelling: a described value, or a list of fields for header and properties. */
  datatype SectionForm =
    | Plain(code: Byte, wide: bool, body: Form)
    | Listed(code: Byte, wide: bool, width: nat, size: nat, fields: seq<Form>)

  function SectionText(s: SectionForm): seq<Byte> {
    match s
    case Plain(code, wide, body) => CompositeText(code, wide, Text(body))
    case Listed(code, wide, width, size, fs) => CompositeText(code, wide, ListText(width, size, |fs|, Texts(fs, 0)))
  }

  predicate SectionFormOk(s: SectionForm, following: nat) {
    match s
    case Plain(code, _, body) =>
      && code in {0x71, 0x72, 0x74, 0x75, 0x76, 0x77, 0x78} && FormOk(body, following)
      && (Meaning(body).Null? || Takes(SectionKind(code), Meaning(body)))
    case Listed(code, _, width, size, fs) =>
      && code in {0x70, 0x73} && |fs| <= |SectionSpecs(code)|
      && FieldsTake(SectionSpecs(code), Padded(Meanings(fs), |SectionSpecs(code)|))
      && ListOk(width, size, |fs|, |Texts(fs, 0)| + following) && FormsOk(fs, 0, following)
  }

  /** The section that a form means, up to normalisation. */
  function SectionMeaning(s: SectionForm): Section {
    match s
    case Plain(code, _, body) => Section(code, NormAs(SectionKind(code), Meaning(body)))
    case Listed(code, _, _, _, fs) =>
      var vs := Padded(Meanings(fs), |SectionSpecs(code)|);
      Section(code,
        if |vs| == |SectionSpecs(code)| then Composite(code, NormFields(SectionSpecs(code), vs, 0)) else Null)
  }

  function SectionTexts(ss: seq<SectionForm>): seq<Byte> {
    if ss == [] then [] else SectionText(ss[0]) + SectionTexts(ss[1..])
  }

  predicate SectionFormsOk(ss: seq<SectionForm>) {
    ss == [] || (SectionFormOk(ss[0], |SectionTexts(ss[1..])|) && SectionFormsOk(ss[1..]))
  }

  function Stored(m: Message, ss: seq<SectionForm>): Message
    decreases |ss|
  {
    if ss == [] then m else Stored(Apply(m, SectionMeaning(ss[0])), ss[1..])
  }

  lemma SectionPeek(code: Byte, wide: bool, list: seq<Byte>, b: seq<Byte>, i: nat)
    requires At(b, i, CompositeText(code, wide, list))
    ensures |b| >= i + (if wide then 10 else 3) && PeekType(b, i) == Some((code, if wide then 10 else 3))
    ensures At(b, i + (if wide then 10 else 3), list)
  {
    hide BE, Num, Pow256;
    AtByte(b, i, 0, DescriptorText(code, wide) + list);
    AtSplit(b, i + 1, DescriptorText(code, wide), list);
    Pow256Values();
    if wide { FixedAt(b, i + 1, 0x80, code, 8); } else { OctetAt(b, i + 1, 0x53, code); }
  }

  lemma SectionRead(s: SectionForm, b: seq<Byte>, i: nat)
    requires At(b, i, SectionText(s)) && SectionFormOk(s, |b| - (i + |SectionText(s)|))
    ensures var skip := if s.wide then 10 else 3;
      && IsSection(s.code) && i + skip <= |b| && PeekType(b, i) == Some((s.code, skip))
      && ReadSection(s.code, skip, b, i) == Ok(SectionMeaning(s).body, i + |SectionText(s)|)
  {
    hide ReadFieldsOf, Unmarshal, PeekType, NormAs, NormFields, CompositeText, ListText, Texts, FormsOk, FormOk, Text,
      Takes, FieldsTake, Meaning, ListOk;
    match s {
      case Plain(code, wide, body) =>
        SectionPeek(code, wide, Text(body), b, i);
        DescribedLen(code, wide, Text(body));
        SpellingTyped(SectionKind(code), body, b, i + if wide then 10 else 3);
      case Listed(code, wide, width, size, fs) =>
        SectionPeek(code, wide, ListText(width, size, |fs|, Texts(fs, 0)), b, i);
        SpellingFieldsOf(code, SectionSpecs(code), wide, width, size, fs, b, i);
    }
  }

  lemma DescribedLen(code: Byte, wide: bool, list: seq<Byte>)
    ensures |CompositeText(code, wide, list)| == (if wide then 10 else 3) + |list|
  {
  }

  /** `Message.Unmarshal` reads a message in any spelling, section by section, as the sections that it means. */
  lemma {:induction false} MessageSpelled(ss: seq<SectionForm>, b: seq<Byte>, i: nat, m: Message)
    requires SectionFormsOk(ss) && i <= |b| && b[i..] == SectionTexts(ss)
    ensures ReadMessage(b, i, m) == Ok(Stored(m, ss), |b|)
    decreases |ss|
  {
    hide SectionFormOk, SectionText, ReadSection, PeekType, SectionMeaning, Apply, ReadMessage;
    if ss == [] {
      MessageEnd(b, i, m);
    } else {
      var s, x := ss[0], SectionText(ss[0]);
      assert b[i..i + |x|] == b[i..][..|x|];
      assert b[i + |x|..] == b[i..][|x|..] == SectionTexts(ss[1..]);
      SectionRead(s, b, i);
      MeaningCode(s);
      SpelledStep(b, i, m, s.code, if s.wide then 10 else 3, SectionMeaning(s).body, i + |x|);
      MessageSpelled(ss[1..], b, i + |x|, Apply(m, SectionMeaning(s)));
    }
  }

  lemma MeaningCode(s: SectionForm)
    ensures SectionMeaning(s) == Section(s.code, SectionMeaning(s).body)
  {
  }

  lemma SpelledStep(b: seq<Byte>, i: nat, m: Message, code: Byte, skip: nat, v: Value, j: nat)
    requires IsSection(code) && i < |b| && i + skip <= |b| && PeekType(b, i) == Some((code, skip))
    requires ReadSection(code, skip, b, i) == Ok(v, j) && j <= |b|
    ensures ReadMessage(b, i, m) == ReadMessage(b, j, Apply(m, Section(code, v)))
  {
    hide ReadSection, PeekType, Apply;
  }
}
