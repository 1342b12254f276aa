/** Message sections: `Message.Marshal` writes them in order and `Message.Unmarshal` reads them
    until the buffer is used up. */
module MessageCodec {
  import opened Bytes
  import opened Values
  import opened Encode
  import opened Decode
  import opened Arrays
  import opened RoundTrip

  const HEADER: Byte := 0x70
  const DELIVERY_ANNOTATIONS: Byte := 0x71
  const MESSAGE_ANNOTATIONS: Byte := 0x72
  const PROPERTIES: Byte := 0x73
  const APPLICATION_PROPERTIES: Byte := 0x74
  const DATA: Byte := 0x75
  const SEQUENCE: Byte := 0x76
  const VALUE: Byte := 0x77
  const FOOTER: Byte := 0x78

  /** The time to live is in nanoseconds. */
  datatype MessageHeader = MessageHeader(durable: bool, priority: Byte, ttl: I64, firstAcquirer: bool,
      deliveryCount: U32)

  /** Annotation keys are strings, symbols or 64-bit integers. `properties` has one value for
      each of its fields, null for an absent one; `value` is null when there is none. */
  datatype Message = Message(
    header: Option<MessageHeader>,
    deliveryAnnotations: Option<seq<Entry>>,
    annotations: Option<seq<Entry>>,
    properties: Option<seq<Value>>,
    applicationProperties: Option<seq<Entry>>,
    data: seq<seq<Byte>>,
    value: Value,
    sequences: seq<seq<Value>>,
    footer: Option<seq<Entry>>)

  const EMPTY := Message(None, None, None, None, None, [], Null, [], None)

  const HEADER_SPECS: seq<Spec> := [Opt(KBool), Opt(KUbyte), Opt(KMillis), Opt(KBool), Opt(KUint)]

  const PROPERTIES_SPECS: seq<Spec> :=
    [Opt(KAny), Opt(KBin), Opt(KStr), Opt(KStr), Opt(KStr), Opt(KAny), Opt(KSym), Opt(KSym), Opt(KTime), Opt(KTime),
     Opt(KStr), Opt(KUint), Opt(KStr)]

  // Encoding.

  const MILLISECOND := 1_000_000

  /** Whole milliseconds, rounded towards zero and cut to 32 bits. */
  function Millis(ttl: int): U32 { (if ttl >= 0 then ttl / MILLISECOND else -(-ttl / MILLISECOND)) % TWO32 }

  /** The nanoseconds of that many milliseconds, in 64 bits. */
  function Nanos(ms: U64): I64 {
    (ms * MILLISECOND + 0x8000_0000_0000_0000) % 0x1_0000_0000_0000_0000 - 0x8000_0000_0000_0000
  }

  /** Default values are omitted; the default priority is 4. */
  function HeaderFields(h: MessageHeader): (fs: seq<Value>)
    ensures |fs| == 5
  {
    [ if h.durable then Bool(true) else Null,
      if h.priority == 4 then Null else Ubyte(h.priority),
      if h.ttl == 0 then Null else Uint(Millis(h.ttl)),
      if h.firstAcquirer then Bool(true) else Null,
      if h.deliveryCount == 0 then Null else Uint(h.deliveryCount) ]
  }

  /** String keys of annotations are written as symbols. */
  function AnnotationEntry(e: Entry): Entry {
    if e.key.Str? then Entry(Sym(e.key.str), e.val) else e
  }

  function AnnotationEntries(es: seq<Entry>): (r: seq<Entry>)
    ensures |r| == |es| && forall j :: 0 <= j < |es| ==> r[j] == AnnotationEntry(es[j])
  {
    seq(|es|, j requires 0 <= j < |es| => AnnotationEntry(es[j]))
  }

  /** A section is a composite (header and properties) or a described body. */
  datatype Section = Section(code: Byte, body: Value)

  predicate IsCompositeSection(code: Byte) { code == HEADER || code == PROPERTIES }

  function EncSection(s: Section): seq<Byte> {
    if IsCompositeSection(s.code) then Enc(s.body) else [0, SMALL_ULONG, s.code] + Enc(s.body)
  }

  function EncSections(ss: seq<Section>): seq<Byte> {
    if ss == [] then [] else EncSection(ss[0]) + EncSections(ss[1..])
  }

  function MapSection(code: Byte, m: Option<seq<Entry>>, annotations: bool): seq<Section> {
    match m
    case None => []
    case Some(es) => [Section(code, Map(if annotations then AnnotationEntries(es) else es))]
  }

  function DataSections(data: seq<seq<Byte>>): (r: seq<Section>)
    ensures |r| == |data| && forall j :: 0 <= j < |data| ==> r[j] == Section(DATA, Binary(data[j]))
  {
    seq(|data|, j requires 0 <= j < |data| => Section(DATA, Binary(data[j])))
  }

  function SequenceSections(vs: seq<seq<Value>>): (r: seq<Section>)
    ensures |r| == |vs| && forall j :: 0 <= j < |vs| ==> r[j] == Section(SEQUENCE, List(vs[j]))
  {
    seq(|vs|, j requires 0 <= j < |vs| => Section(SEQUENCE, List(vs[j])))
  }

  function HeaderSections(m: Message): seq<Section> {
    if m.header.None? then [] else [Section(HEADER, Composite(HEADER, HeaderFields(m.header.value)))]
  }

  /** The user id, the second property, is omitted when it is empty. */
  function PropertiesFields(fs: seq<Value>): (r: seq<Value>)
    ensures |r| == |fs|
  {
    if |fs| > 1 && fs[1] == Binary([]) then fs[1 := Null] else fs
  }

  function PropertiesSections(m: Message): seq<Section> {
    if m.properties.None? then []
    else [Section(PROPERTIES, Composite(PROPERTIES, PropertiesFields(m.properties.value)))]
  }

  function ValueSections(m: Message): seq<Section> {
    if m.value.Null? then [] else [Section(VALUE, m.value)]
  }

  function Sections(m: Message): seq<Section> {
    HeaderSections(m)
    + MapSection(DELIVERY_ANNOTATIONS, m.deliveryAnnotations, true)
    + MapSection(MESSAGE_ANNOTATIONS, m.annotations, true)
    + PropertiesSections(m)
    + MapSection(APPLICATION_PROPERTIES, m.applicationProperties, false)
    + DataSections(m.data)
    + ValueSections(m)
    + SequenceSections(m.sequences)
    + MapSection(FOOTER, m.footer, true)
  }

  /** What `Message.Marshal` writes. */
  function EncMessage(m: Message): seq<Byte> { EncSections(Sections(m)) }

  // Decoding.

  /** `PeekMessageType`: the section code and the length of its descriptor. */
  function PeekType(b: seq<Byte>, i: nat): (r: Option<(Byte, nat)>)
    ensures r.Some? ==> 2 <= r.value.1 <= |b| - i && b[i] == 0
  {
    if |b| < i + 3 || b[i] != 0 then None
    else if b[i + 1] == ULONG0 then Some((0, 2))
    else if b[i + 1] == SMALL_ULONG then Some((b[i + 2], 3))
    else if b[i + 1] == ULONG && |b| >= i + 10 then Some((Num(b[i + 2..i + 10]) % 256, 10))
    else None
  }

  predicate IsSection(code: Byte) { HEADER <= code <= FOOTER }

  /** The type of the field that a section is decoded into. */
  function SectionKind(code: Byte): Kind {
    if code == APPLICATION_PROPERTIES then KMapStr
    else if code == DATA then KBin
    else if code == SEQUENCE then KList
    else if code == VALUE then KAny
    else KAnnotations
  }

  /** The body of a section: a composite, or a value after the descriptor. */
  function ReadSection(code: Byte, skip: nat, b: seq<Byte>, i: nat): (r: Read<Value>)
    requires IsSection(code) && i + skip <= |b|
    ensures Advanced(r, b, i)
  {
    if code == HEADER then
      var (fs, j) :- ReadFieldsOf(HEADER, HEADER_SPECS, b, i);
      Ok(Composite(HEADER, fs), j)
    else if code == PROPERTIES then
      var (fs, j) :- ReadFieldsOf(PROPERTIES, PROPERTIES_SPECS, b, i);
      Ok(Composite(PROPERTIES, fs), j)
    else Unmarshal(SectionKind(code), b, i + skip)
  }

  const DEFAULT_HEADER := MessageHeader(false, 0, 0, false, 0)

  /** Decoding a header keeps the previous value of a null field, except that a null priority
      becomes 4. */
  function HeaderFrom(fs: seq<Value>, prev: MessageHeader): MessageHeader
    requires |fs| == 5
  {
    MessageHeader(
      if fs[0].Bool? then fs[0].b else prev.durable,
      if fs[1].Ubyte? then fs[1].ubyte else 4,
      if fs[2].Ulong? then Nanos(fs[2].ulong) else prev.ttl,
      if fs[3].Bool? then fs[3].b else prev.firstAcquirer,
      if fs[4].Uint? then fs[4].uint else prev.deliveryCount)
  }

  function Merge(fs: seq<Value>, prev: Option<seq<Value>>): (r: seq<Value>)
    ensures |r| == |fs|
    ensures prev.None? ==> r == fs
  {
    seq(|fs|, j requires 0 <= j < |fs| =>
      if fs[j].Null? && prev.Some? && j < |prev.value| then prev.value[j] else fs[j])
  }

  function EntriesOf(v: Value, prev: Option<seq<Entry>>): Option<seq<Entry>> {
    if v.Map? then Some(v.entries) else prev
  }

  /** Stores a decoded section in the message. */
  function Apply(m: Message, s: Section): Message {
    var v := s.body;
    if s.code == HEADER then
      if v.Composite? && |v.fields| == 5
      then m.(header := Some(HeaderFrom(v.fields, if m.header.Some? then m.header.value else DEFAULT_HEADER))) else m
    else if s.code == PROPERTIES then
      if v.Composite? then m.(properties := Some(Merge(v.fields, m.properties))) else m
    else if s.code == DELIVERY_ANNOTATIONS then m.(deliveryAnnotations := EntriesOf(v, m.deliveryAnnotations))
    else if s.code == MESSAGE_ANNOTATIONS then m.(annotations := EntriesOf(v, m.annotations))
    else if s.code == APPLICATION_PROPERTIES then m.(applicationProperties := EntriesOf(v, m.applicationProperties))
    else if s.code == DATA then m.(data := m.data + [if v.Binary? then v.bin else []])
    else if s.code == SEQUENCE then m.(sequences := m.sequences + [if v.List? then v.items else []])
    else if s.code == VALUE then (if v.Null? then m else m.(value := v))
    else m.(footer := EntriesOf(v, m.footer))
  }

  /** `Message.Unmarshal`, starting at cursor `i` with the sections read so far in `m`. */
  function ReadMessage(b: seq<Byte>, i: nat, m: Message): (r: Read<Message>)
    requires i <= |b|
    ensures r.Ok? ==> r.i == |b|
    decreases |b| - i
  {
    if i == |b| then Ok(m, i)
    else match PeekType(b, i)
      case None => Bad
      case Some((code, skip)) =>
        if !IsSection(code) then Bad
        else
          var (v, j) :- ReadSection(code, skip, b, i);
          ReadMessage(b, j, Apply(m, Section(code, v)))
  }

  /** The message in a buffer, if decoding it succeeds. */
  function DecodeMessage(b: seq<Byte>): Option<Message> {
    var r := ReadMessage(b, 0, EMPTY);
    if r.Ok? then Some(r.v) else None
  }

  // Round trip, section by section.

  function SectionSpecs(code: Byte): seq<Spec> { if code == HEADER then HEADER_SPECS else PROPERTIES_SPECS }

  predicate SectionOk(s: Section) {
    && IsSection(s.code)
    && |EncSection(s)| < TWO32
    && if IsCompositeSection(s.code)
       then && s.body.Composite? && s.body.code == s.code && FieldsMatch(SectionSpecs(s.code), s.body.fields)
            && forall x :: x in s.body.fields ==> Regular(x)
       else HasKind(SectionKind(s.code), s.body) && Regular(s.body)
  }

  function NormSection(s: Section): Section
    requires SectionOk(s)
  {
    if IsCompositeSection(s.code)
    then Section(s.code, Composite(s.code, NormFields(SectionSpecs(s.code), s.body.fields, 0)))
    else Section(s.code, NormAs(SectionKind(s.code), s.body))
  }

  lemma SectionRoundTrip(s: Section, b: seq<Byte>, i: nat)
    requires SectionOk(s) && At(b, i, EncSection(s))
    ensures IsSection(s.code) && i + 3 <= |b| && PeekType(b, i) == Some((s.code, 3))
    ensures var end := i + |EncSection(s)|;
      ReadSection(s.code, 3, b, i) == Given(Roomy(s.body, |b| - end), NormSection(s).body, end)
  {
    hide *;
    SectionParts(s);
    AtEnd(b, i, EncSection(s));
    if IsCompositeSection(s.code) {
      var end := i + |EncSection(s)|;
      CompositeSectionStart(s.body, b, i);
      SectionStart(s, b, i);
      FieldsOfRoundTrip(s.code, SectionSpecs(s.code), s.body.fields, b, i);
      var fs := NormFields(SectionSpecs(s.code), s.body.fields, 0);
      GivenIs(Roomy(s.body, |b| - end), fs, end);
      GivenIs(Roomy(s.body, |b| - end), Composite(s.code, fs), end);
    } else {
      BodySectionStart(s, b, i);
      SectionStart(s, b, i);
      UnmarshalRoundTrip(SectionKind(s.code), s.body, b, i + 3);
    }
  }

  lemma SectionParts(s: Section)
    requires SectionOk(s)
    ensures IsSection(s.code) && |EncSection(s)| < TWO32
    ensures if IsCompositeSection(s.code) then
        && s.body == Composite(s.code, s.body.fields) && EncSection(s) == Enc(s.body)
        && FieldsMatch(SectionSpecs(s.code), s.body.fields) && |SectionSpecs(s.code)| == |s.body.fields|
        && (forall x :: x in s.body.fields ==> Regular(x))
        && NormSection(s).body == Composite(s.code, NormFields(SectionSpecs(s.code), s.body.fields, 0))
      else
        && |EncSection(s)| == 3 + |Enc(s.body)|
        && HasKind(SectionKind(s.code), s.body) && Regular(s.body)
        && NormSection(s).body == NormAs(SectionKind(s.code), s.body)
  {
    hide Enc, Regular, HasKind, NormAs, NormFields, SectionKind;
  }

  /** The code of a section selects its reader. */
  lemma SectionStart(s: Section, b: seq<Byte>, i: nat)
    requires IsSection(s.code) && i + 2 < |b| && b[i] == 0 && b[i + 1] == SMALL_ULONG && b[i + 2] == s.code
    ensures PeekType(b, i) == Some((s.code, 3))
    ensures ReadSection(s.code, 3, b, i) ==
      if IsCompositeSection(s.code) then
        match ReadFieldsOf(s.code, SectionSpecs(s.code), b, i)
        case Bad => Bad
        case Panic => Panic
        case Ok(fs, j) => Ok(Composite(s.code, fs), j)
      else Unmarshal(SectionKind(s.code), b, i + 3)
  {
    hide ReadFieldsOf, Unmarshal, SectionKind;
  }

  lemma BodySectionStart(s: Section, b: seq<Byte>, i: nat)
    requires !IsCompositeSection(s.code) && At(b, i, EncSection(s))
    ensures i + 2 < |b| && b[i] == 0 && b[i + 1] == SMALL_ULONG && b[i + 2] == s.code && At(b, i + 3, Enc(s.body))
  {
    hide Enc;
    var tail := Enc(s.body);
    assert EncSection(s) == [0] + ([SMALL_ULONG] + ([s.code] + tail));
    AtByte(b, i, 0, [SMALL_ULONG] + ([s.code] + tail));
    AtByte(b, i + 1, SMALL_ULONG, [s.code] + tail);
    AtByte(b, i + 2, s.code, tail);
  }

  lemma CompositeSectionStart(v: Value, b: seq<Byte>, i: nat)
    requires v.Composite? && At(b, i, Enc(v))
    ensures i + 2 < |b| && b[i] == 0 && b[i + 1] == SMALL_ULONG && b[i + 2] == v.code
  {
    hide EncItems;
    var x := Enc(v);
    assert |x| >= 4 && x[0] == 0 && x[1] == SMALL_ULONG && x[2] == v.code;
    assert b[i..i + |x|][0] == b[i] && b[i..i + |x|][1] == b[i + 1] && b[i..i + |x|][2] == b[i + 2];
  }

  function ApplyAll(m: Message, ss: seq<Section>): Message
    requires forall s :: s in ss ==> SectionOk(s)
    decreases |ss|
  {
    if ss == [] then m else ApplyAll(Apply(m, NormSection(ss[0])), ss[1..])
  }

  /** The arrays of strings in the sections have room where they are. */
  predicate RoomySections(ss: seq<Section>)
    decreases |ss|
  {
    ss == [] || (Roomy(ss[0].body, |EncSections(ss[1..])|) && RoomySections(ss[1..]))
  }

  lemma {:induction false} SectionsRoundTrip(ss: seq<Section>, b: seq<Byte>, i: nat, m: Message)
    requires forall s :: s in ss ==> SectionOk(s)
    requires i <= |b| && b[i..] == EncSections(ss)
    ensures ReadMessage(b, i, m) == Given(RoomySections(ss), ApplyAll(m, ss), |b|)
    decreases |ss|
  {
    hide SectionOk, Roomy, EncSection, ReadSection, PeekType, NormSection, Apply, ReadMessage;
    if ss == [] {
      MessageEnd(b, i, m);
    } else {
      var x := EncSection(ss[0]);
      assert b[i..i + |x|] == b[i..][..|x|];
      SectionRoundTrip(ss[0], b, i);
      assert b[i + |x|..] == b[i..][|x|..] == EncSections(ss[1..]);
      MessageStep(b, i, m, ss[0].code, Roomy(ss[0].body, |b| - (i + |x|)), NormSection(ss[0]).body, i + |x|);
      SectionCode(ss[0]);
      SectionsRoundTrip(ss[1..], b, i + |x|, Apply(m, NormSection(ss[0])));
    }
  }

  lemma SectionCode(s: Section)
    requires SectionOk(s)
    ensures NormSection(s) == Section(s.code, NormSection(s).body)
  {
  }

  lemma MessageEnd(b: seq<Byte>, i: nat, m: Message)
    requires i <= |b| && b[i..] == []
    ensures ReadMessage(b, i, m) == Ok(m, |b|)
  {
  }

  lemma MessageStep(b: seq<Byte>, i: nat, m: Message, code: Byte, room: bool, v: Value, j: nat)
    requires IsSection(code) && i + 3 <= |b| && PeekType(b, i) == Some((code, 3))
    requires ReadSection(code, 3, b, i) == Given(room, v, j) && j <= |b|
    ensures ReadMessage(b, i, m) == if room then ReadMessage(b, j, Apply(m, Section(code, v))) else Bad
  {
    hide ReadSection, PeekType, Apply;
  }

  // Round trip of whole messages.

  predicate AnnotationsOk(m: Option<seq<Entry>>) {
    m.Some? ==>
      && (forall e :: e in m.value ==> e.key.Str? || e.key.Sym? || e.key.Long?)
      && Regular(Map(m.value))
  }

  /** Messages whose parts are restored by decoding, or refused for want of room. */
  predicate MessageOk(m: Message) {
    && |EncMessage(m)| < TWO32
    && AnnotationsOk(m.deliveryAnnotations) && AnnotationsOk(m.annotations) && AnnotationsOk(m.footer)
    && (m.properties.Some? ==>
          FieldsMatch(PROPERTIES_SPECS, m.properties.value) && forall x :: x in m.properties.value ==> Regular(x))
    && (m.applicationProperties.Some? ==>
          HasKind(KMapStr, Map(m.applicationProperties.value)) && Regular(Map(m.applicationProperties.value)))
    && Regular(m.value)
    && forall j :: 0 <= j < |m.sequences| ==> Regular(List(m.sequences[j]))
  }

  function NormHeader(h: MessageHeader): MessageHeader { h.(ttl := Millis(h.ttl) * MILLISECOND) }

  /** The time to live is kept if and only if it is a whole number of milliseconds from 0 to below 2^32. */
  lemma TtlKeptIff(h: MessageHeader)
    ensures NormHeader(h) == h <==> 0 <= h.ttl < TWO32 * MILLISECOND && h.ttl % MILLISECOND == 0
  {
  }

  /** For example, 50 days become 25032.704 seconds, less than seven hours. */
  lemma LongTtlIsCut(h: MessageHeader)
    requires h.ttl == 50 * 24 * 3600 * 1000 * MILLISECOND
    ensures NormHeader(h).ttl == 25_032_704 * MILLISECOND
  {
  }

  function NormOpt(m: Option<seq<Entry>>): Option<seq<Entry>> {
    if m.None? then None else Some(NormMap(KAny, m.value))
  }

  function NormSequences(vs: seq<seq<Value>>): (r: seq<seq<Value>>)
    ensures |r| == |vs| && forall j :: 0 <= j < |vs| ==> r[j] == NormItems(vs[j], 0)
  {
    seq(|vs|, j requires 0 <= j < |vs| => NormItems(vs[j], 0))
  }

  /** The message up to the decoder's normalisation of dynamically typed values; an empty user id is
      none. */
  function NormMessage(m: Message): Message
    requires MessageOk(m)
  {
    m.(header := if m.header.None? then None else Some(NormHeader(m.header.value)),
       deliveryAnnotations := NormOpt(m.deliveryAnnotations),
       annotations := NormOpt(m.annotations),
       properties :=
         if m.properties.None? then None
         else Some(NormFields(PROPERTIES_SPECS, PropertiesFields(m.properties.value), 0)),
       applicationProperties := NormOpt(m.applicationProperties),
       value := Norm(m.value),
       sequences := NormSequences(m.sequences),
       footer := NormOpt(m.footer))
  }

  lemma {:induction false} SectionBound(ss: seq<Section>, s: Section)
    requires s in ss
    ensures |EncSection(s)| <= |EncSections(ss)|
    decreases |ss|
  {
    hide EncSection;
    if s != ss[0] {
      SectionBound(ss[1..], s);
    }
  }

  /** Writing string keys as symbols does not change what is read back. */
  lemma {:induction false} AnnotationsBack(es: seq<Entry>, j: nat)
    requires j <= |es|
    ensures NormEntries(KAny, AnnotationEntries(es), j) == NormEntries(KAny, es, j)
    decreases |es| - j
  {
    if j < |es| {
      AnnotationsBack(es, j + 1);
      AnnotationKeyBack(es[j]);
    }
  }

  lemma AnnotationKeyBack(e: Entry)
    ensures Norm(AnnotationEntry(e).key) == Norm(e.key) && AnnotationEntry(e).val == e.val
    ensures NormEntry(KAny, AnnotationEntry(e)) == NormEntry(KAny, e)
    ensures Regular(e.key) ==> Regular(AnnotationEntry(e).key)
  {
  }

  lemma AnnotationsRegular(es: seq<Entry>)
    requires AnnotationsOk(Some(es))
    ensures HasKind(KAnnotations, Map(AnnotationEntries(es))) && Regular(Map(AnnotationEntries(es)))
  {
    hide Norm, Hashable;
    var ws := AnnotationEntries(es);
    forall e | e in ws ensures Regular(e.key) && Regular(e.val) && Hashable(Norm(e.key)) {
      var j :| 0 <= j < |ws| && ws[j] == e;
      AnnotationKeyBack(es[j]);
      assert es[j] in es;
    }
  }

  lemma HeaderFieldsOk(h: MessageHeader)
    ensures FieldsMatch(HEADER_SPECS, HeaderFields(h)) && forall x :: x in HeaderFields(h) ==> Regular(x)
    ensures HeaderFrom(NormFields(HEADER_SPECS, HeaderFields(h), 0), DEFAULT_HEADER) == NormHeader(h)
  {
    MillisBack(h.ttl);
    hide Regular, NormFields, NormAs, Millis, Nanos;
    var fs := HeaderFields(h);
    NormFieldsAll(HEADER_SPECS, fs);
    forall x | x in fs ensures Regular(x) { HeaderField(KBool, x); }
    HeaderField(KBool, fs[0]);
    HeaderField(KUbyte, fs[1]);
    HeaderField(KMillis, fs[2]);
    HeaderField(KBool, fs[3]);
    HeaderField(KUint, fs[4]);
  }

  lemma MillisBack(ttl: I64)
    ensures Nanos(Millis(ttl)) == Millis(ttl) * MILLISECOND && Millis(0) == 0
  {
  }

  lemma HeaderField(kind: Kind, v: Value)
    requires v.Null? || v.Bool? || (v.Ubyte? && !kind.KMillis?) || v.Uint?
    ensures Regular(v) && NormAs(kind, v) == if kind.KMillis? && v.Uint? then Ulong(v.uint) else v
  {
    assert Norm(v) == v;
  }

  lemma PropertiesOk(fs: seq<Value>)
    requires FieldsMatch(PROPERTIES_SPECS, fs) && forall x :: x in fs ==> Regular(x)
    ensures FieldsMatch(PROPERTIES_SPECS, PropertiesFields(fs)) && forall x :: x in PropertiesFields(fs) ==> Regular(x)
  {
    assert Regular(Null);
    hide Regular, HasKind;
  }

  /** Each section of an acceptable message is restored. */
  lemma SectionsOk(m: Message)
    requires MessageOk(m)
    ensures forall s :: s in Sections(m) ==> SectionOk(s)
  {
    hide SectionOk, EncSection, Regular, HasKind, FieldsMatch, AnnotationsOk, AnnotationEntries, EncSections;
    forall s | s in Sections(m) ensures SectionOk(s) {
      SectionBound(Sections(m), s);
      if s in HeaderSections(m) {
        HeaderSectionOk(m.header.value);
      } else if s in MapSection(DELIVERY_ANNOTATIONS, m.deliveryAnnotations, true) {
        AnnotationSectionOk(DELIVERY_ANNOTATIONS, m.deliveryAnnotations.value);
      } else if s in MapSection(MESSAGE_ANNOTATIONS, m.annotations, true) {
        AnnotationSectionOk(MESSAGE_ANNOTATIONS, m.annotations.value);
      } else if s in MapSection(FOOTER, m.footer, true) {
        AnnotationSectionOk(FOOTER, m.footer.value);
      } else {
        hide MessageOk, DataSections, ValueSections, SequenceSections, PropertiesSections, MapSection;
        OtherSectionOk(m, s);
      }
    }
  }

  lemma OtherSectionOk(m: Message, s: Section)
    requires MessageOk(m) && |EncSection(s)| < TWO32
    requires s in PropertiesSections(m) || s in MapSection(APPLICATION_PROPERTIES, m.applicationProperties, false)
          || s in DataSections(m.data) || s in ValueSections(m) || s in SequenceSections(m.sequences)
    ensures SectionOk(s)
  {
    hide SectionOk, EncSection, Regular, HasKind, FieldsMatch, AnnotationsOk, EncMessage;
    if s in DataSections(m.data) { BinaryRegular(s.body); }
    if s in PropertiesSections(m) { PropertiesOk(m.properties.value); }
    PlainSectionOk(s);
  }

  lemma BinaryRegular(v: Value)
    requires v.Binary?
    ensures Regular(v)
  {
  }

  lemma HeaderSectionOk(h: MessageHeader)
    requires |EncSection(Section(HEADER, Composite(HEADER, HeaderFields(h))))| < TWO32
    ensures SectionOk(Section(HEADER, Composite(HEADER, HeaderFields(h))))
  {
    hide EncSection, HeaderFields, Regular, FieldsMatch;
    HeaderFieldsOk(h);
  }

  lemma AnnotationSectionOk(code: Byte, es: seq<Entry>)
    requires code in {DELIVERY_ANNOTATIONS, MESSAGE_ANNOTATIONS, FOOTER} && AnnotationsOk(Some(es))
    requires |EncSection(Section(code, Map(AnnotationEntries(es))))| < TWO32
    ensures SectionOk(Section(code, Map(AnnotationEntries(es))))
  {
    hide EncSection, Regular, HasKind, AnnotationsOk;
    AnnotationsRegular(es);
  }

  /** The other sections hold their value as it is. */
  lemma PlainSectionOk(s: Section)
    requires IsSection(s.code) && s.code != HEADER && |EncSection(s)| < TWO32
    requires s.code == PROPERTIES ==>
      && s.body.Composite? && s.body.code == PROPERTIES && FieldsMatch(PROPERTIES_SPECS, s.body.fields)
      && forall x :: x in s.body.fields ==> Regular(x)
    requires s.code != PROPERTIES ==> Regular(s.body)
    requires s.code == APPLICATION_PROPERTIES ==> HasKind(KMapStr, s.body)
    requires s.code == DATA ==> s.body.Binary?
    requires s.code == SEQUENCE ==> s.body.List?
    requires s.code == VALUE ==> !s.body.Null?
    requires s.code !in {DELIVERY_ANNOTATIONS, MESSAGE_ANNOTATIONS, FOOTER}
    ensures SectionOk(s)
  {
    hide EncSection, Regular, FieldsMatch;
  }

  // Folding the sections gives the message back.

  lemma {:induction false} ApplyAppend(m: Message, xs: seq<Section>, ys: seq<Section>)
    requires forall s :: s in xs + ys ==> SectionOk(s)
    ensures (forall s :: s in xs ==> SectionOk(s)) && (forall s :: s in ys ==> SectionOk(s))
    ensures ApplyAll(m, xs + ys) == ApplyAll(ApplyAll(m, xs), ys)
    decreases |xs|
  {
    hide SectionOk, NormSection, Apply;
    assert forall s :: s in xs ==> s in xs + ys;
    assert forall s :: s in ys ==> s in xs + ys;
    if xs == [] {
      assert xs + ys == ys;
    } else {
      assert (xs + ys)[1..] == xs[1..] + ys;
      ApplyAppend(Apply(m, NormSection(xs[0])), xs[1..], ys);
    }
  }

  lemma ApplyOne(m: Message, s: Section)
    requires SectionOk(s)
    ensures ApplyAll(m, [s]) == Apply(m, NormSection(s))
  {
    hide SectionOk, NormSection, Apply;
  }

  lemma {:induction false} ApplyData(m: Message, data: seq<seq<Byte>>)
    requires forall s :: s in DataSections(data) ==> SectionOk(s)
    ensures ApplyAll(m, DataSections(data)) == m.(data := m.data + data)
    decreases |data|
  {
    hide SectionOk, NormSection, Apply;
    var ss := DataSections(data);
    if data == [] {
      assert m.data + data == m.data;
    } else {
      assert ss[1..] == DataSections(data[1..]);
      ApplyDataOne(m, ss[0], data[0]);
      ApplyData(m.(data := m.data + [data[0]]), data[1..]);
      assert m.data + [data[0]] + data[1..] == m.data + data;
    }
  }

  lemma ApplyDataOne(m: Message, s: Section, x: seq<Byte>)
    requires SectionOk(s) && s == Section(DATA, Binary(x))
    ensures Apply(m, NormSection(s)) == m.(data := m.data + [x])
  {
    assert NormAs(KBin, s.body) == Norm(s.body) == s.body;
  }

  lemma {:induction false} ApplySequences(m: Message, vs: seq<seq<Value>>)
    requires forall s :: s in SequenceSections(vs) ==> SectionOk(s)
    ensures ApplyAll(m, SequenceSections(vs)) == m.(sequences := m.sequences + NormSequences(vs))
    decreases |vs|
  {
    hide SectionOk, NormSection, Apply, NormItems, Norm, EncSection;
    var ss := SequenceSections(vs);
    if vs == [] {
      assert m.sequences + NormSequences(vs) == m.sequences;
    } else {
      assert ss[1..] == SequenceSections(vs[1..]);
      ApplySequenceOne(m, ss[0], vs[0]);
      ApplySequences(m.(sequences := m.sequences + [NormItems(vs[0], 0)]), vs[1..]);
      assert m.sequences + [NormItems(vs[0], 0)] + NormSequences(vs[1..]) == m.sequences + NormSequences(vs);
    }
  }

  lemma ApplySequenceOne(m: Message, s: Section, vs: seq<Value>)
    requires SectionOk(s) && s == Section(SEQUENCE, List(vs))
    ensures Apply(m, NormSection(s)) == m.(sequences := m.sequences + [NormItems(vs, 0)])
  {
    assert NormAs(KList, s.body) == Norm(s.body) == List(NormItems(vs, 0));
  }

  lemma ApplyMap(m: Message, code: Byte, es: Option<seq<Entry>>, annotations: bool)
    requires forall s :: s in MapSection(code, es, annotations) ==> SectionOk(s)
    requires code in {DELIVERY_ANNOTATIONS, MESSAGE_ANNOTATIONS, APPLICATION_PROPERTIES, FOOTER}
    requires annotations <==> code != APPLICATION_PROPERTIES
    ensures ApplyAll(m, MapSection(code, es, annotations)) ==
      if es.None? then m else Apply(m, Section(code, Map(NormMap(KAny, es.value))))
  {
    if es.Some? {
      var s := MapSection(code, es, annotations)[0];
      ApplyOne(m, s);
      if annotations { AnnotationsBack(es.value, 0); }
      MapSectionBack(s);
    }
  }

  lemma MapSectionBack(s: Section)
    requires SectionOk(s) && s.body.Map?
    requires s.code in {DELIVERY_ANNOTATIONS, MESSAGE_ANNOTATIONS, APPLICATION_PROPERTIES, FOOTER}
    ensures NormSection(s) == Section(s.code, Map(NormMap(KAny, s.body.entries)))
  {
    assert NormAs(SectionKind(s.code), s.body) == Norm(s.body) == Map(NormMap(KAny, s.body.entries));
    hide Regular, EncSection, HasKind;
  }

  lemma ApplyHeader(m: Message, m0: Message)
    requires MessageOk(m) && m0.header.None? && forall s :: s in HeaderSections(m) ==> SectionOk(s)
    ensures ApplyAll(m0, HeaderSections(m)) == m0.(header := NormMessage(m).header)
  {
    hide SectionOk, MessageOk;
    if m.header.Some? {
      var s := HeaderSections(m)[0];
      ApplyOne(m0, s);
      HeaderFieldsOk(m.header.value);
    }
  }

  lemma ApplyProperties(m: Message, m0: Message)
    requires MessageOk(m) && m0.properties.None? && forall s :: s in PropertiesSections(m) ==> SectionOk(s)
    ensures ApplyAll(m0, PropertiesSections(m)) == m0.(properties := NormMessage(m).properties)
  {
    hide SectionOk;
    if m.properties.Some? {
      ApplyOne(m0, PropertiesSections(m)[0]);
    }
  }

  lemma ApplyValue(m: Message, m0: Message)
    requires m0.value.Null? && forall s :: s in ValueSections(m) ==> SectionOk(s)
    ensures ApplyAll(m0, ValueSections(m)) == m0.(value := Norm(m.value))
  {
    hide SectionOk;
    if !m.value.Null? {
      ApplyOne(m0, ValueSections(m)[0]);
      NormAsNull(KAny, m.value);
    }
  }

  lemma FoldSections(m: Message)
    requires MessageOk(m) && forall s :: s in Sections(m) ==> SectionOk(s)
    ensures ApplyAll(EMPTY, Sections(m)) == NormMessage(m)
  {
    hide SectionOk, MessageOk, NormMessage, ApplyAll, NormEntries, Norm;
    var s1 := HeaderSections(m);
    var s2 := MapSection(DELIVERY_ANNOTATIONS, m.deliveryAnnotations, true);
    var s3 := MapSection(MESSAGE_ANNOTATIONS, m.annotations, true);
    var s4 := PropertiesSections(m);
    var s5 := MapSection(APPLICATION_PROPERTIES, m.applicationProperties, false);
    var s6 := DataSections(m.data);
    var s7 := ValueSections(m);
    var s8 := SequenceSections(m.sequences);
    var s9 := MapSection(FOOTER, m.footer, true);
    ApplyAppend(EMPTY, s1 + s2 + s3 + s4 + s5 + s6 + s7 + s8, s9);
    ApplyAppend(EMPTY, s1 + s2 + s3 + s4 + s5 + s6 + s7, s8);
    ApplyAppend(EMPTY, s1 + s2 + s3 + s4 + s5 + s6, s7);
    ApplyAppend(EMPTY, s1 + s2 + s3 + s4 + s5, s6);
    ApplyAppend(EMPTY, s1 + s2 + s3 + s4, s5);
    ApplyAppend(EMPTY, s1 + s2 + s3, s4);
    ApplyAppend(EMPTY, s1 + s2, s3);
    ApplyAppend(EMPTY, s1, s2);
    var n := NormMessage(m);
    ApplyHeader(m, EMPTY);
    var m1 := EMPTY.(header := n.header);
    ApplyMap(m1, DELIVERY_ANNOTATIONS, m.deliveryAnnotations, true);
    var m2 := m1.(deliveryAnnotations := NormOpt(m.deliveryAnnotations));
    ApplyMap(m2, MESSAGE_ANNOTATIONS, m.annotations, true);
    var m3 := m2.(annotations := NormOpt(m.annotations));
    ApplyProperties(m, m3);
    var m4 := m3.(properties := n.properties);
    ApplyMap(m4, APPLICATION_PROPERTIES, m.applicationProperties, false);
    var m5 := m4.(applicationProperties := NormOpt(m.applicationProperties));
    ApplyData(m5, m.data);
    assert [] + m.data == m.data;
    var m6 := m5.(data := m.data);
    ApplyValue(m, m6);
    var m7 := m6.(value := Norm(m.value));
    ApplySequences(m7, m.sequences);
    assert [] + NormSequences(m.sequences) == NormSequences(m.sequences);
    var m8 := m7.(sequences := NormSequences(m.sequences));
    ApplyMap(m8, FOOTER, m.footer, true);
    NormParts(m);
  }

  lemma NormParts(m: Message)
    requires MessageOk(m)
    ensures NormMessage(m) == Message(NormMessage(m).header, NormOpt(m.deliveryAnnotations), NormOpt(m.annotations),
      NormMessage(m).properties, NormOpt(m.applicationProperties), m.data, Norm(m.value), NormSequences(m.sequences),
      NormOpt(m.footer))
  {
    hide MessageOk, NormFields, NormItems, Norm, NormOpt;
  }

  /** The message law: `Message.Unmarshal` inverts `Message.Marshal` up to the normalisation of
      dynamically typed values, if and only if the arrays of strings have room. */
  lemma MessageRoundTrip(m: Message)
    requires MessageOk(m)
    ensures DecodeMessage(EncMessage(m)) == if RoomySections(Sections(m)) then Some(NormMessage(m)) else None
  {
    hide RoomySections, MessageOk, SectionOk, ReadMessage, ApplyAll, NormMessage;
    SectionsOk(m);
    var b := EncMessage(m);
    assert b[0..] == b;
    SectionsRoundTrip(Sections(m), b, 0, EMPTY);
    FoldSections(m);
  }
}
