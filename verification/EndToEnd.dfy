/** From `Send` on one side to the queue of received messages on the other, through the byte
    stream between them. */
module EndToEnd {
  import opened Bytes
  import opened Values
  import opened Encode
  import opened RoundTrip
  import opened Frames
  import opened MessageCodec
  import opened Transfer
  import opened FrameSize
  import FR = FrameReader

  // The stream.

  /** Frames as `frames.Write` puts them on the wire, one after the other. */
  function Stream<B>(enc: B -> seq<Byte>, fs: seq<FR.Frame<B>>): seq<Byte> {
    if fs == [] then [] else FrameBytes(fs[0].channel, enc(fs[0].body)) + Stream(enc, fs[1..])
  }

  function Mapped<B>(f: B -> B, fs: seq<FR.Frame<B>>): (r: seq<FR.Frame<B>>)
    ensures |r| == |fs| && forall k :: 0 <= k < |fs| ==> r[k] == FR.Frame(fs[k].channel, f(fs[k].body))
  {
    seq(|fs|, k requires 0 <= k < |fs| => FR.Frame(fs[k].channel, f(fs[k].body)))
  }

  lemma FrameHeader(channel: U16, body: seq<Byte>, rest: seq<Byte>)
    requires 8 <= |body| <= FR.MAX_INT32 - 8
    ensures var s := FrameBytes(channel, body) + rest; var h := FR.HeaderOf(s);
      && h == FR.Header(8 + |body|, 2, channel) && FR.HeaderError(h).None?
      && s[8..8 + |body|] == body && s[8 + |body|..] == rest
  {
    var s := FrameBytes(channel, body) + rest;
    Pow256Values();
    NumBE(8 + |body|, 4);
    NumBE(channel, 2);
    hide BE, Num;
    assert s[0..4] == BE(8 + |body|, 4);
    assert s[6..8] == BE(channel, 2);
    assert s[4] == 2;
  }

  /** Every sequence of frames is read back from its stream. */
  lemma {:induction false} StreamRoundTrip<B>(enc: B -> seq<Byte>, parse: seq<Byte> -> FR.Parsed<B>, norm: B -> B,
      fs: seq<FR.Frame<B>>)
    requires forall f :: f in fs ==>
      parse(enc(f.body)) == FR.Body(norm(f.body)) && 8 <= |enc(f.body)| <= FR.MAX_INT32 - 8
    ensures FR.ParseAll(parse, Stream(enc, fs)) == FR.Outcome(Mapped(norm, fs), FR.Net)
    ensures FR.ShortTail(parse, Stream(enc, fs)).None?
  {
    hide FR.ParseAll, FR.ShortTail, FrameBytes;
    if fs == [] {
      FR.NoTail(parse, Stream(enc, fs));
    } else {
      var f, rest := fs[0], Stream(enc, fs[1..]);
      assert f in fs;
      StreamRoundTrip(enc, parse, norm, fs[1..]);
      StreamStep(enc, fs);
      hide Stream;
      FirstOfStream(parse, f.channel, enc(f.body), norm(f.body), rest);
      assert Mapped(norm, fs) == [FR.Frame(f.channel, norm(f.body))] + Mapped(norm, fs[1..]);
    }
  }

  lemma FirstOfStream<B>(parse: seq<Byte> -> FR.Parsed<B>, channel: U16, body: seq<Byte>, x: B, rest: seq<Byte>)
    requires parse(body) == FR.Body(x) && 8 <= |body| <= FR.MAX_INT32 - 8
    ensures var s := FrameBytes(channel, body) + rest;
      && FR.ParseAll(parse, s) == FR.Cons(FR.Frame(channel, x), FR.ParseAll(parse, rest))
      && (FR.ShortTail(parse, rest).None? ==> FR.ShortTail(parse, s).None?)
  {
    hide FR.ParseAll, FR.ShortTail, FR.HeaderOf, FR.HeaderError, FrameBytes;
    var s := FrameBytes(channel, body) + rest;
    FrameHeader(channel, body, rest);
    FR.FrameStep(parse, s, |body|);
    FR.FrameTail(parse, s, |body|);
  }

  lemma StreamStep<B>(enc: B -> seq<Byte>, fs: seq<FR.Frame<B>>)
    requires fs != []
    ensures Stream(enc, fs) == FrameBytes(fs[0].channel, enc(fs[0].body)) + Stream(enc, fs[1..])
  {
  }

  /** However the stream is cut into reads, `readFrame` returns the frames that were written. */
  lemma AnyChunking<B>(enc: B -> seq<Byte>, parse: seq<Byte> -> FR.Parsed<B>, norm: B -> B, fs: seq<FR.Frame<B>>,
      net: seq<seq<Byte>>)
    requires forall f :: f in fs ==>
      parse(enc(f.body)) == FR.Body(norm(f.body)) && 8 <= |enc(f.body)| <= FR.MAX_INT32 - 8
    requires FR.Flat(net) == Stream(enc, fs)
    ensures FR.ReadAll(parse, [], net) == FR.Outcome(Mapped(norm, fs), FR.Net)
  {
    StreamRoundTrip(enc, parse, norm, fs);
    FR.ChunkIndependence(parse, net, []);
    assert [] + FR.Flat(net) == FR.Flat(net);
  }

  // Performatives.

  /** Every performative has a field that is always present. */
  lemma BodyLength(f: FrameBody)
    ensures |EncBody(f)| >= 8
  {
    var fs := BodyFields(f);
    BodyFieldPresent(f);
    hide BodyFields, Payload, EncItems;
    assert SetCount(fs) > 0;
    CompositeWidth(BodyCode(f), fs, SetCount(fs));
  }

  lemma BodyFieldPresent(f: FrameBody)
    ensures var fs := BodyFields(f); |fs| > 1 && (!fs[0].Null? || !fs[1].Null?)
  {
    match f {
      case Transfer(t) => assert TransferFields(t)[0].Uint?;
      case Flow(w) => assert FlowFields(w)[1].Uint?;
      case Disposition(d) => assert DispositionFields(d)[0].Bool?;
      case Begin(g) => assert BeginFields(g)[1].Uint?;
    }
  }

  predicate WireOk(f: FR.Frame<FrameBody>) {
    BodyOk(f.body) && RoomyBody(f.body) && |EncBody(f.body)| <= FR.MAX_INT32 - 8
  }

  /** The performatives of a session survive the wire, in order. */
  lemma FramesArrive(fs: seq<FR.Frame<FrameBody>>, net: seq<seq<Byte>>)
    requires forall f :: f in fs ==> WireOk(f)
    requires FR.Flat(net) == Stream(EncBody, fs)
    ensures FR.ReadAll(ParseBody, [], net) == FR.Outcome(Mapped(NormBody, fs), FR.Net)
  {
    hide EncBody, ParseBody, NormBody;
    forall f | f in fs
      ensures ParseBody(EncBody(f.body)) == FR.Body(NormBody(f.body)) && 8 <= |EncBody(f.body)| <= FR.MAX_INT32 - 8
    {
      assert WireOk(f);
      hide BodyOk, RoomyBody;
      BodyRoundTrip(f.body);
      BodyLength(f.body);
    }
    hide *;
    AnyChunking(EncBody, ParseBody, NormBody, fs, net);
  }

  // Links.

  /** The transfers for one link, as the session hands them to it. */
  function Select(fs: seq<FR.Frame<FrameBody>>, channel: U16, handle: U32): seq<PerformTransfer> {
    if fs == [] then []
    else
      var f := fs[0];
      (if f.channel == channel && f.body.Transfer? && f.body.transfer.handle == handle then [f.body.transfer] else [])
      + Select(fs[1..], channel, handle)
  }

  lemma {:induction false} SelectNorm(fs: seq<FR.Frame<FrameBody>>, channel: U16, handle: U32)
    requires forall t :: t in Select(fs, channel, handle) ==> t.state == Null
    ensures Select(Mapped(NormBody, fs), channel, handle) == Select(fs, channel, handle)
  {
    if fs != [] {
      assert Norm(Null) == Null;
      hide Norm, NormEntries;
      forall t | t in Select(fs[1..], channel, handle) ensures t.state == Null {
        assert t in Select(fs, channel, handle);
      }
      SelectNorm(fs[1..], channel, handle);
      assert Mapped(NormBody, fs)[1..] == Mapped(NormBody, fs[1..]);
      var f := fs[0];
      if f.channel == channel && f.body.Transfer? && f.body.transfer.handle == handle {
        assert f.body.transfer in Select(fs, channel, handle);
      }
    }
  }

  /** A message and the identification that `Send` gives it. */
  datatype Posted<M> = Posted(e: Envelope, message: M)

  /** The transfers of several messages, sent one after the other on a link. */
  function SentBy<M>(enc: M -> seq<Byte>, ps: seq<Posted<M>>, m: nat): seq<PerformTransfer>
    requires m > 0
  {
    if ps == [] then []
    else SentBy(enc, ps[..|ps| - 1], m) + Fragments(ps[|ps| - 1].e, enc(ps[|ps| - 1].message), m)
  }

  function DeliveryFor<M>(norm: M -> M, p: Posted<M>): Delivery<M> {
    Delivery(p.e.deliveryID, p.e.format, p.e.tag, p.e.settled, norm(p.message))
  }

  function DeliveriesOf<M>(norm: M -> M, ps: seq<Posted<M>>): (ds: seq<Delivery<M>>)
    ensures |ds| == |ps| && forall k :: 0 <= k < |ps| ==> ds[k] == DeliveryFor(norm, ps[k])
  {
    seq(|ps|, k requires 0 <= k < |ps| => DeliveryFor(norm, ps[k]))
  }

  lemma {:induction false} ReceiveAppend<M(!new)>(c: Config<M>, s: RState<M>, xs: seq<PerformTransfer>,
      ys: seq<PerformTransfer>)
    ensures ReceiveAll(c, s, xs + ys) ==
      match ReceiveAll(c, s, xs) case None => None case Some(s1) => ReceiveAll(c, s1, ys)
    decreases |ys|
  {
    hide Receive;
    if ys == [] {
      assert xs + ys == xs;
    } else {
      var init := ys[..|ys| - 1];
      ReceiveAppend(c, s, xs, init);
      assert (xs + ys)[..|xs + ys| - 1] == xs + init;
    }
  }

  /** The receiver is between deliveries and holds the messages `ps` since `s0`. */
  ghost predicate Arrived<M(!new)>(norm: M -> M, s0: RState<M>, s: RState<M>, ps: seq<Posted<M>>) {
    && Idle(s)
    && s.messages == s0.messages + DeliveriesOf(norm, ps)
    && CountedSince(s0, s, |ps|)
  }

  /** Messages whose encoding is not empty, that the receiver takes and that decode. */
  ghost predicate Deliverable<M(!new)>(c: Config<M>, enc: M -> seq<Byte>, norm: M -> M, x: M) {
    && enc(x) != [] && (c.maxMessageSize == 0 || |enc(x)| <= c.maxMessageSize)
    && c.decode(enc(x)) == Some(norm(x))
  }

  /** Messages sent one after the other arrive as they are, in order, once each. */
  lemma {:induction false} MessagesArrive<M(!new)>(
      c: Config<M>, enc: M -> seq<Byte>, norm: M -> M, s: RState<M>, ps: seq<Posted<M>>, m: nat)
    requires Idle(s) && m > 0 && forall p :: p in ps ==> Deliverable(c, enc, norm, p.message)
    ensures var r := ReceiveAll(c, s, SentBy(enc, ps, m)); r.Some? && Arrived(norm, s, r.value, ps)
  {
    hide Fragments;
    if ps != [] {
      var init, p := ps[..|ps| - 1], ps[|ps| - 1];
      MessagesArrive(c, enc, norm, s, init, m);
      assert SentBy(enc, ps, m) == SentBy(enc, init, m) + Fragments(p.e, enc(p.message), m);
      var s1 := ReceiveAll(c, s, SentBy(enc, init, m)).value;
      ReceiveAppend(c, s, SentBy(enc, init, m), Fragments(p.e, enc(p.message), m));
      assert Deliverable(c, enc, norm, p.message);
      FragmentRoundTrip(c, s1, p.e, enc(p.message), m, norm(p.message));
      hide ReceiveAll, Arrived, SentBy, CountedSince;
      ArrivedStep(norm, s, s1, ReceiveAll(c, s1, Fragments(p.e, enc(p.message), m)).value, init, p);
      assert ps == init + [p];
    }
  }

  lemma ArrivedStep<M(!new)>(norm: M -> M, s0: RState<M>, s: RState<M>, r: RState<M>, ps: seq<Posted<M>>, p: Posted<M>)
    requires Arrived(norm, s0, s, ps) && Idle(r) && r.messages == s.messages + [DeliveryFor(norm, p)]
    requires r.deliveryCount == (s.deliveryCount + 1) % TWO32 && r.availableCredit == (s.availableCredit - 1) % TWO32
    ensures Arrived(norm, s0, r, ps + [p])
  {
    assert DeliveriesOf(norm, ps + [p]) == DeliveriesOf(norm, ps) + [DeliveryFor(norm, p)];
    ModAdd(s0.deliveryCount + |ps|, 1);
    ModAdd(s0.availableCredit - |ps|, -1);
  }

  lemma {:induction false} SentStateless<M>(enc: M -> seq<Byte>, ps: seq<Posted<M>>, m: nat)
    requires m > 0
    ensures forall t :: t in SentBy(enc, ps, m) ==> t.state == Null
  {
    if ps != [] { SentStateless(enc, ps[..|ps| - 1], m); }
  }

  // The whole way.

  function Normal(x: Message): Message { if MessageOk(x) then NormMessage(x) else x }

  /** Messages whose encoding is not empty and that the receiver takes. */
  predicate PostedOk(c: Config<Message>, x: Message) {
    && MessageOk(x) && RoomySections(Sections(x)) && EncMessage(x) != []
    && (c.maxMessageSize == 0 || |EncMessage(x)| <= c.maxMessageSize)
  }

  lemma PostedDeliverable(c: Config<Message>, x: Message)
    requires c.decode == DecodeMessage && PostedOk(c, x)
    ensures Deliverable(c, EncMessage, Normal, x)
  {
    MessageRoundTrip(x);
    hide MessageOk, EncMessage, NormMessage, DecodeMessage, RoomySections;
  }

  /** Delivery end to end: messages sent on a link, whatever frames of other links and sessions
      are interleaved with them and however the stream is cut, are queued at the receiver as
      they were, up to the codec's normalisation, in order and once each. */
  lemma Delivered(c: Config<Message>, s: RState<Message>, ps: seq<Posted<Message>>, m: nat,
                  fs: seq<FR.Frame<FrameBody>>, channel: U16, handle: U32, net: seq<seq<Byte>>)
    requires Idle(s) && m > 0 && c.decode == DecodeMessage && forall p :: p in ps ==> PostedOk(c, p.message)
    requires Select(fs, channel, handle) == SentBy(EncMessage, ps, m)
    requires forall f :: f in fs ==> WireOk(f)
    requires FR.Flat(net) == Stream(EncBody, fs)
    ensures var o := FR.ReadAll(ParseBody, [], net);
      && o.err == FR.Net
      && var r := ReceiveAll(c, s, Select(o.frames, channel, handle)); r.Some? && Arrived(Normal, s, r.value, ps)
  {
    hide *;
    FramesArrive(fs, net);
    SentStateless(EncMessage, ps, m);
    SelectNorm(fs, channel, handle);
    forall p | p in ps ensures Deliverable(c, EncMessage, Normal, p.message) {
      PostedDeliverable(c, p.message);
    }
    MessagesArrive(c, EncMessage, Normal, s, ps, m);
  }

  /** The transfers of `send` are fit for the wire when their frames pass the size check. */
  lemma FragmentsFitWire(channel: U16, e: Envelope, p: seq<Byte>, m: nat, limit: U32)
    requires TagOk(e) && m > 0 && limit <= FR.MAX_INT32 && AllFit(channel, e, p, m, limit)
    ensures forall t :: t in Fragments(e, p, m) ==> WireOk(FR.Frame(channel, FrameBody.Transfer(t)))
  {
    hide Fits, IsPiece, WireOk, Fragments, Count, TagOk;
    var ts := Fragments(e, p, m);
    forall t | t in ts ensures WireOk(FR.Frame(channel, FrameBody.Transfer(t))) {
      var k :| 0 <= k < |ts| && ts[k] == t;
      assert Fits(channel, t, limit);
      FragmentIsPiece(e, p, m, k);
      PieceFitsWire(channel, t, limit);
    }
  }

  lemma PieceFitsWire(channel: U16, t: PerformTransfer, limit: U32)
    requires IsPiece(t) && Fits(channel, t, limit) && limit <= FR.MAX_INT32
    ensures WireOk(FR.Frame(channel, FrameBody.Transfer(t)))
  {
    TransferRoomy(t);
    hide EncBody, RoomyBody;
  }
}
