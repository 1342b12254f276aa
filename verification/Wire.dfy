/** Messages and frames on buffers: the section loops of `Message.Marshal` and `Message.Unmarshal`,
    `frames.Write`, and the size check of `Conn.writeFrame`. */
module Wire {
  import opened Bytes
  import opened Values
  import opened Encode
  import opened ByteBuffer
  import opened MessageCodec
  import Frames
  import FrameSize
  import Encoder
  import Decoder
  import D = Decode

  // Messages.

  predicate Writable(ss: seq<Section>) { forall s :: s in ss ==> Encodable(s.body) }

  lemma {:induction false} SectionsSnoc(ss: seq<Section>, k: nat)
    requires k < |ss|
    ensures EncSections(ss[..k + 1]) == EncSections(ss[..k]) + EncSection(ss[k])
  {
    hide EncSection;
    if k == 0 {
      assert ss[..1][1..] == [];
    } else {
      SectionsSnoc(ss[1..], k - 1);
      assert ss[..k + 1][1..] == ss[1..][..k] && ss[..k][1..] == ss[1..][..k - 1];
    }
  }

  method MarshalSection(wr: Buffer, s: Section) returns (ok: bool)
    requires wr.Valid()
    modifies wr`b
    ensures wr.Valid() && ok == Encodable(s.body)
    ensures ok ==> wr.b == old(wr.b) + EncSection(s)
  {
    hide Enc, Encodable;
    if !IsCompositeSection(s.code) {
      wr.Append([0, SMALL_ULONG, s.code]);
    }
    ok := Encoder.Marshal(wr, s.body);
  }

  /** `Message.Marshal` writes the sections of the message one after the other. */
  method MarshalMessage(wr: Buffer, m: Message) returns (ok: bool)
    requires wr.Valid()
    modifies wr`b
    ensures wr.Valid() && ok == Writable(Sections(m))
    ensures ok ==> wr.b == old(wr.b) + EncMessage(m)
  {
    hide Encodable, EncSection, Sections, EncSections;
    var ss := Sections(m);
    NoSections();
    var k := 0;
    assert ss[..0] == [];
    while k < |ss|
      invariant 0 <= k <= |ss| && wr.Valid()
      invariant forall j :: 0 <= j < k ==> Encodable(ss[j].body)
      invariant wr.b == old(wr.b) + EncSections(ss[..k])
    {
      ok := MarshalSection(wr, ss[k]);
      if !ok {
        assert ss[k] in ss;
        return;
      }
      SectionsSnoc(ss, k);
      k := k + 1;
    }
    assert ss[..k] == ss;
    return true;
  }

  lemma NoSections()
    ensures EncSections([]) == []
  {
  }

  method UnmarshalSection(r: Buffer, code: Byte, skip: nat) returns (v: Decoder.Outcome<Value>)
    requires r.Valid() && IsSection(code) && skip <= r.Len()
    modifies r`i
    ensures r.Valid() && Decoder.Gets(ReadSection(code, skip, r.b, old(r.i)), v, r.b, old(r.i), r.i)
  {
    hide D.ReadFieldsOf, D.Unmarshal, SectionKind;
    if code == HEADER {
      var fs :- Decoder.ReadFieldsOf(r, HEADER, HEADER_SPECS);
      return Decoder.Got(Composite(HEADER, fs));
    }
    if code == PROPERTIES {
      var fs :- Decoder.ReadFieldsOf(r, PROPERTIES, PROPERTIES_SPECS);
      return Decoder.Got(Composite(PROPERTIES, fs));
    }
    r.Skip(skip);
    v := Decoder.Unmarshal(r, SectionKind(code));
  }

  /** `Message.Unmarshal` reads sections until the buffer is used up. */
  method UnmarshalMessage(r: Buffer) returns (m: Decoder.Outcome<Message>)
    requires r.Valid()
    modifies r`i
    ensures r.Valid() && Decoder.Gets(ReadMessage(r.b, old(r.i), EMPTY), m, r.b, old(r.i), r.i)
  {
    hide ReadMessage, ReadSection, PeekType, Apply, IsSection;
    var done := EMPTY;
    ghost var want := ReadMessage(r.b, r.i, EMPTY);
    while r.Len() > 0
      invariant r.Valid() && old(r.i) <= r.i && ReadMessage(r.b, r.i, done) == want
      decreases r.Len()
    {
      MessageStep(r.b, r.i, done);
      var t := PeekType(r.b, r.i);
      if t.None? || !IsSection(t.value.0) {
        return Decoder.Failed;
      }
      var v :- UnmarshalSection(r, t.value.0, t.value.1);
      done := Apply(done, Section(t.value.0, v));
    }
    MessageStep(r.b, r.i, done);
    return Decoder.Got(done);
  }

  lemma MessageStep(b: seq<Byte>, i: nat, m: Message)
    requires i <= |b|
    ensures i == |b| ==> ReadMessage(b, i, m) == D.Ok(m, i)
    ensures i < |b| ==>
      var t := PeekType(b, i);
      if t.None? || !IsSection(t.value.0) then ReadMessage(b, i, m).Bad?
      else
        var x := ReadSection(t.value.0, t.value.1, b, i);
        ReadMessage(b, i, m) ==
          if x.Bad? then D.Bad else if x.Panic? then D.Panic else ReadMessage(b, x.i, Apply(m, Section(t.value.0, x.v)))
  {
    hide ReadSection, PeekType, Apply;
  }

  // Frames.

  datatype WriteError = Unencodable | TooLarge | OverPeerMax

  predicate BodyEncodable(f: Frames.FrameBody) { Encodable(Composite(Frames.BodyCode(f), Frames.BodyFields(f))) }

  method MarshalBody(wr: Buffer, f: Frames.FrameBody) returns (ok: bool)
    requires wr.Valid()
    modifies wr`b
    ensures wr.Valid() && ok == BodyEncodable(f) && Encoder.Extends(old(wr.b), wr.b)
    ensures ok ==> wr.b == old(wr.b) + Frames.EncBody(f)
  {
    hide Enc, Encodable, Frames.BodyFields;
    ok := Encoder.MarshalComposite(wr, Frames.BodyCode(f), Frames.BodyFields(f));
    if ok && f.Transfer? {
      wr.Append(f.transfer.payload);
    }
  }

  lemma HeaderPatched(channel: U16, body: seq<Byte>)
    ensures var b := [0, 0, 0, 0, 2, 0] + BE(channel, 2) + body;
      b[..0] + BE(|b|, 4) + b[4..] == Frames.FrameBytes(channel, body)
  {
    hide BE;
  }

  /** `frames.Write` and the check of `writeFrame`: the frame is in the buffer, with its size filled
      in, if and only if its body can be encoded and the frame is within the limits. */
  method WriteFrame(txBuf: Buffer, channel: U16, f: Frames.FrameBody, peerMaxFrameSize: U32)
      returns (err: Option<WriteError>)
    modifies txBuf
    ensures txBuf.Valid()
    ensures var frame := Frames.FrameBytes(channel, Frames.EncBody(f));
      err == (if !BodyEncodable(f) then Some(Unencodable)
              else if |frame| > TWO32 - 1 then Some(TooLarge)
              else if |frame| > peerMaxFrameSize then Some(OverPeerMax)
              else None)
      && (err.None? ==> txBuf.Bytes() == frame)
  {
    hide BodyEncodable, Frames.EncBody, BE;
    ghost var body := Frames.EncBody(f);
    txBuf.Reset();
    txBuf.Append([0, 0, 0, 0, 2, 0]);
    txBuf.AppendUint(channel, 2);
    var ok := MarshalBody(txBuf, f);
    if !ok {
      return Some(Unencodable);
    }
    assert txBuf.b == [0, 0, 0, 0, 2, 0] + BE(channel, 2) + body;
    if txBuf.Len() > TWO32 - 1 {
      return Some(TooLarge);
    }
    HeaderPatched(channel, body);
    txBuf.PutUint32(0, txBuf.Len());
    if txBuf.Len() > peerMaxFrameSize {
      return Some(OverPeerMax);
    }
    return None;
  }

  /** The transfers of `send` can always be encoded, so that `WriteFrame` refuses one only for its size. */
  lemma TransferEncodable(t: Frames.PerformTransfer)
    requires FrameSize.IsPiece(t)
    ensures BodyEncodable(Frames.Transfer(t))
  {
    FrameSize.PieceFields(t);
    var fs := Frames.TransferFields(t);
    hide Frames.TransferFields;
    forall x | x in fs ensures Encodable(x) {
      var k :| 0 <= k < |fs| && fs[k] == x;
      assert k < 6 || x == Null;
    }
  }
}
