/** `Sender.send` cuts an encoded message into transfers and `Receiver.muxReceive` puts it
    together again. */
module Transfer {
  import opened Bytes
  import opened Values
  import opened ByteBuffer
  import opened Frames

  const MAX_TAG: nat := 32
  const MAX_TRANSFER_HEADER: nat := 66

  // Fragmentation.

  /** What the transfers of one delivery have in common. */
  datatype Envelope = Envelope(handle: U32, deliveryID: U32, tag: seq<Byte>, format: U32, settled: bool)

  /** The end of the first `k` pieces of at most `m` octets. */
  function Cut(p: seq<Byte>, m: nat, k: nat): (c: nat)
    ensures c <= |p|
  {
    if k * m < |p| then k * m else |p|
  }

  function Count(p: seq<Byte>, m: nat): nat
    requires m > 0
  {
    (|p| + m - 1) / m
  }

  /** The transfer with number `k`: the first one identifies the delivery, the last one has no
      more flag and tells whether it is settled. */
  function Fragment(e: Envelope, p: seq<Byte>, m: nat, k: nat): PerformTransfer
    requires m > 0 && k < Count(p, m)
  {
    var last := k == Count(p, m) - 1;
    CutOrder(p, m, k);
    PerformTransfer(
      e.handle,
      if k == 0 then Some(e.deliveryID) else None, if k == 0 then Some(e.tag) else None,
          if k == 0 then Some(e.format) else None,
      last && e.settled, !last, None, Null, false, false, false,
      p[Cut(p, m, k)..Cut(p, m, k + 1)])
  }

  function Fragments(e: Envelope, p: seq<Byte>, m: nat): (ts: seq<PerformTransfer>)
    requires m > 0
    ensures |ts| == Count(p, m)
  {
    seq(Count(p, m), k requires 0 <= k < Count(p, m) => Fragment(e, p, m, k))
  }

  lemma CutOrder(p: seq<Byte>, m: nat, k: nat)
    requires m > 0
    ensures Cut(p, m, k) <= Cut(p, m, k + 1) <= Cut(p, m, k) + m
    ensures Cut(p, m, k + 1) == if Cut(p, m, k) + m < |p| then Cut(p, m, k) + m else |p|
  {
    assert (k + 1) * m == k * m + m;
  }

  lemma CutCount(p: seq<Byte>, m: nat, k: nat)
    requires m > 0
    ensures Cut(p, m, k) < |p| <==> k < Count(p, m)
  {
    var n := Count(p, m);
    assert n * m <= |p| + m - 1 < n * m + m by { DivBounds(|p| + m - 1, m); }
    if k < n {
      assert k * m <= (n - 1) * m == n * m - m by { MulMono(k, n - 1, m); }
    } else {
      assert n * m <= k * m by { MulMono(n, k, m); }
    }
  }

  lemma DivBounds(x: nat, m: nat)
    requires m > 0
    ensures (x / m) * m <= x < (x / m) * m + m
  {
  }

  lemma MulMono(a: nat, b: nat, m: nat)
    requires a <= b
    ensures a * m <= b * m
  {
  }

  // The sender.

  datatype SettleMode = Unsettled | Settled | Mixed

  /** `tag` is empty when the application has not chosen one. */
  datatype Outgoing<M> = Outgoing(tag: seq<Byte>, format: U32, sendSettled: bool, message: M)

  datatype SendError = TagTooLong | Unencodable | TooLarge | Stopped

  /** `encode` is `Message.Marshal`; it has no result for a message that cannot be encoded. */
  class Sender<M(!new)> {
    const encode: M -> Option<seq<Byte>>
    const handle: U32
    const maxMessageSize: U64
    const peerMaxFrameSize: U32
    const settleMode: Option<SettleMode>
    const buf: Buffer
    var nextDeliveryTag: U64
    /** The session's counter of deliveries, shared with its other senders. */
    var nextDeliveryID: U32
    /** The transfers that the link mux has taken. */
    var transfers: seq<PerformTransfer>

    constructor (encode: M -> Option<seq<Byte>>, handle: U32, maxMessageSize: U64, peerMaxFrameSize: U32,
        settleMode: Option<SettleMode>)
      ensures transfers == [] && nextDeliveryTag == 0 && nextDeliveryID == 0 && fresh(buf)
      ensures this.encode == encode && this.handle == handle && this.maxMessageSize == maxMessageSize
      ensures this.peerMaxFrameSize == peerMaxFrameSize && this.settleMode == settleMode
    {
      this.encode := encode;
      this.handle, this.maxMessageSize := handle, maxMessageSize;
      this.peerMaxFrameSize, this.settleMode := peerMaxFrameSize, settleMode;
      this.buf := new Buffer([]);
      nextDeliveryTag, nextDeliveryID, transfers := 0, 0, [];
    }

    /** The error that is reported before anything is sent. */
    function Refusal(m: Outgoing<M>): Option<SendError> {
      if |m.tag| > MAX_TAG then Some(TagTooLong)
      else if encode(m.message).None? then Some(Unencodable)
      else if maxMessageSize != 0 && |encode(m.message).value| > maxMessageSize then Some(TooLarge)
      else None
    }

    predicate IsSettled(m: Outgoing<M>) {
      settleMode == Some(Settled) || (settleMode == Some(Mixed) && m.sendSettled)
    }

    /** Identifiers for the next delivery: the next delivery number, and a counter as its tag
        unless the application has given one. */
    function NextEnvelope(m: Outgoing<M>): Envelope
      reads this
    {
      Envelope(handle, (nextDeliveryID + 1) % TWO32, if m.tag == [] then BE(nextDeliveryTag, 8) else m.tag, m.format,
          IsSettled(m))
    }

    /** Sends one message. `patience` is the number of transfers that the mux takes before the
        link is detached or the context is done. */
    method Send(m: Outgoing<M>, patience: nat) returns (err: Option<SendError>)
      requires peerMaxFrameSize > MAX_TRANSFER_HEADER
      modifies this, buf
      ensures Refusal(m).Some? ==>
        && err == Refusal(m) && transfers == old(transfers)
        && nextDeliveryID == old(nextDeliveryID) && nextDeliveryTag == old(nextDeliveryTag)
      ensures Refusal(m).None? ==>
        && nextDeliveryID == (old(nextDeliveryID) + 1) % TWO32
        && nextDeliveryTag == (old(nextDeliveryTag) + if m.tag == [] then 1 else 0) % 0x1_0000_0000_0000_0000
        && var ts := Fragments(old(NextEnvelope(m)), encode(m.message).value, peerMaxFrameSize - MAX_TRANSFER_HEADER);
           if |ts| <= patience then err == None && transfers == old(transfers) + ts
           else err == Some(Stopped) && transfers == old(transfers) + ts[..patience]
      ensures err == Some(TagTooLong) <==> |m.tag| > 32
      ensures err == Some(Unencodable) <==> |m.tag| <= 32 && encode(m.message).None?
      ensures err == Some(TooLarge) <==>
        && |m.tag| <= 32 && encode(m.message).Some?
        && maxMessageSize != 0 && |encode(m.message).value| > maxMessageSize
      ensures old(transfers) <= transfers && Marked(transfers[|old(transfers)|..], err.None?,
          settleMode == Some(Settled) || (settleMode == Some(Mixed) && m.sendSettled))
      ensures Numbered(transfers[|old(transfers)|..], handle, (old(nextDeliveryID) + 1) % TWO32,
          if m.tag == [] then BE(old(nextDeliveryTag), 8) else m.tag, m.format)
    {
      hide Fragments, Count, Marked, Numbered, BE;
      NoneSent(handle, (nextDeliveryID + 1) % TWO32, if m.tag == [] then BE(nextDeliveryTag, 8) else m.tag, m.format,
          IsSettled(m));
      assert transfers[|transfers|..] == [];
      if |m.tag| > MAX_TAG {
        return Some(TagTooLong);
      }
      buf.Reset();
      var encoded := encode(m.message);
      if encoded.None? {
        return Some(Unencodable);
      }
      buf.Append(encoded.value);
      if maxMessageSize != 0 && buf.Len() > maxMessageSize {
        return Some(TooLarge);
      }
      ghost var e := NextEnvelope(m);
      nextDeliveryID := (nextDeliveryID + 1) % TWO32;
      var tag := m.tag;
      if tag == [] {
        tag := BE(nextDeliveryTag, 8);
        nextDeliveryTag := (nextDeliveryTag + 1) % 0x1_0000_0000_0000_0000;
      }
      ghost var p, max: nat := encoded.value, peerMaxFrameSize - MAX_TRANSFER_HEADER;
      FragmentsMarked(e, p, max, patience);
      err := SendPieces(Some(nextDeliveryID), Some(tag), Some(m.format), IsSettled(m), patience, e);
    }

    /** The loop of `send`: one frame is rewritten for each piece of the buffer. */
    method SendPieces(id: Option<U32>, tag: Option<seq<Byte>>, format: Option<U32>, settled: bool, patience: nat,
        ghost e: Envelope)
        returns (err: Option<SendError>)
      requires peerMaxFrameSize > MAX_TRANSFER_HEADER && buf.Valid()
      requires id == Some(e.deliveryID) && tag == Some(e.tag) && format == Some(e.format) && settled == e.settled
          && e.handle == handle
      modifies this`transfers, buf
      ensures var ts := Fragments(e, old(buf.Bytes()), peerMaxFrameSize - MAX_TRANSFER_HEADER);
        if |ts| <= patience then err == None && transfers == old(transfers) + ts
        else err == Some(Stopped) && transfers == old(transfers) + ts[..patience]
    {
      var max: nat := peerMaxFrameSize - MAX_TRANSFER_HEADER;
      var fr := PerformTransfer(handle, id, tag, format, false, buf.Len() > 0, None, Null, false, false, false, []);
      ghost var p := buf.Bytes();
      ghost var ts := Fragments(e, p, max);
      CutZero(p, max);
      CutCount(p, max, 0);
      hide Fragments, Count, Cut;
      var k := 0;
      while fr.more
        invariant buf.Valid() && k <= |ts| && k <= patience
        invariant buf.Bytes() == p[Cut(p, max, k)..]
        invariant transfers == old(transfers) + ts[..k]
        invariant fr.more <==> k < |ts|
        invariant IsTemplate(fr, e, k)
        decreases |ts| - k
      {
        CutCount(p, max, k + 1);
        var piece, _ := buf.Next(max);
        Pieces(p, max, k, piece, buf.Bytes());
        fr := fr.(payload := piece, more := buf.Len() > 0);
        if !fr.more {
          fr := fr.(settled := settled);
        }
        TemplateFilled(fr, e, p, max, k);
        if k == patience {
          return Some(Stopped);
        }
        transfers := transfers + [fr];
        assert ts[..k + 1] == ts[..k] + [ts[k]];
        fr := fr.(deliveryID := None, deliveryTag := None, messageFormat := None);
        k := k + 1;
      }
      assert ts[..k] == ts;
      return None;
    }
  }

  /** All transfers of one delivery, or all but some at the end if it is not `complete`: none is settled but the
      last one, and that exactly if the delivery is to be. */
  predicate Marked(ts: seq<PerformTransfer>, complete: bool, settled: bool) {
    && (forall k :: 0 <= k < |ts| && (k < |ts| - 1 || !complete) ==> !ts[k].settled && ts[k].more)
    && (complete && ts != [] ==> ts[|ts| - 1].settled == settled && !ts[|ts| - 1].more)
  }

  /** The first transfer carries the number, tag and format of the delivery, and the others do not. */
  predicate Numbered(ts: seq<PerformTransfer>, handle: U32, id: U32, tag: seq<Byte>, format: U32) {
    forall k :: 0 <= k < |ts| ==>
      && ts[k].handle == handle && !ts[k].aborted
      && ts[k].deliveryID == (if k == 0 then Some(id) else None)
      && ts[k].deliveryTag == (if k == 0 then Some(tag) else None)
      && ts[k].messageFormat == (if k == 0 then Some(format) else None)
  }

  lemma NoneSent(handle: U32, id: U32, tag: seq<Byte>, format: U32, settled: bool)
    ensures Marked([], false, settled) && Numbered([], handle, id, tag, format)
  {
  }

  lemma FragmentsMarked(e: Envelope, p: seq<Byte>, m: nat, patience: nat)
    requires m > 0
    ensures var ts := Fragments(e, p, m); var sent := if |ts| <= patience then ts else ts[..patience];
      && Marked(sent, |ts| <= patience, e.settled)
      && Numbered(sent, e.handle, e.deliveryID, e.tag, e.format)
  {
    var ts := Fragments(e, p, m);
    forall k | 0 <= k < |ts| ensures ts[k].settled == (k == |ts| - 1 && e.settled) && ts[k].more == (k < |ts| - 1) {
      FragmentFields(e, p, m, k);
    }
    hide Count, Cut;
  }

  lemma TemplateFilled(fr: PerformTransfer, e: Envelope, p: seq<Byte>, m: nat, k: nat)
    requires m > 0 && k < Count(p, m) && Cut(p, m, k) <= Cut(p, m, k + 1)
    requires IsTemplate(fr.(settled := false), e, k) && fr.payload == p[Cut(p, m, k)..Cut(p, m, k + 1)]
    requires fr.more == (k + 1 < Count(p, m)) && fr.settled == (!fr.more && e.settled)
    ensures fr == Fragments(e, p, m)[k]
  {
    hide Count, Cut;
  }

  /** The rewritten frame at the head of the loop, before it gets the piece with number `k`. */
  ghost predicate IsTemplate(fr: PerformTransfer, e: Envelope, k: nat) {
    && fr.handle == e.handle
    && fr.deliveryID == (if k == 0 then Some(e.deliveryID) else None)
    && fr.deliveryTag == (if k == 0 then Some(e.tag) else None)
    && fr.messageFormat == (if k == 0 then Some(e.format) else None)
    && (fr.more ==> !fr.settled)
    && fr.receiverSettleMode.None? && fr.state.Null? && !fr.resume && !fr.aborted && !fr.batchable
  }

  lemma Pieces(p: seq<Byte>, m: nat, k: nat, piece: seq<Byte>, rest: seq<Byte>)
    requires m > 0 && piece + rest == p[Cut(p, m, k)..]
    requires |piece| == if m <= |p| - Cut(p, m, k) then m else |p| - Cut(p, m, k)
    ensures Cut(p, m, k + 1) == Cut(p, m, k) + |piece|
    ensures piece == p[Cut(p, m, k)..Cut(p, m, k + 1)] && rest == p[Cut(p, m, k + 1)..]
  {
    CutOrder(p, m, k);
    var q := p[Cut(p, m, k)..];
    assert piece == q[..|piece|] && rest == q[|piece|..];
  }

  /** What `Buffer.Next` leaves of `len` unread octets when it is asked for `n`; none when the slice
      expression for a negative number panics. */
  function LeftByNext(len: nat, n: int): Option<nat> {
    if n > len then Some(0) else if n < 0 then None else Some(len - n)
  }

  /** The octets left after `k` passes of the loop of `send`, unless it has panicked. */
  function LeftAfter(len: nat, max: int, k: nat): Option<nat> {
    if k == 0 then Some(len)
    else
      var left := LeftAfter(len, max, k - 1);
      if left == None || left == Some(0) then left else LeftByNext(left.value, max)
  }

  /** The loop of `send` comes to its end if and only if there is nothing to send or the peer's maximum frame
      size is more than 66. At 66 it makes no progress, and below it panics at once. */
  lemma SendEndsIff(len: nat, peerMaxFrameSize: U32)
    ensures var max := peerMaxFrameSize - MAX_TRANSFER_HEADER;
      && ((exists k: nat :: LeftAfter(len, max, k) == Some(0)) <==> len == 0 || max > 0)
      && (len > 0 && max == 0 ==> forall k: nat :: LeftAfter(len, max, k) == Some(len))
      && (len > 0 && max < 0 ==> LeftAfter(len, max, 1) == None)
  {
    var max := peerMaxFrameSize - MAX_TRANSFER_HEADER;
    if len == 0 {
      assert LeftAfter(len, max, 0) == Some(0);
    } else if max > 0 {
      LeftBound(len, max, len);
      assert LeftAfter(len, max, len) == Some(0);
    } else {
      forall k: nat ensures LeftAfter(len, max, k) == if max == 0 || k == 0 then Some(len) else None {
        LeftStuck(len, max, k);
      }
    }
  }

  lemma {:induction false} LeftBound(len: nat, max: int, k: nat)
    requires max > 0
    ensures LeftAfter(len, max, k).Some? && LeftAfter(len, max, k).value <= if k <= len then len - k else 0
  {
    if k > 0 { LeftBound(len, max, k - 1); }
  }

  lemma {:induction false} LeftStuck(len: nat, max: int, k: nat)
    requires len > 0 && max <= 0
    ensures LeftAfter(len, max, k) == if max == 0 || k == 0 then Some(len) else None
  {
    if k > 0 { LeftStuck(len, max, k - 1); }
  }

  // The receiver.

  /** A message being received, as far as its transfers have told. */
  datatype Partial = Partial(deliveryID: U32, format: U32, tag: Option<seq<Byte>>, settled: bool)

  const NO_MESSAGE := Partial(0, 0, None, false)

  datatype Delivery<M> = Delivery(deliveryID: U32, format: U32, tag: seq<Byte>, settled: bool, message: M)

  datatype ReceiveError =
    | NoDeliveryID | NoFormat | NoTag | OtherDeliveryID | OtherFormat | OtherTag
    | MessageTooLarge | BadMessage | LinkDetached

  /** `second` is the receiver settle mode; a limit of zero is none. `decode` is
      `Message.Unmarshal` into an empty message. */
  datatype Config<M> = Config(maxMessageSize: U64, second: bool, decode: seq<Byte> -> Option<M>)

  datatype RState<M> = RState(
    more: bool, buf: seq<Byte>, msg: Partial, deliveryCount: U32, availableCredit: U32,
    messages: seq<Delivery<M>>, unsettled: set<seq<Byte>>)

  function TagOf(t: Option<seq<Byte>>): seq<Byte> { if t.None? then [] else t.value }

  /** A first transfer must identify the delivery; a continuation must not contradict it. */
  function Objection<M(!new)>(s: RState<M>, t: PerformTransfer): Option<ReceiveError> {
    if !s.more then
      if t.deliveryID.None? then Some(NoDeliveryID)
      else if t.messageFormat.None? then Some(NoFormat)
      else if t.deliveryTag.None? then Some(NoTag)
      else None
    else
      if t.deliveryID.Some? && t.deliveryID.value != s.msg.deliveryID then Some(OtherDeliveryID)
      else if t.messageFormat.Some? && t.messageFormat.value != s.msg.format then Some(OtherFormat)
      else if t.deliveryTag.Some? && t.deliveryTag.value != TagOf(s.msg.tag) then Some(OtherTag)
      else None
  }

  /** The identification that a first transfer leaves, complete or not. */
  function Identified<M(!new)>(s: RState<M>, t: PerformTransfer): RState<M> {
    if s.more then s
    else s.(msg := Partial(
      if t.deliveryID.Some? then t.deliveryID.value else s.msg.deliveryID,
      if t.messageFormat.Some? then t.messageFormat.value else s.msg.format,
      t.deliveryTag, s.msg.settled))
  }

  function Discarded<M(!new)>(s: RState<M>): RState<M> { s.(buf := [], msg := NO_MESSAGE, more := false) }

  function Appended<M(!new)>(s: RState<M>, t: PerformTransfer): RState<M> {
    s.(buf := s.buf + t.payload, msg := s.msg.(settled := s.msg.settled || t.settled), more := t.more)
  }

  /** A complete message is queued for the application and uses up one credit. */
  function Queued<M(!new)>(c: Config<M>, s: RState<M>, m: M): RState<M> {
    var d := Delivery(s.msg.deliveryID, s.msg.format, TagOf(s.msg.tag), s.msg.settled, m);
    Discarded(s).(
      messages := s.messages + [d],
      unsettled := if c.second then s.unsettled + {d.tag} else s.unsettled,
      deliveryCount := (s.deliveryCount + 1) % TWO32,
      availableCredit := (s.availableCredit - 1) % TWO32)
  }

  datatype Received<M> = Received(state: RState<M>, err: Option<ReceiveError>)

  /** `muxReceive`; `pushed` is false when the link is detached before the queue has room. */
  function Receive<M(!new)>(c: Config<M>, s: RState<M>, t: PerformTransfer, pushed: bool): Received<M> {
    var s1 := Identified(s, t);
    if Objection(s, t).Some? then Received(s1, Objection(s, t))
    else if t.aborted then Received(Discarded(s1), None)
    else if c.maxMessageSize != 0 && |s.buf| + |t.payload| > c.maxMessageSize then Received(s1, Some(MessageTooLarge))
    else
      var s2 := Appended(s1, t);
      if t.more then Received(s2, None) else Finished(c, s2, pushed)
  }

  /** The last transfer of a message has been appended. */
  function Finished<M(!new)>(c: Config<M>, s: RState<M>, pushed: bool): Received<M> {
    match c.decode(s.buf)
    case None => Received(s, Some(BadMessage))
    case Some(m) =>
      if pushed then Received(Queued(c, s, m), None)
      else Received(s.(buf := [], unsettled := Queued(c, s, m).unsettled), Some(LinkDetached))
  }

  class Receiver<M(!new)> {
    const c: Config<M>
    const msgBuf: Buffer
    var more: bool
    var msg: Partial
    var deliveryCount: U32
    var availableCredit: U32
    var messages: seq<Delivery<M>>
    var unsettled: set<seq<Byte>>

    ghost predicate Valid()
      reads this, msgBuf
    {
      msgBuf.Valid()
    }

    ghost function State(): RState<M>
      requires Valid()
      reads this, msgBuf
    {
      RState(more, msgBuf.Bytes(), msg, deliveryCount, availableCredit, messages, unsettled)
    }

    constructor (c: Config<M>, deliveryCount: U32)
      ensures Valid() && fresh(msgBuf) && this.c == c
      ensures State() == RState(false, [], NO_MESSAGE, deliveryCount, 0, [], {})
    {
      this.c, this.more, this.msg, this.deliveryCount := c, false, NO_MESSAGE, deliveryCount;
      this.availableCredit, this.messages, this.unsettled := 0, [], {};
      this.msgBuf := new Buffer([]);
    }

    method Identify(t: PerformTransfer) returns (err: Option<ReceiveError>)
      requires Valid()
      modifies this`msg
      ensures Valid() && State() == Identified(old(State()), t) && err == Objection(old(State()), t)
    {
      if !more {
        if t.deliveryID.Some? {
          msg := msg.(deliveryID := t.deliveryID.value);
        }
        if t.messageFormat.Some? {
          msg := msg.(format := t.messageFormat.value);
        }
        msg := msg.(tag := t.deliveryTag);
        if t.deliveryID.None? {
          return Some(NoDeliveryID);
        }
        if t.messageFormat.None? {
          return Some(NoFormat);
        }
        if t.deliveryTag.None? {
          return Some(NoTag);
        }
      } else {
        if t.deliveryID.Some? && t.deliveryID.value != msg.deliveryID {
          return Some(OtherDeliveryID);
        }
        if t.messageFormat.Some? && t.messageFormat.value != msg.format {
          return Some(OtherFormat);
        }
        if t.deliveryTag.Some? && t.deliveryTag.value != TagOf(msg.tag) {
          return Some(OtherTag);
        }
      }
      return None;
    }

    /** Decodes the buffered message and queues it. On a message that cannot be decoded, what is
        left in the buffer is not specified. */
    method Finish(pushed: bool) returns (err: Option<ReceiveError>)
      requires Valid() && !more
      modifies this, msgBuf
      ensures Valid() && err == Finished(c, old(State()), pushed).err
      ensures err != Some(BadMessage) ==> State() == Finished(c, old(State()), pushed).state
      ensures err == Some(BadMessage) ==> State().(buf := []) == old(State()).(buf := [])
    {
      var decoded := c.decode(msgBuf.Bytes());
      msgBuf.Skip(msgBuf.Len());
      if decoded.None? {
        return Some(BadMessage);
      }
      if c.second {
        unsettled := unsettled + {TagOf(msg.tag)};
      }
      if !pushed {
        return Some(LinkDetached);
      }
      messages := messages + [Delivery(msg.deliveryID, msg.format, TagOf(msg.tag), msg.settled, decoded.value)];
      msgBuf.Reset();
      msg := NO_MESSAGE;
      deliveryCount := (deliveryCount + 1) % TWO32;
      availableCredit := (availableCredit - 1) % TWO32;
      return None;
    }

    method MuxReceive(t: PerformTransfer, pushed: bool) returns (err: Option<ReceiveError>)
      requires Valid()
      modifies this, msgBuf
      ensures Valid() && err == Receive(c, old(State()), t, pushed).err
      ensures err != Some(BadMessage) ==> State() == Receive(c, old(State()), t, pushed).state
      ensures err == Some(BadMessage) ==> State().(buf := []) == Receive(c, old(State()), t, pushed).state.(buf := [])
    {
      hide Finished, Queued;
      err := Identify(t);
      if err.Some? {
        return;
      }
      if t.aborted {
        msgBuf.Reset();
        msg, more := NO_MESSAGE, false;
        return;
      }
      if c.maxMessageSize != 0 && msgBuf.Len() + |t.payload| > c.maxMessageSize {
        return Some(MessageTooLarge);
      }
      ghost var before := State();
      msgBuf.Append(t.payload);
      assert msgBuf.Bytes() == before.buf + t.payload;
      msg := msg.(settled := msg.settled || t.settled);
      more := t.more;
      assert State() == Appended(before, t);
      if t.more {
        return;
      }
      BadStays(c, State(), pushed);
      err := Finish(pushed);
    }
  }

  lemma BadStays<M(!new)>(c: Config<M>, s: RState<M>, pushed: bool)
    ensures Finished(c, s, pushed).err == Some(BadMessage) ==> Finished(c, s, pushed).state == s
  {
  }

  // Runs of the receiver.

  /** The state after transfers that were all accepted, or none. */
  function ReceiveAll<M(!new)>(c: Config<M>, s: RState<M>, ts: seq<PerformTransfer>): Option<RState<M>> {
    if ts == [] then Some(s)
    else match ReceiveAll(c, s, ts[..|ts| - 1])
      case None => None
      case Some(s1) =>
        var r := Receive(c, s1, ts[|ts| - 1], true);
        if r.err.Some? then None else Some(r.state)
  }

  /** Between deliveries. */
  predicate Idle<M(!new)>(s: RState<M>) { !s.more && s.buf == [] && !s.msg.settled }

  /** The transfers at the end of `ts` that belong to a delivery still in progress. */
  function Open(ts: seq<PerformTransfer>): (g: seq<PerformTransfer>)
    ensures forall t :: t in g ==> t.more && !t.aborted
  {
    if ts == [] then []
    else
      var t := ts[|ts| - 1];
      if t.aborted || !t.more then [] else Open(ts[..|ts| - 1]) + [t]
  }

  function Payloads(ts: seq<PerformTransfer>): seq<Byte> {
    if ts == [] then [] else Payloads(ts[..|ts| - 1]) + ts[|ts| - 1].payload
  }

  predicate AnySettled(ts: seq<PerformTransfer>) { exists t :: t in ts && t.settled }

  /** The identification in the first transfer of a group, and whether any of them is settled. */
  function PartialOf(g: seq<PerformTransfer>): Option<Partial>
    requires g != []
  {
    if g[0].deliveryID.None? || g[0].messageFormat.None? || g[0].deliveryTag.None? then None
    else Some(Partial(g[0].deliveryID.value, g[0].messageFormat.value, g[0].deliveryTag, AnySettled(g)))
  }

  /** The deliveries that a sequence of transfers completes: each is one maximal group of
      transfers that ends in a transfer without the more flag and contains no aborted one. */
  function Completed<M(!new)>(c: Config<M>, ts: seq<PerformTransfer>): seq<Option<Delivery<M>>> {
    if ts == [] then []
    else
      var init, t := ts[..|ts| - 1], ts[|ts| - 1];
      if t.aborted || t.more then Completed(c, init) else Completed(c, init) + [DeliveryOf(c, Open(init) + [t])]
  }

  function DeliveryOf<M(!new)>(c: Config<M>, g: seq<PerformTransfer>): Option<Delivery<M>>
    requires g != []
  {
    match PartialOf(g)
    case None => None
    case Some(p) =>
      match c.decode(Payloads(g))
      case None => None
      case Some(m) => Some(Delivery(p.deliveryID, p.format, TagOf(p.tag), p.settled, m))
  }

  function Somes<T>(xs: seq<T>): (r: seq<Option<T>>)
    ensures |r| == |xs| && forall k :: 0 <= k < |xs| ==> r[k] == Some(xs[k])
  {
    seq(|xs|, k requires 0 <= k < |xs| => Some(xs[k]))
  }

  /** The buffer holds the group `g` in progress. */
  ghost predicate InProgress<M(!new)>(s: RState<M>, g: seq<PerformTransfer>) {
    && s.more == (g != [])
    && s.buf == Payloads(g)
    && (g == [] ==> !s.msg.settled)
    && (g != [] ==> Some(s.msg) == PartialOf(g))
  }

  /** The deliveries `ds` have been queued since `s0`. */
  ghost predicate QueuedSince<M(!new)>(s0: RState<M>, s: RState<M>, ds: seq<Option<Delivery<M>>>) {
    && |s.messages| >= |s0.messages|
    && s.messages[..|s0.messages|] == s0.messages
    && Somes(s.messages[|s0.messages|..]) == ds
  }

  /** What the receiver holds after the transfers `ts`, starting from the idle state `s0`. */
  ghost predicate Holds<M(!new)>(c: Config<M>, s0: RState<M>, s: RState<M>, ts: seq<PerformTransfer>) {
    && InProgress(s, Open(ts))
    && QueuedSince(s0, s, Completed(c, ts))
    && CountedSince(s0, s, |Completed(c, ts)|)
  }

  /** Since `s0`, `n` deliveries have been counted and paid for. */
  ghost predicate CountedSince<M(!new)>(s0: RState<M>, s: RState<M>, n: nat) {
    && s.deliveryCount == (s0.deliveryCount + n) % TWO32
    && s.availableCredit == (s0.availableCredit - n) % TWO32
  }

  /** Reassembly, over every run: whatever transfers the peer sends, as long as they are
      accepted, the messages queued are exactly the completed groups, in order and one credit
      each, and the buffer holds the payloads of the group in progress. */
  lemma {:induction false} ReassemblyInvariant<M(!new)>(c: Config<M>, s: RState<M>, ts: seq<PerformTransfer>)
    requires Idle(s) && ReceiveAll(c, s, ts).Some?
    ensures Holds(c, s, ReceiveAll(c, s, ts).value, ts)
  {
    if ts == [] {
      assert s.messages[|s.messages|..] == [];
    } else {
      hide Receive, Holds;
      var init, t := ts[..|ts| - 1], ts[|ts| - 1];
      ReassemblyInvariant(c, s, init);
      ReassemblyStep(c, s, ReceiveAll(c, s, init).value, init, t);
      assert ts == init + [t];
    }
  }

  lemma ReassemblyStep<M(!new)>(c: Config<M>, s0: RState<M>, s: RState<M>, ts: seq<PerformTransfer>, t: PerformTransfer)
    requires Holds(c, s0, s, ts) && Receive(c, s, t, true).err.None?
    ensures Holds(c, s0, Receive(c, s, t, true).state, ts + [t])
  {
    AcceptedOk(c, s, t);
    hide Receive, Open, Completed, Objection, Appended, Identified, Payloads, PartialOf, QueuedSince, CountedSince;
    if t.aborted {
      AbortedStep(c, s0, s, ts, t);
    } else {
      GroupStep(c, s, Open(ts), t);
      if t.more { MoreStep(c, s0, s, ts, t); } else { CompletedStep(c, s0, s, ts, t); }
    }
  }

  lemma AcceptedOk<M(!new)>(c: Config<M>, s: RState<M>, t: PerformTransfer)
    requires Receive(c, s, t, true).err.None?
    ensures Objection(s, t).None?
    ensures t.aborted ==> Receive(c, s, t, true).state == Discarded(Identified(s, t))
    ensures !t.aborted && t.more ==> Receive(c, s, t, true).state == Appended(Identified(s, t), t)
  {
    hide Objection, Appended, Identified, Discarded, Finished;
  }

  lemma OpenSnoc<M(!new)>(c: Config<M>, ts: seq<PerformTransfer>, t: PerformTransfer)
    requires t.aborted || t.more
    ensures Completed(c, ts + [t]) == Completed(c, ts)
    ensures Open(ts + [t]) == if t.aborted then [] else Open(ts) + [t]
    ensures Payloads([]) == []
  {
    assert (ts + [t])[..|ts|] == ts;
    hide DeliveryOf;
  }

  /** An aborted transfer drops its group. */
  lemma AbortedStep<M(!new)>(c: Config<M>, s0: RState<M>, s: RState<M>, ts: seq<PerformTransfer>, t: PerformTransfer)
    requires Holds(c, s0, s, ts) && t.aborted && Receive(c, s, t, true).state == Discarded(Identified(s, t))
    ensures Holds(c, s0, Receive(c, s, t, true).state, ts + [t])
  {
    hide Receive, Open, Completed, Payloads, PartialOf;
    OpenSnoc(c, ts, t);
  }

  /** A transfer with the more flag stays in progress. */
  lemma MoreStep<M(!new)>(c: Config<M>, s0: RState<M>, s: RState<M>, ts: seq<PerformTransfer>, t: PerformTransfer)
    requires Holds(c, s0, s, ts) && !t.aborted && t.more
    requires Receive(c, s, t, true).state == Appended(Identified(s, t), t)
    requires var s1 := Appended(Identified(s, t), t); var g1 := Open(ts) + [t];
      s1.buf == Payloads(g1) && PartialOf(g1) == Some(s1.msg)
    ensures Holds(c, s0, Receive(c, s, t, true).state, ts + [t])
  {
    hide Receive, Open, Completed, Payloads, PartialOf;
    OpenSnoc(c, ts, t);
  }

  /** A transfer that is accepted joins the group in progress. */
  lemma GroupStep<M(!new)>(c: Config<M>, s: RState<M>, g: seq<PerformTransfer>, t: PerformTransfer)
    requires InProgress(s, g)
    requires Objection(s, t).None?
    ensures var s1 := Appended(Identified(s, t), t);
      s1.buf == Payloads(g + [t]) && PartialOf(g + [t]) == Some(s1.msg)
  {
    assert (g + [t])[..|g|] == g;
    SettledStep(g, t);
    hide AnySettled;
  }

  /** The last transfer of a group completes its delivery. */
  lemma CompletedStep<M(!new)>(c: Config<M>, s0: RState<M>, s: RState<M>, ts: seq<PerformTransfer>, t: PerformTransfer)
    requires Holds(c, s0, s, ts) && Receive(c, s, t, true).err.None? && !t.aborted && !t.more
    requires var s1 := Appended(Identified(s, t), t); var g1 := Open(ts) + [t];
      s1.buf == Payloads(g1) && PartialOf(g1) == Some(s1.msg)
    ensures Holds(c, s0, Receive(c, s, t, true).state, ts + [t])
  {
    var s1 := Appended(Identified(s, t), t);
    LastReceive(c, s, t);
    QueuedParts(c, s1);
    hide Receive, Finished, Objection, Appended, Identified, QueuedSince, CountedSince, Queued;
    CompletedSnoc(c, ts, t);
    hide Completed, Open, DeliveryOf;
    AppendedKeeps(s, t);
    var m := c.decode(s1.buf).value;
    CountedSame(s0, s, s1, |Completed(c, ts)|);
    CountStep(c, s0, s1, |Completed(c, ts)|, m);
    var d := Delivery(s1.msg.deliveryID, s1.msg.format, TagOf(s1.msg.tag), s1.msg.settled, m);
    QueueStep(s0, s, Queued(c, s1, m), Completed(c, ts), d);
  }

  lemma LastReceive<M(!new)>(c: Config<M>, s: RState<M>, t: PerformTransfer)
    requires Receive(c, s, t, true).err.None? && !t.aborted && !t.more
    ensures var s1 := Appended(Identified(s, t), t);
      c.decode(s1.buf).Some? && Receive(c, s, t, true) == Finished(c, s1, true)
  {
    hide Objection, Appended, Identified, Queued;
  }

  lemma CompletedSnoc<M(!new)>(c: Config<M>, ts: seq<PerformTransfer>, t: PerformTransfer)
    requires !t.aborted && !t.more
    ensures Completed(c, ts + [t]) == Completed(c, ts) + [DeliveryOf(c, Open(ts) + [t])]
    ensures Open(ts + [t]) == [] && Payloads([]) == []
    ensures var g := Open(ts) + [t];
      DeliveryOf(c, g) ==
        if PartialOf(g).None? || c.decode(Payloads(g)).None? then None
        else
          var p := PartialOf(g).value;
          Some(Delivery(p.deliveryID, p.format, TagOf(p.tag), p.settled, c.decode(Payloads(g)).value))
  {
    assert (ts + [t])[..|ts|] == ts;
    hide PartialOf;
  }

  lemma CountedSame<M(!new)>(s0: RState<M>, s: RState<M>, s1: RState<M>, n: nat)
    requires CountedSince(s0, s, n) && s1.deliveryCount == s.deliveryCount && s1.availableCredit == s.availableCredit
    ensures CountedSince(s0, s1, n)
  {
  }

  lemma QueuedParts<M(!new)>(c: Config<M>, s: RState<M>)
    requires c.decode(s.buf).Some?
    ensures var m := c.decode(s.buf).value; var r := Queued(c, s, m);
      && !r.more && r.buf == [] && !r.msg.settled
      && r.messages == s.messages + [Delivery(s.msg.deliveryID, s.msg.format, TagOf(s.msg.tag), s.msg.settled, m)]
      && Finished(c, s, true) == Received(r, None)
  {
  }

  lemma QueueStep<M(!new)>(s0: RState<M>, s: RState<M>, r: RState<M>, ds: seq<Option<Delivery<M>>>, d: Delivery<M>)
    requires QueuedSince(s0, s, ds) && r.messages == s.messages + [d]
    ensures QueuedSince(s0, r, ds + [Some(d)])
  {
    var n := |s0.messages|;
    assert r.messages[n..] == s.messages[n..] + [d];
    assert r.messages[..n] == s.messages[..n];
    assert Somes(r.messages[n..]) == Somes(s.messages[n..]) + [Some(d)];
  }

  lemma AppendedKeeps<M(!new)>(s: RState<M>, t: PerformTransfer)
    ensures var s1 := Appended(Identified(s, t), t);
      s1.messages == s.messages && s1.deliveryCount == s.deliveryCount && s1.availableCredit == s.availableCredit
  {
  }

  lemma SettledStep(g: seq<PerformTransfer>, t: PerformTransfer)
    ensures AnySettled(g + [t]) <==> AnySettled(g) || t.settled
    ensures AnySettled([]) == false
  {
    assert t in g + [t];
    if AnySettled(g) {
      var x :| x in g && x.settled;
      assert x in g + [t];
    }
  }

  lemma CountStep<M(!new)>(c: Config<M>, s0: RState<M>, s: RState<M>, n: nat, m: M)
    requires CountedSince(s0, s, n)
    ensures CountedSince(s0, Queued(c, s, m), n + 1)
  {
    ModAdd(s0.deliveryCount + n, 1);
    ModAdd(s0.availableCredit - n, -1);
  }

  // Refusals.

  /** Why a transfer does not fit the group `g` that is in progress, if it does not: the first of a group must
      identify the delivery, and the others must agree with the first or say nothing. */
  function Misfit(g: seq<PerformTransfer>, t: PerformTransfer): Option<ReceiveError> {
    if g == [] then
      if t.deliveryID == None then Some(NoDeliveryID)
      else if t.messageFormat == None then Some(NoFormat)
      else if t.deliveryTag == None then Some(NoTag)
      else None
    else if t.deliveryID != None && t.deliveryID != g[0].deliveryID then Some(OtherDeliveryID)
    else if t.messageFormat != None && t.messageFormat != g[0].messageFormat then Some(OtherFormat)
    else if t.deliveryTag != None && t.deliveryTag != g[0].deliveryTag then Some(OtherTag)
    else None
  }

  /** Over every run of accepted transfers, the next one is refused exactly if it does not fit its group, or is
      not aborted and takes the group over the limit, or completes a message that cannot be decoded. */
  lemma RefusedIff<M(!new)>(c: Config<M>, s: RState<M>, ts: seq<PerformTransfer>, t: PerformTransfer)
    requires Idle(s) && ReceiveAll(c, s, ts).Some?
    ensures var g := Open(ts); var total := Payloads(g + [t]);
      Receive(c, ReceiveAll(c, s, ts).value, t, true).err ==
        if Misfit(g, t).Some? then Misfit(g, t)
        else if t.aborted then None
        else if c.maxMessageSize != 0 && |total| > c.maxMessageSize then Some(MessageTooLarge)
        else if !t.more && c.decode(total).None? then Some(BadMessage)
        else None
  {
    ReassemblyInvariant(c, s, ts);
    var r, g := ReceiveAll(c, s, ts).value, Open(ts);
    assert InProgress(r, g);
    hide ReceiveAll, Open, Holds;
    assert (g + [t])[..|g|] == g;
    assert r.buf + t.payload == Payloads(g + [t]);
    assert Objection(r, t) == Misfit(g, t);
    hide Objection, Misfit, InProgress, Payloads;
  }

  /** A link that is detached before the queue has room reports it for exactly those transfers that would have
      completed a message; nothing is queued or counted then. */
  lemma DetachedPush<M(!new)>(c: Config<M>, s: RState<M>, t: PerformTransfer)
    ensures var r, q := Receive(c, s, t, false), Receive(c, s, t, true);
      if q.err.None? && !t.aborted && !t.more then
        && r.err == Some(LinkDetached) && r.state.messages == s.messages && r.state.deliveryCount == s.deliveryCount
        && r.state.availableCredit == s.availableCredit
      else r == q
  {
  }

  /** The groups that a sequence of transfers completes, as `Completed` counts them. */
  function Groups(ts: seq<PerformTransfer>): seq<seq<PerformTransfer>> {
    if ts == [] then []
    else
      var init, t := ts[..|ts| - 1], ts[|ts| - 1];
      if t.aborted || t.more then Groups(init) else Groups(init) + [Open(init) + [t]]
  }

  /** A group identifies its delivery in its first transfer and does not contradict it, and is within the limit. */
  ghost predicate Sound<M(!new)>(c: Config<M>, g: seq<PerformTransfer>) {
    && (g != [] ==> g[0].deliveryID != None && g[0].messageFormat != None && g[0].deliveryTag != None)
    && (forall t :: t in g ==>
          && (t.deliveryID == None || t.deliveryID == g[0].deliveryID)
          && (t.messageFormat == None || t.messageFormat == g[0].messageFormat)
          && (t.deliveryTag == None || t.deliveryTag == g[0].deliveryTag))
    && (c.maxMessageSize != 0 ==> |Payloads(g)| <= c.maxMessageSize)
  }

  lemma SoundSnoc<M(!new)>(c: Config<M>, g: seq<PerformTransfer>, t: PerformTransfer)
    requires Sound(c, g) && Misfit(g, t).None?
    requires c.maxMessageSize == 0 || |Payloads(g + [t])| <= c.maxMessageSize
    ensures Sound(c, g + [t])
  {
    hide Payloads;
    var h := g + [t];
    assert g != [] ==> h[0] == g[0];
    assert forall x :: x in h ==> x in g || x == t;
  }

  /** Over every run of accepted transfers, the group in progress and every completed one are sound: no message
      is over the limit, and none mixes deliveries. */
  lemma {:induction false} GroupsSound<M(!new)>(c: Config<M>, s: RState<M>, ts: seq<PerformTransfer>)
    requires Idle(s) && ReceiveAll(c, s, ts).Some?
    ensures Sound(c, Open(ts)) && forall g :: g in Groups(ts) ==> Sound(c, g)
    decreases |ts|
  {
    if ts == [] {
      assert Payloads([]) == [];
    } else {
      var init, t := ts[..|ts| - 1], ts[|ts| - 1];
      GroupsSound(c, s, init);
      RefusedIff(c, s, init, t);
      assert Payloads([]) == [];
      hide Receive, Misfit, Payloads, Sound;
      if !t.aborted {
        SoundSnoc(c, Open(init), t);
      } else {
        EmptySound(c);
      }
      if !t.more { EmptySound(c); }
    }
  }

  lemma EmptySound<M(!new)>(c: Config<M>)
    ensures Sound(c, [])
  {
    assert Payloads([]) == [];
  }

  function TagsOf(gs: seq<seq<PerformTransfer>>): set<seq<Byte>> {
    set k | 0 <= k < |gs| && gs[k] != [] :: TagOf(gs[k][0].deliveryTag)
  }

  /** Settling second, exactly the tags of the completed groups become unsettled. */
  lemma {:induction false} UnsettledRun<M(!new)>(c: Config<M>, s: RState<M>, ts: seq<PerformTransfer>)
    requires Idle(s) && ReceiveAll(c, s, ts).Some?
    ensures ReceiveAll(c, s, ts).value.unsettled == s.unsettled + if c.second then TagsOf(Groups(ts)) else {}
    decreases |ts|
  {
    if ts != [] {
      var init, t := ts[..|ts| - 1], ts[|ts| - 1];
      UnsettledRun(c, s, init);
      ReassemblyInvariant(c, s, init);
      var r, g := ReceiveAll(c, s, init).value, Open(init);
      assert InProgress(r, g);
      UnsettledStep(c, r, g, t);
      hide Receive, ReceiveAll, InProgress, Holds;
      if !t.aborted && !t.more {
        var gs, h := Groups(init), g + [t];
        assert Groups(ts) == gs + [h];
        TagsSnoc(gs, h);
      }
    }
  }

  lemma TagsSnoc(gs: seq<seq<PerformTransfer>>, h: seq<PerformTransfer>)
    requires h != []
    ensures TagsOf(gs + [h]) == TagsOf(gs) + {TagOf(h[0].deliveryTag)}
  {
    var hs := gs + [h];
    assert forall k :: 0 <= k < |gs| ==> hs[k] == gs[k];
    forall x | x in TagsOf(gs) ensures x in TagsOf(hs) {
      var k :| 0 <= k < |gs| && gs[k] != [] && x == TagOf(gs[k][0].deliveryTag);
      assert hs[k] == gs[k];
    }
    assert hs[|gs|] == h;
  }

  lemma UnsettledStep<M(!new)>(c: Config<M>, s: RState<M>, g: seq<PerformTransfer>, t: PerformTransfer)
    requires InProgress(s, g) && Receive(c, s, t, true).err.None?
    ensures Receive(c, s, t, true).state.unsettled ==
      s.unsettled + if c.second && !t.aborted && !t.more then {TagOf((g + [t])[0].deliveryTag)} else {}
  {
    hide Payloads;
  }

  // Round trip.

  lemma FragmentFields(e: Envelope, p: seq<Byte>, m: nat, k: nat)
    requires m > 0 && k < Count(p, m)
    ensures var t := Fragments(e, p, m)[k]; var last := k == Count(p, m) - 1;
      && t.deliveryID == (if k == 0 then Some(e.deliveryID) else None)
      && t.messageFormat == (if k == 0 then Some(e.format) else None)
      && t.deliveryTag == (if k == 0 then Some(e.tag) else None)
      && t.more == !last && t.settled == (last && e.settled) && !t.aborted
      && p[..Cut(p, m, k)] + t.payload == p[..Cut(p, m, k + 1)]
  {
    hide Count, Cut;
    CutOrder(p, m, k);
  }

  /** The receiver after the pieces before number `k`. */
  function Midway<M(!new)>(s: RState<M>, e: Envelope, p: seq<Byte>, m: nat, k: nat): RState<M> {
    if k == 0 then s
    else s.(more := true, buf := p[..Cut(p, m, k)], msg := Partial(e.deliveryID, e.format, Some(e.tag), false))
  }

  /** A piece is accepted and appended. */
  lemma PieceAccepted<M(!new)>(c: Config<M>, s: RState<M>, e: Envelope, p: seq<Byte>, m: nat, k: nat)
    requires Idle(s) && m > 0 && k < Count(p, m)
    requires c.maxMessageSize == 0 || |p| <= c.maxMessageSize
    ensures var t := Fragments(e, p, m)[k]; var s1 := Midway(s, e, p, m, k);
      && Objection(s1, t).None? && !t.aborted
      && (c.maxMessageSize != 0 ==> |s1.buf| + |t.payload| <= c.maxMessageSize)
      && Appended(Identified(s1, t), t) ==
           s.(more := t.more, buf := p[..Cut(p, m, k + 1)],
              msg := Partial(e.deliveryID, e.format, Some(e.tag), t.settled))
  {
    FragmentFields(e, p, m, k);
    hide Count, Cut, Fragments;
    CutZero(p, m);
    var t := Fragments(e, p, m)[k];
    assert |p[..Cut(p, m, k)] + t.payload| <= |p|;
    assert [] + t.payload == t.payload;
  }

  lemma CutZero(p: seq<Byte>, m: nat)
    ensures p[..Cut(p, m, 0)] == []
  {
  }

  lemma {:induction false} ReceiveFragments<M(!new)>(c: Config<M>, s: RState<M>, e: Envelope, p: seq<Byte>, m: nat,
      k: nat)
    requires Idle(s) && m > 0 && k < Count(p, m)
    requires c.maxMessageSize == 0 || |p| <= c.maxMessageSize
    ensures ReceiveAll(c, s, Fragments(e, p, m)[..k]) == Some(Midway(s, e, p, m, k))
    decreases k
  {
    hide Count, Cut, Fragments;
    if k > 0 {
      var ts := Fragments(e, p, m);
      ReceiveFragments(c, s, e, p, m, k - 1);
      assert ts[..k][..k - 1] == ts[..k - 1];
      PieceAccepted(c, s, e, p, m, k - 1);
      FragmentFields(e, p, m, k - 1);
      hide Objection, Appended, Identified;
      assert Receive(c, Midway(s, e, p, m, k - 1), ts[k - 1], true) == Received(Midway(s, e, p, m, k), None);
    }
  }

  /** Fragmentation and reassembly: for every message that is not empty on the wire and every
      piece size, an idle receiver turns the transfers of `send` into exactly one delivery
      with the sender's number, tag, format and settled flag and the message that the octets
      decode to; it uses one credit and is idle again. */
  lemma FragmentRoundTrip<M(!new)>(c: Config<M>, s: RState<M>, e: Envelope, p: seq<Byte>, m: nat, msg: M)
    requires Idle(s) && m > 0 && p != []
    requires c.maxMessageSize == 0 || |p| <= c.maxMessageSize
    requires c.decode(p) == Some(msg)
    ensures ReceiveAll(c, s, Fragments(e, p, m)) == Some(RState(
      false, [], NO_MESSAGE, (s.deliveryCount + 1) % TWO32, (s.availableCredit - 1) % TWO32,
      s.messages + [Delivery(e.deliveryID, e.format, e.tag, e.settled, msg)],
      if c.second then s.unsettled + {e.tag} else s.unsettled))
  {
    CutZero(p, m);
    CutCount(p, m, 0);
    var n := Count(p, m);
    CutCount(p, m, n);
    hide Count, Cut, Fragments;
    var ts := Fragments(e, p, m);
    ReceiveFragments(c, s, e, p, m, n - 1);
    assert ts[..n - 1] == ts[..|ts| - 1];
    PieceAccepted(c, s, e, p, m, n - 1);
    FragmentFields(e, p, m, n - 1);
    assert p[..Cut(p, m, n)] == p;
    FinishedIs(c, s, e, p, msg);
    hide Objection, Appended, Identified, Finished;
  }

  lemma FinishedIs<M(!new)>(c: Config<M>, s: RState<M>, e: Envelope, p: seq<Byte>, msg: M)
    requires c.decode(p) == Some(msg)
    ensures var partial := Partial(e.deliveryID, e.format, Some(e.tag), e.settled);
      Finished(c, s.(more := false, buf := p, msg := partial), true) ==
      Received(RState(
        false, [], NO_MESSAGE, (s.deliveryCount + 1) % TWO32, (s.availableCredit - 1) % TWO32,
        s.messages + [Delivery(e.deliveryID, e.format, e.tag, e.settled, msg)],
        if c.second then s.unsettled + {e.tag} else s.unsettled), None)
  {
  }

  /** What a `Send` that is stopped after `patience` transfers does to the next delivery on its link: the
      receiver refuses it if and only if some, but not all, transfers of the first one have been sent. */
  lemma StoppedSend<M(!new)>(
      c: Config<M>, s: RState<M>, e: Envelope, p: seq<Byte>, m: nat, msg: M, patience: nat, e2: Envelope, p2: seq<Byte>)
    requires Idle(s) && m > 0 && p != [] && p2 != [] && e2.deliveryID != e.deliveryID
    requires (c.maxMessageSize == 0 || |p| <= c.maxMessageSize) && c.decode(p) == Some(msg)
    ensures Count(p2, m) > 0
    ensures var ts := Fragments(e, p, m);
      var r := ReceiveAll(c, s, if |ts| <= patience then ts else ts[..patience]);
      && r.Some?
      && Objection(r.value, Fragments(e2, p2, m)[0]) == if 0 < patience < |ts| then Some(OtherDeliveryID) else None
  {
    CutCount(p2, m, 0);
    CutCount(p, m, 0);
    CutZero(p2, m);
    FragmentFields(e2, p2, m, 0);
    hide Count, Cut, Fragments, ReceiveAll;
    var n := Count(p, m);
    if patience < n {
      ReceiveFragments(c, s, e, p, m, patience);
    } else {
      FragmentRoundTrip(c, s, e, p, m, msg);
    }
  }

  /** Only the last transfer ends the delivery, and the payloads are the octets of the message. */
  lemma FragmentsShape(e: Envelope, p: seq<Byte>, m: nat)
    requires m > 0
    ensures var ts := Fragments(e, p, m);
      && (p == [] <==> ts == [])
      && Payloads(ts) == p
      && (forall k :: 0 <= k < |ts| ==> 0 < |ts[k].payload| <= m && (ts[k].more <==> k < |ts| - 1))
      && (forall k :: 0 <= k < |ts| - 1 ==> |ts[k].payload| == m)
  {
    var ts := Fragments(e, p, m);
    forall k | 0 <= k < |ts|
      ensures 0 < |ts[k].payload| <= m && (ts[k].more <==> k < |ts| - 1)
      ensures k < |ts| - 1 ==> |ts[k].payload| == m
    {
      CutCount(p, m, k);
      CutCount(p, m, k + 1);
      CutOrder(p, m, k);
    }
    CutCount(p, m, 0);
    CutCount(p, m, |ts|);
    FragmentPayloads(e, p, m, |ts|);
    assert ts[..|ts|] == ts && p[..|p|] == p;
  }

  lemma {:induction false} FragmentPayloads(e: Envelope, p: seq<Byte>, m: nat, k: nat)
    requires m > 0 && k <= Count(p, m)
    ensures Payloads(Fragments(e, p, m)[..k]) == p[..Cut(p, m, k)]
    decreases k
  {
    hide Fragments, Count, Cut;
    if k > 0 {
      var ts := Fragments(e, p, m);
      FragmentPayloads(e, p, m, k - 1);
      assert ts[..k][..k - 1] == ts[..k - 1];
      FragmentFields(e, p, m, k - 1);
    } else {
      CutZero(p, m);
    }
  }
}
