/** The encoded size of transfer frames, against the peer's maximum frame size. */
module FrameSize {
  import opened Bytes
  import opened Values
  import opened Encode
  import opened Frames
  import opened Transfer

  function EncFrame(channel: U16, body: FrameBody): seq<Byte> { FrameBytes(channel, EncBody(body)) }

  function UintLen(n: U32): nat { if n == 0 then 1 else if n < 256 then 2 else 5 }

  lemma UintWidth(n: U32)
    ensures |Enc(Uint(n))| == UintLen(n)
  {
  }

  lemma BinWidth(s: seq<Byte>)
    requires |s| < 256
    ensures |Enc(Binary(s))| == 2 + |s|
  {
  }

  lemma OneOctet()
    ensures |Enc(Null)| == 1 && |Enc(Bool(true))| == 1
  {
  }

  lemma ItemsStep(fs: seq<Value>, j: nat, n: nat)
    requires j < n <= |fs|
    ensures |EncItems(fs, j, n)| == |Enc(fs[j])| + |EncItems(fs, j + 1, n)|
  {
  }

  lemma ItemsEnd(fs: seq<Value>, n: nat)
    requires n <= |fs|
    ensures EncItems(fs, n, n) == []
  {
  }

  lemma CompositeWidth(code: Byte, fs: seq<Value>, n: nat)
    requires n == SetCount(fs) > 0
    ensures |Enc(Composite(code, fs))| == 12 + |EncItems(fs, 0, n)|
  {
    hide EncItems, SetCount;
  }

  /** The number of fields that `send` writes: up to the last one that is set. */
  function FieldCount(t: PerformTransfer): (n: nat)
    ensures 1 <= n <= 6
  {
    if t.more then 6
    else if t.settled then 5
    else if t.messageFormat.Some? then 4
    else 1
  }

  /** The transfers that `send` makes. */
  predicate IsPiece(t: PerformTransfer) {
    && t.receiverSettleMode.None? && t.state.Null? && !t.resume && !t.aborted && !t.batchable
    && !(t.more && t.settled)
    && (t.deliveryID.Some? <==> t.messageFormat.Some?) && (t.deliveryTag.Some? <==> t.messageFormat.Some?)
    && (t.deliveryTag.Some? ==> 0 < |t.deliveryTag.value| < 256)
  }

  /** The octets of a transfer frame that are not payload. */
  function Overhead(t: PerformTransfer): nat {
    20 + UintLen(t.handle)
    + (if t.deliveryID.Some? then UintLen(t.deliveryID.value) else 0)
    + (if t.deliveryTag.Some? then 2 + |t.deliveryTag.value| else 0)
    + (if t.messageFormat.Some? then UintLen(t.messageFormat.value) else if t.more || t.settled then 3 else 0)
    + (if t.more then 2 else if t.settled then 1 else 0)
  }

  lemma PieceFields(t: PerformTransfer)
    requires IsPiece(t)
    ensures var fs := TransferFields(t);
      && fs[0] == Uint(t.handle)
      && fs[1] == (if t.deliveryID.Some? then Uint(t.deliveryID.value) else Null)
      && fs[2] == (if t.deliveryTag.Some? then Binary(t.deliveryTag.value) else Null)
      && fs[3] == (if t.messageFormat.Some? then Uint(t.messageFormat.value) else Null)
      && fs[4] == (if t.settled then Bool(true) else Null)
      && fs[5] == (if t.more then Bool(true) else Null)
      && forall k :: 6 <= k < 11 ==> fs[k] == Null
  {
  }

  /** The first four fields: without a format, the number and the tag are nulls as well. */
  lemma FrontItems(fs: seq<Value>, t: PerformTransfer, n: nat)
    requires IsPiece(t) && fs == TransferFields(t) && 4 <= n <= |fs|
    ensures |EncItems(fs, 0, n)| == UintLen(t.handle) + |EncItems(fs, 4, n)|
      + (if t.messageFormat.None? then 3
         else UintLen(t.deliveryID.value) + 2 + |t.deliveryTag.value| + UintLen(t.messageFormat.value))
  {
    PieceFields(t);
    hide TransferFields, EncItems, Enc, UintLen;
    OneOctet();
    UintWidth(t.handle);
    ItemsStep(fs, 0, n);
    ItemsStep(fs, 1, n);
    ItemsStep(fs, 2, n);
    ItemsStep(fs, 3, n);
    if t.messageFormat.Some? {
      UintWidth(t.deliveryID.value);
      BinWidth(t.deliveryTag.value);
      UintWidth(t.messageFormat.value);
    }
  }

  /** Field by field, nulls included. */
  lemma PieceItems(fs: seq<Value>, t: PerformTransfer, n: nat)
    requires IsPiece(t) && fs == TransferFields(t) && n == FieldCount(t)
    ensures 20 + |EncItems(fs, 0, n)| == Overhead(t)
  {
    if n > 1 { FrontItems(fs, t, n); }
    PieceFields(t);
    hide TransferFields, EncItems, Enc, UintLen;
    OneOctet();
    ItemsEnd(fs, n);
    if n == 1 {
      UintWidth(t.handle);
      ItemsStep(fs, 0, n);
    }
    if n > 4 { ItemsStep(fs, 4, n); }
    if n > 5 { ItemsStep(fs, 5, n); }
  }

  /** The exact size of a transfer frame. */
  lemma FrameLength(channel: U16, t: PerformTransfer)
    requires IsPiece(t)
    ensures |EncFrame(channel, FrameBody.Transfer(t))| == Overhead(t) + |t.payload|
  {
    var fs, n := TransferFields(t), FieldCount(t);
    PieceFields(t);
    hide TransferFields, EncItems, Overhead;
    SetCountIs(fs, n);
    CompositeWidth(TRANSFER, fs, n);
    PieceItems(fs, t, n);
  }

  predicate TagOk(e: Envelope) { 0 < |e.tag| <= MAX_TAG }

  lemma FragmentIsPiece(e: Envelope, p: seq<Byte>, m: nat, k: nat)
    requires TagOk(e) && m > 0 && k < Count(p, m)
    ensures IsPiece(Fragments(e, p, m)[k])
  {
    hide Count, Cut;
  }

  /** The overhead of the first transfer when another one follows. */
  function FirstOverhead(e: Envelope): nat {
    24 + UintLen(e.handle) + UintLen(e.deliveryID) + |e.tag| + UintLen(e.format)
  }

  /** The size of the first frame: a single one has no more flag, but may be settled. */
  function FirstSize(e: Envelope, p: seq<Byte>, m: nat): int {
    if |p| > m then FirstOverhead(e) + m else FirstOverhead(e) - 2 + (if e.settled then 1 else 0) + |p|
  }

  /** Every frame of the delivery passes the size check of `writeFrame`. */
  predicate AllFit(channel: U16, e: Envelope, p: seq<Byte>, m: nat, limit: nat)
    requires m > 0
  {
    forall k :: 0 <= k < Count(p, m) ==> Fits(channel, Fragments(e, p, m)[k], limit)
  }

  predicate Fits(channel: U16, t: PerformTransfer, limit: nat) { |EncFrame(channel, FrameBody.Transfer(t))| <= limit }

  lemma FirstFrame(channel: U16, e: Envelope, p: seq<Byte>, m: nat)
    requires TagOk(e) && m > 0 && p != []
    ensures Count(p, m) > 0
    ensures |EncFrame(channel, FrameBody.Transfer(Fragments(e, p, m)[0]))| == FirstSize(e, p, m)
  {
    CutCount(p, m, 0);
    CutCount(p, m, 1);
    CutOrder(p, m, 0);
    FragmentIsPiece(e, p, m, 0);
    FrameLength(channel, Fragments(e, p, m)[0]);
    hide EncFrame, Count;
  }

  /** A continuation always fits: it repeats neither number nor tag nor format. */
  lemma LaterFrame(channel: U16, e: Envelope, p: seq<Byte>, m: nat, k: nat)
    requires TagOk(e) && m > 0 && 0 < k < Count(p, m)
    ensures |EncFrame(channel, FrameBody.Transfer(Fragments(e, p, m)[k]))| <= 30 + m
  {
    CutOrder(p, m, k);
    FragmentIsPiece(e, p, m, k);
    FrameLength(channel, Fragments(e, p, m)[k]);
    hide EncFrame, Count, Cut;
  }

  /** The frame bound: all transfers of a delivery are within the peer's limit if and only if
      the first one is, which can be told from the number, tag and format of the delivery. */
  lemma FramesFit(channel: U16, e: Envelope, p: seq<Byte>, limit: U32)
    requires TagOk(e) && limit > MAX_TRANSFER_HEADER && p != []
    ensures AllFit(channel, e, p, limit - MAX_TRANSFER_HEADER, limit) <==>
        FirstSize(e, p, limit - MAX_TRANSFER_HEADER) <= limit
  {
    hide FirstSize, EncFrame, Fits, TagOk, Fragments, Count;
    var m := limit - MAX_TRANSFER_HEADER;
    FirstFrame(channel, e, p, m);
    FitsIs(channel, Fragments(e, p, m)[0], limit);
    forall k | 0 < k < Count(p, m) ensures Fits(channel, Fragments(e, p, m)[k], limit) {
      LaterFrame(channel, e, p, m, k);
      FitsIs(channel, Fragments(e, p, m)[k], limit);
    }
  }

  lemma FitsIs(channel: U16, t: PerformTransfer, limit: nat)
    ensures Fits(channel, t, limit) <==> |EncFrame(channel, FrameBody.Transfer(t))| <= limit
  {
    hide EncFrame;
  }

  /** Tags of up to 27 octets, the generated ones among them, always fit; a longer one does in
      front of a full payload exactly when its frame header stays within 66 octets. */
  lemma TagBound(channel: U16, e: Envelope, p: seq<Byte>, limit: U32)
    requires TagOk(e) && limit > MAX_TRANSFER_HEADER && p != []
    ensures |e.tag| <= 27 ==> AllFit(channel, e, p, limit - MAX_TRANSFER_HEADER, limit)
    ensures |p| > limit - MAX_TRANSFER_HEADER ==>
      (AllFit(channel, e, p, limit - MAX_TRANSFER_HEADER, limit) <==> FirstOverhead(e) <= MAX_TRANSFER_HEADER)
  {
    hide AllFit;
    FramesFit(channel, e, p, limit);
  }

  /** The allowed 32 octets are too many with wide numbers: the frame is 5 octets over. */
  lemma LongTagOverflows(channel: U16, tag: seq<Byte>, p: seq<Byte>, limit: U32)
    requires |tag| == 32 && limit > MAX_TRANSFER_HEADER && |p| > limit - MAX_TRANSFER_HEADER
    ensures var e := Envelope(256, 256, tag, 256, false);
      FirstSize(e, p, limit - MAX_TRANSFER_HEADER) == limit + 5
          && !AllFit(channel, e, p, limit - MAX_TRANSFER_HEADER, limit)
  {
    hide AllFit;
    FramesFit(channel, Envelope(256, 256, tag, 256, false), p, limit);
  }
}
