/** `Conn.readFrame`: frames reassembled from a byte stream that arrives in pieces. */
module FrameReader {
  import opened Bytes
  import opened ByteBuffer

  const HEADER_SIZE: nat := 8
  const MAX_INT32: int := 0x7fff_ffff

  /** The frame header; the type octet is not looked at. */
  datatype Header = Header(size: U32, dataOffset: Byte, channel: U16)

  /** `Net` is the error of the underlying connection, reported when nothing more arrives. */
  datatype ReadError = Net | BadSize | BadOffset | TooLarge | BadBody | BodyPanic

  /** What parsing a body comes to: the body, an error, or a run-time panic. */
  datatype Parsed<+B> = Body(value: B) | Malformed | Crashed

  function BodyError<B>(p: Parsed<B>): ReadError { if p.Crashed? then BodyPanic else BadBody }

  datatype Frame<B> = Frame(channel: U16, body: B)

  datatype Result<B> = Got(frame: Frame<B>) | Failed(err: ReadError)

  function HeaderOf(s: seq<Byte>): Header
    requires |s| >= 8
  {
    Pow256Values();
    Header(Num(s[0..4]), s[4], Num(s[6..8]))
  }

  /** The error that `ParseHeader` and the size check report for a header. */
  function HeaderError(h: Header): Option<ReadError> {
    if h.size < 8 then Some(BadSize)
    else if h.dataOffset < 2 then Some(BadOffset)
    else if h.size > MAX_INT32 then Some(TooLarge)
    else None
  }

  // Reading the whole stream at once.

  datatype Outcome<B> = Outcome(frames: seq<Frame<B>>, err: ReadError)

  function Cons<B>(f: Frame<B>, o: Outcome<B>): Outcome<B> { Outcome([f] + o.frames, o.err) }

  /** All frames of a stream in order, skipping keep-alives, and the error that ends it. */
  function ParseAll<B>(parse: seq<Byte> -> Parsed<B>, s: seq<Byte>): Outcome<B>
    decreases |s|
  {
    if |s| < 8 then Outcome([], Net)
    else
      var h := HeaderOf(s);
      if HeaderError(h).Some? then Outcome([], HeaderError(h).value)
      else
        var n := h.size - 8;
        if |s| - 8 < n then Outcome([], Net)
        else if n == 0 then ParseAll(parse, s[8..])
        else match parse(s[8..8 + n])
          case Body(x) => Cons(Frame(h.channel, x), ParseAll(parse, s[8 + n..]))
          case bad => Outcome([], BodyError(bad))
  }

  /** The size of the first frame of a stream, from its first four octets. */
  function SizeAt(s: seq<Byte>): int
    requires |s| >= 8
  {
    ((s[0] as int * 256 + s[1]) * 256 + s[2]) * 256 + s[3]
  }

  function ChannelAt(s: seq<Byte>): (n: U16)
    requires |s| >= 8
  {
    s[6] as int * 256 + s[7]
  }

  lemma HeaderLayout(s: seq<Byte>)
    requires |s| >= 8
    ensures HeaderOf(s).size == SizeAt(s) && HeaderOf(s).dataOffset == s[4] && HeaderOf(s).channel == ChannelAt(s)
  {
    FourOctets(s[0..4]);
    TwoOctets(s[6..8]);
    hide Num;
  }

  /** What the first octets of a stream come to: the size is in the first four, the data offset in the fifth and the
      channel in the last two of eight. */
  lemma StreamStart<B>(parse: seq<Byte> -> Parsed<B>, s: seq<Byte>)
    requires |s| >= 8
    ensures var size := SizeAt(s);
      ParseAll(parse, s) ==
        if size < 8 then Outcome([], BadSize)
        else if s[4] < 2 then Outcome([], BadOffset)
        else if size >= 0x8000_0000 then Outcome([], TooLarge)
        else if |s| < size then Outcome([], Net)
        else if size == 8 then ParseAll(parse, s[8..])
        else match parse(s[8..size])
          case Body(x) =>
            var rest := ParseAll(parse, s[size..]);
            Outcome([Frame(ChannelAt(s), x)] + rest.frames, rest.err)
          case Malformed => Outcome([], BadBody)
          case Crashed => Outcome([], BodyPanic)
  {
    hide HeaderOf, SizeAt, ChannelAt;
    HeaderLayout(s);
  }

  lemma TwoOctets(s: seq<Byte>)
    requires |s| == 2
    ensures Num(s) == s[0] as int * 256 + s[1]
  {
    assert s[..1][..0] == [] && Num(s[..1]) == s[0];
  }

  lemma FourOctets(s: seq<Byte>)
    requires |s| == 4
    ensures Num(s) == ((s[0] as int * 256 + s[1]) * 256 + s[2]) * 256 + s[3]
  {
    TwoOctets(s[..2]);
    assert s[..3][..2] == s[..2];
    assert Num(s[..3]) == Num(s[..2]) * 256 + s[2];
  }

  /** The data offset does not move the body: an extended header is taken for its beginning. */
  lemma OffsetIgnored<B>(parse: seq<Byte> -> Parsed<B>, s: seq<Byte>, offset: Byte)
    requires |s| >= 8 && s[4] >= 2 && offset >= 2
    ensures ParseAll(parse, s[4 := offset]) == ParseAll(parse, s)
  {
    hide ParseAll;
    var t := s[4 := offset];
    StreamStart(parse, s);
    StreamStart(parse, t);
    assert t[8..] == s[8..];
    assert forall n: nat :: 8 <= n <= |s| ==> t[8..n] == s[8..n] && t[n..] == s[n..];
  }

  // Reading in pieces.

  function Flat(net: seq<seq<Byte>>): seq<Byte> {
    if net == [] then [] else net[0] + Flat(net[1..])
  }

  datatype Step<B> = Step(result: Result<B>, buf: seq<Byte>, net: seq<seq<Byte>>)

  /** The loop of `readFrame`: `buf` holds the unread octets, `cur` the header of the frame in
      progress, and `net` what the coming reads will deliver. */
  function Loop<B>(parse: seq<Byte> -> Parsed<B>, buf: seq<Byte>, cur: Option<Header>,
      net: seq<seq<Byte>>): (r: Step<B>)
    decreases |net|, |buf|
  {
    if (cur.Some? || |buf| < 8) && net == [] then Step(Failed(Net), buf, net)
    else
      var read := cur.Some? || |buf| < 8;
      var buf := if read then buf + net[0] else buf;
      var net := if read then net[1..] else net;
      if |buf| < 8 then Loop(parse, buf, cur, net)
      else
        var h := if cur.Some? then cur.value else HeaderOf(buf);
        var rest := if cur.Some? then buf else buf[8..];
        if HeaderError(h).Some? then Step(Failed(HeaderError(h).value), rest, net)
        else
          var n := h.size - 8;
          if |rest| < n then Loop(parse, rest, Some(h), net)
          else if n == 0 then Loop(parse, rest, None, net)
          else match parse(rest[..n])
            case Body(x) => Step(Got(Frame(h.channel, x)), rest[n..], net)
            case bad => Step(Failed(BodyError(bad)), rest[n..], net)
  }

  /** Octets that have not been returned yet. */
  function Size(buf: seq<Byte>, net: seq<seq<Byte>>): nat { |buf| + |Flat(net)| }

  lemma {:induction false} LoopShrinks<B>(parse: seq<Byte> -> Parsed<B>, buf: seq<Byte>, cur: Option<Header>,
      net: seq<seq<Byte>>)
    ensures var r := Loop(parse, buf, cur, net);
      r.result.Got? ==> Size(r.buf, r.net) < Size(buf, net)
    decreases |net|, |buf|
  {
    if !((cur.Some? || |buf| < 8) && net == []) {
      var read := cur.Some? || |buf| < 8;
      var buf1 := if read then buf + net[0] else buf;
      var net1 := if read then net[1..] else net;
      assert Size(buf1, net1) == Size(buf, net);
      if |buf1| < 8 {
        LoopShrinks(parse, buf1, cur, net1);
      } else {
        var h := if cur.Some? then cur.value else HeaderOf(buf1);
        var rest := if cur.Some? then buf1 else buf1[8..];
        if HeaderError(h).None? {
          if |rest| < h.size - 8 { LoopShrinks(parse, rest, Some(h), net1); }
          else if h.size == 8 { LoopShrinks(parse, rest, None, net1); }
        }
      }
    }
  }

  /** Repeated calls of `readFrame`, until the first error. */
  function ReadAll<B>(parse: seq<Byte> -> Parsed<B>, buf: seq<Byte>, net: seq<seq<Byte>>): Outcome<B>
    decreases Size(buf, net)
  {
    LoopShrinks(parse, buf, None, net);
    var r := Loop(parse, buf, None, net);
    match r.result
    case Failed(e) => Outcome([], e)
    case Got(f) => Cons(f, ReadAll(parse, r.buf, r.net))
  }

  // The loop as two waits: for a header, and for the rest of a frame.

  /** Reads until the buffer holds `need` octets or nothing more arrives. */
  function Fill(buf: seq<Byte>, net: seq<seq<Byte>>, need: nat): (r: (seq<Byte>, seq<seq<Byte>>))
    decreases |net|
  {
    if |buf| >= need || net == [] then (buf, net) else Fill(buf + net[0], net[1..], need)
  }

  /** The position `p`, counted from the start of `buf`, is where a read ended. */
  predicate IsCut(p: int, buf: seq<Byte>, net: seq<seq<Byte>>)
    decreases |net|
  {
    p == |buf| || (net != [] && IsCut(p, buf + net[0], net[1..]))
  }

  lemma {:induction false} FillFacts(buf: seq<Byte>, net: seq<seq<Byte>>, need: nat)
    ensures var r := Fill(buf, net, need);
      && r.0 + Flat(r.1) == buf + Flat(net)
      && |r.1| <= |net|
      && |buf| <= |r.0|
      && (|r.0| < need ==> r.1 == [])
      && (forall p :: p >= need || p >= |r.0| ==> (IsCut(p, buf, net) <==> IsCut(p, r.0, r.1)))
    decreases |net|
  {
    if !(|buf| >= need || net == []) {
      FillFacts(buf + net[0], net[1..], need);
      assert buf + net[0] + Flat(net[1..]) == buf + Flat(net);
      var r := Fill(buf, net, need);
      forall p | p >= need || p >= |r.0| ensures IsCut(p, buf, net) <==> IsCut(p, r.0, r.1) {
        if p == |buf| { assert |r.0| == |buf|; }
      }
    }
  }

  lemma {:induction false} CutLow(p: int, buf: seq<Byte>, net: seq<seq<Byte>>)
    requires IsCut(p, buf, net)
    ensures p >= |buf|
    decreases |net|
  {
    if p != |buf| { CutLow(p, buf + net[0], net[1..]); }
  }

  /** Dropping a prefix of the buffer shifts the cuts. */
  lemma {:induction false} CutShift(p: int, buf: seq<Byte>, net: seq<seq<Byte>>, d: nat)
    requires d <= |buf|
    ensures IsCut(p, buf[d..], net) <==> IsCut(p + d, buf, net)
    decreases |net|
  {
    if net != [] {
      assert buf[d..] + net[0] == (buf + net[0])[d..];
      CutShift(p, buf + net[0], net[1..], d);
    }
  }

  lemma {:induction false} WaitHeader<B>(parse: seq<Byte> -> Parsed<B>, buf: seq<Byte>, net: seq<seq<Byte>>)
    ensures var r := Fill(buf, net, 8);
      if |r.0| < 8 then Loop(parse, buf, None, net).result == Failed(Net)
      else Loop(parse, buf, None, net) == Loop(parse, r.0, None, r.1)
    decreases |net|
  {
    if |buf| < 8 && net != [] {
      WaitHeader(parse, buf + net[0], net[1..]);
    }
  }

  /** A frame in progress waits until the buffer holds both its body and eight octets. */
  lemma {:induction false} WaitBody<B>(parse: seq<Byte> -> Parsed<B>, buf: seq<Byte>, h: Header, net: seq<seq<Byte>>)
    requires HeaderError(h).None? && (|buf| < 8 || |buf| < h.size - 8)
    ensures var n := h.size - 8; var need := if n < 8 then 8 else n; var r := Fill(buf, net, need);
      Loop(parse, buf, Some(h), net) ==
        if |r.0| < need then Step(Failed(Net), r.0, [])
        else if n == 0 then Loop(parse, r.0, None, r.1)
        else match parse(r.0[..n])
             case Body(x) => Step(Got(Frame(h.channel, x)), r.0[n..], r.1)
             case bad => Step(Failed(BodyError(bad)), r.0[n..], r.1)
    decreases |net|
  {
    if net != [] {
      var buf1 := buf + net[0];
      if |buf1| < 8 || |buf1| < h.size - 8 { WaitBody(parse, buf1, h, net[1..]); }
    }
  }

  // When the pieces matter.

  /** A frame whose header leaves fewer than eight octets in the stream, all of its body among
      them: the offset of its body and its size. It can only be the last one. */
  function ShortTail<B>(parse: seq<Byte> -> Parsed<B>, s: seq<Byte>): (t: Option<(nat, nat)>)
    ensures t.Some? ==> 8 <= t.value.0 && 0 < t.value.1 && t.value.0 + t.value.1 <= |s| < t.value.0 + 8
    decreases |s|
  {
    if |s| < 8 || HeaderError(HeaderOf(s)).Some? || |s| < HeaderOf(s).size then None
    else
      var n := HeaderOf(s).size - 8;
      if n > 0 && |s| - 8 < 8 then Some((8, n))
      else if n > 0 && !parse(s[8..8 + n]).Body? then None
      else match ShortTail(parse, s[8 + n..])
        case None => None
        case Some((at, m)) => Some((at + 8 + n, m))
  }

  /** A read ended between the header of that last frame and the end of its body. */
  predicate Withheld<B>(parse: seq<Byte> -> Parsed<B>, buf: seq<Byte>, net: seq<seq<Byte>>) {
    var t := ShortTail(parse, buf + Flat(net));
    t.Some? && exists p :: IsCut(p, buf, net) && t.value.0 <= p < t.value.0 + t.value.1
  }

  /** The frames before the short tail; the reader then waits for octets that do not come. */
  function BeforeTail<B>(parse: seq<Byte> -> Parsed<B>, s: seq<Byte>): Outcome<B>
    requires ShortTail(parse, s).Some?
    decreases |s|
  {
    var h := HeaderOf(s);
    var n := h.size - 8;
    if n > 0 && |s| - 8 < 8 then Outcome([], Net)
    else if n == 0 then BeforeTail(parse, s[8..])
    else Cons(Frame(h.channel, parse(s[8..8 + n]).value), BeforeTail(parse, s[8 + n..]))
  }

  /** The tail frame makes the difference: reading the whole stream reports an error in it or has it as one
      more frame. */
  lemma {:induction false} TailMatters<B>(parse: seq<Byte> -> Parsed<B>, s: seq<Byte>)
    requires ShortTail(parse, s).Some?
    ensures BeforeTail(parse, s).err == Net
    ensures ParseAll(parse, s).err != Net || |ParseAll(parse, s).frames| > |BeforeTail(parse, s).frames|
    decreases |s|
  {
    var n := HeaderOf(s).size - 8;
    if !(n > 0 && |s| - 8 < 8) { TailMatters(parse, s[8 + n..]); }
  }

  // One frame of the stream and of the loop.

  /** The tail of the stream after a complete frame of `n` octets. */
  predicate TailFollows<B>(parse: seq<Byte> -> Parsed<B>, s: seq<Byte>, d: nat)
    requires d <= |s|
  {
    match ShortTail(parse, s[d..])
    case None => ShortTail(parse, s).None?
    case Some((at, m)) => ShortTail(parse, s) == Some((at + d, m))
  }

  lemma LastStep<B>(parse: seq<Byte> -> Parsed<B>, s: seq<Byte>, n: nat)
    requires 8 <= |s| < 16 && HeaderError(HeaderOf(s)).None? && n == HeaderOf(s).size - 8 && 0 < n <= |s| - 8
    ensures ShortTail(parse, s) == Some((8, n)) && BeforeTail(parse, s) == Outcome([], Net)
  {
  }

  lemma BadStep<B>(parse: seq<Byte> -> Parsed<B>, s: seq<Byte>, n: nat)
    requires 16 <= |s| && HeaderError(HeaderOf(s)).None? && n == HeaderOf(s).size - 8 && 0 < n <= |s| - 8
    requires !parse(s[8..8 + n]).Body?
    ensures ShortTail(parse, s).None? && ParseAll(parse, s) == Outcome([], BodyError(parse(s[8..8 + n])))
  {
  }

  lemma FrameStep<B>(parse: seq<Byte> -> Parsed<B>, s: seq<Byte>, n: nat)
    requires 8 <= |s| && HeaderError(HeaderOf(s)).None? && n == HeaderOf(s).size - 8 && 0 < n <= |s| - 8
    requires parse(s[8..8 + n]).Body?
    ensures var f := Frame(HeaderOf(s).channel, parse(s[8..8 + n]).value);
      ParseAll(parse, s) == Cons(f, ParseAll(parse, s[8 + n..]))
  {
    hide HeaderOf, HeaderError;
  }

  lemma FrameTail<B>(parse: seq<Byte> -> Parsed<B>, s: seq<Byte>, n: nat)
    requires 16 <= |s| && HeaderError(HeaderOf(s)).None? && n == HeaderOf(s).size - 8 && 0 < n <= |s| - 8
    requires parse(s[8..8 + n]).Body?
    ensures TailFollows(parse, s, 8 + n)
    ensures ShortTail(parse, s).Some? ==>
      BeforeTail(parse, s) == Cons(Frame(HeaderOf(s).channel, parse(s[8..8 + n]).value), BeforeTail(parse, s[8 + n..]))
  {
    hide HeaderOf, HeaderError;
  }

  lemma KeepAliveStep<B>(parse: seq<Byte> -> Parsed<B>, s: seq<Byte>)
    requires 8 <= |s| && HeaderError(HeaderOf(s)).None? && HeaderOf(s).size == 8
    ensures ParseAll(parse, s) == ParseAll(parse, s[8..]) && TailFollows(parse, s, 8)
    ensures ShortTail(parse, s).Some? ==> BeforeTail(parse, s) == BeforeTail(parse, s[8..])
  {
    hide HeaderOf, HeaderError;
  }

  lemma LoopWhole<B>(parse: seq<Byte> -> Parsed<B>, buf: seq<Byte>, net: seq<seq<Byte>>, n: nat)
    requires |buf| >= 8 && HeaderError(HeaderOf(buf)).None? && n == HeaderOf(buf).size - 8 <= |buf| - 8
    ensures Loop(parse, buf, None, net) ==
      if n == 0 then Loop(parse, buf[8..], None, net)
      else match parse(buf[8..8 + n])
        case Body(x) => Step(Got(Frame(HeaderOf(buf).channel, x)), buf[8 + n..], net)
        case bad => Step(Failed(BodyError(bad)), buf[8 + n..], net)
  {
    assert buf[8..][..n] == buf[8..8 + n] && buf[8..][n..] == buf[8 + n..];
  }

  lemma LoopSplit<B>(parse: seq<Byte> -> Parsed<B>, buf: seq<Byte>, net: seq<seq<Byte>>)
    requires |buf| >= 8 && HeaderError(HeaderOf(buf)).None? && |buf| < HeaderOf(buf).size
    ensures Loop(parse, buf, None, net) == Loop(parse, buf[8..], Some(HeaderOf(buf)), net)
  {
  }

  lemma ReadStep<B>(parse: seq<Byte> -> Parsed<B>, buf: seq<Byte>, net: seq<seq<Byte>>, r: Step<B>)
    requires r == Loop(parse, buf, None, net)
    ensures ReadAll(parse, buf, net) ==
      if r.result.Failed? then Outcome([], r.result.err) else Cons(r.result.frame, ReadAll(parse, r.buf, r.net))
  {
    hide Loop;
  }

  lemma ReadSame<B>(parse: seq<Byte> -> Parsed<B>, buf: seq<Byte>, net: seq<seq<Byte>>, buf2: seq<Byte>,
      net2: seq<seq<Byte>>)
    requires Loop(parse, buf, None, net) == Loop(parse, buf2, None, net2)
    ensures ReadAll(parse, buf, net) == ReadAll(parse, buf2, net2)
  {
    hide Loop;
  }

  /** Consuming `d` octets, up to a frame boundary, keeps the question where it was. */
  lemma WithheldShift<B>(parse: seq<Byte> -> Parsed<B>, buf: seq<Byte>, net: seq<seq<Byte>>,
                         buf2: seq<Byte>, net2: seq<seq<Byte>>, d: nat)
    requires var s := buf + Flat(net);
      d <= |s| && buf2 + Flat(net2) == s[d..] && TailFollows(parse, s, d)
    requires forall p :: p >= 8 ==> (IsCut(p, buf2, net2) <==> IsCut(p + d, buf, net))
    ensures Withheld(parse, buf, net) <==> Withheld(parse, buf2, net2)
  {
    hide ShortTail, IsCut;
    var s := buf + Flat(net);
    var t := ShortTail(parse, s[d..]);
    if t.Some? {
      var (at, m) := t.value;
      ShortTailAt(parse, s[d..]);
      if Withheld(parse, buf, net) {
        var p :| IsCut(p, buf, net) && at + d <= p < at + d + m;
        assert IsCut(p - d, buf2, net2) by { assert IsCut((p - d) + d, buf, net); }
      }
      if Withheld(parse, buf2, net2) {
        var p :| IsCut(p, buf2, net2) && at <= p < at + m;
        assert IsCut(p + d, buf, net);
      }
    }
  }

  lemma ShortTailAt<B>(parse: seq<Byte> -> Parsed<B>, s: seq<Byte>)
    requires ShortTail(parse, s).Some?
    ensures ShortTail(parse, s).value.0 >= 8
  {
  }

  /** The cuts after waiting for `need` octets and then consuming `d` of them. */
  lemma CutsAfter(buf: seq<Byte>, net: seq<seq<Byte>>, need: nat, d: nat)
    requires d <= |Fill(buf, net, need).0| && need <= d + 8
    ensures var r := Fill(buf, net, need);
      forall p :: p >= 8 ==> (IsCut(p, r.0[d..], r.1) <==> IsCut(p + d, buf, net))
  {
    FillFacts(buf, net, need);
    var r := Fill(buf, net, need);
    forall p | p >= 8 ensures IsCut(p, r.0[d..], r.1) <==> IsCut(p + d, buf, net) {
      CutShift(p, r.0, r.1, d);
    }
  }

  /** What repeated calls of `readFrame` return, for every buffer and every coming reads. */
  lemma {:induction false} ReadAllIs<B>(parse: seq<Byte> -> Parsed<B>, buf: seq<Byte>, net: seq<seq<Byte>>)
    ensures var s := buf + Flat(net);
      ReadAll(parse, buf, net) == if Withheld(parse, buf, net) then BeforeTail(parse, s) else ParseAll(parse, s)
    decreases Size(buf, net)
  {
    var s := buf + Flat(net);
    var r := Fill(buf, net, 8);
    FillFacts(buf, net, 8);
    WaitHeader(parse, buf, net);
    if |r.0| >= 8 {
      assert HeaderOf(r.0) == HeaderOf(s) by { HeaderPrefix(r.0, s); }
      if HeaderError(HeaderOf(s)).None? {
        var rest := r.0[8..];
        assert rest + Flat(r.1) == s[8..];
        if |rest| < HeaderOf(s).size - 8 {
          ReadSplit(parse, buf, net);
        } else {
          ReadWhole(parse, buf, net);
        }
      }
    }
  }

  lemma HeaderPrefix(x: seq<Byte>, s: seq<Byte>)
    requires 8 <= |x| <= |s| && x == s[..|x|]
    ensures HeaderOf(x) == HeaderOf(s)
  {
    assert x[0..4] == s[0..4] && x[6..8] == s[6..8];
  }

  /** The body is in the buffer when the header is parsed. */
  lemma {:induction false} ReadWhole<B>(parse: seq<Byte> -> Parsed<B>, buf: seq<Byte>, net: seq<seq<Byte>>)
    requires var s := buf + Flat(net); var r := Fill(buf, net, 8);
      && |r.0| >= 8 && r.0 + Flat(r.1) == s && |s| >= 8 && HeaderOf(r.0) == HeaderOf(s)
          && HeaderError(HeaderOf(s)).None?
      && |r.0| - 8 >= HeaderOf(s).size - 8
    ensures var s := buf + Flat(net);
      ReadAll(parse, buf, net) == if Withheld(parse, buf, net) then BeforeTail(parse, s) else ParseAll(parse, s)
    decreases Size(buf, net), 0
  {
    hide Loop, ReadAll, ParseAll, ShortTail, BeforeTail, Fill, IsCut, Flat, HeaderOf, HeaderError;
    var s, r := buf + Flat(net), Fill(buf, net, 8);
    var n := HeaderOf(s).size - 8;
    HeaderSize(HeaderOf(s));
    var buf2 := r.0[8 + n..];
    WaitHeader(parse, buf, net);
    LoopWhole(parse, r.0, r.1, n);
    ReadStep(parse, buf, net, Loop(parse, buf, None, net));
    assert r.0[8..8 + n] == s[8..8 + n];
    assert buf2 + Flat(r.1) == s[8 + n..];
    assert Size(buf2, r.1) == |s[8 + n..]|;
    if n == 0 {
      KeepAliveStep(parse, s);
      CutsAfter(buf, net, 8, 8);
      WithheldShift(parse, buf, net, buf2, r.1, 8);
      ReadAllIs(parse, buf2, r.1);
      ReadSame(parse, buf, net, buf2, r.1);
    } else if !parse(s[8..8 + n]).Body? {
      if |s| < 16 {
        LastStep(parse, s, n);
        NoCut(buf, net, n);
        BadBodyStep(parse, s, n);
      } else {
        BadStep(parse, s, n);
      }
    } else {
      FrameStep(parse, s, n);
      ReadAllIs(parse, buf2, r.1);
      if |s| < 16 {
        LastStep(parse, s, n);
        NoCut(buf, net, n);
        NoTail(parse, s[8 + n..]);
      } else {
        CutsAfter(buf, net, 8, 8 + n);
        FrameTail(parse, s, n);
        WithheldShift(parse, buf, net, buf2, r.1, 8 + n);
      }
    }
  }

  lemma HeaderErrorIs(h: Header)
    ensures HeaderError(h) != Some(Net)
  {
  }

  lemma HeaderSize(h: Header)
    requires HeaderError(h).None?
    ensures h.size >= 8
  {
  }

  lemma BadBodyStep<B>(parse: seq<Byte> -> Parsed<B>, s: seq<Byte>, n: nat)
    requires 8 <= |s| && HeaderError(HeaderOf(s)).None? && n == HeaderOf(s).size - 8 && 0 < n <= |s| - 8
    requires !parse(s[8..8 + n]).Body?
    ensures ParseAll(parse, s) == Outcome([], BodyError(parse(s[8..8 + n])))
  {
  }

  lemma NoTail<B>(parse: seq<Byte> -> Parsed<B>, s: seq<Byte>)
    requires |s| < 8
    ensures ShortTail(parse, s).None? && ParseAll(parse, s) == Outcome([], Net)
  {
  }

  lemma NoCut(buf: seq<Byte>, net: seq<seq<Byte>>, n: nat)
    requires |Fill(buf, net, 8).0| >= 8 + n
    ensures forall p :: 8 <= p < 8 + n ==> !IsCut(p, buf, net)
  {
    FillFacts(buf, net, 8);
    var r := Fill(buf, net, 8);
    forall p | 8 <= p < 8 + n ensures !IsCut(p, buf, net) {
      if IsCut(p, r.0, r.1) { CutLow(p, r.0, r.1); }
    }
  }

  /** The body is split from its header. */
  lemma {:induction false} ReadSplit<B>(parse: seq<Byte> -> Parsed<B>, buf: seq<Byte>, net: seq<seq<Byte>>)
    requires var s := buf + Flat(net); var r := Fill(buf, net, 8);
      && |r.0| >= 8 && r.0 + Flat(r.1) == s && |s| >= 8 && HeaderOf(r.0) == HeaderOf(s)
          && HeaderError(HeaderOf(s)).None?
      && |r.0| - 8 < HeaderOf(s).size - 8
    ensures var s := buf + Flat(net);
      ReadAll(parse, buf, net) == if Withheld(parse, buf, net) then BeforeTail(parse, s) else ParseAll(parse, s)
    decreases Size(buf, net), 0
  {
    hide Loop, ReadAll, ParseAll, ShortTail, BeforeTail, Fill, IsCut, Flat, HeaderOf, HeaderError;
    var s, r := buf + Flat(net), Fill(buf, net, 8);
    var h := HeaderOf(s);
    HeaderSize(h);
    var n := h.size - 8;
    var need := if n < 8 then 8 else n;
    var rest := r.0[8..];
    assert rest + Flat(r.1) == s[8..];
    WaitHeader(parse, buf, net);
    LoopSplit(parse, r.0, r.1);
    WaitBody(parse, rest, h, r.1);
    var q := Fill(rest, r.1, need);
    FillFacts(rest, r.1, need);
    ReadStep(parse, buf, net, Loop(parse, buf, None, net));
    if |q.0| < need {
      assert |s| - 8 < need by { assert Flat(q.1) == [] by { FlatNone(q.1); } }
      if |s| - 8 < n {
        ShortStream(parse, s);
      } else {
        LastStep(parse, s, n);
        FirstCut(buf, net);
      }
    } else {
      assert q.0[..n] == s[8..8 + n];
      var buf2 := q.0[n..];
      assert buf2 + Flat(q.1) == s[8 + n..];
      assert Size(buf2, q.1) == |s[8 + n..]|;
      if !parse(s[8..8 + n]).Body? {
        BadStep(parse, s, n);
      } else {
        FrameStep(parse, s, n);
        FrameTail(parse, s, n);
        SplitCuts(buf, net, n, need);
        WithheldShift(parse, buf, net, buf2, q.1, 8 + n);
        ReadAllIs(parse, buf2, q.1);
      }
    }
  }

  lemma FlatNone(net: seq<seq<Byte>>)
    ensures net == [] ==> Flat(net) == []
  {
  }

  lemma ShortStream<B>(parse: seq<Byte> -> Parsed<B>, s: seq<Byte>)
    requires 8 <= |s| < HeaderOf(s).size && HeaderError(HeaderOf(s)).None?
    ensures ShortTail(parse, s).None? && ParseAll(parse, s) == Outcome([], Net)
  {
  }

  /** The buffer ends at a cut. */
  lemma FirstCut(buf: seq<Byte>, net: seq<seq<Byte>>)
    requires |Fill(buf, net, 8).0| >= 8
    ensures IsCut(|Fill(buf, net, 8).0|, buf, net)
  {
    FillFacts(buf, net, 8);
    var r := Fill(buf, net, 8);
    assert IsCut(|r.0|, r.0, r.1);
  }

  lemma SplitCuts(buf: seq<Byte>, net: seq<seq<Byte>>, n: nat, need: nat)
    requires |Fill(buf, net, 8).0| >= 8 && n <= need <= n + 8
    requires var r := Fill(buf, net, 8); n <= |Fill(r.0[8..], r.1, need).0|
    ensures var r := Fill(buf, net, 8); var q := Fill(r.0[8..], r.1, need);
      forall p :: p >= 8 ==> (IsCut(p, q.0[n..], q.1) <==> IsCut(p + (8 + n), buf, net))
  {
    var r := Fill(buf, net, 8);
    CutsAfter(buf, net, 8, 8);
    CutsAfter(r.0[8..], r.1, need, n);
    var q := Fill(r.0[8..], r.1, need);
    forall p | p >= 8 ensures IsCut(p, q.0[n..], q.1) <==> IsCut(p + (8 + n), buf, net) {
      assert IsCut(p + n, r.0[8..], r.1) <==> IsCut(p + n + 8, buf, net);
      assert p + (8 + n) == p + n + 8;
    }
  }

  // Octets that come with the error.

  /** What is left of a stream after its complete frames. */
  function Leftover<B>(parse: seq<Byte> -> Parsed<B>, s: seq<Byte>): seq<Byte>
    decreases |s|
  {
    if |s| < 8 || HeaderError(HeaderOf(s)).Some? || |s| < HeaderOf(s).size then s
    else
      var n := HeaderOf(s).size - 8;
      if n > 0 && !parse(s[8..8 + n]).Body? then s else Leftover(parse, s[8 + n..])
  }

  /** A stream, keep-alives aside, that ends within its first header or frame. */
  predicate Incomplete(s: seq<Byte>)
    decreases |s|
  {
    |s| < 8 ||
    (HeaderError(HeaderOf(s)).None? && (|s| < HeaderOf(s).size || (HeaderOf(s).size == 8 && Incomplete(s[8..]))))
  }

  lemma {:induction false} IncompleteIs<B>(parse: seq<Byte> -> Parsed<B>, s: seq<Byte>)
    ensures ParseAll(parse, s) == Outcome([], Net) <==> Incomplete(s)
    decreases |s|
  {
    hide HeaderOf;
    if |s| >= 8 && HeaderError(HeaderOf(s)).None? && HeaderOf(s).size == 8 { IncompleteIs(parse, s[8..]); }
  }

  /** More octets are read on from what was left. */
  lemma {:induction false} ParseAppend<B>(parse: seq<Byte> -> Parsed<B>, s: seq<Byte>, t: seq<Byte>)
    ensures var o := ParseAll(parse, s);
      ParseAll(parse, s + t) ==
        if o.err != Net then o
        else
          var p := ParseAll(parse, Leftover(parse, s) + t);
          Outcome(o.frames + p.frames, p.err)
    decreases |s|
  {
    if |s| >= 8 {
      HeaderPrefix(s, s + t);
      hide HeaderOf;
      if HeaderError(HeaderOf(s)).None? && HeaderOf(s).size <= |s| {
        var n := HeaderOf(s).size - 8;
        assert (s + t)[8..8 + n] == s[8..8 + n] && (s + t)[8 + n..] == s[8 + n..] + t;
        ParseAppend(parse, s[8 + n..], t);
        AppendStep(parse, s, t, n);
      } else {
        assert [] + ParseAll(parse, s + t).frames == ParseAll(parse, s + t).frames;
      }
    } else {
      assert [] + ParseAll(parse, s + t).frames == ParseAll(parse, s + t).frames;
    }
  }

  lemma AppendStep<B>(parse: seq<Byte> -> Parsed<B>, s: seq<Byte>, t: seq<Byte>, n: nat)
    requires 8 <= |s| && HeaderOf(s + t) == HeaderOf(s) && HeaderError(HeaderOf(s)).None?
    requires n == HeaderOf(s).size - 8 <= |s| - 8
    requires (s + t)[8..8 + n] == s[8..8 + n] && (s + t)[8 + n..] == s[8 + n..] + t
    requires var o := ParseAll(parse, s[8 + n..]);
      ParseAll(parse, s[8 + n..] + t) ==
        if o.err != Net then o
        else
          var p := ParseAll(parse, Leftover(parse, s[8 + n..]) + t);
          Outcome(o.frames + p.frames, p.err)
    ensures var o := ParseAll(parse, s);
      ParseAll(parse, s + t) ==
        if o.err != Net then o
        else
          var p := ParseAll(parse, Leftover(parse, s) + t);
          Outcome(o.frames + p.frames, p.err)
  {
    hide HeaderOf, HeaderError;
    if n > 0 && parse(s[8..8 + n]).Body? {
      var f := Frame(HeaderOf(s).channel, parse(s[8..8 + n]).value);
      var o, p := ParseAll(parse, s[8 + n..]), ParseAll(parse, Leftover(parse, s[8 + n..]) + t);
      assert ([f] + o.frames) + p.frames == [f] + (o.frames + p.frames);
    }
  }

  /** The octets that come with the error do not complete anything. */
  predicate NothingLost<B>(parse: seq<Byte> -> Parsed<B>, s: seq<Byte>, last: seq<Byte>) {
    ParseAll(parse, s).err != Net || Incomplete(Leftover(parse, s) + last)
  }

  /** Stream reassembly depends on the pieces in exactly two ways. A read that ends between the header and
      the end of the body of a last frame, with fewer than eight octets after its header, withholds that
      frame; and what the octets of a failing read, `last`, would complete is lost. Otherwise repeated
      calls return what reading the whole stream at once does. */
  lemma ChunkIndependence<B>(parse: seq<Byte> -> Parsed<B>, net: seq<seq<Byte>>, last: seq<Byte>)
    ensures ReadAll(parse, [], net) == ParseAll(parse, Flat(net) + last) <==>
      !Withheld(parse, [], net) && NothingLost(parse, Flat(net), last)
    ensures Withheld(parse, [], net) ==>
      ShortTail(parse, Flat(net)).Some? && ReadAll(parse, [], net) == BeforeTail(parse, Flat(net))
    ensures !Withheld(parse, [], net) ==> ReadAll(parse, [], net) == ParseAll(parse, Flat(net))
  {
    var s := Flat(net);
    assert [] + s == s;
    ReadAllIs(parse, [], net);
    ParseAppend(parse, s, last);
    if Withheld(parse, [], net) { TailMatters(parse, s); }
    var o, p := ParseAll(parse, s), ParseAll(parse, Leftover(parse, s) + last);
    IncompleteIs(parse, Leftover(parse, s) + last);
    hide ReadAll, ParseAll, Leftover, Incomplete, Withheld, Flat;
    if o.err == Net && Outcome(o.frames + p.frames, p.err) == o {
      assert |o.frames + p.frames| == |o.frames|;
      assert p.frames == [];
    }
    assert o.frames + [] == o.frames;
  }

  /** The `end` performative without an error: 12 octets with its header. */
  const END_HEADER: seq<Byte> := [0, 0, 0, 12, 2, 0, 0, 0]
  const END_BODY: seq<Byte> := [0, 0x53, 0x17, 0x45]

  /** An `end` frame that arrives as header and body is never returned, although the same
      octets in one piece are. */
  lemma EndIsWithheld<B>(parse: seq<Byte> -> Parsed<B>, x: B)
    requires parse(END_BODY) == Body(x)
    ensures ReadAll(parse, [], [END_HEADER, END_BODY]) == Outcome([], Net)
    ensures ReadAll(parse, [], [END_HEADER + END_BODY]) == Outcome([Frame(0, x)], Net)
  {
    var s := END_HEADER + END_BODY;
    assert HeaderOf(s) == Header(12, 2, 0) by { EndHeader(s); }
    assert s[8..8 + 4] == END_BODY;
    LastStep(parse, s, 4);
    FrameStep(parse, s, 4);
    NoTail(parse, s[12..]);
    EndCuts();
    hide ParseAll, ShortTail, BeforeTail, ReadAll, IsCut, HeaderOf, HeaderError, Flat;
    var two, one := [END_HEADER, END_BODY], [s];
    ChunkIndependence(parse, two, []);
    ChunkIndependence(parse, one, []);
    assert [] + Flat(two) == s && [] + Flat(one) == s;
    assert Withheld(parse, [], two);
    assert !Withheld(parse, [], one);
    assert Cons(Frame(0, x), Outcome([], Net)).frames == [Frame(0, x)];
  }

  lemma EndHeader(s: seq<Byte>)
    requires s == END_HEADER + END_BODY
    ensures HeaderOf(s) == Header(12, 2, 0)
  {
    assert s[0..4] == [0, 0, 0, 12] && s[6..8] == [0, 0];
    assert Num([0, 0, 0, 12]) == 12 by {
      assert [0, 0, 0, 12][..3] == [0, 0, 0] && [0, 0, 0][..2] == [0, 0] && [0, 0][..1] == [0] && [0][..0] == [];
      assert Num([0]) == 0;
      assert Num([0, 0]) == 0;
      assert Num([0, 0, 0]) == 0;
    }
    assert Num([0, 0]) == 0 by { assert [0, 0][..1] == [0] && [0][..0] == []; assert Num([0]) == 0; }
  }

  lemma EndCuts()
    ensures var two := [END_HEADER, END_BODY];
      Flat(two) == END_HEADER + END_BODY && IsCut(8, [], two)
    ensures var one := [END_HEADER + END_BODY];
      Flat(one) == END_HEADER + END_BODY && forall p :: IsCut(p, [], one) ==> p == 0 || p == 12
  {
    var two := [END_HEADER, END_BODY];
    assert two[1..] == [END_BODY] && [END_BODY][1..] == [];
    assert Flat([END_BODY]) == END_BODY;
    assert IsCut(8, [] + END_HEADER, two[1..]);
    var one := [END_HEADER + END_BODY];
    assert one[1..] == [];
  }

  /** One pass of the loop of `readFrame`, after its read. */
  ghost function AfterRead<B>(parse: seq<Byte> -> Parsed<B>, buf: seq<Byte>, cur: Option<Header>,
      net: seq<seq<Byte>>): Step<B> {
    if |buf| < 8 then Loop(parse, buf, cur, net)
    else
      var h := if cur.Some? then cur.value else HeaderOf(buf);
      var rest := if cur.Some? then buf else buf[8..];
      if HeaderError(h).Some? then Step(Failed(HeaderError(h).value), rest, net)
      else WithHeader(parse, rest, h, net)
  }

  ghost function WithHeader<B>(parse: seq<Byte> -> Parsed<B>, rest: seq<Byte>, h: Header, net: seq<seq<Byte>>): Step<B>
    requires HeaderError(h).None?
  {
    var n := h.size - 8;
    if |rest| < n then Loop(parse, rest, Some(h), net)
    else if n == 0 then Loop(parse, rest, None, net)
    else match parse(rest[..n])
      case Body(x) => Step(Got(Frame(h.channel, x)), rest[n..], net)
      case bad => Step(Failed(BodyError(bad)), rest[n..], net)
  }

  lemma LoopPass<B>(parse: seq<Byte> -> Parsed<B>, buf: seq<Byte>, cur: Option<Header>, net: seq<seq<Byte>>)
    ensures Loop(parse, buf, cur, net) ==
      if cur.None? && |buf| >= 8 then AfterRead(parse, buf, cur, net)
      else if net == [] then Step(Failed(Net), buf, net)
      else AfterRead(parse, buf + net[0], cur, net[1..])
  {
  }

  method Take(r: Buffer, n: nat) returns (s: seq<Byte>)
    requires r.Valid() && n <= r.Len()
    modifies r`i
    ensures r.Valid() && s == old(r.Bytes())[..n] && r.Bytes() == old(r.Bytes())[n..]
  {
    var ok;
    s, ok := r.Next(n);
    assert (s + r.Bytes())[..n] == s && (s + r.Bytes())[n..] == r.Bytes();
  }

  /** Consumes the eight octets of a header; with fewer there is none. */
  method ParseHeader(r: Buffer) returns (h: Option<Header>)
    requires r.Valid()
    modifies r`i
    ensures r.Valid() && (h.Some? <==> old(r.Len()) >= HEADER_SIZE)
    ensures h.Some? ==> h.value == HeaderOf(old(r.Bytes())) && r.Bytes() == old(r.Bytes())[8..]
    ensures h.None? ==> r.Len() == 0
  {
    var s, ok := r.Next(HEADER_SIZE);
    if !ok {
      return None;
    }
    assert s == (s + r.Bytes())[..8] && r.Bytes() == (s + r.Bytes())[8..];
    HeaderPrefix(s, old(r.Bytes()));
    return Some(HeaderOf(s));
  }

  /** The receiving half of a connection; `net` is what the coming reads will deliver, and `last` what the
      failing read after them brings along with its error. */
  class Conn<B(!new)> {
    const parse: seq<Byte> -> Parsed<B>
    const maxFrameSize: U32
    const rxBuf: Buffer
    var net: seq<seq<Byte>>
    var last: seq<Byte>

    constructor (parse: seq<Byte> -> Parsed<B>, maxFrameSize: U32, net: seq<seq<Byte>>, last: seq<Byte>)
      ensures this.parse == parse && this.net == net && this.last == last
      ensures fresh(rxBuf) && rxBuf.Valid() && rxBuf.Bytes() == []
    {
      this.parse := parse;
      this.maxFrameSize := maxFrameSize;
      this.net := net;
      this.last := last;
      this.rxBuf := new Buffer([]);
    }

    /** One pass of the loop of `readFrame` once it has read: parses the header unless `cur` holds
        it, and the body when all of it has arrived. `cur` is the header of the frame in progress. */
    method Pass(cur: Option<Header>) returns (r: Option<Result<B>>, next: Option<Header>)
      requires rxBuf.Valid() && (cur.Some? ==> HeaderError(cur.value).None?)
      modifies rxBuf`i
      ensures rxBuf.Valid() && (next.Some? ==> HeaderError(next.value).None?)
      ensures rxBuf.Len() <= old(rxBuf.Len())
      ensures old(rxBuf.Len()) >= HEADER_SIZE && cur.None? ==> rxBuf.Len() < old(rxBuf.Len())
      ensures AfterRead(parse, old(rxBuf.Bytes()), cur, net) ==
        if r.Some? then Step(r.value, rxBuf.Bytes(), net) else Loop(parse, rxBuf.Bytes(), next, net)
      ensures r != Some(Failed(Net))
    {
      hide Loop, HeaderOf, HeaderError;
      if rxBuf.Len() < HEADER_SIZE {
        return None, cur;
      }
      var h: Header;
      if cur.Some? {
        h := cur.value;
      } else {
        var parsed := ParseHeader(rxBuf);
        h := parsed.value;
        HeaderErrorIs(h);
        if HeaderError(h).Some? {
          return Some(Failed(HeaderError(h).value)), None;
        }
      }
      HeaderSize(h);
      var n := h.size - HEADER_SIZE;
      if rxBuf.Len() < n {
        return None, Some(h);
      }
      if n == 0 {
        return None, None;
      }
      var body := Take(rxBuf, n);
      match parse(body) {
        case Body(x) => return Some(Got(Frame(h.channel, x))), None;
        case bad => return Some(Failed(BodyError(bad))), None;
      }
    }

    /** Reads one frame, or reports the first error. Resetting and reclaiming the buffer changes
        where the octets are, never which ones are read. The octets of a failing read are buffered, but the
        error is returned at once. */
    method ReadFrame() returns (r: Result<B>)
      requires rxBuf.Valid()
      modifies rxBuf, this`net, this`last
      ensures rxBuf.Valid()
      ensures var step := Loop(parse, old(rxBuf.Bytes()), None, old(net));
        && r == step.result && net == step.net
        && (r == Failed(Net) ==> rxBuf.Bytes() == step.buf + old(last) && last == [])
        && (r != Failed(Net) ==> rxBuf.Bytes() == step.buf && last == old(last))
    {
      if rxBuf.Len() == 0 {
        rxBuf.Reset();
      } else if rxBuf.i > maxFrameSize {
        rxBuf.Reclaim();
      }
      hide Loop, AfterRead, HeaderError;
      ghost var goal := Loop(parse, rxBuf.Bytes(), None, net);
      var cur: Option<Header> := None;
      while true
        invariant rxBuf.Valid() && last == old(last)
        invariant Loop(parse, rxBuf.Bytes(), cur, net) == goal
        invariant cur.Some? ==> HeaderError(cur.value).None?
        decreases |net|, rxBuf.Len()
      {
        LoopPass(parse, rxBuf.Bytes(), cur, net);
        if cur.Some? || rxBuf.Len() < HEADER_SIZE {
          if net == [] {
            rxBuf.ReadFromOnce(last);
            last := [];
            return Failed(Net);
          }
          rxBuf.ReadFromOnce(net[0]);
          net := net[1..];
        }
        var done;
        done, cur := Pass(cur);
        if done.Some? {
          return done.value;
        }
      }
    }

    /** `connReader`: reads frames until the first error. */
    method ReadFrames() returns (frames: seq<Frame<B>>, err: ReadError)
      requires rxBuf.Valid()
      modifies rxBuf, this`net, this`last
      ensures Outcome(frames, err) == ReadAll(parse, old(rxBuf.Bytes()), old(net))
    {
      frames := [];
      while true
        invariant rxBuf.Valid()
        invariant ReadAll(parse, old(rxBuf.Bytes()), old(net)) == Prepend(frames, ReadAll(parse, rxBuf.Bytes(), net))
        decreases Size(rxBuf.Bytes(), net)
      {
        hide Loop, ReadAll;
        ghost var buf0, net0 := rxBuf.Bytes(), net;
        LoopShrinks(parse, buf0, None, net0);
        var r := ReadFrame();
        ReadStep(parse, buf0, net0, Loop(parse, buf0, None, net0));
        match r {
          case Failed(e) =>
            assert frames + [] == frames;
            return frames, e;
          case Got(f) =>
            ghost var o := ReadAll(parse, rxBuf.Bytes(), net);
            assert frames + ([f] + o.frames) == (frames + [f]) + o.frames;
            frames := frames + [f];
        }
      }
    }
  }

  ghost function Prepend<B>(fs: seq<Frame<B>>, o: Outcome<B>): Outcome<B> { Outcome(fs + o.frames, o.err) }
}
