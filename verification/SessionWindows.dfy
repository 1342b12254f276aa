/** Session flow control (section 2.5.6 of AMQP 1.0 Part 2): two sessions exchange transfers and
    flows over channels that keep their order. */
module SessionWindows {
  import opened Bytes
  import F = Frames

  /** The frames that matter for the windows. A transfer is `attached` when its handle belongs to a
      link at the receiver. */
  datatype Frame =
    | Transfer(attached: bool)
    | Flow(nextIn: int, inWin: int, nextOut: int, outWin: int, echo: bool)

  /** The options of a session. */
  datatype Windows = Windows(incoming: U32, outgoing: U32)

  /** The flow control variables of `mux`, and two history variables: `seen` is the limit, next incoming
      id plus window, of the last flow received, and `since` the number of transfers received since the
      window was last advertised, by whatever flow. */
  datatype End = End(nextOut: int, nextIn: int, remoteIn: int, remoteOut: int, needFlow: int, seen: int, since: int)

  datatype Op = SendTransfer(attached: bool) | SendFlow(echo: bool) | Receive

  /** An end after a step: what it has not read yet and what it has sent. */
  datatype Out = Out(end: End, inbox: seq<Frame>, sent: seq<Frame>)

  /** The code computes modulo 2^32; the same steps on unbounded integers are `exact`. */
  function Red(exact: bool, x: int): int { if exact then x else x % TWO32 }

  function Advert(w: Windows, e: End, echo: bool): Frame {
    Flow(e.nextIn, w.incoming, e.nextOut, w.outgoing, echo)
  }

  predicate Enabled(w: Windows, e: End, inbox: seq<Frame>, op: Op) {
    match op
    case SendTransfer(_) => e.remoteIn != 0 && w.outgoing != 0
    case SendFlow(_) => true
    case Receive => inbox != []
  }

  function TransferOut(exact: bool, e: End): End {
    e.(nextOut := Red(exact, e.nextOut + 1), remoteIn := if e.remoteIn != 0 then e.remoteIn - 1 else 0)
  }

  function TransferIn(exact: bool, e: End): End {
    e.(needFlow := (e.needFlow + 1) % TWO32,
       nextIn := Red(exact, e.nextIn + 1),
       since := e.since + 1,
       remoteOut := if e.remoteOut > 0 then e.remoteOut - 1 else e.remoteOut)
  }

  /** Half of the window has been used. */
  predicate FlowDue(w: Windows, e: End) { e.needFlow >= w.incoming / 2 }

  function FlowIn(exact: bool, e: End, f: Frame): End
    requires f.Flow?
  {
    e.(nextIn := f.nextOut,
       remoteOut := f.outWin,
       remoteIn := Red(exact, f.inWin - e.nextOut + f.nextIn),
       seen := Red(exact, f.nextIn + f.inWin))
  }

  function Handle(exact: bool, w: Windows, e: End, f: Frame): (End, seq<Frame>) {
    match f
    case Transfer(attached) =>
      var e1 := TransferIn(exact, e);
      if attached && FlowDue(w, e1) then (e1.(needFlow := 0, since := 0), [Advert(w, e1, false)]) else (e1, [])
    case Flow(_, _, _, _, echo) =>
      var e1 := FlowIn(exact, e, f);
      if echo then (e1.(since := 0), [Advert(w, e1, false)]) else (e1, [])
  }

  /** One arm of the `select` of `mux`. */
  function Local(exact: bool, w: Windows, e: End, inbox: seq<Frame>, op: Op): Out
    requires Enabled(w, e, inbox, op)
  {
    match op
    case SendTransfer(attached) => Out(TransferOut(exact, e), inbox, [Transfer(attached)])
    case SendFlow(echo) => Out(e.(since := 0), inbox, [Advert(w, e, echo)])
    case Receive => var (e1, sent) := Handle(exact, w, e, inbox[0]); Out(e1, inbox[1..], sent)
  }

  // Two parties.

  /** `ab` holds the frames under way from `a` to `b`. */
  datatype Sys = Sys(a: End, b: End, ab: seq<Frame>, ba: seq<Frame>)

  datatype Action = AtA(op: Op) | AtB(op: Op)

  datatype Config = Config(a: Windows, b: Windows)

  function StartEnd(w: Windows, peer: Windows): End { End(0, 0, peer.incoming, peer.outgoing, 0, peer.incoming, 0) }

  /** Both have sent and received a begin frame. */
  function Start(c: Config): Sys { Sys(StartEnd(c.a, c.b), StartEnd(c.b, c.a), [], []) }

  predicate Can(c: Config, s: Sys, act: Action) {
    match act
    case AtA(op) => Enabled(c.a, s.a, s.ba, op)
    case AtB(op) => Enabled(c.b, s.b, s.ab, op)
  }

  function Next(exact: bool, c: Config, s: Sys, act: Action): Sys
    requires Can(c, s, act)
  {
    match act
    case AtA(op) => var o := Local(exact, c.a, s.a, s.ba, op); Sys(o.end, s.b, s.ab + o.sent, o.inbox)
    case AtB(op) => var o := Local(exact, c.b, s.b, s.ab, op); Sys(s.a, o.end, o.inbox, s.ba + o.sent)
  }

  /** The state after a run, or none if one of its actions was not enabled. */
  function Run(exact: bool, c: Config, acts: seq<Action>): Option<Sys> {
    if acts == [] then Some(Start(c))
    else match Run(exact, c, acts[..|acts| - 1])
      case None => None
      case Some(s) =>
        if Can(c, s, acts[|acts| - 1]) then Some(Next(exact, c, s, acts[|acts| - 1])) else None
  }

  // What every step keeps.

  /** The transfers in a channel, and the next outgoing ids of the flows between them, count from
      `n` to `m`. */
  predicate Counts(q: seq<Frame>, n: int, m: int) {
    if q == [] then n == m
    else match q[0]
      case Transfer(_) => Counts(q[1..], n + 1, m)
      case Flow(_, _, nextOut, _, _) => nextOut == n && Counts(q[1..], n, m)
  }

  /** The limits that the flows in a channel advertise never go back, from `lim` to at most `top`. */
  predicate Limits(q: seq<Frame>, win: int, lim: int, top: int) {
    if q == [] then lim <= top
    else match q[0]
      case Transfer(_) => Limits(q[1..], win, lim, top)
      case Flow(nextIn, inWin, _, _, _) => inWin == win && lim <= nextIn + win && Limits(q[1..], win, nextIn + win, top)
  }

  function InFlight(q: seq<Frame>): nat {
    if q == [] then 0 else (if q[0].Transfer? then 1 else 0) + InFlight(q[1..])
  }

  /** The limit after a frame. */
  function Raised(lim: int, f: Frame): int { if f.Transfer? then lim else f.nextIn + f.inWin }

  /** The limit after all flows of a channel. */
  function LastLimit(q: seq<Frame>, lim: int): int { if q == [] then lim else LastLimit(q[1..], Raised(lim, q[0])) }

  /** One direction: `x` sends transfers over `xy` to `y`, whose incoming window is `win`. */
  ghost predicate Dir(x: End, y: End, win: int, xy: seq<Frame>, yx: seq<Frame>) {
    && 0 <= x.remoteIn
    && x.seen == x.nextOut + x.remoteIn
    && Counts(xy, y.nextIn, x.nextOut)
    && Limits(yx, win, x.seen, y.nextIn + win)
    && LastLimit(yx, x.seen) + y.since == y.nextIn + win
  }

  ghost predicate Inv(c: Config, s: Sys) {
    && Dir(s.a, s.b, c.b.incoming, s.ab, s.ba)
    && Dir(s.b, s.a, c.a.incoming, s.ba, s.ab)
  }

  lemma {:induction false} CountsAppend(q: seq<Frame>, n: int, m: int, f: Frame, k: int)
    requires Counts(q, n, m) && k == (if f.Transfer? then m + 1 else m) && (f.Flow? ==> f.nextOut == m)
    ensures Counts(q + [f], n, k)
  {
    if q != [] {
      CountsAppend(q[1..], if q[0].Transfer? then n + 1 else n, m, f, k);
      assert (q + [f])[1..] == q[1..] + [f];
    } else {
      assert (q + [f])[1..] == [];
    }
  }

  lemma {:induction false} CountsIs(q: seq<Frame>, n: int, m: int)
    requires Counts(q, n, m)
    ensures m == n + InFlight(q)
  {
    if q != [] { CountsIs(q[1..], if q[0].Transfer? then n + 1 else n, m); }
  }

  lemma {:induction false} LimitsAppend(q: seq<Frame>, win: int, lim: int, top: int, f: Frame)
    requires Limits(q, win, lim, top) && (f.Flow? ==> f.inWin == win && f.nextIn + win == top)
    ensures Limits(q + [f], win, lim, top)
  {
    if q != [] {
      LimitsAppend(q[1..], win, if q[0].Transfer? then lim else q[0].nextIn + win, top, f);
      assert (q + [f])[1..] == q[1..] + [f];
    } else {
      assert (q + [f])[1..] == [];
    }
  }

  lemma {:induction false} LastLimitAppend(q: seq<Frame>, lim: int, f: Frame)
    ensures LastLimit(q + [f], lim) == Raised(LastLimit(q, lim), f)
  {
    if q == [] {
      assert (q + [f])[1..] == [];
    } else {
      assert (q + [f])[1..] == q[1..] + [f];
      LastLimitAppend(q[1..], Raised(lim, q[0]), f);
    }
  }

  lemma {:induction false} LimitsRaise(q: seq<Frame>, win: int, lim: int, top: int, more: int)
    requires Limits(q, win, lim, top) && top <= more
    ensures Limits(q, win, lim, more) && lim <= top
  {
    if q != [] { LimitsRaise(q[1..], win, if q[0].Transfer? then lim else q[0].nextIn + win, top, more); }
  }

  /** Sending keeps both directions. */
  lemma SendKeeps(w: Windows, e: End, p: End, win: int, out: seq<Frame>, inbox: seq<Frame>, op: Op)
    requires Dir(e, p, win, out, inbox) && Dir(p, e, w.incoming, inbox, out)
    requires !op.Receive? && Enabled(w, e, inbox, op)
    ensures var o := Local(true, w, e, inbox, op);
      Dir(o.end, p, win, out + o.sent, o.inbox) && Dir(p, o.end, w.incoming, o.inbox, out + o.sent)
  {
    var o := Local(true, w, e, inbox, op);
    CountsAppend(out, p.nextIn, e.nextOut, o.sent[0], o.end.nextOut);
    LimitsAppend(out, w.incoming, p.seen, e.nextIn + w.incoming, o.sent[0]);
    LastLimitAppend(out, p.seen, o.sent[0]);
  }

  /** Receiving keeps both directions; a flow never changes the next incoming id. */
  lemma ReceiveKeeps(w: Windows, e: End, p: End, win: int, out: seq<Frame>, inbox: seq<Frame>)
    requires Dir(e, p, win, out, inbox) && Dir(p, e, w.incoming, inbox, out) && inbox != []
    ensures var o := Local(true, w, e, inbox, Receive);
      Dir(o.end, p, win, out + o.sent, o.inbox) && Dir(p, o.end, w.incoming, o.inbox, out + o.sent)
  {
    var o := Local(true, w, e, inbox, Receive);
    var top := e.nextIn + w.incoming;
    LimitsRaise(out, w.incoming, p.seen, top, o.end.nextIn + w.incoming);
    if o.sent == [] {
      assert out + o.sent == out;
    } else {
      CountsAppend(out, p.nextIn, e.nextOut, o.sent[0], e.nextOut);
      LimitsAppend(out, w.incoming, p.seen, o.end.nextIn + w.incoming, o.sent[0]);
      LastLimitAppend(out, p.seen, o.sent[0]);
    }
    if inbox[0].Flow? {
      LimitsRaise(inbox[1..], win, o.end.seen, p.nextIn + win, p.nextIn + win);
      CountsIs(out, p.nextIn, e.nextOut);
    }
  }

  lemma NextKeeps(c: Config, s: Sys, act: Action)
    requires Inv(c, s) && Can(c, s, act)
    ensures Inv(c, Next(true, c, s, act))
  {
    hide Dir, Local;
    match act {
      case AtA(op) =>
        if op.Receive? { ReceiveKeeps(c.a, s.a, s.b, c.b.incoming, s.ab, s.ba); }
        else { SendKeeps(c.a, s.a, s.b, c.b.incoming, s.ab, s.ba, op); }
      case AtB(op) =>
        if op.Receive? { ReceiveKeeps(c.b, s.b, s.a, c.a.incoming, s.ba, s.ab); }
        else { SendKeeps(c.b, s.b, s.a, c.a.incoming, s.ba, s.ab, op); }
    }
  }

  // The code's arithmetic.

  function AbsEnd(e: End): End {
    End(e.nextOut % TWO32, e.nextIn % TWO32, e.remoteIn % TWO32, e.remoteOut, e.needFlow, e.seen % TWO32, e.since)
  }

  function AbsFrame(f: Frame): Frame {
    if f.Transfer? then f else f.(nextIn := f.nextIn % TWO32, nextOut := f.nextOut % TWO32)
  }

  function AbsQueue(q: seq<Frame>): (r: seq<Frame>)
    ensures |r| == |q| && forall k :: 0 <= k < |q| ==> r[k] == AbsFrame(q[k])
  {
    seq(|q|, k requires 0 <= k < |q| => AbsFrame(q[k]))
  }

  function AbsSys(s: Sys): Sys { Sys(AbsEnd(s.a), AbsEnd(s.b), AbsQueue(s.ab), AbsQueue(s.ba)) }

  lemma FlowInAbs(e: End, f: Frame)
    requires f.Flow?
    ensures FlowIn(false, AbsEnd(e), AbsFrame(f)) == AbsEnd(FlowIn(true, e, f))
  {
    var x, y := f.inWin, f.nextIn;
    ModAdd(y, x - e.nextOut % TWO32);
    ModAdd(e.nextOut, -(x + y));
    ModNeg(e.nextOut, x + y);
    ModAdd(y, x);
  }

  lemma HandleAbs(w: Windows, e: End, f: Frame)
    ensures var x := Handle(true, w, e, f);
      Handle(false, w, AbsEnd(e), AbsFrame(f)) == (AbsEnd(x.0), AbsQueue(x.1))
  {
    if f.Transfer? {
      ModAdd(e.nextIn, 1);
      var e1 := TransferIn(true, e);
      assert AbsQueue([Advert(w, e1, false)]) == [Advert(w, AbsEnd(e1), false)];
    } else {
      FlowInAbs(e, f);
      hide FlowIn;
      var e1 := FlowIn(true, e, f);
      assert AbsQueue([Advert(w, e1, false)]) == [Advert(w, AbsEnd(e1), false)];
    }
  }

  /** Each step of the code is the exact step, reduced. */
  lemma LocalAbs(w: Windows, e: End, inbox: seq<Frame>, op: Op)
    requires 0 <= e.remoteIn < TWO32
    ensures Enabled(w, AbsEnd(e), AbsQueue(inbox), op) <==> Enabled(w, e, inbox, op)
    ensures Enabled(w, e, inbox, op) ==>
      var x := Local(true, w, e, inbox, op);
      Local(false, w, AbsEnd(e), AbsQueue(inbox), op) == Out(AbsEnd(x.end), AbsQueue(x.inbox), AbsQueue(x.sent))
  {
    if op.Receive? && inbox != [] {
      HandleAbs(w, e, inbox[0]);
      hide Handle;
      assert AbsQueue(inbox)[1..] == AbsQueue(inbox[1..]);
    } else if op.Receive? {
    } else if op.SendTransfer? {
      ModAdd(e.nextOut, 1);
      assert AbsQueue([Transfer(op.attached)]) == [Transfer(op.attached)];
    } else {
      assert AbsQueue([Advert(w, e, op.echo)]) == [Advert(w, AbsEnd(e), op.echo)];
    }
  }

  /** The window is what is left of the last limit, and at most the window that the peer advertises. */
  lemma WindowBounds(x: End, y: End, win: U32, xy: seq<Frame>, yx: seq<Frame>)
    requires Dir(x, y, win, xy, yx)
    ensures 0 <= x.remoteIn && x.remoteIn + InFlight(xy) <= win
    ensures x.nextOut == y.nextIn + InFlight(xy)
  {
    CountsIs(xy, y.nextIn, x.nextOut);
    LimitsRaise(yx, win, x.seen, y.nextIn + win, y.nextIn + win);
  }

  lemma NextAbs(c: Config, s: Sys, act: Action)
    requires Inv(c, s)
    ensures Can(c, AbsSys(s), act) <==> Can(c, s, act)
    ensures Can(c, s, act) ==> Next(false, c, AbsSys(s), act) == AbsSys(Next(true, c, s, act))
  {
    WindowBounds(s.a, s.b, c.b.incoming, s.ab, s.ba);
    WindowBounds(s.b, s.a, c.a.incoming, s.ba, s.ab);
    hide Dir, Local, AbsEnd, Enabled;
    match act {
      case AtA(op) =>
        LocalAbs(c.a, s.a, s.ba, op);
        if Can(c, s, act) {
          var o := Local(true, c.a, s.a, s.ba, op);
          assert AbsQueue(s.ab + o.sent) == AbsQueue(s.ab) + AbsQueue(o.sent);
        }
      case AtB(op) =>
        LocalAbs(c.b, s.b, s.ab, op);
        if Can(c, s, act) {
          var o := Local(true, c.b, s.b, s.ab, op);
          assert AbsQueue(s.ba + o.sent) == AbsQueue(s.ba) + AbsQueue(o.sent);
        }
    }
  }

  /** Every run of the code is a run on unbounded integers, reduced modulo 2^32 at each step: no
      window computation ever goes below zero or wraps. */
  lemma {:induction false} ExactRun(c: Config, acts: seq<Action>)
    ensures Run(false, c, acts).Some? <==> Run(true, c, acts).Some?
    ensures Run(true, c, acts).Some? ==>
      Inv(c, Run(true, c, acts).value) && Run(false, c, acts).value == AbsSys(Run(true, c, acts).value)
  {
    if acts == [] {
      assert AbsSys(Start(c)) == Start(c);
    } else {
      hide Inv, Next, AbsSys, Can;
      ExactRun(c, acts[..|acts| - 1]);
      var r := Run(true, c, acts[..|acts| - 1]);
      if r.Some? {
        NextAbs(c, r.value, acts[|acts| - 1]);
        if Can(c, r.value, acts[|acts| - 1]) { NextKeeps(c, r.value, acts[|acts| - 1]); }
      }
    }
  }

  lemma {:induction false} AbsInFlight(q: seq<Frame>)
    ensures InFlight(AbsQueue(q)) == InFlight(q)
  {
    if q != [] {
      AbsInFlight(q[1..]);
      assert AbsQueue(q)[1..] == AbsQueue(q[1..]);
    }
  }

  /** The sender's next id plus its window is the limit of the last flow it received, the window
      and the transfers under way together are at most the receiver's window, and the ids of
      the two sides differ by the transfers under way. */
  ghost predicate Safe(x: End, y: End, win: U32, xy: seq<Frame>) {
    && (x.nextOut + x.remoteIn) % TWO32 == x.seen
    && 0 <= x.remoteIn && x.remoteIn + InFlight(xy) <= win
    && (y.nextIn + InFlight(xy)) % TWO32 == x.nextOut
  }

  /** Window safety: both directions are safe in every state that the two sessions reach. */
  lemma WindowSafety(c: Config, acts: seq<Action>)
    requires Run(false, c, acts).Some?
    ensures var s := Run(false, c, acts).value;
      Safe(s.a, s.b, c.b.incoming, s.ab) && Safe(s.b, s.a, c.a.incoming, s.ba)
  {
    ExactRun(c, acts);
    var s := Run(true, c, acts).value;
    hide Run, Dir, Safe, AbsEnd;
    DirSafety(s.a, s.b, c.b.incoming, s.ab, s.ba);
    DirSafety(s.b, s.a, c.a.incoming, s.ba, s.ab);
  }

  lemma DirSafety(x: End, y: End, win: U32, xy: seq<Frame>, yx: seq<Frame>)
    requires Dir(x, y, win, xy, yx)
    ensures Safe(AbsEnd(x), AbsEnd(y), win, AbsQueue(xy))
  {
    WindowBounds(x, y, win, xy, yx);
    AbsInFlight(xy);
    Congruent(x, y, InFlight(xy));
  }

  lemma Congruent(x: End, y: End, n: int)
    requires 0 <= x.remoteIn < TWO32 && x.seen == x.nextOut + x.remoteIn && x.nextOut == y.nextIn + n
    ensures (AbsEnd(x).nextOut + AbsEnd(x).remoteIn) % TWO32 == AbsEnd(x).seen
    ensures (AbsEnd(y).nextIn + n) % TWO32 == AbsEnd(x).nextOut
    ensures AbsEnd(x).remoteIn == x.remoteIn
  {
    ModAdd(x.nextOut, x.remoteIn);
    ModAdd(y.nextIn, n);
  }

  // Progress.

  predicate AllAttached(q: seq<Frame>) { forall f :: f in q && f.Transfer? ==> f.attached }

  /** The receiver has used up less than half of its window since it last advertised it. */
  ghost predicate Prompt(x: End, y: End, win: int, xy: seq<Frame>, yx: seq<Frame>) {
    && AllAttached(xy)
    && 0 <= y.needFlow && (y.needFlow < win / 2 || y.needFlow == 0)
    && y.since <= y.needFlow
  }

  predicate OpAttached(op: Op) { op.SendTransfer? ==> op.attached }

  /** A step of `e` keeps promptness in the direction in which it sends transfers. */
  lemma PromptOut(w: Windows, e: End, p: End, win: int, out: seq<Frame>, inbox: seq<Frame>, op: Op)
    requires Prompt(e, p, win, out, inbox) && Enabled(w, e, inbox, op) && OpAttached(op)
    ensures var o := Local(true, w, e, inbox, op); Prompt(o.end, p, win, out + o.sent, o.inbox)
  {
  }

  /** A step of `e` keeps promptness in the direction in which it receives transfers. */
  lemma PromptIn(w: Windows, e: End, p: End, out: seq<Frame>, inbox: seq<Frame>, op: Op)
    requires Prompt(p, e, w.incoming, inbox, out) && Enabled(w, e, inbox, op)
    ensures var o := Local(true, w, e, inbox, op); Prompt(p, o.end, w.incoming, o.inbox, out + o.sent)
  {
  }

  predicate ActAttached(act: Action) { OpAttached(act.op) }

  ghost predicate PromptSys(c: Config, s: Sys) {
    Prompt(s.a, s.b, c.b.incoming, s.ab, s.ba) && Prompt(s.b, s.a, c.a.incoming, s.ba, s.ab)
  }

  lemma NextPrompt(c: Config, s: Sys, act: Action)
    requires Inv(c, s) && PromptSys(c, s) && Can(c, s, act) && ActAttached(act)
    ensures PromptSys(c, Next(true, c, s, act))
  {
    hide Prompt, Local, Counts, Limits;
    match act {
      case AtA(op) =>
        PromptOut(c.a, s.a, s.b, c.b.incoming, s.ab, s.ba, op);
        PromptIn(c.a, s.a, s.b, s.ab, s.ba, op);
      case AtB(op) =>
        PromptOut(c.b, s.b, s.a, c.a.incoming, s.ba, s.ab, op);
        PromptIn(c.b, s.b, s.a, s.ba, s.ab, op);
    }
  }

  lemma {:induction false} PromptRun(c: Config, acts: seq<Action>)
    requires Run(true, c, acts).Some? && forall act :: act in acts ==> ActAttached(act)
    ensures PromptSys(c, Run(true, c, acts).value)
  {
    if acts != [] {
      hide Inv, PromptSys, Next, Can, ActAttached;
      var init := acts[..|acts| - 1];
      PromptRun(c, init);
      ExactRun(c, init);
      NextPrompt(c, Run(true, c, init).value, acts[|acts| - 1]);
    }
  }

  predicate NoFlow(q: seq<Frame>) { forall f :: f in q ==> f.Transfer? }

  lemma {:induction false} NoFlowLimit(q: seq<Frame>, lim: int)
    requires NoFlow(q)
    ensures LastLimit(q, lim) == lim
  {
    if q != [] {
      assert q[0] in q;
      NoFlowLimit(q[1..], lim);
    }
  }

  lemma {:induction false} AbsNoFlow(q: seq<Frame>)
    requires NoFlow(AbsQueue(q))
    ensures NoFlow(q)
  {
    forall f | f in q ensures f.Transfer? {
      var k :| 0 <= k < |q| && q[k] == f;
      assert AbsQueue(q)[k] in AbsQueue(q);
    }
  }

  /** With no transfer under way to `y` and no flow back, the window of `x` is what `y` has not received since
      it last advertised its window. */
  ghost predicate WindowLeft(x: End, y: End, win: U32, xy: seq<Frame>, yx: seq<Frame>) {
    InFlight(xy) == 0 && NoFlow(yx) ==> x.remoteIn == win - y.since
  }

  lemma DirLeft(x: End, y: End, win: U32, xy: seq<Frame>, yx: seq<Frame>)
    requires Dir(x, y, win, xy, yx)
    ensures WindowLeft(AbsEnd(x), AbsEnd(y), win, AbsQueue(xy), AbsQueue(yx))
  {
    if InFlight(AbsQueue(xy)) == 0 && NoFlow(AbsQueue(yx)) {
      WindowBounds(x, y, win, xy, yx);
      AbsInFlight(xy);
      AbsNoFlow(yx);
      NoFlowLimit(yx, x.seen);
      Congruent(x, y, 0);
    }
  }

  /** In every run, to attached links or not, with nothing under way the window is what is left of the last
      advertisement; so a side is blocked if and only if the other one has received exactly its window of
      transfers since then. */
  lemma BlockedIff(c: Config, acts: seq<Action>)
    requires Run(false, c, acts).Some?
    ensures var s := Run(false, c, acts).value;
      && WindowLeft(s.a, s.b, c.b.incoming, s.ab, s.ba) && WindowLeft(s.b, s.a, c.a.incoming, s.ba, s.ab)
      && (InFlight(s.ab) == 0 && NoFlow(s.ba) ==> (s.a.remoteIn == 0 <==> s.b.since == c.b.incoming))
      && (InFlight(s.ba) == 0 && NoFlow(s.ab) ==> (s.b.remoteIn == 0 <==> s.a.since == c.a.incoming))
  {
    ExactRun(c, acts);
    var s := Run(true, c, acts).value;
    hide Run, Dir, AbsEnd, InFlight, NoFlow;
    DirLeft(s.a, s.b, c.b.incoming, s.ab, s.ba);
    DirLeft(s.b, s.a, c.a.incoming, s.ba, s.ab);
  }

  /** With no transfer under way to `y` and no flow back, `x` may send: more than half of the window
      is left. */
  ghost predicate Unblocked(x: End, win: U32, xy: seq<Frame>, yx: seq<Frame>) {
    win >= 1 && InFlight(xy) == 0 && NoFlow(yx) ==> x.remoteIn > 0 && 2 * x.remoteIn > win
  }

  /** Session windows never deadlock: in a run whose transfers all reach attached links, neither
      side is ever blocked with nothing under way that would unblock it. */
  lemma NoDeadlock(c: Config, acts: seq<Action>)
    requires Run(false, c, acts).Some? && forall act :: act in acts ==> ActAttached(act)
    ensures var s := Run(false, c, acts).value;
      Unblocked(s.a, c.b.incoming, s.ab, s.ba) && Unblocked(s.b, c.a.incoming, s.ba, s.ab)
  {
    ExactRun(c, acts);
    PromptRun(c, acts);
    BlockedIff(c, acts);
    hide Run, Dir, InFlight, NoFlow;
  }

  /** For example, a transfer to a handle that is not attached uses up a window of one and is not answered
      with a flow. The side stays blocked until the other one sends a flow for another reason. */
  lemma UnattachedBlocks(outgoing: U32)
    requires outgoing > 0
    ensures var w := Windows(1, outgoing); var c := Config(w, w);
      var r := Run(false, c, [AtA(SendTransfer(false)), AtB(Receive)]);
      && r.Some? && r.value.a.remoteIn == 0 && r.value.ab == [] && r.value.ba == []
      && var q := Run(false, c, [AtA(SendTransfer(false)), AtB(Receive), AtB(SendFlow(false)), AtA(Receive)]);
         q.Some? && q.value.a.remoteIn == 1
  {
    var w := Windows(1, outgoing);
    var c := Config(w, w);
    var acts := [AtA(SendTransfer(false)), AtB(Receive), AtB(SendFlow(false)), AtA(Receive)];
    assert acts[..2] == [AtA(SendTransfer(false)), AtB(Receive)];
    assert acts[..3][..2] == acts[..2] && acts[..2][..1] == acts[..1] && acts[..1][..0] == [];
    assert Run(false, c, []) == Some(Start(c));
    assert Run(false, c, acts[..1]) == Some(Next(false, c, Start(c), acts[0]));
    assert Run(false, c, acts[..2]) == Some(Next(false, c, Run(false, c, acts[..1]).value, acts[1]));
    assert Run(false, c, acts[..3]) == Some(Next(false, c, Run(false, c, acts[..2]).value, acts[2]));
  }

  // Answers.

  /** One of the two sides: its end, the channel it reads, the channel it writes, and its windows. */
  datatype Side = A | B

  function EndOf(s: Sys, x: Side): End { if x.A? then s.a else s.b }

  function Inbox(s: Sys, x: Side): seq<Frame> { if x.A? then s.ba else s.ab }

  function Outbox(s: Sys, x: Side): seq<Frame> { if x.A? then s.ab else s.ba }

  function WindowsOf(c: Config, x: Side): Windows { if x.A? then c.a else c.b }

  function Do(x: Side, op: Op): Action { if x.A? then AtA(op) else AtB(op) }

  /** The transfers that a side has sent. */
  function Sent(acts: seq<Action>, x: Side): nat {
    if acts == [] then 0
    else
      var a := acts[|acts| - 1];
      Sent(acts[..|acts| - 1], x) + if a == Do(x, a.op) && a.op.SendTransfer? then 1 else 0
  }

  predicate TakesTransfer(s: Sys, a: Action, x: Side) {
    a == Do(x, Receive) && Inbox(s, x) != [] && Inbox(s, x)[0].Transfer?
  }

  /** The transfers that a side has received. */
  function Received(exact: bool, c: Config, acts: seq<Action>, x: Side): nat {
    if acts == [] then 0
    else
      var r := Run(exact, c, acts[..|acts| - 1]);
      Received(exact, c, acts[..|acts| - 1], x)
      + if r.Some? && TakesTransfer(r.value, acts[|acts| - 1], x) then 1 else 0
  }

  /** The transfers that a side has received since it last answered one with a flow. */
  function Unanswered(exact: bool, c: Config, acts: seq<Action>, x: Side): nat {
    if acts == [] then 0
    else
      var init := acts[..|acts| - 1];
      var r, n := Run(exact, c, init), Unanswered(exact, c, init, x);
      if r.None? || !TakesTransfer(r.value, acts[|acts| - 1], x) then n
      else
        var q := Run(exact, c, acts);
        if q.Some? && Outbox(q.value, x) != Outbox(r.value, x) then 0 else n + 1
  }

  /** The ids of a side are the numbers of transfers that it has sent and received. */
  ghost predicate Counted(c: Config, acts: seq<Action>, x: Side, e: End) {
    && e.nextOut == Sent(acts, x) && e.nextIn == Received(true, c, acts, x)
    && e.needFlow == Unanswered(true, c, acts, x) % TWO32
  }

  lemma {:induction false} CountedRun(c: Config, acts: seq<Action>, x: Side)
    requires Run(true, c, acts).Some?
    ensures Counted(c, acts, x, EndOf(Run(true, c, acts).value, x))
  {
    hide Inv, Next, Can, TakesTransfer, AbsSys, Outbox;
    if acts != [] {
      var init, a := acts[..|acts| - 1], acts[|acts| - 1];
      CountedRun(c, init, x);
      ExactRun(c, init);
      var s := Run(true, c, init).value;
      CountedStep(c, s, a, x, Unanswered(true, c, init, x));
      hide EndOf;
    }
  }

  lemma CountedStep(c: Config, s: Sys, a: Action, x: Side, n: nat)
    requires Inv(c, s) && Can(c, s, a) && EndOf(s, x).needFlow == n % TWO32
    ensures var e, e1 := EndOf(s, x), EndOf(Next(true, c, s, a), x);
      && e1.nextOut == e.nextOut + (if a == Do(x, a.op) && a.op.SendTransfer? then 1 else 0)
      && e1.nextIn == e.nextIn + (if TakesTransfer(s, a, x) then 1 else 0)
      && e1.needFlow == (
          if !TakesTransfer(s, a, x) then n
          else if Outbox(Next(true, c, s, a), x) != Outbox(s, x) then 0
          else n + 1) % TWO32
  {
    ModAdd(n, 1);
    hide Limits, LastLimit;
  }

  lemma {:induction false} CountsAbs(c: Config, acts: seq<Action>, x: Side)
    requires Run(true, c, acts).Some?
    ensures Received(false, c, acts, x) == Received(true, c, acts, x)
    ensures Unanswered(false, c, acts, x) == Unanswered(true, c, acts, x)
  {
    if acts != [] {
      var init := acts[..|acts| - 1];
      CountsAbs(c, init, x);
      ExactRun(c, init);
      ExactRun(c, acts);
      var s, t := Run(true, c, init).value, Run(true, c, acts).value;
      OutboxAbs(c, s, acts[|acts| - 1], x);
      hide Inv, Next, Can;
    }
  }

  lemma OutboxAbs(c: Config, s: Sys, a: Action, x: Side)
    requires Can(c, s, a)
    ensures var t := Next(true, c, s, a);
      Outbox(AbsSys(t), x) == Outbox(AbsSys(s), x) <==> Outbox(t, x) == Outbox(s, x)
    ensures TakesTransfer(AbsSys(s), a, x) == TakesTransfer(s, a, x)
  {
    var t := Next(true, c, s, a);
    assert |Outbox(t, x)| == |Outbox(s, x)| ==> Outbox(t, x) == Outbox(s, x);
  }

  /** What a flow of the side says: how many transfers it has received and sent, and its configured windows. */
  function Report(c: Config, x: Side, received: nat, sent: nat, echo: bool): Frame {
    Flow(received % TWO32, WindowsOf(c, x).incoming, sent % TWO32, WindowsOf(c, x).outgoing, echo)
  }

  /** In every run, receiving a frame is answered by one flow, which reports the transfers received and sent so
      far and the configured windows, exactly if the frame is a flow with echo, or a transfer to an attached
      link that brings the transfers since the last such answer to half of the window. Otherwise nothing is
      sent. */
  lemma AnsweredIff(c: Config, acts: seq<Action>, x: Side)
    requires Run(false, c, acts + [Do(x, Receive)]).Some?
    ensures Run(false, c, acts).Some? && Inbox(Run(false, c, acts).value, x) != []
    ensures var s, t := Run(false, c, acts).value, Run(false, c, acts + [Do(x, Receive)]).value;
      var f, n := Inbox(s, x)[0], Received(false, c, acts, x);
      var half := WindowsOf(c, x).incoming / 2;
      Outbox(t, x) == Outbox(s, x) +
        match f
        case Flow(_, _, _, _, echo) => if echo then [Report(c, x, n, Sent(acts, x), false)] else []
        case Transfer(attached) =>
          if attached && (Unanswered(false, c, acts, x) + 1) % TWO32 >= half
          then [Report(c, x, n + 1, Sent(acts, x), false)] else []
  {
    hide *;
    RunStep(false, c, acts, Do(x, Receive));
    ExactRun(c, acts);
    CountedRun(c, acts, x);
    CountsAbs(c, acts, x);
    var s := Run(true, c, acts).value;
    CountedParts(c, acts, x, EndOf(s, x));
    AnswerStep(c, s, x, Unanswered(true, c, acts, x));
  }

  lemma RunStep(exact: bool, c: Config, acts: seq<Action>, a: Action)
    ensures Run(exact, c, acts + [a]).Some? <==> Run(exact, c, acts).Some? && Can(c, Run(exact, c, acts).value, a)
    ensures Run(exact, c, acts + [a]).Some? ==>
      Run(exact, c, acts + [a]).value == Next(exact, c, Run(exact, c, acts).value, a)
  {
    hide Next, Can;
    assert (acts + [a])[..|acts + [a]| - 1] == acts;
  }

  lemma CountedParts(c: Config, acts: seq<Action>, x: Side, e: End)
    requires Counted(c, acts, x, e)
    ensures e.nextOut == Sent(acts, x) && e.nextIn == Received(true, c, acts, x)
    ensures e.needFlow == Unanswered(true, c, acts, x) % TWO32
  {
  }

  lemma AnswerStep(c: Config, s: Sys, x: Side, n: nat)
    requires Inv(c, s) && Can(c, AbsSys(s), Do(x, Receive)) && EndOf(s, x).needFlow == n % TWO32
    requires EndOf(s, x).nextIn >= 0 && EndOf(s, x).nextOut >= 0
    ensures Inbox(AbsSys(s), x) != []
    ensures var t := Next(false, c, AbsSys(s), Do(x, Receive)); var e := EndOf(s, x);
      Outbox(t, x) == Outbox(AbsSys(s), x) +
        match Inbox(AbsSys(s), x)[0]
        case Flow(_, _, _, _, echo) => if echo then [Report(c, x, e.nextIn, e.nextOut, false)] else []
        case Transfer(attached) =>
          if attached && (n + 1) % TWO32 >= WindowsOf(c, x).incoming / 2
          then [Report(c, x, e.nextIn + 1, e.nextOut, false)] else []
  {
    ModAdd(n, 1);
    ModAdd(EndOf(s, x).nextIn, 1);
    hide Limits, LastLimit;
  }

  /** And every flow that a side sends on behalf of a link reports the same. */
  lemma Reported(c: Config, acts: seq<Action>, x: Side, echo: bool)
    requires Run(false, c, acts).Some?
    ensures Run(false, c, acts + [Do(x, SendFlow(echo))]).Some?
    ensures var s, t := Run(false, c, acts).value, Run(false, c, acts + [Do(x, SendFlow(echo))]).value;
      Outbox(t, x) == Outbox(s, x) + [Report(c, x, Received(false, c, acts, x), Sent(acts, x), echo)]
  {
    RunStep(false, c, acts, Do(x, SendFlow(echo)));
    ExactRun(c, acts);
    CountedRun(c, acts, x);
    CountsAbs(c, acts, x);
    hide Received, Unanswered, Sent;
  }

  function Other(x: Side): Side { if x.A? then B else A }

  /** The transfers that a side has received since it last received a flow. */
  function SinceFlow(exact: bool, c: Config, acts: seq<Action>, x: Side): nat {
    if acts == [] then 0
    else
      var init, a := acts[..|acts| - 1], acts[|acts| - 1];
      var r, n := Run(exact, c, init), SinceFlow(exact, c, init, x);
      if r.None? || a != Do(x, Receive) || Inbox(r.value, x) == [] then n
      else if Inbox(r.value, x)[0].Transfer? then n + 1
      else 0
  }

  /** All flows under way to the side report its peer's configured windows. */
  ghost predicate Configured(c: Config, s: Sys, x: Side) {
    forall f :: f in Inbox(s, x) && f.Flow? ==>
      f.inWin == WindowsOf(c, Other(x)).incoming && f.outWin == WindowsOf(c, Other(x)).outgoing
  }

  function Left(n: int, used: nat): int { if used < n then n - used else 0 }

  lemma RemoteStep(c: Config, s: Sys, a: Action, x: Side, n: nat)
    requires Can(c, s, a) && Configured(c, s, x)
    requires EndOf(s, x).remoteOut == Left(WindowsOf(c, Other(x)).outgoing, n)
    ensures Configured(c, Next(false, c, s, a), x)
    ensures EndOf(Next(false, c, s, a), x).remoteOut == Left(WindowsOf(c, Other(x)).outgoing,
      if a != Do(x, Receive) then n else if Inbox(s, x)[0].Transfer? then n + 1 else 0)
  {
    if a == Do(x, Receive) { assert Inbox(s, x)[0] in Inbox(s, x); }
  }

  /** In every run, every flow under way reports the configured windows, and the remote outgoing window is what is
      left of the peer's after the transfers since its last flow. */
  lemma {:induction false} RemoteWindow(c: Config, acts: seq<Action>, x: Side)
    requires Run(false, c, acts).Some?
    ensures var s := Run(false, c, acts).value;
      && Configured(c, s, x)
      && EndOf(s, x).remoteOut == Left(WindowsOf(c, Other(x)).outgoing, SinceFlow(false, c, acts, x))
  {
    if acts != [] {
      var init, a := acts[..|acts| - 1], acts[|acts| - 1];
      RemoteWindow(c, init, x);
      var s := Run(false, c, init).value;
      if a == Do(x, Receive) { ReceiveEnabled(c, s, a, x); }
      hide Next, Can, Configured, Inbox, EndOf, WindowsOf;
      RemoteStep(c, s, a, x, SinceFlow(false, c, init, x));
    }
  }

  lemma ReceiveEnabled(c: Config, s: Sys, a: Action, x: Side)
    requires Can(c, s, a) && a == Do(x, Receive)
    ensures Inbox(s, x) != []
  {
  }

  /** In every run, a side may send a transfer exactly if the limit that it last received is above what it has sent,
      and its own outgoing window is not zero. */
  lemma MaySendIff(c: Config, acts: seq<Action>, x: Side, attached: bool)
    requires Run(false, c, acts).Some?
    ensures var e := EndOf(Run(false, c, acts).value, x);
      Run(false, c, acts + [Do(x, SendTransfer(attached))]).Some? <==>
        e.seen != Sent(acts, x) % TWO32 && WindowsOf(c, x).outgoing != 0
  {
    hide *;
    RunStep(false, c, acts, Do(x, SendTransfer(attached)));
    ExactRun(c, acts);
    CountedRun(c, acts, x);
    var s := Run(true, c, acts).value;
    CountedParts(c, acts, x, EndOf(s, x));
    MaySendStep(c, s, x, attached);
  }

  lemma MaySendStep(c: Config, s: Sys, x: Side, attached: bool)
    requires Inv(c, s)
    ensures Can(c, AbsSys(s), Do(x, SendTransfer(attached))) <==>
      EndOf(AbsSys(s), x).seen != EndOf(s, x).nextOut % TWO32 && WindowsOf(c, x).outgoing != 0
  {
    WindowBounds(s.a, s.b, c.b.incoming, s.ab, s.ba);
    WindowBounds(s.b, s.a, c.a.incoming, s.ba, s.ab);
    var e := EndOf(s, x);
    assert e.seen == e.nextOut + e.remoteIn;
    hide Dir, InFlight;
    ModAdd(e.nextOut, e.remoteIn);
    SameLimit(e.nextOut % TWO32, e.remoteIn);
    ModSmall(e.remoteIn);
  }

  lemma SameLimit(n: int, w: int)
    requires 0 <= n < TWO32 && 0 <= w < TWO32
    ensures (n + w) % TWO32 == n <==> w == 0
  {
  }

  // The code.

  datatype FlowError = NoNextIncomingID

  /** The session mux, as far as its windows go; `sent` is what it has written. */
  class Session {
    const w: Windows
    var nextOutgoingID: U32
    var nextIncomingID: U32
    var remoteIncomingWindow: U32
    var remoteOutgoingWindow: U32
    var needFlowCount: U32
    ghost var seen: int
    ghost var since: int
    var sent: seq<Frame>

    ghost function State(): End
      reads this
    {
      End(nextOutgoingID, nextIncomingID, remoteIncomingWindow, remoteOutgoingWindow, needFlowCount, seen, since)
    }

    /** After the begin frames have been exchanged. */
    constructor (w: Windows, remoteBegin: F.PerformBegin)
      ensures this.w == w && sent == []
      ensures State() ==
        End(0, remoteBegin.nextOutgoingID, remoteBegin.incomingWindow, remoteBegin.outgoingWindow, 0,
            remoteBegin.incomingWindow, 0)
    {
      this.w := w;
      nextOutgoingID, nextIncomingID := 0, remoteBegin.nextOutgoingID;
      remoteIncomingWindow, remoteOutgoingWindow := remoteBegin.incomingWindow, remoteBegin.outgoingWindow;
      needFlowCount, seen, since, sent := 0, remoteBegin.incomingWindow, 0, [];
    }

    /** The guard of the `txTransfer` arm. */
    predicate MaySend()
      reads this
      ensures MaySend() <==> Enabled(w, State(), [], SendTransfer(true))
    {
      !(remoteIncomingWindow == 0 || w.outgoing == 0)
    }

    method TxTransfer(attached: bool)
      requires MaySend()
      modifies this
      ensures var o := Local(false, w, old(State()), [], SendTransfer(attached));
        State() == o.end && sent == old(sent) + o.sent
    {
      sent := sent + [Transfer(attached)];
      nextOutgoingID := (nextOutgoingID + 1) % TWO32;
      if remoteIncomingWindow != 0 {
        remoteIncomingWindow := remoteIncomingWindow - 1;
      }
    }

    /** A flow of a link gets the session's fields. */
    method TxFlow(echo: bool)
      modifies this
      ensures var o := Local(false, w, old(State()), [], SendFlow(echo)); State() == o.end && sent == old(sent) + o.sent
    {
      sent := sent + [Flow(nextIncomingID, w.incoming, nextOutgoingID, w.outgoing, echo)];
      since := 0;
    }

    method RxTransfer(attached: bool)
      modifies this
      ensures var (e, out) := Handle(false, w, old(State()), Transfer(attached));
        State() == e && sent == old(sent) + out
    {
      needFlowCount := (needFlowCount + 1) % TWO32;
      nextIncomingID := (nextIncomingID + 1) % TWO32;
      since := since + 1;
      if remoteOutgoingWindow > 0 {
        remoteOutgoingWindow := remoteOutgoingWindow - 1;
      }
      if !attached {
        return;
      }
      if needFlowCount >= w.incoming / 2 {
        needFlowCount := 0;
        sent := sent + [Flow(nextIncomingID, w.incoming, nextOutgoingID, w.outgoing, false)];
        since := 0;
      }
    }

    /** A flow without a next incoming id ends the session; one for a link is not answered here. */
    method RxFlow(f: F.PerformFlow) returns (err: Option<FlowError>)
      modifies this
      ensures err.Some? <==> f.nextIncomingID.None?
      ensures err.Some? ==> State() == old(State()) && sent == old(sent)
      ensures err.None? ==>
        var g := Flow(f.nextIncomingID.value, f.incomingWindow, f.nextOutgoingID, f.outgoingWindow,
            f.echo && f.handle.None?);
        var (e, out) := Handle(false, w, old(State()), g);
        State() == e && sent == old(sent) + out
      ensures err.None? ==>
        && nextIncomingID == f.nextOutgoingID && remoteOutgoingWindow == f.outgoingWindow
        && nextOutgoingID == old(nextOutgoingID) && needFlowCount == old(needFlowCount)
        && remoteIncomingWindow == (f.nextIncomingID.value + f.incomingWindow - nextOutgoingID) % TWO32
    {
      if f.nextIncomingID.None? {
        return Some(NoNextIncomingID);
      }
      var id := f.nextIncomingID.value;
      ModAdd(f.incomingWindow - nextOutgoingID, id);
      nextIncomingID := f.nextOutgoingID;
      remoteOutgoingWindow := f.outgoingWindow;
      remoteIncomingWindow := (f.incomingWindow - nextOutgoingID) % TWO32;
      remoteIncomingWindow := (remoteIncomingWindow + id) % TWO32;
      seen := (id + f.incomingWindow) % TWO32;
      if f.handle.None? && f.echo {
        sent := sent + [Flow(nextIncomingID, w.incoming, nextOutgoingID, w.outgoing, false)];
        since := 0;
      }
      return None;
    }
  }
}
