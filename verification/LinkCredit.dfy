/** Link flow control (section 2.6.7 of AMQP 1.0 Part 2): the sender's mux and the mux of a
    receiver that manages its credit itself, over channels that keep their order. */
module LinkCredit {
  import opened Bytes

  /** The part of a transfer that matters: whether more transfers of the message follow, and the tag,
      which is different for each delivery. */
  datatype Transfer = Transfer(more: bool, tag: nat)

  datatype Flow = Flow(count: int, credit: int)

  /** `holding` is the transfer that the mux has taken from `send` and not yet passed on. `seen` is
      a history variable: the limit of the last flow received. */
  datatype Sender = Snd(count: int, credit: int, holding: Option<Transfer>, tag: nat, seen: int)

  /** Where the receiver's mux is: at the top of its loop, with the pending credit computed, with it
      issued to the creditor, waiting for the session to take a flow, or waiting for input.
      `Failed` is the exit of the loop when issuing credit reports an error. */
  datatype Phase = Top | Computed(pending: int) | Issued | Waiting(flow: Flow) | Idle | Failed

  /** `toAdd` belongs to the creditor. `messages` are the queued deliveries, `unsettled` those that
      the application has not settled, queued or not. `issued` is a history variable: the limit of
      the last flow made. */
  datatype Receiver = Rcv(count: int, credit: int, toAdd: int, unsettled: set<nat>, messages: seq<nat>, phase: Phase,
      issued: int)

  datatype Sys = Sys(s: Sender, r: Receiver, sr: seq<Transfer>, rs: seq<Flow>)

  /** The maximum credit, which is the capacity of the message queue as well, and whether the
      receiver settles second. */
  datatype Config = Config(max: U32, second: bool, first: U32)

  datatype Action =
    | Take(more: bool) | Put | GetFlow
    | Compute | Issue | Bits | SendFlow | GetTransfer | Wake
    | AppTake | AppSettle(tag: nat)

  /** The code computes modulo 2^32; the same steps on unbounded integers are `exact`. */
  function Red(exact: bool, x: int): int { if exact then x else x % TWO32 }

  // The sender.

  /** After a transfer has been passed on: the last one of a message takes one credit. */
  function SenderPut(exact: bool, s: Sender): Sender
    requires s.holding.Some?
  {
    if s.holding.value.more then s.(holding := None)
    else s.(holding := None, count := Red(exact, s.count + 1), credit := Red(exact, s.credit - 1), tag := s.tag + 1)
  }

  function SenderFlow(exact: bool, s: Sender, f: Flow): Sender {
    s.(credit := Red(exact, f.credit - s.count + f.count), seen := Red(exact, f.count + f.credit))
  }

  // The receiver.

  function Pending(exact: bool, max: int, r: Receiver): int { Red(exact, max - (r.credit + |r.unsettled|)) }

  function AfterCompute(exact: bool, max: int, r: Receiver): Receiver {
    var p := Pending(exact, max, r);
    r.(phase := if p >= max / 2 then Computed(p) else Issued)
  }

  /** `IssueCredit` of the creditor, when it is not draining. */
  function AfterIssue(exact: bool, max: int, r: Receiver): Receiver
    requires r.phase.Computed?
  {
    if Red(exact, r.phase.pending + |r.unsettled| + r.credit) > max then r.(phase := Failed)
    else r.(toAdd := Red(exact, r.toAdd + r.phase.pending), phase := Issued)
  }

  /** `FlowBits` of the creditor, and the start of `muxFlow`. */
  function AfterBits(exact: bool, r: Receiver): Receiver {
    var credits := if r.toAdd == 0 then 0 else Red(exact, r.toAdd + r.credit);
    if credits > 0 then
      r.(toAdd := 0, credit := credits, phase := Waiting(Flow(r.count, credits)),
          issued := Red(exact, r.count + credits))
    else r.(toAdd := 0, phase := Idle)
  }

  /** `muxReceive`, inside the wait of `muxFlow` or not. */
  function AfterTransfer(exact: bool, second: bool, r: Receiver, t: Transfer): Receiver {
    var r1 := if r.phase.Idle? then r.(phase := Top) else r;
    if t.more then r1
    else r1.(
      unsettled := if second then r.unsettled + {t.tag} else r.unsettled,
      messages := r.messages + [t.tag],
      count := Red(exact, r.count + 1),
      credit := Red(exact, r.credit - 1))
  }

  // The system.

  /** The receiver's mux takes the next transfer. */
  predicate Offered(x: Sys) { x.sr != [] && (x.r.phase.Waiting? || x.r.phase.Idle?) }

  /** The transfer completes a message, which the mux then puts into the queue. */
  predicate Completes(x: Sys) { Offered(x) && !x.sr[0].more }

  /** Putting a message into the queue waits for room. */
  predicate Can(c: Config, x: Sys, a: Action) {
    match a
    case Take(_) => x.s.holding.None? && x.s.credit > 0
    case Put => x.s.holding.Some?
    case GetFlow => x.rs != []
    case Compute => x.r.phase.Top?
    case Issue => x.r.phase.Computed?
    case Bits => x.r.phase.Issued?
    case SendFlow => x.r.phase.Waiting?
    case GetTransfer => Offered(x) && (Completes(x) ==> |x.r.messages| < c.max)
    case Wake => x.r.phase.Idle?
    case AppTake => x.r.messages != []
    case AppSettle(tag) => tag in x.r.unsettled && tag !in x.r.messages
  }

  function Next(exact: bool, c: Config, x: Sys, a: Action): Sys
    requires Can(c, x, a)
  {
    match a
    case Take(more) => x.(s := x.s.(holding := Some(Transfer(more, x.s.tag))))
    case Put => x.(s := SenderPut(exact, x.s), sr := x.sr + [x.s.holding.value])
    case GetFlow => x.(s := SenderFlow(exact, x.s, x.rs[0]), rs := x.rs[1..])
    case Compute => x.(r := AfterCompute(exact, c.max, x.r))
    case Issue => x.(r := AfterIssue(exact, c.max, x.r))
    case Bits => x.(r := AfterBits(exact, x.r))
    case SendFlow => x.(r := x.r.(phase := Idle), rs := x.rs + [x.r.phase.flow])
    case GetTransfer => x.(r := AfterTransfer(exact, c.second, x.r, x.sr[0]), sr := x.sr[1..])
    case Wake => x.(r := x.r.(phase := Top))
    case AppTake => x.(r := x.r.(messages := x.r.messages[1..]))
    case AppSettle(tag) => x.(r := x.r.(unsettled := x.r.unsettled - {tag}))
  }

  /** Both links are attached with the sender's initial delivery count and without credit. */
  function Start(c: Config): Sys {
    Sys(Snd(c.first, 0, None, 0, c.first), Rcv(c.first, 0, 0, {}, [], Top, c.first), [], [])
  }

  function Run(exact: bool, c: Config, acts: seq<Action>): Option<Sys> {
    if acts == [] then Some(Start(c))
    else match Run(exact, c, acts[..|acts| - 1])
      case None => None
      case Some(x) => if Can(c, x, acts[|acts| - 1]) then Some(Next(exact, c, x, acts[|acts| - 1])) else None
  }

  // What every step keeps.

  /** The tags of the messages that are completed in a channel are `n` to `m - 1`, in order. */
  predicate Tags(q: seq<Transfer>, n: nat, m: nat) {
    if q == [] then n == m
    else if q[0].more then Tags(q[1..], n, m)
    else q[0].tag == n && Tags(q[1..], n + 1, m)
  }

  /** The limits of the flows in a channel never go back, from `lim` to at most `top`. */
  predicate Limits(q: seq<Flow>, lim: int, top: int) {
    if q == [] then lim <= top
    else lim <= q[0].count + q[0].credit && Limits(q[1..], q[0].count + q[0].credit, top)
  }

  function Completing(q: seq<Transfer>): nat {
    if q == [] then 0 else (if q[0].more then 0 else 1) + Completing(q[1..])
  }

  /** The limits of both sides. `k` is the number of messages that the receiver has completed. */
  ghost predicate LimitInv(c: Config, x: Sys, k: nat) {
    && x.s.seen == x.s.count + x.s.credit
    && x.r.issued == x.r.count + x.r.credit
    && 0 <= x.s.credit && (x.s.holding.Some? ==> x.s.credit > 0 && x.s.holding.value.tag == x.s.tag)
    && x.r.count == c.first + k && x.s.count == c.first + x.s.tag
    && Tags(x.sr, k, x.s.tag)
    && match x.r.phase
       case Waiting(f) => Limits(x.rs + [f], x.s.seen, x.r.issued) && f.count + f.credit == x.r.issued
       case _ => Limits(x.rs, x.s.seen, x.r.issued)
  }

  /** The receiver's account. */
  ghost predicate Account(c: Config, r: Receiver, k: nat) {
    && (forall t :: t in r.unsettled ==> t < k)
    && r.credit >= 0
    && !r.phase.Failed?
    && r.toAdd >= 0 && (!r.phase.Issued? ==> r.toAdd == 0)
    && r.toAdd + r.credit + |r.unsettled| <= c.max
    && (r.phase.Computed? ==> 0 <= r.phase.pending && r.phase.pending + r.credit + |r.unsettled| <= c.max)
    && (r.phase.Waiting? ==> 0 <= r.phase.flow.credit <= c.max)
  }

  /** Settling second, every queued message is unsettled, and queued once. */
  ghost predicate Queue(c: Config, r: Receiver, k: nat) {
    && (forall j :: 0 <= j < |r.messages| ==> r.messages[j] < k)
    && (forall i, j :: 0 <= i < j < |r.messages| ==> r.messages[i] != r.messages[j])
    && (c.second ==> forall j :: 0 <= j < |r.messages| ==> r.messages[j] in r.unsettled)
  }

  ghost predicate Inv(c: Config, x: Sys, k: nat) { LimitInv(c, x, k) && Account(c, x.r, k) && Queue(c, x.r, k) }

  lemma {:induction false} TagsIs(q: seq<Transfer>, n: nat, m: nat)
    requires Tags(q, n, m)
    ensures m == n + Completing(q)
  {
    if q != [] { TagsIs(q[1..], if q[0].more then n else n + 1, m); }
  }

  lemma {:induction false} TagsAppend(q: seq<Transfer>, n: nat, m: nat, t: Transfer)
    requires Tags(q, n, m) && t.tag == m
    ensures Tags(q + [t], n, if t.more then m else m + 1)
  {
    if q == [] {
      assert (q + [t])[1..] == [];
    } else {
      assert (q + [t])[1..] == q[1..] + [t];
      TagsAppend(q[1..], if q[0].more then n else n + 1, m, t);
    }
  }

  lemma {:induction false} LimitsOrder(q: seq<Flow>, lim: int, top: int)
    requires Limits(q, lim, top)
    ensures lim <= top
  {
    if q != [] { LimitsOrder(q[1..], q[0].count + q[0].credit, top); }
  }

  lemma {:induction false} LimitsAppend(q: seq<Flow>, lim: int, top: int, f: Flow)
    requires Limits(q, lim, top) && top <= f.count + f.credit
    ensures Limits(q + [f], lim, f.count + f.credit)
  {
    if q == [] {
      assert (q + [f])[1..] == [];
    } else {
      assert (q + [f])[1..] == q[1..] + [f];
      LimitsAppend(q[1..], q[0].count + q[0].credit, top, f);
    }
  }

  /** The sender's limit never passes the receiver's. */
  lemma LimitOrder(c: Config, x: Sys, k: nat)
    requires LimitInv(c, x, k)
    ensures x.s.seen <= x.r.issued
    ensures x.s.credit + Completing(x.sr) <= x.r.credit
    ensures x.s.count == x.r.count + Completing(x.sr)
  {
    match x.r.phase {
      case Waiting(f) => LimitsOrder(x.rs + [f], x.s.seen, x.r.issued);
      case _ => LimitsOrder(x.rs, x.s.seen, x.r.issued);
    }
    TagsIs(x.sr, k, x.s.tag);
  }

  /** The number of completed messages after a step. */
  function Done(x: Sys, a: Action, k: nat): nat {
    if a.GetTransfer? && x.sr != [] && !x.sr[0].more then k + 1 else k
  }

  /** The sender's steps. */
  lemma SenderKeeps(c: Config, x: Sys, a: Action, k: nat)
    requires Inv(c, x, k) && Can(c, x, a) && (a.Take? || a.Put? || a.GetFlow?)
    ensures Inv(c, Next(true, c, x, a), k)
  {
    hide Account, Queue;
    if a.Put? {
      TagsAppend(x.sr, k, x.s.tag, x.s.holding.value);
    } else if a.GetFlow? {
      assert x.r.phase.Waiting? ==> (x.rs + [x.r.phase.flow])[1..] == x.rs[1..] + [x.r.phase.flow];
    }
  }

  /** A transfer that completes a message always finds credit; it moves one unit from the credit
      to the unsettled messages. */
  lemma TransferKeeps(c: Config, x: Sys, k: nat)
    requires Inv(c, x, k) && Offered(x)
    ensures Can(c, x, GetTransfer) ==> Inv(c, Next(true, c, x, GetTransfer), Done(x, GetTransfer, k))
    ensures Completes(x) ==> x.r.credit > 0
    ensures Completes(x) && c.second ==> Can(c, x, GetTransfer)
  {
    LimitOrder(c, x, k);
    if Completes(x) {
      if c.second { QueueBound(c, x.r, k); }
      AccountTransfer(c, x.r, k, x.sr[0]);
      QueueTransfer(c, x.r, k, x.sr[0]);
    }
    hide Limits, Account, Queue;
  }

  lemma AccountTransfer(c: Config, r: Receiver, k: nat, t: Transfer)
    requires Account(c, r, k) && !t.more && t.tag == k && r.credit > 0 && (r.phase.Waiting? || r.phase.Idle?)
    ensures Account(c, AfterTransfer(true, c.second, r, t), k + 1)
  {
  }

  lemma QueueTransfer(c: Config, r: Receiver, k: nat, t: Transfer)
    requires Queue(c, r, k) && !t.more && t.tag == k
    ensures Queue(c, AfterTransfer(true, c.second, r, t), k + 1)
  {
  }

  lemma QueueBound(c: Config, r: Receiver, k: nat)
    requires Queue(c, r, k) && c.second
    ensures |r.messages| <= |r.unsettled|
  {
    DistinctBound(r.messages, r.unsettled);
  }

  lemma {:induction false} DistinctBound(q: seq<nat>, s: set<nat>)
    requires forall j :: 0 <= j < |q| ==> q[j] in s
    requires forall i, j :: 0 <= i < j < |q| ==> q[i] != q[j]
    ensures |q| <= |s|
  {
    if q != [] {
      var n := |q| - 1;
      assert forall j :: 0 <= j < n ==> q[j] in s - {q[n]};
      DistinctBound(q[..n], s - {q[n]});
    }
  }

  /** The receiver's own steps. */
  lemma ReceiverKeeps(c: Config, x: Sys, a: Action, k: nat)
    requires Inv(c, x, k) && Can(c, x, a) && (a.Compute? || a.Issue? || a.Bits? || a.SendFlow? || a.Wake?)
    ensures Inv(c, Next(true, c, x, a), k)
  {
    hide Tags;
    if a.Bits? && x.r.toAdd > 0 {
      LimitsAppend(x.rs, x.s.seen, x.r.issued, Flow(x.r.count, x.r.toAdd + x.r.credit));
    }
  }

  /** The application's steps: settling can only free credit. */
  lemma AppKeeps(c: Config, x: Sys, a: Action, k: nat)
    requires Inv(c, x, k) && Can(c, x, a) && (a.AppTake? || a.AppSettle?)
    ensures Inv(c, Next(true, c, x, a), k)
  {
    hide Tags, Limits;
    if a.AppSettle? { assert |x.r.unsettled - {a.tag}| == |x.r.unsettled| - 1; }
  }

  lemma NextKeeps(c: Config, x: Sys, a: Action, k: nat)
    requires Inv(c, x, k) && Can(c, x, a)
    ensures Inv(c, Next(true, c, x, a), Done(x, a, k))
  {
    assert a.GetTransfer? ==> Offered(x);
    hide Inv, Next, Can;
    if a.GetTransfer? { TransferKeeps(c, x, k); }
    else if a.Take? || a.Put? || a.GetFlow? { SenderKeeps(c, x, a, k); }
    else if a.AppTake? || a.AppSettle? { AppKeeps(c, x, a, k); }
    else { ReceiverKeeps(c, x, a, k); }
  }

  // The code's arithmetic.

  function AbsFlow(f: Flow): Flow { Flow(f.count % TWO32, f.credit % TWO32) }

  function AbsFlows(q: seq<Flow>): (r: seq<Flow>)
    ensures |r| == |q| && forall k :: 0 <= k < |q| ==> r[k] == AbsFlow(q[k])
  {
    seq(|q|, k requires 0 <= k < |q| => AbsFlow(q[k]))
  }

  function AbsPhase(p: Phase): Phase {
    match p
    case Computed(n) => Computed(n % TWO32)
    case Waiting(f) => Waiting(AbsFlow(f))
    case _ => p
  }

  function AbsSender(s: Sender): Sender {
    s.(count := s.count % TWO32, credit := s.credit % TWO32, seen := s.seen % TWO32)
  }

  function AbsReceiver(r: Receiver): Receiver {
    r.(count := r.count % TWO32, credit := r.credit % TWO32, toAdd := r.toAdd % TWO32,
       phase := AbsPhase(r.phase), issued := r.issued % TWO32)
  }

  function AbsSys(x: Sys): Sys { Sys(AbsSender(x.s), AbsReceiver(x.r), x.sr, AbsFlows(x.rs)) }

  lemma PutAbs(s: Sender)
    requires s.holding.Some?
    ensures SenderPut(false, AbsSender(s)) == AbsSender(SenderPut(true, s))
  {
    ModAdd(s.count, 1);
    ModAdd(s.credit, -1);
  }

  lemma FlowAbs(s: Sender, f: Flow)
    ensures SenderFlow(false, AbsSender(s), AbsFlow(f)) == AbsSender(SenderFlow(true, s, f))
  {
    var a, b, n := f.credit, f.count, s.count;
    ModAdd(a, b % TWO32 - n % TWO32);
    ModAdd(b, a - n % TWO32);
    ModNeg(n, a + b);
    ModAdd(a, b % TWO32);
    ModAdd(b, a);
  }

  lemma TransferAbs(second: bool, r: Receiver, t: Transfer)
    ensures AfterTransfer(false, second, AbsReceiver(r), t) == AbsReceiver(AfterTransfer(true, second, r, t))
  {
    ModAdd(r.count, 1);
    ModAdd(r.credit, -1);
  }

  /** The account keeps all of the receiver's sums below 2^32. */
  lemma ComputeAbs(c: Config, r: Receiver, k: nat)
    requires Account(c, r, k)
    ensures AfterCompute(false, c.max, AbsReceiver(r)) == AbsReceiver(AfterCompute(true, c.max, r))
  {
    ModSmall(r.credit);
    ModSmall(c.max - (r.credit + |r.unsettled|));
    hide Account;
  }

  lemma IssueAbs(c: Config, r: Receiver, k: nat)
    requires Account(c, r, k) && r.phase.Computed?
    ensures AfterIssue(false, c.max, AbsReceiver(r)) == AbsReceiver(AfterIssue(true, c.max, r))
  {
    var p := r.phase.pending;
    ModSmall(p);
    ModSmall(r.credit);
    ModSmall(r.toAdd);
    ModSmall(r.toAdd + p);
    ModSmall(p + |r.unsettled| + r.credit);
    hide Account;
  }

  lemma BitsAbs(c: Config, r: Receiver, k: nat)
    requires Account(c, r, k) && r.phase.Issued?
    ensures AfterBits(false, AbsReceiver(r)) == AbsReceiver(AfterBits(true, r))
  {
    ModAdd(r.count, r.toAdd + r.credit);
    ModSmall(r.toAdd);
    ModSmall(r.credit);
    ModSmall(r.toAdd + r.credit);
    hide Account;
  }

  lemma CanAbs(c: Config, x: Sys, k: nat, a: Action)
    requires 0 <= x.s.credit < TWO32
    ensures Can(c, AbsSys(x), a) <==> Can(c, x, a)
  {
  }

  lemma NextAbs(c: Config, x: Sys, k: nat, a: Action)
    requires Inv(c, x, k) && Can(c, x, a)
    ensures Can(c, AbsSys(x), a) && Next(false, c, AbsSys(x), a) == AbsSys(Next(true, c, x, a))
  {
    LimitOrder(c, x, k);
    CanAbs(c, x, k, a);
    hide LimitInv, Account, Queue, SenderPut, SenderFlow, AfterCompute, AfterIssue, AfterBits, AfterTransfer;
    match a {
      case Put => PutAbs(x.s);
      case GetFlow => FlowAbs(x.s, x.rs[0]); assert AbsFlows(x.rs)[1..] == AbsFlows(x.rs[1..]);
      case Compute => ComputeAbs(c, x.r, k);
      case Issue => IssueAbs(c, x.r, k);
      case Bits => BitsAbs(c, x.r, k);
      case SendFlow => assert AbsFlows(x.rs + [x.r.phase.flow]) == AbsFlows(x.rs) + [AbsFlow(x.r.phase.flow)];
      case GetTransfer => TransferAbs(c.second, x.r, x.sr[0]);
      case _ =>
    }
  }

  /** The messages that the receiver has completed in a run. */
  function Completed(c: Config, acts: seq<Action>): nat {
    if acts == [] then 0
    else
      var init := acts[..|acts| - 1];
      var k := Completed(c, init);
      match Run(true, c, init)
      case None => k
      case Some(x) => Done(x, acts[|acts| - 1], k)
  }

  /** Every run of the code is a run on unbounded integers, reduced modulo 2^32 at each step. */
  lemma {:induction false} ExactRun(c: Config, acts: seq<Action>)
    ensures Run(false, c, acts).Some? <==> Run(true, c, acts).Some?
    ensures Run(true, c, acts).Some? ==>
      && Inv(c, Run(true, c, acts).value, Completed(c, acts))
      && Run(false, c, acts).value == AbsSys(Run(true, c, acts).value)
  {
    if acts == [] {
      assert AbsSys(Start(c)) == Start(c);
    } else {
      var init, a := acts[..|acts| - 1], acts[|acts| - 1];
      var k := Completed(c, init);
      ExactRun(c, init);
      var r := Run(true, c, init);
      if r.Some? {
        CreditWord(c, r.value, k);
        hide Inv, Next, AbsSys, Can, Done;
        CanAbs(c, r.value, k, a);
        if Can(c, r.value, a) {
          NextAbs(c, r.value, k, a);
          NextKeeps(c, r.value, a, k);
        }
      }
    }
  }

  lemma CreditWord(c: Config, x: Sys, k: nat)
    requires Inv(c, x, k)
    ensures 0 <= x.s.credit <= x.r.credit <= c.max && 0 <= x.r.credit
  {
    LimitOrder(c, x, k);
  }

  /** Each side's delivery count plus credit is the limit of the last flow it received or made; the
      counts differ by the messages under way; and the sender's credit together with those
      messages is covered by the receiver's credit. */
  ghost predicate Safe(c: Config, x: Sys) {
    && (x.s.count + x.s.credit) % TWO32 == x.s.seen
    && (x.r.count + x.r.credit) % TWO32 == x.r.issued
    && (x.r.count + Completing(x.sr)) % TWO32 == x.s.count
    && 0 <= x.s.credit && x.s.credit + Completing(x.sr) <= x.r.credit <= c.max
    && (x.s.holding.Some? ==> x.s.credit > 0)
  }

  /** Link credit is safe in every state that sender and receiver reach, so that taking a credit
      never wraps on either side. */
  lemma CreditSafety(c: Config, acts: seq<Action>)
    requires Run(false, c, acts).Some?
    ensures Safe(c, Run(false, c, acts).value)
  {
    ExactRun(c, acts);
    hide Run, Safe, Inv;
    StateSafe(c, Run(true, c, acts).value, Completed(c, acts));
  }

  lemma StateSafe(c: Config, x: Sys, k: nat)
    requires Inv(c, x, k)
    ensures Safe(c, AbsSys(x))
  {
    LimitOrder(c, x, k);
    CreditWord(c, x, k);
    assert x.s.holding.Some? ==> x.s.credit > 0;
    Congruences(c, x, k);
    hide Completing, LimitInv, Account, Queue;
    ModSmall(x.s.credit);
    ModSmall(x.r.credit);
    hide Inv;
  }

  lemma Congruences(c: Config, x: Sys, k: nat)
    requires LimitInv(c, x, k) && x.s.count == x.r.count + Completing(x.sr)
    ensures (x.s.count % TWO32 + x.s.credit) % TWO32 == x.s.seen % TWO32
    ensures (x.r.count % TWO32 + x.r.credit) % TWO32 == x.r.issued % TWO32
    ensures (x.r.count % TWO32 + Completing(x.sr)) % TWO32 == x.s.count % TWO32
  {
    ModAdd(x.s.count, x.s.credit);
    ModAdd(x.r.count, x.r.credit);
    ModAdd(x.r.count, Completing(x.sr));
  }

  /** Credit and unsettled messages are at most the maximum, the pending credit is computed without
      wrap, issuing it has not failed, and a message that arrives finds credit and, settling
      second, room in the queue. */
  ghost predicate Accounted(c: Config, x: Sys) {
    && 0 <= x.r.credit && x.r.credit + |x.r.unsettled| <= c.max
    && Pending(false, c.max, x.r) == c.max - (x.r.credit + |x.r.unsettled|)
    && !x.r.phase.Failed?
    && (Completes(x) ==> x.r.credit > 0 && (c.second ==> |x.r.messages| < c.max))
  }

  /** Receiver accounting holds in every state reached, under any interleaving of the mux with the
      application that takes and settles messages. */
  lemma ReceiverAccounting(c: Config, acts: seq<Action>)
    requires Run(false, c, acts).Some?
    ensures Accounted(c, Run(false, c, acts).value)
  {
    ExactRun(c, acts);
    hide Run, Accounted, Inv;
    StateAccounted(c, Run(true, c, acts).value, Completed(c, acts));
  }

  lemma StateAccounted(c: Config, x: Sys, k: nat)
    requires Inv(c, x, k)
    ensures Accounted(c, AbsSys(x))
  {
    CreditWord(c, x, k);
    if Offered(x) { TransferKeeps(c, x, k); }
    ModSmall(x.r.credit);
    ModSmall(c.max - (x.r.credit + |x.r.unsettled|));
    hide Limits, Tags, Queue, LimitInv, Next, Done;
    FirstSame(x);
  }

  lemma FirstSame(x: Sys)
    ensures AbsSys(x).sr == x.sr && AbsSys(x).r.unsettled == x.r.unsettled && AbsSys(x).r.messages == x.r.messages
    ensures AbsSys(x).r.phase.Failed? <==> x.r.phase.Failed?
    ensures Offered(AbsSys(x)) <==> Offered(x)
  {
  }

  // When credit is given, and when the receiver stalls.

  /** The receiver as its mux last saw it when it computed the pending credit. */
  function Looked(exact: bool, c: Config, acts: seq<Action>): Option<Receiver> {
    if acts == [] then None
    else
      var init := acts[..|acts| - 1];
      var r := Run(exact, c, init);
      if acts[|acts| - 1].Compute? && r.Some? then Some(r.value.r) else Looked(exact, c, init)
  }

  /** At least half of the maximum, and at least 1, is neither credit nor unsettled. */
  predicate Due(c: Config, l: Receiver) {
    var free := c.max - (l.credit + |l.unsettled|);
    free >= c.max / 2 && free >= 1
  }

  /** Where a pass of the mux that started with `l` stands. */
  ghost predicate Passing(c: Config, l: Receiver, r: Receiver) {
    var free := c.max - (l.credit + |l.unsettled|);
    match r.phase
    case Top => true
    case Computed(p) => p == free >= c.max / 2 && r.credit == l.credit && r.count == l.count && r.toAdd == 0
    case Issued =>
      && r.credit == l.credit && r.count == l.count
      && r.toAdd == if free >= c.max / 2 then free else 0
    case Waiting(f) => Due(c, l) && f == Flow(l.count, c.max - |l.unsettled|)
    case Idle => if Due(c, l) then r.credit >= 1 else r.credit == l.credit
    case Failed => false
  }

  /** A flow that waits to be sent gives more than the sender could know of. */
  ghost predicate Ahead(x: Sys) { x.r.phase.Waiting? ==> Limits(x.rs, x.s.seen, x.r.issued - 1) }

  lemma {:induction false} LimitsMore(q: seq<Flow>, lim: int, top: int, more: int)
    requires Limits(q, lim, top) && top <= more
    ensures Limits(q, lim, more)
  {
    if q != [] { LimitsMore(q[1..], q[0].count + q[0].credit, top, more); }
  }

  lemma AheadStep(c: Config, x: Sys, a: Action, k: nat)
    requires Inv(c, x, k) && Can(c, x, a) && Ahead(x)
    ensures Ahead(Next(true, c, x, a))
  {
    hide Tags, Queue;
    if a.Bits? && x.r.toAdd > 0 {
      LimitsMore(x.rs, x.s.seen, x.r.issued, x.r.count + x.r.toAdd + x.r.credit - 1);
    }
  }

  /** So there is still credit when it is sent. */
  lemma AheadCredit(c: Config, x: Sys, k: nat)
    requires Inv(c, x, k) && Ahead(x) && x.r.phase.Waiting?
    ensures x.r.credit >= 1
  {
    LimitsOrder(x.rs, x.s.seen, x.r.issued - 1);
    TagsIs(x.sr, k, x.s.tag);
    hide Tags, Limits, Queue;
  }

  lemma PassingStep(c: Config, x: Sys, a: Action, k: nat, l: Receiver)
    requires Inv(c, x, k) && Can(c, x, a) && Ahead(x) && (x.r.phase.Top? || Passing(c, l, x.r))
    ensures Passing(c, if a.Compute? then x.r else l, Next(true, c, x, a).r)
  {
    if x.r.phase.Waiting? { AheadCredit(c, x, k); }
    hide Tags, Limits, LimitInv, Queue;
  }

  lemma {:induction false} PassingRun(c: Config, acts: seq<Action>)
    requires Run(true, c, acts).Some?
    ensures Ahead(Run(true, c, acts).value)
    ensures var x, l := Run(true, c, acts).value, Looked(true, c, acts);
      x.r.phase.Top? || (l.Some? && Passing(c, l.value, x.r))
  {
    if acts != [] {
      var init, a := acts[..|acts| - 1], acts[|acts| - 1];
      var x, l := Run(true, c, init).value, Looked(true, c, init);
      PassingRun(c, init);
      ExactRun(c, init);
      hide Inv, Ahead, Passing, Next;
      AheadStep(c, x, a, Completed(c, init));
      PassingStep(c, x, a, Completed(c, init), if l.Some? then l.value else x.r);
      if l.None? && !a.Compute? { TopStays(c, x, a); }
    }
  }

  lemma TopStays(c: Config, x: Sys, a: Action)
    requires x.r.phase.Top? && Can(c, x, a) && !a.Compute?
    ensures Next(true, c, x, a).r.phase.Top?
  {
  }

  lemma {:induction false} LookedAbs(c: Config, acts: seq<Action>)
    requires Run(true, c, acts).Some?
    ensures var l := Looked(true, c, acts);
      Looked(false, c, acts) == if l.None? then None else Some(AbsReceiver(l.value))
    ensures Looked(true, c, acts).Some? ==> 0 <= Looked(true, c, acts).value.credit < TWO32
  {
    if acts != [] {
      var init := acts[..|acts| - 1];
      LookedAbs(c, init);
      ExactRun(c, init);
      CreditWord(c, Run(true, c, init).value, Completed(c, init));
      hide Inv, Next, Can;
    }
  }

  /** In every run, a pass of the mux makes a flow exactly when at least half of the maximum, and at least 1, was
      neither credit nor unsettled when the pass began, and that flow brings the credit to all that was not
      unsettled; otherwise the credit stays. */
  lemma FlowIff(c: Config, acts: seq<Action>)
    requires Run(false, c, acts + [Bits]).Some?
    ensures Looked(false, c, acts).Some?
    ensures var r, l := Run(false, c, acts + [Bits]).value.r, Looked(false, c, acts).value;
      if Due(c, l) then r.phase == Waiting(Flow(l.count, c.max - |l.unsettled|)) && r.credit == c.max - |l.unsettled|
      else r.phase == Idle && r.credit == l.credit
  {
    var es := acts + [Bits];
    assert es[..|es| - 1] == acts;
    ExactRun(c, acts);
    PassingRun(c, acts);
    LookedAbs(c, acts);
    var x, l := Run(true, c, acts).value, Looked(true, c, acts).value;
    CreditWord(c, x, Completed(c, acts));
    CanAbs(c, x, Completed(c, acts), Bits);
    NextAbs(c, x, Completed(c, acts), Bits);
    LookedBound(c, acts);
    hide Run, Looked, Completed;
    BitsPass(c, x, Completed(c, acts), l);
  }

  lemma BitsPass(c: Config, x: Sys, k: nat, l: Receiver)
    requires Inv(c, x, k) && Passing(c, l, x.r) && x.r.phase.Issued? && 0 <= l.credit <= c.max - |l.unsettled|
    ensures var r := AbsReceiver(AfterBits(true, x.r)); var m := AbsReceiver(l);
      if Due(c, m) then r.phase == Waiting(Flow(m.count, c.max - |m.unsettled|)) && r.credit == c.max - |m.unsettled|
      else r.phase == Idle && r.credit == m.credit
  {
    ModSmall(l.credit);
    ModSmall(c.max - |l.unsettled|);
    hide LimitInv, Queue;
  }

  /** In every run, an idle receiver has no credit exactly when it had none and more than half of the maximum, or
      all of it, was unsettled when its mux last looked. So with at most half of it unsettled it never stalls. */
  lemma StallIff(c: Config, acts: seq<Action>)
    requires Run(false, c, acts).Some? && Run(false, c, acts).value.r.phase.Idle?
    ensures Looked(false, c, acts).Some?
    ensures var l := Looked(false, c, acts).value;
      && (Run(false, c, acts).value.r.credit == 0 <==>
            l.credit == 0 && (2 * |l.unsettled| > c.max + c.max % 2 || |l.unsettled| == c.max))
      && (0 < c.max && 2 * |l.unsettled| <= c.max ==> Run(false, c, acts).value.r.credit > 0)
  {
    ExactRun(c, acts);
    PassingRun(c, acts);
    LookedAbs(c, acts);
    var x, l := Run(true, c, acts).value, Looked(true, c, acts).value;
    CreditWord(c, x, Completed(c, acts));
    LookedBound(c, acts);
    ModSmall(x.r.credit);
    ModSmall(l.credit);
    hide Run, Looked, Completed, Inv;
  }

  lemma {:induction false} LookedBound(c: Config, acts: seq<Action>)
    requires Run(true, c, acts).Some? && Looked(true, c, acts).Some?
    ensures var l := Looked(true, c, acts).value; l.credit + |l.unsettled| <= c.max
  {
    var init := acts[..|acts| - 1];
    ExactRun(c, init);
    if acts[|acts| - 1].Compute? {
      AccountBound(c, Run(true, c, init).value, Completed(c, init));
    } else {
      LookedBound(c, init);
    }
  }

  lemma AccountBound(c: Config, x: Sys, k: nat)
    requires Inv(c, x, k)
    ensures x.r.credit + |x.r.unsettled| <= c.max
  {
  }

  // Room in the queue.

  /** The messages that the application has taken. */
  function Taken(acts: seq<Action>): nat {
    if acts == [] then 0 else Taken(acts[..|acts| - 1]) + if acts[|acts| - 1].AppTake? then 1 else 0
  }

  lemma {:induction false} QueueCount(c: Config, acts: seq<Action>)
    requires Run(true, c, acts).Some?
    ensures |Run(true, c, acts).value.r.messages| == Completed(c, acts) - Taken(acts) <= c.max
  {
    if acts != [] {
      var init, a := acts[..|acts| - 1], acts[|acts| - 1];
      QueueCount(c, init);
      CountStep(c, Run(true, c, init).value, a, Completed(c, init));
      hide Next, Can, Done;
    }
  }

  lemma CountStep(c: Config, x: Sys, a: Action, k: nat)
    requires Can(c, x, a) && |x.r.messages| <= c.max
    ensures var y := Next(true, c, x, a);
      && |y.r.messages| == |x.r.messages| + (Done(x, a, k) - k) - (if a.AppTake? then 1 else 0)
      && |y.r.messages| <= c.max
  {
  }

  /** In every state, a message that arrives has to wait for room in the queue if and only if the application is
      as many messages behind as the queue holds, which is the maximum credit. Settling second, that never
      happens; settling first, the credit does not count the messages in the queue. */
  lemma RoomIff(c: Config, acts: seq<Action>)
    requires Run(false, c, acts).Some? && Completes(Run(false, c, acts).value)
    ensures !Can(c, Run(false, c, acts).value, GetTransfer) <==> Completed(c, acts) == Taken(acts) + c.max
    ensures c.second ==> Completed(c, acts) < Taken(acts) + c.max
  {
    ExactRun(c, acts);
    QueueCount(c, acts);
    ReceiverAccounting(c, acts);
    var x := Run(true, c, acts).value;
    hide Run, Completed, Taken, Inv;
    FirstSame(x);
  }

  /** The steps that bring one message to a receiver with a maximum credit of 1. */
  const ROUND: seq<Action> := [Compute, Issue, Bits, SendFlow, GetFlow, Take(false), Put]

  /** For example, with the default maximum credit of 1, the second message has to wait until the first is
      taken. */
  lemma SecondMessageWaits()
    ensures var c := Config(1, false, 0);
      var r := Run(false, c, ROUND + [GetTransfer] + ROUND);
      r.Some? && Completes(r.value) && !Can(c, r.value, GetTransfer)
  {
    var c := Config(1, false, 0);
    var x := Sys(Snd(0, 0, None, 0, 0), Rcv(0, 0, 0, {}, [], Top, 0), [], []);
    RoundFrom(c, [], x);
    var y := AfterRound(x);
    assert [] + ROUND == ROUND;
    var acts := ROUND + [GetTransfer];
    RunSnoc(c, ROUND, y, GetTransfer);
    RoundFrom(c, acts, Next(false, c, y, GetTransfer));
  }

  lemma RunSnoc(c: Config, acts: seq<Action>, x: Sys, a: Action)
    requires Run(false, c, acts) == Some(x) && Can(c, x, a)
    ensures Run(false, c, acts + [a]) == Some(Next(false, c, x, a))
  {
    assert (acts + [a])[..|acts|] == acts;
  }

  function AfterRound(x: Sys): Sys {
    var n := x.r.count;
    Sys(Snd(n + 1, 0, None, x.s.tag + 1, n + 1), x.r.(credit := 1, phase := Idle, issued := n + 1),
      [Transfer(false, x.s.tag)], [])
  }

  lemma RoundFrom(c: Config, acts: seq<Action>, x: Sys)
    requires c.max == 1 && Run(false, c, acts) == Some(x)
    requires x.s.holding.None? && x.sr == [] && x.rs == [] && x.r.phase.Top?
    requires x.r.credit == 0 && x.r.toAdd == 0 && x.r.unsettled == {} && 0 <= x.r.count == x.s.count < 9
    ensures Run(false, c, acts + ROUND) == Some(AfterRound(x))
  {
    hide Run;
    var n, t := x.r.count, Transfer(false, x.s.tag);
    var r1 := x.r.(phase := Computed(1));
    var r2 := x.r.(toAdd := 1, phase := Issued);
    var r3 := x.r.(credit := 1, phase := Waiting(Flow(n, 1)), issued := n + 1);
    var r4 := r3.(phase := Idle);
    var s5 := x.s.(credit := 1, seen := n + 1);
    RunSnoc(c, acts, x, Compute);
    assert Next(false, c, x, Compute) == x.(r := r1);
    RunSnoc(c, acts + [Compute], x.(r := r1), Issue);
    assert Next(false, c, x.(r := r1), Issue) == x.(r := r2);
    RunSnoc(c, acts + [Compute] + [Issue], x.(r := r2), Bits);
    assert Next(false, c, x.(r := r2), Bits) == x.(r := r3);
    RunSnoc(c, acts + [Compute] + [Issue] + [Bits], x.(r := r3), SendFlow);
    assert Next(false, c, x.(r := r3), SendFlow) == Sys(x.s, r4, [], [Flow(n, 1)]);
    RunSnoc(c, acts + [Compute] + [Issue] + [Bits] + [SendFlow], Sys(x.s, r4, [], [Flow(n, 1)]), GetFlow);
    assert Next(false, c, Sys(x.s, r4, [], [Flow(n, 1)]), GetFlow) == Sys(s5, r4, [], []);
    RunSnoc(c, acts + [Compute] + [Issue] + [Bits] + [SendFlow] + [GetFlow], Sys(s5, r4, [], []), Take(false));
    RunSnoc(c, acts + [Compute] + [Issue] + [Bits] + [SendFlow] + [GetFlow] + [Take(false)],
      Sys(s5.(holding := Some(t)), r4, [], []), Put);
    assert Next(false, c, Sys(s5.(holding := Some(t)), r4, [], []), Put) == AfterRound(x);
    assert acts + ROUND == acts + [Compute] + [Issue] + [Bits] + [SendFlow] + [GetFlow] + [Take(false)] + [Put];
  }
}
