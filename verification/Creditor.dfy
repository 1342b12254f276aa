/** The creditor of a receiver, and the arms of the link muxes that count credit. */
module Creditor {
  import opened Bytes
  import opened LinkCredit
  import F = Frames

  // Manual credit and drain.

  /** `drained` is the number of the wait channel of the drain in progress, `made` the number of
      such channels made so far, and `closed` those closed, in order. */
  datatype State = State(pendingDrain: bool, creditsToAdd: U32, drained: Option<nat>, made: nat, closed: seq<nat>)

  /** What the receiver knows about its link when credit is issued. */
  datatype Link = Link(unsettled: nat, available: U32, max: U32)

  datatype Event = Issue(credits: U32, link: Link) | Bits(current: U32) | Drain | EndDrain

  predicate Refused(s: State, e: Event) {
    match e
    case Issue(credits, l) => s.drained.Some? || (credits + l.unsettled % TWO32 + l.available) % TWO32 > l.max
    case Drain => s.drained.Some?
    case _ => false
  }

  function Step(s: State, e: Event): State {
    if Refused(s, e) then s
    else match e
      case Issue(credits, _) => s.(creditsToAdd := (s.creditsToAdd + credits) % TWO32)
      case Bits(_) => s.(pendingDrain := false, creditsToAdd := 0)
      case Drain => s.(pendingDrain := true, drained := Some(s.made), made := s.made + 1)
      case EndDrain => if s.drained.None? then s else s.(drained := None, closed := s.closed + [s.drained.value])
  }

  const NEW := State(false, 0, None, 0, [])

  function Run(es: seq<Event>): State {
    if es == [] then NEW else Step(Run(es[..|es| - 1]), es[|es| - 1])
  }

  /** Each wait channel is closed at most once, and all of them are closed except the one of the
      drain in progress. */
  ghost predicate Drains(s: State) {
    && |s.closed| == s.made - (if s.drained.Some? then 1 else 0)
    && (s.drained.Some? ==> s.drained.value == s.made - 1)
    && forall k :: 0 <= k < |s.closed| ==> s.closed[k] == k
  }

  lemma {:induction false} DrainsKept(es: seq<Event>)
    ensures Drains(Run(es))
  {
    if es != [] { DrainsKept(es[..|es| - 1]); }
  }

  /** The credit that was issued, that flows took along, and that a drain discarded. */
  function Total(es: seq<Event>): int {
    if es == [] then 0
    else
      var e := es[|es| - 1];
      Total(es[..|es| - 1]) + if e.Issue? && !Refused(Run(es[..|es| - 1]), e) then e.credits else 0
  }

  function Flowed(es: seq<Event>, drain: bool): int {
    if es == [] then 0
    else
      var s := Run(es[..|es| - 1]);
      Flowed(es[..|es| - 1], drain) + if es[|es| - 1].Bits? && s.pendingDrain == drain then s.creditsToAdd else 0
  }

  /** Credit is conserved: over every history, what was issued is what flows took, what drains
      discarded and what is still to be added. */
  lemma {:induction false} CreditConserved(es: seq<Event>)
    ensures Total(es) % TWO32 == (Flowed(es, false) + Flowed(es, true) + Run(es).creditsToAdd) % TWO32
  {
    if es != [] {
      var init, e := es[..|es| - 1], es[|es| - 1];
      CreditConserved(init);
      var s := Run(init);
      var sum := Flowed(init, false) + Flowed(init, true);
      if e.Issue? && !Refused(s, e) {
        ModAdd(Total(init), e.credits);
        ModAdd(sum + s.creditsToAdd, e.credits);
        ModAdd(s.creditsToAdd + e.credits, sum);
      }
    }
  }

  /** What the next flow carries: the drain flag, and the link credit it sets if any. */
  function NextFlow(s: State, current: U32): (bool, U32) {
    (s.pendingDrain, if s.pendingDrain || s.creditsToAdd == 0 then 0 else (s.creditsToAdd + current) % TWO32)
  }

  /** Over every history, credit issued before a drain waits behind the drain's flow, which discards it. So
      no flow sets credit while a drain is in progress. */
  lemma {:induction false} DrainStopsCredit(es: seq<Event>, current: U32)
    ensures var s := Run(es); s.drained.Some? ==> s.pendingDrain || s.creditsToAdd == 0
    ensures Run(es).drained.Some? ==> NextFlow(Run(es), current).1 == 0
  {
    if es != [] { DrainStopsCredit(es[..|es| - 1], current); }
  }

  /** A drain goes on until it is ended, and from its flow on nothing is added. */
  lemma {:induction false} DrainLasts(es: seq<Event>, more: seq<Event>)
    requires Run(es).drained.Some? && forall e :: e in more ==> !e.EndDrain?
    ensures Run(es + more).drained == Run(es).drained
    ensures Run(es).creditsToAdd == 0 || (exists e :: e in more && e.Bits?) ==> Run(es + more).creditsToAdd == 0
    decreases |more|
  {
    if more == [] {
      assert es + more == es;
    } else {
      var init, e := more[..|more| - 1], more[|more| - 1];
      assert (es + more)[..|es + more| - 1] == es + init;
      DrainLasts(es, init);
      assert forall x :: x in more ==> x in init || x == e;
    }
  }

  // The flows, from the events alone.

  /** A drain was started and has not been ended. */
  predicate Draining(es: seq<Event>) {
    es != [] &&
    match es[|es| - 1]
    case Drain => true
    case EndDrain => false
    case _ => Draining(es[..|es| - 1])
  }

  /** A drain was started, while there was none, and no flow has been made since. */
  predicate DrainDue(es: seq<Event>) {
    es != [] &&
    var init := es[..|es| - 1];
    match es[|es| - 1]
    case Bits(_) => false
    case Drain => !Draining(init) || DrainDue(init)
    case _ => DrainDue(init)
  }

  /** The credit issued, outside of drains and within the maximum, since the last flow. */
  function Issued(es: seq<Event>): nat {
    if es == [] then 0
    else
      var init := es[..|es| - 1];
      match es[|es| - 1]
      case Bits(_) => 0
      case Issue(n, l) =>
        Issued(init) + if !Draining(init) && (n + l.unsettled + l.available) % TWO32 <= l.max then n else 0
      case _ => Issued(init)
  }

  /** In every history, the first flow after an accepted drain carries the drain flag, and no other does. A flow
      without it sets the current credit plus what was issued since the last flow, if anything was. */
  lemma {:induction false} FlowIs(es: seq<Event>, current: U32)
    ensures Run(es).drained.Some? <==> Draining(es)
    ensures Run(es).creditsToAdd == Issued(es) % TWO32
    ensures NextFlow(Run(es), current) ==
      (DrainDue(es), if DrainDue(es) || Issued(es) % TWO32 == 0 then 0 else (Issued(es) + current) % TWO32)
  {
    if es != [] {
      var init, e := es[..|es| - 1], es[|es| - 1];
      FlowIs(init, current);
      if e.Issue? {
        ModAdd(Issued(init), e.credits);
        ModAdd(e.link.unsettled, e.credits + e.link.available);
      }
    }
    ModAdd(Issued(es), current);
  }

  datatype IssueError = LinkDraining | CreditExceeded

  class Creditor {
    var pendingDrain: bool
    var creditsToAdd: U32
    var drained: Option<nat>
    var made: nat
    var closed: seq<nat>

    ghost function View(): State
      reads this
    {
      State(pendingDrain, creditsToAdd, drained, made, closed)
    }

    constructor ()
      ensures View() == NEW
    {
      pendingDrain, creditsToAdd, drained, made, closed := false, 0, None, 0, [];
    }

    method IssueCredit(credits: U32, l: Link) returns (err: Option<IssueError>)
      modifies this
      ensures View() == Step(old(View()), Event.Issue(credits, l))
          && (err.Some? <==> Refused(old(View()), Event.Issue(credits, l)))
      ensures err == Some(LinkDraining) <==> old(drained).Some?
    {
      if drained.Some? {
        return Some(LinkDraining);
      }
      var unsettled := l.unsettled % TWO32;
      if (credits + unsettled + l.available) % TWO32 > l.max {
        return Some(CreditExceeded);
      }
      creditsToAdd := (creditsToAdd + credits) % TWO32;
      return None;
    }

    /** A drain without credit, or the added credit on top of the current one, or nothing. */
    method FlowBits(current: U32) returns (drain: bool, credits: U32)
      modifies this
      ensures View() == Step(old(View()), Event.Bits(current))
      ensures (drain, credits) == NextFlow(old(View()), current)
    {
      drain := pendingDrain;
      if pendingDrain {
        pendingDrain := false;
      }
      if drain || creditsToAdd == 0 {
        credits := 0;
      } else {
        credits := (creditsToAdd + current) % TWO32;
      }
      creditsToAdd := 0;
    }

    /** Starts a drain and returns the channel to wait on, if none is in progress. */
    method StartDrain() returns (wait: Option<nat>)
      modifies this
      ensures View() == Step(old(View()), Drain)
      ensures wait == if old(drained).Some? then None else drained
    {
      if drained.Some? {
        return None;
      }
      drained := Some(made);
      made := made + 1;
      pendingDrain := true;
      return drained;
    }

    method FinishDrain()
      modifies this
      ensures View() == Step(old(View()), EndDrain)
    {
      if drained.Some? {
        closed := closed + [drained.value];
        drained := None;
      }
    }
  }

  // The link muxes.

  class SenderLink {
    const handle: U32
    var deliveryCount: U32
    var availableCredit: U32
    var holding: Option<Transfer>
    ghost var tag: nat
    ghost var seen: int
    /** Replies to flows with the echo flag. */
    var replies: seq<F.PerformFlow>
    /** What the session has taken. */
    var sent: seq<Transfer>

    ghost function View(): Sender
      reads this
    {
      Snd(deliveryCount, availableCredit, holding, tag, seen)
    }

    constructor (handle: U32)
      ensures this.handle == handle && View() == Snd(0, 0, None, 0, 0) && sent == [] && replies == []
    {
      this.handle := handle;
      deliveryCount, availableCredit, holding, tag, seen, replies, sent := 0, 0, None, 0, 0, [], [];
    }

    /** The arm that takes a transfer from `send` is only there with credit. */
    method TakeTransfer(t: Transfer)
      requires holding.None? && availableCredit > 0
      modifies this`holding
      ensures View() == old(View()).(holding := Some(t))
    {
      holding := Some(t);
    }

    method PutTransfer()
      requires holding.Some?
      modifies this
      ensures View() == SenderPut(false, old(View())) && sent == old(sent) + [old(holding).value]
          && replies == old(replies)
    {
      var t := holding.value;
      sent := sent + [t];
      holding := None;
      if !t.more {
        deliveryCount := (deliveryCount + 1) % TWO32;
        availableCredit := (availableCredit - 1) % TWO32;
        tag := tag + 1;
      }
    }

    /** A flow without a delivery count is one from a receiver that has not seen the attach. A flow without
        a link credit makes the code dereference nil: it `crashed`. */
    method HandleFlow(f: F.PerformFlow) returns (crashed: bool)
      modifies this
      ensures crashed <==> f.linkCredit.None?
      ensures crashed ==> View() == old(View()) && replies == old(replies)
      ensures !crashed ==> var count := if f.deliveryCount.Some? then f.deliveryCount.value else 0;
        View() == SenderFlow(false, old(View()), Flow(count, f.linkCredit.value))
      ensures sent == old(sent)
      ensures !crashed && !f.echo ==> replies == old(replies)
      ensures !crashed && f.echo ==>
        exists r: F.PerformFlow :: replies == old(replies) + [r]
          && r.handle == Some(handle) && r.deliveryCount == Some(deliveryCount) && r.linkCredit == Some(availableCredit)
    {
      if f.linkCredit.None? {
        return true;
      }
      var linkCredit := (f.linkCredit.value - deliveryCount) % TWO32;
      seen := f.linkCredit.value % TWO32;
      if f.deliveryCount.Some? {
        ModAdd(f.linkCredit.value - deliveryCount, f.deliveryCount.value);
        linkCredit := (linkCredit + f.deliveryCount.value) % TWO32;
        seen := (f.deliveryCount.value + f.linkCredit.value) % TWO32;
      }
      availableCredit := linkCredit;
      if !f.echo {
        return false;
      }
      var reply := F.PerformFlow(None, 0, 0, 0, Some(handle), Some(deliveryCount), Some(linkCredit), None, false,
          false, []);
      replies := replies + [reply];
      return false;
    }
  }

  /** The loop of the receiver's mux; the application's steps come in between. */
  class ReceiverLink {
    const max: U32
    const creditor: Creditor
    var deliveryCount: U32
    var availableCredit: U32
    var unsettled: set<nat>
    var messages: seq<nat>
    var phase: Phase
    ghost var issued: int
    var sent: seq<Flow>

    ghost function View(): Receiver
      reads this, creditor
    {
      Rcv(deliveryCount, availableCredit, creditor.creditsToAdd, unsettled, messages, phase, issued)
    }

    /** No drain is ever requested of a receiver that manages its own credit. */
    ghost predicate Valid()
      reads this, creditor
    {
      !creditor.pendingDrain && creditor.drained.None?
    }

    constructor (max: U32, initialDeliveryCount: U32)
      ensures Valid() && this.max == max && sent == [] && fresh(creditor)
      ensures View() == Rcv(initialDeliveryCount, 0, 0, {}, [], Top, initialDeliveryCount)
    {
      this.max := max;
      deliveryCount, availableCredit, unsettled, messages, phase := initialDeliveryCount, 0, {}, [], Top;
      issued, sent := initialDeliveryCount, [];
      creditor := new Creditor();
    }

    method ComputePending()
      requires Valid() && phase.Top?
      modifies this`phase
      ensures Valid() && View() == AfterCompute(false, max, old(View()))
    {
      var count := |unsettled|;
      ModNeg(availableCredit + count, max);
      var used := (availableCredit + count) % TWO32;
      var pending := (max - used) % TWO32;
      phase := if pending >= max / 2 then Computed(pending) else Issued;
    }

    method IssuePending()
      requires Valid() && phase.Computed? && 0 <= phase.pending < TWO32
      modifies this`phase, creditor
      ensures Valid() && View() == AfterIssue(false, max, old(View()))
    {
      ModAdd(|unsettled|, phase.pending + availableCredit);
      var err := creditor.IssueCredit(phase.pending, Link(|unsettled|, availableCredit, max));
      phase := if err.Some? then Failed else Issued;
    }

    /** Makes the flow, and with it the credit, before waiting for the session to take it. */
    method MakeFlow()
      requires Valid() && phase.Issued?
      modifies this, creditor
      ensures Valid() && View() == AfterBits(false, old(View())) && sent == old(sent)
    {
      var drain, credits := creditor.FlowBits(availableCredit);
      if drain || credits > 0 {
        availableCredit := credits;
        issued := (deliveryCount + credits) % TWO32;
        phase := Waiting(Flow(deliveryCount, credits));
      } else {
        phase := Idle;
      }
    }

    method PassFlow()
      requires Valid() && phase.Waiting?
      modifies this
      ensures Valid() && View() == old(View()).(phase := Idle) && sent == old(sent) + [old(phase).flow]
    {
      sent := sent + [phase.flow];
      phase := Idle;
    }

    method ReceiveTransfer(t: Transfer, second: bool)
      requires Valid() && (phase.Waiting? || phase.Idle?)
      modifies this
      ensures Valid() && View() == AfterTransfer(false, second, old(View()), t) && sent == old(sent)
    {
      if phase.Idle? {
        phase := Top;
      }
      if t.more {
        return;
      }
      if second {
        unsettled := unsettled + {t.tag};
      }
      messages := messages + [t.tag];
      deliveryCount := (deliveryCount + 1) % TWO32;
      availableCredit := (availableCredit - 1) % TWO32;
    }
  }
}
