/** Settlement of outgoing deliveries: the session's maps from delivery ids to links and to the
    channels on which senders wait, and the connection writer that closes the others. */
module Settlement {
  import opened Bytes

  /** A wait channel was closed, after the delivery state was put on it or without one. */
  datatype Closing<T> = Closing(chan: nat, state: Option<T>)

  /** `handles` is handlesByDeliveryID, `latest` is deliveryIDByHandle and `waits` is
      settlementByDeliveryID. `out` are the frames for the connection writer, each with the channel
      that the writer closes, and `log` are the closed channels. */
  datatype State<T> = State(
    handles: map<U32, U32>, latest: map<U32, U32>, waits: map<U32, nat>, out: seq<Option<nat>>, log: seq<Closing<T>>)

  /** A transfer from a link; one delivery covered by a disposition of the receiver; a detach; the
      writer completes the next frame. `done` is only on the last transfer of a delivery. */
  datatype Event<T> =
    | Tx(handle: U32, id: Option<U32>, settled: bool, done: Option<nat>)
    | Visit(delivery: U32, settled: bool, state: T)
    | Detach(handle: U32)
    | Write

  function NEW<T>(): State<T> { State(map[], map[], map[], [], []) }

  function IdOf<T>(s: State<T>, handle: U32, id: Option<U32>): U32 {
    if id.Some? then id.value else if handle in s.latest then s.latest[handle] else 0
  }

  function StepTx<T>(s: State<T>, handle: U32, id: Option<U32>, settled: bool, done: Option<nat>): State<T> {
    var n := IdOf(s, handle, id);
    var s1 := if id.Some? then s.(latest := s.latest[handle := n]) else s;
    if settled then s1.(handles := s.handles - {n}, out := s.out + [done])
    else
      var s2 := if id.Some? then s1.(handles := s.handles[n := handle]) else s1;
      if done.Some? then s2.(waits := s.waits[n := done.value], out := s.out + [None]) else s2.(out := s.out + [None])
  }

  /** The entry of the handle goes with the first disposition, settled or not. */
  function StepVisit<T>(s: State<T>, id: U32, settled: bool, state: T): State<T> {
    if id !in s.handles then s
    else
      var s1 := s.(handles := s.handles - {id});
      if settled && id in s.waits then
        s1.(waits := s.waits - {id}, log := s.log + [Closing(s.waits[id], Some(state))])
      else s1
  }

  function StepWrite<T>(s: State<T>): State<T> {
    if s.out == [] then s
    else s.(out := s.out[1..], log := if s.out[0].Some? then s.log + [Closing(s.out[0].value, None)] else s.log)
  }

  function Step<T>(s: State<T>, e: Event<T>): State<T> {
    match e
    case Tx(handle, id, settled, done) => StepTx(s, handle, id, settled, done)
    case Visit(id, settled, state) => StepVisit(s, id, settled, state)
    case Detach(handle) => s.(latest := s.latest - {handle})
    case Write => StepWrite(s)
  }

  function Run<T>(es: seq<Event<T>>): State<T> {
    if es == [] then NEW() else Step(Run(es[..|es| - 1]), es[|es| - 1])
  }

  // Places of wait channels, in every run.

  predicate InLog<T>(log: seq<Closing<T>>, c: nat) { exists k :: 0 <= k < |log| && log[k].chan == c }

  predicate Waited<T>(s: State<T>, c: nat) { exists i :: i in s.waits && s.waits[i] == c }

  /** Every channel is in at most one place: waited on under one id, with one frame for the writer, or
      closed, once. */
  ghost predicate Places<T(!new)>(s: State<T>) {
    && (forall j, k :: 0 <= j < k < |s.log| ==> s.log[j].chan != s.log[k].chan)
    && (forall j, k :: 0 <= j < k < |s.out| && s.out[j].Some? ==> s.out[j] != s.out[k])
    && (forall j, k :: 0 <= j < |s.out| && 0 <= k < |s.log| ==> s.out[j] != Some(s.log[k].chan))
    && (forall i, j :: i in s.waits && j in s.waits && i != j ==> s.waits[i] != s.waits[j])
    && (forall i, k :: i in s.waits && 0 <= k < |s.out| ==> s.out[k] != Some(s.waits[i]))
    && (forall i, k :: i in s.waits && 0 <= k < |s.log| ==> s.log[k].chan != s.waits[i])
  }

  /** The channels that transfers have brought. */
  function Chans<T>(es: seq<Event<T>>): set<nat> {
    if es == [] then {}
    else
      var e := es[|es| - 1];
      Chans(es[..|es| - 1]) + if e.Tx? && e.done.Some? then {e.done.value} else {}
  }

  predicate BringsNew<T>(chans: set<nat>, e: Event<T>) { e.Tx? && e.done.Some? ==> e.done.value !in chans }

  /** Each channel is made for one delivery. */
  predicate NewChannels<T>(es: seq<Event<T>>) {
    es == [] || (NewChannels(es[..|es| - 1]) && BringsNew(Chans(es[..|es| - 1]), es[|es| - 1]))
  }

  /** All channels in the state have been brought by transfers. */
  ghost predicate Brought<T(!new)>(chans: set<nat>, s: State<T>) {
    && (forall k :: 0 <= k < |s.log| ==> s.log[k].chan in chans)
    && (forall k :: 0 <= k < |s.out| && s.out[k].Some? ==> s.out[k].value in chans)
    && (forall i :: i in s.waits ==> s.waits[i] in chans)
  }

  function ChansStep<T>(chans: set<nat>, e: Event<T>): set<nat> {
    chans + if e.Tx? && e.done.Some? then {e.done.value} else {}
  }

  lemma PlacesTx<T(!new)>(chans: set<nat>, s: State<T>, e: Event<T>)
    requires Places(s) && Brought(chans, s) && BringsNew(chans, e) && e.Tx?
    ensures Places(Step(s, e))
  {
    var s1 := Step(s, e);
    if e.done.None? {
      PlacesSame(s, s1, None);
    } else if e.settled {
      PlacesSame(s, s1, e.done);
    } else {
      PlacesWait(s, s1, IdOf(s, e.handle, e.id), e.done.value);
    }
  }

  /** A frame whose channel, if any, is new. */
  lemma PlacesSame<T(!new)>(s: State<T>, s1: State<T>, done: Option<nat>)
    requires Places(s) && s1.log == s.log && s1.waits == s.waits && s1.out == s.out + [done]
    requires done.Some? ==> done !in s.out && !InLog(s.log, done.value) && !Waited(s, done.value)
    ensures Places(s1)
  {
  }

  /** A delivery starts to wait on a new channel. */
  lemma PlacesWait<T(!new)>(s: State<T>, s1: State<T>, i: U32, c: nat)
    requires Places(s) && s1.log == s.log && s1.out == s.out + [None] && s1.waits == s.waits[i := c]
    requires Some(c) !in s.out && !InLog(s.log, c) && !Waited(s, c)
    ensures Places(s1)
  {
  }

  lemma PlacesVisit<T(!new)>(s: State<T>, e: Event<T>)
    requires Places(s) && e.Visit?
    ensures Places(Step(s, e))
  {
  }

  lemma PlacesWrite<T(!new)>(s: State<T>, e: Event<T>)
    requires Places(s) && (e.Write? || e.Detach?)
    ensures Places(Step(s, e))
  {
    if e.Write? && s.out != [] && s.out[0].Some? { PlacesClose(s, Step(s, e)); }
  }

  /** The channel of the next frame is closed by the writer. */
  lemma PlacesClose<T(!new)>(s: State<T>, s1: State<T>)
    requires Places(s) && s.out != [] && s.out[0].Some?
    requires s1.waits == s.waits && s1.out == s.out[1..] && s1.log == s.log + [Closing(s.out[0].value, None)]
    ensures Places(s1)
  {
  }

  lemma BroughtStep<T(!new)>(chans: set<nat>, s: State<T>, e: Event<T>)
    requires Brought(chans, s)
    ensures Brought(ChansStep(chans, e), Step(s, e))
  {
  }

  /** In every run, whatever transfers, dispositions and detaches come in whatever order, a channel is in
      at most one place and is closed at most once. The only hypothesis is that channels are new. */
  lemma {:induction false} OnePlace<T(!new)>(es: seq<Event<T>>)
    requires NewChannels(es)
    ensures Places(Run(es)) && Brought(Chans(es), Run(es))
  {
    if es != [] {
      hide Places, Brought, BringsNew, Step;
      var init, e := es[..|es| - 1], es[|es| - 1];
      OnePlace(init);
      var s := Run(init);
      BroughtStep(Chans(init), s, e);
      if e.Tx? { PlacesTx(Chans(init), s, e); } else if e.Visit? { PlacesVisit(s, e); } else { PlacesWrite(s, e); }
    }
  }

  ghost predicate Placed<T(!new)>(s: State<T>, c: nat) { Waited(s, c) || Some(c) in s.out || InLog(s.log, c) }

  /** A transfer has been registered under the id under which the channel `c` was waited on. */
  ghost predicate Displaces<T(!new)>(s: State<T>, e: Event<T>, c: nat) {
    && e.Tx? && !e.settled && e.done.Some?
    && var n := IdOf(s, e.handle, e.id); n in s.waits && s.waits[n] == c
  }

  ghost predicate Displaced<T(!new)>(es: seq<Event<T>>, c: nat) {
    es != [] && (Displaced(es[..|es| - 1], c) || Displaces(Run(es[..|es| - 1]), es[|es| - 1], c))
  }

  lemma PlacedStep<T(!new)>(chans: set<nat>, s: State<T>, e: Event<T>, c: nat)
    requires Places(s) && Brought(chans, s) && BringsNew(chans, e) && c in chans
    ensures Placed(Step(s, e), c) <==> Placed(s, c) && !Displaces(s, e, c)
  {
    match e {
      case Tx(_, _, _, _) => PlacedTx(chans, s, e, c);
      case Visit(_, _, _) => PlacedVisit(s, e, c);
      case Detach(_) =>
      case Write => PlacedWrite(s, c);
    }
  }

  lemma PlacedTx<T(!new)>(chans: set<nat>, s: State<T>, e: Event<T>, c: nat)
    requires Places(s) && Brought(chans, s) && BringsNew(chans, e) && c in chans && e.Tx?
    ensures Placed(Step(s, e), c) <==> Placed(s, c) && !Displaces(s, e, c)
  {
    var s1, n := Step(s, e), IdOf(s, e.handle, e.id);
    assert s1.log == s.log;
    assert Some(c) in s1.out <==> Some(c) in s.out;
    if Waited(s, c) {
      var i :| i in s.waits && s.waits[i] == c;
      assert Displaces(s, e, c) || (i in s1.waits && s1.waits[i] == c);
    }
    if Waited(s1, c) {
      var i :| i in s1.waits && s1.waits[i] == c;
      assert i in s.waits && s.waits[i] == c;
    }
  }

  lemma PlacedVisit<T(!new)>(s: State<T>, e: Event<T>, c: nat)
    requires e.Visit?
    ensures Placed(Step(s, e), c) <==> Placed(s, c)
  {
    var s1 := Step(s, e);
    assert s1.out == s.out;
    if s1.log != s.log {
      LogAppend(s.log, Closing(s.waits[e.delivery], Some(e.state)), c);
      if Waited(s, c) && s.waits[e.delivery] != c {
        var i :| i in s.waits && s.waits[i] == c;
        assert i in s1.waits;
      }
    } else {
      assert s1.waits == s.waits;
    }
  }

  lemma LogAppend<T(!new)>(log: seq<Closing<T>>, x: Closing<T>, c: nat)
    ensures InLog(log + [x], c) <==> InLog(log, c) || x.chan == c
  {
    if InLog(log, c) {
      var k :| 0 <= k < |log| && log[k].chan == c;
      assert (log + [x])[k].chan == c;
    }
    if x.chan == c { assert (log + [x])[|log|].chan == c; }
  }

  lemma PlacedWrite<T(!new)>(s: State<T>, c: nat)
    ensures Placed(StepWrite(s), c) <==> Placed(s, c)
  {
    if s.out != [] {
      assert s.out == [s.out[0]] + s.out[1..];
      if s.out[0].Some? { LogAppend(s.log, Closing(s.out[0].value, None), c); }
    }
  }

  /** Ownership, in every run: a channel that a transfer has brought is in exactly one place, unless
      another transfer was registered under its id, and then it is in none. */
  lemma {:induction false} Ownership<T(!new)>(es: seq<Event<T>>, c: nat)
    requires NewChannels(es) && c in Chans(es)
    ensures Places(Run(es))
    ensures Placed(Run(es), c) <==> !Displaced(es, c)
  {
    OnePlace(es);
    var init, e := es[..|es| - 1], es[|es| - 1];
    OnePlace(init);
    if c in Chans(init) {
      Ownership(init, c);
      hide Places, Brought, BringsNew, Step, Placed, Displaces;
      PlacedStep(Chans(init), Run(init), e, c);
    } else {
      NotDisplaced(init, c);
      hide Places;
      JustPlaced(Chans(init), Run(init), e, c);
    }
  }

  lemma JustPlaced<T(!new)>(chans: set<nat>, s: State<T>, e: Event<T>, c: nat)
    requires Brought(chans, s) && c !in chans && e.Tx? && e.done == Some(c)
    ensures Placed(Step(s, e), c) && !Displaces(s, e, c)
  {
    var s1, n := Step(s, e), IdOf(s, e.handle, e.id);
    if e.settled {
      assert s1.out[|s.out|] == Some(c);
    } else {
      assert s1.waits[n] == c;
    }
  }

  lemma {:induction false} NotDisplaced<T(!new)>(es: seq<Event<T>>, c: nat)
    requires NewChannels(es) && c !in Chans(es)
    ensures !Displaced(es, c)
  {
    if es != [] {
      OnePlace(es[..|es| - 1]);
      NotDisplaced(es[..|es| - 1], c);
    }
  }

  // Registration.

  /** No delivery is started on the link. */
  ghost predicate NoStart<T(!new)>(handle: U32, es: seq<Event<T>>) {
    forall e :: e in es && e.Tx? && e.handle == handle ==> e.id.None?
  }

  /** The session knows the delivery that a link is in the middle of until the link is detached. */
  lemma {:induction false} LatestAfter<T(!new)>(pre: seq<Event<T>>, handle: U32, i: U32, mid: seq<Event<T>>)
    requires handle in Run(pre).latest && Run(pre).latest[handle] == i && NoStart(handle, mid)
    ensures var s := Run(pre + mid);
      if Detach(handle) in mid then handle !in s.latest else handle in s.latest && s.latest[handle] == i
    decreases |mid|
  {
    if mid == [] {
      assert pre + mid == pre;
    } else {
      var init, e := mid[..|mid| - 1], mid[|mid| - 1];
      assert mid == init + [e];
      LatestAfter(pre, handle, i, init);
      assert (pre + mid)[..|pre + mid| - 1] == pre + init;
      assert e in mid;
      LatestStep(Run(pre + init), handle, e);
      hide Step;
    }
  }

  lemma LatestStep<T(!new)>(s: State<T>, handle: U32, e: Event<T>)
    requires e.Tx? && e.handle == handle ==> e.id.None?
    ensures var s1 := Step(s, e);
      if e == Detach(handle) then handle !in s1.latest
      else
        && (handle in s1.latest <==> handle in s.latest)
        && (handle in s.latest ==> s1.latest[handle] == s.latest[handle])
  {
  }

  /** The channel of a delivery is registered under the id of the delivery's own first transfer if and only
      if its link was not detached in between; otherwise it is registered under id 0. */
  lemma RegisteredIff<T(!new)>(pre: seq<Event<T>>, first: Event<T>, mid: seq<Event<T>>, last: Event<T>, i: U32)
    requires first.Tx? && first.id == Some(i) && NoStart(first.handle, mid)
    requires last.Tx? && last.id.None? && last.handle == first.handle && last.done.Some? && !last.settled
    requires NewChannels(pre + [first] + mid + [last])
    ensures var s, c := Run(pre + [first] + mid + [last]), last.done.value;
      && (i in s.waits && s.waits[i] == c <==> Detach(first.handle) !in mid || i == 0)
      && (Detach(first.handle) in mid ==> 0 in s.waits && s.waits[0] == c)
  {
    var a, b := pre + [first], pre + [first] + mid;
    var es := b + [last];
    assert a[..|a| - 1] == pre && es[..|es| - 1] == b;
    LatestAfter(a, first.handle, i, mid);
    OnePlace(b);
    assert !Waited(Run(b), last.done.value) by { assert Brought(Chans(b), Run(b)); }
    hide Places, Brought;
  }

  /** For example, with nothing else going on. */
  lemma DetachLosesDelivery<T(!new)>(handle: U32, id: U32, chan: nat)
    ensures var es: seq<Event<T>> := [Tx(handle, Some(id), false, None), Detach(handle),
        Tx(handle, None, false, Some(chan))];
      Run(es).waits == map[0 := chan]
  {
    var es: seq<Event<T>> := [Tx(handle, Some(id), false, None), Detach(handle), Tx(handle, None, false, Some(chan))];
    assert es[..2][..1] == es[..1] && es[..1][..0] == [];
    assert Run(es[..1]) == Step(NEW(), es[0]);
    assert Run(es[..2]) == Step(Run(es[..1]), es[1]);
    assert handle !in Run(es[..2]).latest;
  }

  // What the history of an id says.

  /** The delivery for which a transfer without an id is taken: the last one started on its link since the link
      was last detached, or else 0. */
  function Meant<T>(handle: U32, es: seq<Event<T>>): U32 {
    if es == [] then 0
    else
      var e := es[|es| - 1];
      if e.Tx? && e.handle == handle && e.id.Some? then e.id.value
      else if e.Detach? && e.handle == handle then 0
      else Meant(handle, es[..|es| - 1])
  }

  /** The delivery for which a transfer after `es` is taken. */
  function Target<T>(es: seq<Event<T>>, e: Event<T>): U32
    requires e.Tx?
  {
    if e.id.Some? then e.id.value else Meant(e.handle, es)
  }

  /** The link that has last started delivery `n`, unless a disposition has covered the delivery or a
      transfer has settled it since. */
  function Owner<T>(n: U32, es: seq<Event<T>>): Option<U32> {
    if es == [] then None
    else
      var init, e := es[..|es| - 1], es[|es| - 1];
      match e
      case Tx(handle, id, settled, _) =>
        if Target(init, e) != n then Owner(n, init)
        else if settled then None
        else if id.Some? then Some(handle)
        else Owner(n, init)
      case Visit(delivery, _, _) => if delivery == n then None else Owner(n, init)
      case _ => Owner(n, init)
  }

  /** A transfer that ends delivery `n` and leaves its settlement to the receiver. */
  predicate Registers<T>(n: U32, es: seq<Event<T>>, e: Event<T>) {
    e.Tx? && !e.settled && e.done.Some? && Target(es, e) == n
  }

  /** A disposition that settles delivery `n`, the first to cover it since it was started. */
  predicate Answers<T>(n: U32, es: seq<Event<T>>, e: Event<T>) {
    e.Visit? && e.delivery == n && e.settled && Owner(n, es).Some?
  }

  /** The channel of the last transfer that ended delivery `n`, until the answer. */
  function Holder<T>(n: U32, es: seq<Event<T>>): Option<nat> {
    if es == [] then None
    else
      var init, e := es[..|es| - 1], es[|es| - 1];
      if Registers(n, init, e) then e.done else if Answers(n, init, e) then None else Holder(n, init)
  }

  function Lookup<V>(m: map<U32, V>, n: U32): Option<V> { if n in m then Some(m[n]) else None }

  lemma {:induction false} MeantRun<T(!new)>(es: seq<Event<T>>, handle: U32)
    ensures IdOf(Run(es), handle, None) == Meant(handle, es)
  {
    if es != [] { MeantRun(es[..|es| - 1], handle); }
  }

  lemma TargetRun<T(!new)>(es: seq<Event<T>>, e: Event<T>)
    requires e.Tx?
    ensures IdOf(Run(es), e.handle, e.id) == Target(es, e)
  {
    MeantRun(es, e.handle);
  }

  /** In every run, the maps hold for each id what the transfers taken for it and the dispositions that cover
      it say, whatever happens to the others, ids that are used again included. */
  lemma {:induction false} AgreesRun<T(!new)>(es: seq<Event<T>>, n: U32)
    ensures Lookup(Run(es).handles, n) == Owner(n, es)
    ensures Lookup(Run(es).waits, n) == Holder(n, es)
  {
    if es != [] {
      var init, e := es[..|es| - 1], es[|es| - 1];
      AgreesRun(init, n);
      if e.Tx? { TargetRun(init, e); }
      hide Target, Meant;
    }
  }

  // What becomes of a channel.

  datatype Fate<T> = Waiting | Lost | Settled(state: T)

  /** The fate of the channel that was registered for delivery `n` by the last event of `es`: another transfer is
      registered for the delivery, or an answer comes, or neither. */
  function FateOf<T>(n: U32, es: seq<Event<T>>, post: seq<Event<T>>): Fate<T> {
    if post == [] then Waiting
    else
      var init, e := post[..|post| - 1], post[|post| - 1];
      var f := FateOf(n, es, init);
      if !f.Waiting? then f
      else if Registers(n, es + init, e) then Lost
      else if Answers(n, es + init, e) then Settled(e.state)
      else Waiting
  }

  /** Where the fate says that the channel is. */
  ghost predicate Meets<T(!new)>(s: State<T>, n: U32, c: nat, f: Fate<T>) {
    match f
    case Waiting => n in s.waits && s.waits[n] == c
    case Lost => !Placed(s, c)
    case Settled(state) => Closing(c, Some(state)) in s.log
  }

  lemma MeetsStep<T(!new)>(chans: set<nat>, s: State<T>, e: Event<T>, n: U32, c: nat, f: Fate<T>)
    requires Places(s) && Brought(chans, s) && BringsNew(chans, e) && c in chans && Meets(s, n, c, f)
    ensures !f.Waiting? ==> Meets(Step(s, e), n, c, f)
    ensures f.Waiting? ==>
      var registers := e.Tx? && !e.settled && e.done.Some? && IdOf(s, e.handle, e.id) == n;
      var answers := e.Visit? && e.delivery == n && e.settled && n in s.handles;
      Meets(Step(s, e), n, c, if registers then Lost else if answers then Settled(e.state) else Waiting)
  {
    PlacedStep(chans, s, e, c);
    var s1 := Step(s, e);
    assert s.log <= s1.log;
    if |s1.log| > |s.log| { assert s1.log[|s.log|] in s1.log; }
    assert forall x :: x in s.log ==> x in s1.log;
    hide Places, Placed, Brought;
  }

  /** In every run, the channel of a delivery whose settlement is left to the receiver is where the events for
      its id say: `last` ends the delivery, and `post` is what comes after it. */
  lemma {:induction false} FateRun<T(!new)>(es: seq<Event<T>>, last: Event<T>, post: seq<Event<T>>)
    requires last.Tx? && last.done.Some? && !last.settled && NewChannels(es + [last] + post)
    ensures var n := Target(es, last);
      Meets(Run(es + [last] + post), n, last.done.value, FateOf(n, es + [last], post))
    ensures last.done.value in Chans(es + [last] + post)
    decreases |post|
  {
    var a, all, n, c := es + [last], es + [last] + post, Target(es, last), last.done.value;
    if post == [] {
      assert all == a && a[..|a| - 1] == es;
      TargetRun(es, last);
    } else {
      var init, e := post[..|post| - 1], post[|post| - 1];
      var b := a + init;
      assert all[..|all| - 1] == b && all[|all| - 1] == e;
      FateRun(es, last, init);
      OnePlace(b);
      AgreesRun(b, n);
      if e.Tx? { TargetRun(b, e); }
      hide Meets, Places, Brought, BringsNew, Step, Owner, Holder, Target;
      MeetsStep(Chans(b), Run(b), e, n, c, FateOf(n, a, init));
    }
  }

  /** A channel that the session does not keep is closed by the writer, without a state. */
  lemma {:induction false} HandedRun<T(!new)>(es: seq<Event<T>>, last: Event<T>, post: seq<Event<T>>)
    requires last.Tx? && last.done.Some? && last.settled
    ensures var s, c := Run(es + [last] + post), last.done.value; Some(c) in s.out || Closing(c, None) in s.log
    decreases |post|
  {
    var a, all, c := es + [last], es + [last] + post, last.done.value;
    if post == [] {
      assert all == a && a[..|a| - 1] == es;
      assert Run(a).out[|Run(es).out|] == Some(c);
    } else {
      var init, e := post[..|post| - 1], post[|post| - 1];
      assert all[..|all| - 1] == a + init && all[|all| - 1] == e;
      HandedRun(es, last, init);
      HandedStep(Run(a + init), e, c);
      hide Step;
    }
  }

  lemma HandedStep<T(!new)>(s: State<T>, e: Event<T>, c: nat)
    requires Some(c) in s.out || Closing(c, None) in s.log
    ensures var s1 := Step(s, e); Some(c) in s1.out || Closing(c, None) in s1.log
  {
    var s1 := Step(s, e);
    assert s.log <= s1.log;
    assert forall x :: x in s.log ==> x in s1.log;
    if e.Tx? { assert s.out <= s1.out; }
    if e.Write? && s.out != [] {
      assert s.out == [s.out[0]] + s1.out;
      if s.out[0] == Some(c) { assert s1.log[|s.log|] == Closing(c, None); }
    }
  }

  /** The place of a delivery's channel, in every run: it waits under the id for which the last transfer is
      taken, or is closed with the state of the answer, or is nowhere because another transfer was registered
      under that id. A channel of a settled transfer is with its frame, until the frame is written. */
  lemma DeliveryPlace<T(!new)>(es: seq<Event<T>>, last: Event<T>, post: seq<Event<T>>)
    requires last.Tx? && last.done.Some? && NewChannels(es + [last] + post)
    ensures var s, c, n := Run(es + [last] + post), last.done.value, Target(es, last);
      if last.settled then
        !Waited(s, c) && (Some(c) in s.out <==> !InLog(s.log, c)) && (InLog(s.log, c) <==> Closing(c, None) in s.log)
      else match FateOf(n, es + [last], post)
        case Waiting => n in s.waits && s.waits[n] == c && Some(c) !in s.out && !InLog(s.log, c)
        case Lost => !Waited(s, c) && Some(c) !in s.out && !InLog(s.log, c)
        case Settled(state) => !Waited(s, c) && Some(c) !in s.out && Closing(c, Some(state)) in s.log
  {
    OnePlace(es + [last] + post);
    hide Run, FateOf, Target, Brought;
    if last.settled { HandedRun(es, last, post); } else { FateRun(es, last, post); }
  }

  /** The sender gets a state if and only if the fate of its channel is to get it. */
  lemma StateIff<T(!new)>(es: seq<Event<T>>, last: Event<T>, post: seq<Event<T>>, state: T)
    requires last.Tx? && last.done.Some? && !last.settled && NewChannels(es + [last] + post)
    ensures Closing(last.done.value, Some(state)) in Run(es + [last] + post).log <==>
      FateOf(Target(es, last), es + [last], post) == Settled(state)
  {
    OnePlace(es + [last] + post);
    DeliveryPlace(es, last, post);
    hide Run, FateOf, Target, Brought;
  }

  // Deliveries with their ids to themselves.

  /** No transfer of `xs` that is taken for delivery `i` starts, settles or ends it. */
  predicate Quiet<T>(i: U32, es: seq<Event<T>>, xs: seq<Event<T>>) {
    xs == [] ||
    var init, e := xs[..|xs| - 1], xs[|xs| - 1];
    && Quiet(i, es, init)
    && (e.Tx? && Target(es + init, e) == i ==> e.id.None? && !e.settled && e.done.None?)
  }

  /** The first disposition that covers a delivery. */
  function FirstVisit<T>(i: U32, es: seq<Event<T>>): (r: Option<Event<T>>)
    ensures r.Some? ==> r.value.Visit? && r.value.delivery == i
  {
    if es == [] then None
    else
      var r := FirstVisit(i, es[..|es| - 1]);
      var e := es[|es| - 1];
      if r.Some? then r else if e.Visit? && e.delivery == i then Some(e) else None
  }

  lemma {:induction false} OwnerQuiet<T(!new)>(i: U32, es: seq<Event<T>>, xs: seq<Event<T>>)
    requires Quiet(i, es, xs)
    ensures Owner(i, es + xs) == if FirstVisit(i, xs).None? then Owner(i, es) else None
    decreases |xs|
  {
    if xs == [] {
      assert es + xs == es;
    } else {
      var init := xs[..|xs| - 1];
      assert (es + xs)[..|es + xs| - 1] == es + init;
      OwnerQuiet(i, es, init);
    }
  }

  /** The first disposition decides. */
  lemma {:induction false} FateQuiet<T(!new)>(i: U32, es: seq<Event<T>>, xs: seq<Event<T>>)
    requires Quiet(i, es, xs)
    ensures FateOf(i, es, xs) ==
      match FirstVisit(i, xs)
      case None => Waiting
      case Some(f) => if Owner(i, es).Some? && f.settled then Settled(f.state) else Waiting
    decreases |xs|
  {
    if xs != [] {
      var init := xs[..|xs| - 1];
      FateQuiet(i, es, init);
      OwnerQuiet(i, es, init);
      hide Owner, Target;
    }
  }

  /** The transfers on the link continue the delivery, and none of them settles or ends it. */
  ghost predicate Continues<T(!new)>(handle: U32, es: seq<Event<T>>) {
    forall e :: e in es && e.Tx? && e.handle == handle ==> e.id.None? && e.done.None? && !e.settled
  }

  /** No delivery is started with the id. */
  ghost predicate NoneOf<T(!new)>(i: U32, es: seq<Event<T>>) { forall e :: e in es && e.Tx? ==> e.id != Some(i) }

  lemma {:induction false} NoOwner<T(!new)>(i: U32, es: seq<Event<T>>)
    requires NoneOf(i, es)
    ensures Owner(i, es).None?
  {
    if es != [] {
      NoOwner(i, es[..|es| - 1]);
      assert es[|es| - 1] in es;
    }
  }

  lemma {:induction false} NoAnswer<T(!new)>(i: U32, es: seq<Event<T>>, post: seq<Event<T>>)
    requires NoneOf(i, es + post)
    ensures !FateOf(i, es, post).Settled?
    decreases |post|
  {
    if post != [] {
      var init := post[..|post| - 1];
      assert forall e :: e in es + init ==> e in es + post;
      NoAnswer(i, es, init);
      NoOwner(i, es + init);
      hide Owner, Target;
    }
  }

  /** The first and last transfer of a delivery of several transfers that the sender does not settle. */
  ghost predicate Spans<T(!new)>(first: Event<T>, mid: seq<Event<T>>, last: Event<T>, i: U32) {
    && first.Tx? && first.id == Some(i) && first.done.None? && !first.settled
    && last.Tx? && last.id.None? && last.handle == first.handle && last.done.Some? && !last.settled
    && Continues(first.handle, mid)
  }

  lemma TargetOfLast<T(!new)>(pre: seq<Event<T>>, first: Event<T>, mid: seq<Event<T>>, last: Event<T>, i: U32)
    requires Spans(first, mid, last, i)
    ensures Target(pre + [first] + mid, last) == if Detach(first.handle) in mid then 0 else i
  {
    var a := pre + [first];
    assert a[..|a| - 1] == pre;
    LatestAfter(a, first.handle, i, mid);
    TargetRun(a + mid, last);
  }

  /** The first disposition since `first` decides, if it comes after `last` and is settled. */
  predicate FirstAfter<T(==)>(i: U32, mid: seq<Event<T>>, post: seq<Event<T>>, state: T) {
    FirstVisit(i, mid).None? && var f := FirstVisit(i, post); f.Some? && f.value.settled && f.value.state == state
  }

  /** Settlement of a delivery whose transfers are `first`, some in `mid`, and `last`, in every run. Its sender
      gets a state if and only if an answer comes for the id under which its channel is registered, before
      another transfer is registered under it: the delivery's own id, or 0 if the link was detached in
      between. While its id is not used for anything else, that is if and only if the first disposition since
      `first` comes after `last` and is settled. After a detach there is no answer unless a delivery has id 0. */
  lemma SettledIff<T(!new)>(
      pre: seq<Event<T>>, first: Event<T>, mid: seq<Event<T>>, last: Event<T>, post: seq<Event<T>>, i: U32, state: T)
    requires Spans(first, mid, last, i) && NewChannels(pre + [first] + mid + [last] + post)
    ensures var a := pre + [first]; var b := a + mid + [last];
      var settled := Closing(last.done.value, Some(state)) in Run(b + post).log;
      var detached := Detach(first.handle) in mid;
      && (settled <==> FateOf(if detached then 0 else i, b, post) == Settled(state))
      && (!detached && Quiet(i, a, mid) && Quiet(i, b, post) ==> (settled <==> FirstAfter(i, mid, post, state)))
      && (detached && NoneOf(0, b + post) ==> !settled)
  {
    var a := pre + [first];
    var b := a + mid + [last];
    TargetOfLast(pre, first, mid, last, i);
    StateIff(a + mid, last, post, state);
    if Detach(first.handle) in mid {
      if NoneOf(0, b + post) { NoAnswer(0, b, post); }
    } else if Quiet(i, a, mid) && Quiet(i, b, post) {
      FateQuiet(i, b, post);
      OwnerQuiet(i, a, mid);
      assert a[..|a| - 1] == pre && b[..|b| - 1] == a + mid;
      assert Owner(i, a) == Some(first.handle);
      assert Owner(i, b) == Owner(i, a + mid);
    }
  }

  /** The same for a delivery of a single transfer. */
  lemma SingleSettledIff<T(!new)>(pre: seq<Event<T>>, only: Event<T>, post: seq<Event<T>>, i: U32, state: T)
    requires only.Tx? && only.id == Some(i) && only.done.Some? && !only.settled && NewChannels(pre + [only] + post)
    ensures var settled := Closing(only.done.value, Some(state)) in Run(pre + [only] + post).log;
      && (settled <==> FateOf(i, pre + [only], post) == Settled(state))
      && (Quiet(i, pre + [only], post) ==> (settled <==> FirstAfter(i, [], post, state)))
  {
    var a := pre + [only];
    StateIff(pre, only, post, state);
    if Quiet(i, a, post) {
      FateQuiet(i, a, post);
      assert a[..|a| - 1] == pre;
      assert Owner(i, a) == Some(only.handle);
    }
  }

  /** For example, a delivery that lost its id in a detach takes the answer for the delivery with id 0. */
  lemma OrphanTakesState<T(!new)>(h: U32, g: U32, id: U32, c: nat, state: T)
    ensures var es := [Tx(h, Some(id), false, None), Tx(g, Some(0), false, None), Detach(h),
        Tx(h, None, false, Some(c)), Visit(0, true, state)];
      Run(es).log == [Closing(c, Some(state))]
  {
    var es := [Tx(h, Some(id), false, None), Tx(g, Some(0), false, None), Detach(h),
      Tx(h, None, false, Some(c)), Visit(0, true, state)];
    assert es[..4][..3] == es[..3] && es[..3][..2] == es[..2] && es[..2][..1] == es[..1] && es[..1][..0] == [];
    var s1 := Step(NEW(), es[0]);
    var s2 := Step(s1, es[1]);
    var s3 := Step(s2, es[2]);
    var s4 := Step(s3, es[3]);
    assert Run(es[..1]) == s1 && Run(es[..2]) == s2 && Run(es[..3]) == s3 && Run(es[..4]) == s4;
    assert h !in s3.latest && 0 in s4.handles && s4.waits[0] == c;
  }

  // What the senders do.

  /** Some transfers of a delivery have been sent on the link, but not its last. */
  predicate InProgress<T>(handle: U32, es: seq<Event<T>>) {
    es != [] &&
    var e := es[|es| - 1]; if e.Tx? && e.handle == handle then e.done.None? else InProgress(handle, es[..|es| - 1])
  }

  /** `send` starts each delivery with an id, ends it with a channel, and settles no other transfer than the
      last. It may give up a delivery and start another one, and its link may be detached at any time. */
  predicate Sends<T>(es: seq<Event<T>>) {
    es == [] ||
    var init, e := es[..|es| - 1], es[|es| - 1];
    Sends(init) && (e.Tx? ==> (e.settled ==> e.done.Some?) && (e.id.None? ==> InProgress(e.handle, init)))
  }

  /** No link, except perhaps `own`, is in the middle of a delivery that is taken for `i`. */
  ghost predicate Elsewhere<T(!new)>(i: U32, own: Option<U32>, es: seq<Event<T>>) {
    forall h: U32 :: Some(h) != own && InProgress(h, es) ==> Meant(h, es) != i
  }

  lemma ElsewhereStep<T(!new)>(i: U32, own: Option<U32>, es: seq<Event<T>>, e: Event<T>)
    requires i != 0 && Elsewhere(i, own, es) && Sends(es + [e])
    requires e.Tx? && Some(e.handle) != own ==> e.id != Some(i)
    ensures Elsewhere(i, own, es + [e])
    ensures e.Tx? && Some(e.handle) != own ==> Target(es, e) != i
  {
    var a := es + [e];
    assert a[..|a| - 1] == es && a[|a| - 1] == e;
    forall h: U32 | Some(h) != own && InProgress(h, a) ensures Meant(h, a) != i {
      if !(e.Tx? && e.handle == h) { assert InProgress(h, es); }
    }
  }

  lemma {:induction false} QuietRun<T(!new)>(i: U32, own: Option<U32>, es: seq<Event<T>>, xs: seq<Event<T>>)
    requires i != 0 && Elsewhere(i, own, es) && Sends(es + xs) && NoneOf(i, xs)
    requires own.Some? ==> Continues(own.value, xs)
    ensures Quiet(i, es, xs) && Elsewhere(i, own, es + xs)
    decreases |xs|
  {
    if xs == [] {
      assert es + xs == es;
    } else {
      var init, e := xs[..|xs| - 1], xs[|xs| - 1];
      assert xs == init + [e] && es + xs == (es + init) + [e];
      assert (es + xs)[..|es + xs| - 1] == es + init;
      QuietRun(i, own, es, init);
      hide Elsewhere, Target;
      ElsewhereStep(i, own, es + init, e);
    }
  }

  lemma {:induction false} SendsPrefix<T(!new)>(xs: seq<Event<T>>, ys: seq<Event<T>>)
    requires Sends(xs + ys)
    ensures Sends(xs)
    decreases |ys|
  {
    if ys == [] {
      assert xs + ys == xs;
    } else {
      assert (xs + ys)[..|xs + ys| - 1] == xs + ys[..|ys| - 1];
      SendsPrefix(xs, ys[..|ys| - 1]);
    }
  }

  /** Senders leave a delivery alone as long as its id is not 0 and comes up for no other delivery from its
      start on, and no delivery with that id is still going on when it starts. Ids come up again after 2^32
      deliveries of the session. */
  lemma QuietInSend<T(!new)>(
      pre: seq<Event<T>>, first: Event<T>, mid: seq<Event<T>>, last: Event<T>, post: seq<Event<T>>, i: U32)
    requires Spans(first, mid, last, i) && Sends(pre + [first] + mid + [last] + post)
    requires i != 0 && NoneOf(i, mid) && NoneOf(i, post) && Elsewhere(i, Some(first.handle), pre)
    ensures Quiet(i, pre + [first], mid) && Quiet(i, pre + [first] + mid + [last], post)
  {
    var own := Some(first.handle);
    var a := pre + [first];
    var b := a + mid;
    var d := b + [last];
    SendsPrefix(d, post);
    SendsPrefix(b, [last]);
    SendsPrefix(a, mid);
    ElsewhereStep(i, own, pre, first);
    QuietRun(i, own, a, mid);
    ElsewhereStep(i, own, b, last);
    assert d[..|d| - 1] == b;
    assert Elsewhere(i, None, d);
    QuietRun(i, None, d, post);
  }

  lemma QuietSingle<T(!new)>(pre: seq<Event<T>>, only: Event<T>, post: seq<Event<T>>, i: U32)
    requires only.Tx? && only.id == Some(i) && only.done.Some? && Sends(pre + [only] + post)
    requires i != 0 && NoneOf(i, post) && Elsewhere(i, Some(only.handle), pre)
    ensures Quiet(i, pre + [only], post)
  {
    var a := pre + [only];
    SendsPrefix(a, post);
    ElsewhereStep(i, Some(only.handle), pre, only);
    assert a[..|a| - 1] == pre;
    assert Elsewhere(i, None, a);
    QuietRun(i, None, a, post);
  }

  // Ranges of deliveries.

  /** A disposition covers the deliveries from `first` to `last`, one after the other. */
  function Dispose<T>(s: State<T>, first: U32, last: int, settled: bool, state: T): State<T>
    decreases last - first
  {
    if last < first || last >= TWO32 then s
    else StepVisit(Dispose(s, first, last - 1, settled, state), last, settled, state)
  }

  function Visits<T>(first: U32, last: int, settled: bool, state: T): seq<Event<T>>
    decreases last - first
  {
    if last < first || last >= TWO32 then []
    else Visits(first, last - 1, settled, state) + [Visit(last, settled, state)]
  }

  /** A disposition is the visits that it makes. */
  lemma {:induction false} DisposeIsVisits<T(!new)>(es: seq<Event<T>>, first: U32, last: int, settled: bool, state: T)
    ensures Run(es + Visits(first, last, settled, state)) == Dispose(Run(es), first, last, settled, state)
    decreases last - first
  {
    var vs := Visits(first, last, settled, state);
    if last < first || last >= TWO32 {
      assert es + vs == es;
    } else {
      DisposeIsVisits(es, first, last - 1, settled, state);
      assert (es + vs)[..|es + vs| - 1] == es + Visits(first, last - 1, settled, state);
    }
  }

  /** The loop variable of a range passes its end, in 32 bits, if and only if the end is not the
      largest number: for that one the loop of the code does not end. */
  lemma RangeEnds(first: U32, last: U32)
    ensures (exists n: nat :: LoopVar(first, n) > last) <==> last < TWO32 - 1
  {
    if last < TWO32 - 1 {
      var n: nat := if last + 1 >= first then last + 1 - first else 0;
      assert LoopVar(first, n) > last;
    }
  }

  /** A 32-bit variable that starts at `first`, after `n` increments. */
  function LoopVar(first: U32, n: nat): U32 { (first + n) % TWO32 }

  /** The settlement maps of the session mux, and the queue of the connection writer. */
  class Session<T(!new)> {
    var handles: map<U32, U32>
    var latest: map<U32, U32>
    var waits: map<U32, nat>
    var out: seq<Option<nat>>
    var log: seq<Closing<T>>

    ghost function View(): State<T>
      reads this
    {
      State(handles, latest, waits, out, log)
    }

    constructor ()
      ensures View() == NEW()
    {
      handles, latest, waits, out, log := map[], map[], map[], [], [];
    }

    method TxTransfer(handle: U32, id: Option<U32>, settled: bool, done: Option<nat>)
      modifies this
      ensures View() == Step(old(View()), Tx(handle, id, settled, done))
    {
      var n: U32 := 0;
      if id.Some? {
        n := id.value;
        latest := latest[handle := n];
        if !settled {
          handles := handles[n := handle];
        }
      } else if handle in latest {
        n := latest[handle];
      }
      if settled {
        handles := handles - {n};
      }
      var frameDone := done;
      if !settled && done.Some? {
        waits := waits[n := done.value];
        frameDone := None;
      }
      out := out + [frameDone];
    }

    /** A disposition of the receiver. */
    method RxDisposition(first: U32, last: Option<U32>, settled: bool, state: T)
      requires (if last.Some? then last.value else first) < TWO32 - 1
      modifies this
      ensures View() == Dispose(old(View()), first, if last.Some? then last.value else first, settled, state)
    {
      var end := if last.Some? then last.value else first;
      var id: U32 := first;
      while id <= end
        invariant first <= id && (id <= end + 1 || id == first)
        invariant View() == Dispose(old(View()), first, id - 1, settled, state)
        decreases end + 1 - id
      {
        if id in handles {
          handles := handles - {id};
          if settled && id in waits {
            var done := waits[id];
            waits := waits - {id};
            log := log + [Closing(done, Some(state))];
          }
        }
        id := id + 1;
      }
    }

    method RxDetach(handle: U32)
      modifies this
      ensures View() == Step(old(View()), Detach(handle))
    {
      latest := latest - {handle};
    }

    /** The connection writer has written the next frame. */
    method FrameWritten()
      modifies this
      ensures View() == Step(old(View()), Write)
    {
      if out == [] {
        return;
      }
      var done := out[0];
      out := out[1..];
      if done.Some? {
        log := log + [Closing(done.value, None)];
      }
    }
  }
}
