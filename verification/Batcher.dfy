/** The disposition batcher of a receiver: accepted deliveries with consecutive ids share one
    disposition frame. */
module Batcher {
  import opened Bytes

  datatype Outcome<T> = Accepted | Other(state: T)

  /** A delivery and the outcome that the application has given it. */
  datatype Item<T> = Item(id: int, outcome: Outcome<T>)

  /** A disposition for the deliveries from `first` to `last`. */
  datatype Frame<T> = Frame(first: U32, last: U32, outcome: Outcome<T>)

  /** The batch timer is running or not, and its channel, which has room for one value, is full or not.
      Setting the timer again does not empty the channel. The batcher is `blocked` when it receives from
      the empty channel of a timer that is not running. */
  datatype State<T> = State(
    started: bool, first: U32, last: U32, running: bool, full: bool, blocked: bool, sent: seq<Frame<T>>)

  /** A delivery is submitted; the timer expires; the batcher takes the value from the timer's channel. It is
      `late` when a running timer expires meanwhile, before the batcher stops it. */
  datatype Event<T> = Submit(item: Item<T>, late: bool) | Expire | Fire(late: bool)

  function NEW<T>(): State<T> { State(false, 0, 0, false, false, false, []) }

  predicate Ready<T>(s: State<T>, e: Event<T>) {
    match e
    case Submit(x, _) => 0 <= x.id < TWO32 && !s.blocked
    case Expire => s.running
    case Fire(late) => s.full && !s.blocked && (late ==> s.running)
  }

  function Batch<T>(s: State<T>): Frame<T> { Frame(s.first, s.last, Accepted) }

  predicate Joins<T>(s: State<T>, x: Item<T>) { x.outcome.Accepted? && (s.started ==> (s.last + 1) % TWO32 == x.id) }

  function Step<T>(size: U32, s: State<T>, e: Event<T>): State<T>
    requires Ready(s, e)
  {
    match e
    case Expire => Expired(s)
    case Fire(late) => s.(sent := s.sent + [Batch(s)], started := false, running := false, full := late)
    case Submit(x, late) => if Joins(s, x) then MaybeFlushed(size, Joined(s, x, late)) else Separated(s, x)
  }

  function Expired<T>(s: State<T>): State<T> { s.(running := false, full := true) }

  /** The batch, if any, and then the delivery on its own; the timer is left alone. */
  function Separated<T>(s: State<T>, x: Item<T>): State<T>
    requires 0 <= x.id < TWO32
  {
    var flushed := if s.started then s.sent + [Batch(s)] else s.sent;
    s.(sent := flushed + [Frame(x.id, x.id, x.outcome)], started := false)
  }

  /** The batch with one more delivery. */
  function Joined<T>(s: State<T>, x: Item<T>, late: bool): State<T>
    requires 0 <= x.id < TWO32
  {
    var j := if s.started then s.(last := x.id) else s.(started := true, first := x.id, last := x.id, running := true);
    if late && j.running then Expired(j) else j
  }

  /** A batch is sent when it has reached its size. Then the timer is stopped, or its channel emptied if it
      has already expired. */
  function MaybeFlushed<T>(size: U32, s: State<T>): State<T> {
    if (s.last - s.first + 1) % TWO32 < size then s
    else
      var sent := s.(sent := s.sent + [Batch(s)], started := false, running := false);
      if s.running then sent else if s.full then sent.(full := false) else sent.(blocked := true)
  }

  function Run<T>(size: U32, es: seq<Event<T>>): Option<State<T>> {
    if es == [] then Some(NEW())
    else match Run(size, es[..|es| - 1])
      case None => None
      case Some(s) => if Ready(s, es[|es| - 1]) then Some(Step(size, s, es[|es| - 1])) else None
  }

  /** The submissions of a history: what is sent when there is no batching. */
  function Submitted<T>(es: seq<Event<T>>): seq<Item<T>> {
    if es == [] then []
    else
      var e := es[|es| - 1];
      Submitted(es[..|es| - 1]) + if e.Submit? then [e.item] else []
  }

  // The timer.

  /** While a batch is started, its timer is running or has left a value. */
  predicate Timed<T>(s: State<T>) { !s.blocked && (s.started ==> s.running || s.full) }

  /** Emptying the timer's channel after a full batch never blocks, in any history. */
  lemma {:induction false} NeverBlocks<T(!new)>(size: U32, es: seq<Event<T>>)
    requires Run(size, es).Some?
    ensures Timed(Run(size, es).value)
  {
    if es != [] { NeverBlocks(size, es[..|es| - 1]); }
  }

  // What frames cover.

  /** A range is read as this client reads one, from its first id up to its last. */
  function Range<T>(first: int, last: int, outcome: Outcome<T>): seq<Item<T>>
    decreases last - first
  {
    if last < first then [] else Range(first, last - 1, outcome) + [Item(last, outcome)]
  }

  function Covered<T>(fs: seq<Frame<T>>): seq<Item<T>> {
    if fs == [] then []
    else
      var f := fs[|fs| - 1];
      Covered(fs[..|fs| - 1]) + Range(f.first, f.last, f.outcome)
  }

  function Pending<T>(s: State<T>): seq<Item<T>> {
    if s.started then Range(s.first, s.last, Accepted) else []
  }

  /** What has been covered, again and again where it was, and what is pending. */
  function Handled<T>(s: State<T>): seq<Item<T>> { Covered(s.sent) + Pending(s) }

  /** The first occurrences, in order. */
  ghost function Firsts<T(!new)>(xs: seq<Item<T>>): seq<Item<T>> {
    if xs == [] then []
    else
      var init, x := xs[..|xs| - 1], xs[|xs| - 1];
      if x in init then Firsts(init) else Firsts(init) + [x]
  }

  /** An accepted delivery with id 0 joins a batch that ends in the largest id: the ids of the batch wrap
      around. */
  predicate Wraps<T>(s: State<T>, e: Event<T>) {
    e.Submit? && e.item.outcome.Accepted? && e.item.id == 0 && s.started && s.last == TWO32 - 1
  }

  predicate NeverWraps<T>(size: U32, es: seq<Event<T>>) {
    es == [] ||
    (NeverWraps(size, es[..|es| - 1]) &&
     var r := Run(size, es[..|es| - 1]); r.Some? ==> !Wraps(r.value, es[|es| - 1]))
  }

  /** The timer fires without a batch: what the missing test of `batchStarted` lets through. */
  predicate IsStale<T>(s: State<T>, e: Event<T>) { e.Fire? && !s.started }

  predicate NeverStale<T>(size: U32, es: seq<Event<T>>) {
    es == [] ||
    (NeverStale(size, es[..|es| - 1]) &&
     var r := Run(size, es[..|es| - 1]); r.Some? ==> !IsStale(r.value, es[|es| - 1]))
  }

  lemma {:induction false} RangeLength<T(!new)>(first: int, last: int, o: Outcome<T>)
    requires first <= last + 1
    ensures |Range(first, last, o)| == last - first + 1
    ensures first == last ==> Range(first, last, o) == [Item(first, o)]
    decreases last - first
  {
    if first <= last { RangeLength(first, last - 1, o); }
  }

  lemma CoveredStep<T(!new)>(fs: seq<Frame<T>>, f: Frame<T>)
    ensures Covered(fs + [f]) == Covered(fs) + Range(f.first, f.last, f.outcome)
  {
    assert (fs + [f])[..|fs|] == fs;
  }

  // What every step adds.

  predicate Shape<T>(size: U32, s: State<T>) { s.first <= s.last && (s.started ==> s.last - s.first + 1 < size) }

  /** What a step adds to what is handled: the delivery that is submitted, and the batch that a stale timer
      repeats. */
  function Added<T>(s: State<T>, e: Event<T>): seq<Item<T>> {
    match e
    case Submit(x, _) => [x]
    case Expire => []
    case Fire(_) => if s.started then [] else Range(s.first, s.last, Accepted)
  }

  lemma HandledStep<T(!new)>(size: U32, s: State<T>, e: Event<T>)
    requires Shape(size, s) && Ready(s, e) && !Wraps(s, e)
    ensures Shape(size, Step(size, s, e)) && Handled(Step(size, s, e)) == Handled(s) + Added(s, e)
  {
    hide Covered, Range;
    match e {
      case Expire =>
      case Fire(_) => CoveredStep(s.sent, Batch(s));
      case Submit(x, late) =>
        if Joins(s, x) {
          JoinedStep(size, s, x, late);
        } else {
          SeparatedStep(s, x);
        }
    }
  }

  lemma SeparatedStep<T(!new)>(s: State<T>, x: Item<T>)
    requires 0 <= x.id < TWO32
    ensures Handled(Separated(s, x)) == Handled(s) + [x]
  {
    hide Covered, Range;
    var flushed := if s.started then s.sent + [Batch(s)] else s.sent;
    CoveredStep(s.sent, Batch(s));
    CoveredStep(flushed, Frame(x.id, x.id, x.outcome));
    RangeLength(x.id, x.id, x.outcome);
  }

  lemma JoinedStep<T(!new)>(size: U32, s: State<T>, x: Item<T>, late: bool)
    requires Shape(size, s) && Ready(s, Submit(x, late)) && !Wraps(s, Submit(x, late)) && Joins(s, x)
    ensures var r := MaybeFlushed(size, Joined(s, x, late)); Shape(size, r) && Handled(r) == Handled(s) + [x]
  {
    if s.started { Consecutive(s.last, x.id); }
    var j := Joined(s, x, late);
    Extended(s, j, x);
    hide Covered, Range, MaybeFlushed;
    FlushedHandled(size, j);
  }

  /** Sending the batch moves it from what is pending to what is covered. */
  lemma FlushedHandled<T(!new)>(size: U32, j: State<T>)
    requires j.started && j.first <= j.last < j.first + TWO32 - 1
    ensures var r := MaybeFlushed(size, j); Shape(size, r) && Handled(r) == Handled(j)
  {
    CoveredStep(j.sent, Batch(j));
    hide Covered, Range;
    ModSmall(j.last - j.first + 1);
  }

  lemma Consecutive(last: U32, id: int)
    requires (last + 1) % TWO32 == id && !(last == TWO32 - 1 && id == 0)
    ensures id == last + 1
  {
  }

  lemma Extended<T(!new)>(s: State<T>, s1: State<T>, x: Item<T>)
    requires x.outcome.Accepted? && s1.started && s1.last == x.id
    requires if s.started then s.first <= s.last && x.id == s.last + 1 && s1.first == s.first else s1.first == x.id
    ensures Pending(s1) == Pending(s) + [x]
  {
    if !s.started { RangeLength<T>(x.id, x.id, Accepted); }
  }

  // Repetition.

  lemma {:induction false} LengthRun<T(!new)>(size: U32, es: seq<Event<T>>)
    requires Run(size, es).Some? && NeverWraps(size, es)
    ensures var s := Run(size, es).value;
      && Shape(size, s)
      && if NeverStale(size, es) then Handled(s) == Submitted(es) else |Handled(s)| > |Submitted(es)|
  {
    if es != [] {
      hide Shape, Step, Wraps, Handled, Range;
      var init, e := es[..|es| - 1], es[|es| - 1];
      var s := Run(size, init).value;
      LengthRun(size, init);
      HandledStep(size, s, e);
      ShapeOrder(size, s);
      RangeLength<T>(s.first, s.last, Accepted);
    } else {
      assert Covered<T>([]) == [];
    }
  }

  lemma ShapeOrder<T(!new)>(size: U32, s: State<T>)
    requires Shape(size, s)
    ensures s.first <= s.last
  {
  }

  /** Every submission, repeated ones included, is covered or pending exactly once, in order, if and only if
      the timer never fires without a batch. */
  lemma OnceIff<T(!new)>(size: U32, es: seq<Event<T>>)
    requires Run(size, es).Some? && NeverWraps(size, es)
    ensures var s := Run(size, es).value; Covered(s.sent) + Pending(s) == Submitted(es) <==> NeverStale(size, es)
  {
    LengthRun(size, es);
  }

  /** For example, the timer of a batch that was flushed early fires later and repeats the batch. */
  lemma StaleTimerRepeats<T(!new)>(size: U32, t: T)
    requires size > 1
    ensures var es := [Submit(Item(1, Accepted), false), Submit(Item(7, Other(t)), false), Expire, Fire(false)];
      && Run(size, es).Some?
      && Run(size, es).value.sent == [Frame(1, 1, Accepted), Frame(7, 7, Other(t)), Frame(1, 1, Accepted)]
  {
    var es := [Submit(Item(1, Accepted), false), Submit(Item(7, Other(t)), false), Expire, Fire(false)];
    assert es[..3][..2] == es[..2] && es[..2][..1] == es[..1] && es[..1][..0] == [];
    assert Run(size, es[..1]) == Some(Step(size, NEW(), es[0]));
    assert Run(size, es[..2]) == Some(Step(size, Run(size, es[..1]).value, es[1]));
    assert Run(size, es[..3]) == Some(Step(size, Run(size, es[..2]).value, es[2]));
  }

  // Refinement.

  lemma {:induction false} FirstsSame<T(!new)>(xs: seq<Item<T>>)
    ensures forall x :: x in Firsts(xs) <==> x in xs
  {
    if xs != [] {
      FirstsSame(xs[..|xs| - 1]);
      assert xs == xs[..|xs| - 1] + [xs[|xs| - 1]];
    }
  }

  /** One more delivery keeps the first occurrences of two sequences the same. */
  lemma FirstsSnoc<T(!new)>(xs: seq<Item<T>>, ys: seq<Item<T>>, x: Item<T>)
    requires Firsts(xs) == Firsts(ys)
    ensures Firsts(xs + [x]) == Firsts(ys + [x])
  {
    FirstsSame(xs);
    FirstsSame(ys);
    assert (xs + [x])[..|xs|] == xs && (ys + [x])[..|ys|] == ys;
  }

  /** Covering deliveries again adds no first occurrence. */
  lemma {:induction false} FirstsOld<T(!new)>(xs: seq<Item<T>>, ys: seq<Item<T>>)
    requires forall y :: y in ys ==> y in xs
    ensures Firsts(xs + ys) == Firsts(xs)
    decreases |ys|
  {
    if ys == [] {
      assert xs + ys == xs;
    } else {
      FirstsOld(xs, ys[..|ys| - 1]);
      assert (xs + ys)[..|xs + ys| - 1] == xs + ys[..|ys| - 1];
      assert ys[|ys| - 1] in ys;
    }
  }

  /** The batch that the timer would send is among what is handled. */
  ghost predicate Known<T(!new)>(s: State<T>) {
    s.running || s.full ==> forall x :: x in Range(s.first, s.last, Accepted) ==> x in Handled(s)
  }

  lemma KnownStep<T(!new)>(size: U32, s: State<T>, e: Event<T>)
    requires Known(s) && Timed(s) && Shape(size, s) && Ready(s, e) && !Wraps(s, e)
    ensures Known(Step(size, s, e))
  {
    HandledStep(size, s, e);
    var s1 := Step(size, s, e);
    if e.Submit? && Joins(s, e.item) {
      var j := Joined(s, e.item, e.late);
      assert Pending(j) == Range(s1.first, s1.last, Accepted);
      CoveredStep(j.sent, Batch(j));
      hide Covered, Range, Handled;
      JoinedKnown(size, j);
    } else {
      hide Covered, Range, Handled;
      assert s1.first == s.first && s1.last == s.last;
    }
  }

  lemma JoinedKnown<T(!new)>(size: U32, j: State<T>)
    requires j.started && Covered(j.sent + [Batch(j)]) == Covered(j.sent) + Range(j.first, j.last, Accepted)
    ensures forall x :: x in Range(j.first, j.last, Accepted) ==> x in Handled(MaybeFlushed(size, j))
  {
    hide Covered, Range;
  }

  lemma {:induction false} FirstsRun<T(!new)>(size: U32, es: seq<Event<T>>)
    requires Run(size, es).Some? && NeverWraps(size, es)
    ensures var s := Run(size, es).value; Firsts(Handled(s)) == Firsts(Submitted(es)) && Known(s)
  {
    if es != [] {
      hide Shape, Step, Wraps, Handled, Firsts, Known, Timed, Range;
      var init, e := es[..|es| - 1], es[|es| - 1];
      var s := Run(size, init).value;
      FirstsRun(size, init);
      LengthRun(size, init);
      NeverBlocks(size, init);
      HandledStep(size, s, e);
      KnownStep(size, s, e);
      FirstsAdded(s, e, Submitted(init));
      assert Submitted(es) == Submitted(init) + if e.Submit? then [e.item] else [];
    } else {
      assert Covered<T>([]) == [];
    }
  }

  lemma FirstsAdded<T(!new)>(s: State<T>, e: Event<T>, xs: seq<Item<T>>)
    requires Firsts(Handled(s)) == Firsts(xs) && Known(s) && Ready(s, e)
    ensures Firsts(Handled(s) + Added(s, e)) == Firsts(xs + if e.Submit? then [e.item] else [])
  {
    hide Firsts, Handled, Range;
    assert Handled(s) + [] == Handled(s) && xs + [] == xs;
    match e {
      case Submit(x, _) => FirstsSnoc(Handled(s), xs, x);
      case Expire =>
      case Fire(_) => if !s.started { FirstsOld(Handled(s), Range(s.first, s.last, Accepted)); }
    }
  }

  /** Batching refines sending each disposition by itself: for every schedule of submissions, repeated ones
      included, and timer expiries, the deliveries in the order in which they are first covered or pending
      are the deliveries in the order in which they are first submitted, with their outcomes; so frames
      cover nothing else, and no submission is missing. The pending batch is shorter than the batch size. */
  lemma BatchingRefines<T(!new)>(size: U32, es: seq<Event<T>>)
    requires Run(size, es).Some? && NeverWraps(size, es)
    ensures var s := Run(size, es).value;
      && Firsts(Covered(s.sent) + Pending(s)) == Firsts(Submitted(es))
      && (forall x :: x in Covered(s.sent) ==> x in Submitted(es))
      && (forall x :: x in Submitted(es) ==> x in Covered(s.sent) || x in Pending(s))
      && (s.started ==> |Pending(s)| < size)
  {
    FirstsRun(size, es);
    LengthRun(size, es);
    var s := Run(size, es).value;
    FirstsSame(Handled(s));
    FirstsSame(Submitted(es));
    if s.started { RangeLength<T>(s.first, s.last, Accepted); }
    hide Run, Submitted, Firsts, Covered, Range, NeverStale;
  }

  // Wrap-around.

  ghost predicate Distinct<T(!new)>(xs: seq<Item<T>>) { forall j, k :: 0 <= j < k < |xs| ==> xs[j].id != xs[k].id }

  /** The delivery with id 0 is not covered, and no batch that could still be sent covers it. */
  ghost predicate ZeroLost<T(!new)>(s: State<T>) {
    Item(0, Accepted) !in Covered(s.sent) && (s.started || s.running || s.full ==> s.first > 0)
  }

  lemma {:induction false} RangeAbove<T(!new)>(first: int, last: int, o: Outcome<T>)
    requires first > 0
    ensures Item(0, Accepted) !in Range(first, last, o)
    decreases last - first
  {
    if first <= last { RangeAbove(first, last - 1, o); }
  }

  lemma CoveredAbove<T(!new)>(sent: seq<Frame<T>>, f: Frame<T>)
    requires Item(0, Accepted) !in Covered(sent) && f.first > 0
    ensures Item(0, Accepted) !in Covered(sent + [f])
  {
    CoveredStep(sent, f);
    RangeAbove(f.first, f.last, f.outcome);
    hide Covered, Range;
  }

  /** A batch that wraps around leaves the delivery with id 0 uncovered. */
  lemma WrapLoses<T(!new)>(size: U32, s: State<T>, e: Event<T>)
    requires Shape(size, s) && Ready(s, e) && Wraps(s, e) && Item(0, Accepted) !in Covered(s.sent)
    ensures ZeroLost(Step(size, s, e))
  {
    CoveredAbove(s.sent, Batch(s.(last := 0)));
    hide Covered;
  }

  lemma ZeroStaysLost<T(!new)>(size: U32, s: State<T>, e: Event<T>)
    requires ZeroLost(s) && Ready(s, e) && (e.Submit? ==> e.item.id != 0)
    ensures ZeroLost(Step(size, s, e))
  {
    hide Covered;
    if s.started || s.running || s.full { CoveredAbove(s.sent, Batch(s)); }
    if e.Submit? {
      var x := e.item;
      if Joins(s, x) {
        CoveredAbove(s.sent, Batch(Joined(s, x, e.late)));
      } else {
        CoveredAbove(if s.started then s.sent + [Batch(s)] else s.sent, Frame(x.id, x.id, x.outcome));
      }
    }
  }

  lemma {:induction false} LostRun<T(!new)>(size: U32, es: seq<Event<T>>)
    requires Run(size, es).Some? && Distinct(Submitted(es)) && !NeverWraps(size, es)
    ensures ZeroLost(Run(size, es).value) && Item(0, Accepted) in Submitted(es)
  {
    hide Step, Wraps, ZeroLost, Covered, Shape, Ready;
    var init, e := es[..|es| - 1], es[|es| - 1];
    var s, xs := Run(size, init).value, Submitted(init);
    if e.Submit? {
      DistinctInit(xs, e.item);
    } else {
      assert Submitted(es) == xs;
    }
    hide Distinct;
    if NeverWraps(size, init) {
      WrapsZero(s, e);
      BatchingRefines(size, init);
      LengthRun(size, init);
      WrapLoses(size, s, e);
    } else {
      LostRun(size, init);
      ZeroStaysLost(size, s, e);
    }
  }

  lemma WrapsZero<T(!new)>(s: State<T>, e: Event<T>)
    requires Wraps(s, e)
    ensures e.Submit? && e.item == Item(0, Accepted)
  {
  }

  lemma DistinctInit<T(!new)>(xs: seq<Item<T>>, x: Item<T>)
    requires Distinct(xs + [x])
    ensures Distinct(xs) && forall y :: y in xs ==> y.id != x.id
  {
    forall j, k | 0 <= j < k < |xs| ensures xs[j].id != xs[k].id {
      assert (xs + [x])[j] == xs[j] && (xs + [x])[k] == xs[k];
    }
    forall k | 0 <= k < |xs| ensures xs[k].id != x.id {
      assert (xs + [x])[k] == xs[k] && (xs + [x])[|xs|] == x;
    }
  }

  /** Every submission is covered or pending if no batch wraps around; and only then, unless deliveries are
      submitted again, which can make up for the loss. */
  lemma CoveredIff<T(!new)>(size: U32, es: seq<Event<T>>)
    requires Run(size, es).Some?
    ensures var s := Run(size, es).value;
      var all := forall x :: x in Submitted(es) ==> x in Covered(s.sent) || x in Pending(s);
      (NeverWraps(size, es) ==> all) && (Distinct(Submitted(es)) ==> (all <==> NeverWraps(size, es)))
  {
    if NeverWraps(size, es) {
      BatchingRefines(size, es);
    } else if Distinct(Submitted(es)) {
      LostRun(size, es);
      var s := Run(size, es).value;
      if s.started { RangeAbove<T>(s.first, s.last, Accepted); }
      hide Run, Submitted, Covered, Range, NeverWraps;
      assert Item(0, Accepted) !in Covered(s.sent) && Item(0, Accepted) !in Pending(s);
    }
  }

  /** For example, the smallest batch that wraps around: its frame covers nothing. */
  lemma WrappedBatchIsLost<T(!new)>(size: U32)
    requires size > 2
    ensures var es: seq<Event<T>> := [Submit(Item(TWO32 - 1, Accepted), false), Submit(Item(0, Accepted), false),
        Expire, Fire(false)];
      Run(size, es).Some? && Covered(Run(size, es).value.sent) == [] && Pending(Run(size, es).value) == []
  {
    var es: seq<Event<T>> := [Submit(Item(TWO32 - 1, Accepted), false), Submit(Item(0, Accepted), false), Expire,
      Fire(false)];
    assert es[..3][..2] == es[..2] && es[..2][..1] == es[..1] && es[..1][..0] == [];
    assert Run(size, es[..1]) == Some(Step(size, NEW(), es[0]));
    assert Run(size, es[..2]) == Some(Step(size, Run(size, es[..1]).value, es[1]));
    assert Run(size, es[..3]) == Some(Step(size, Run(size, es[..2]).value, es[2]));
    var f: Frame<T> := Frame(TWO32 - 1, 0, Accepted);
    assert Run(size, es).value.sent == [f];
    CoveredStep([], f);
    assert [] + [f] == [f];
  }

  // What is sent, from the history alone.

  /** The ids of the pending batch: accepted deliveries with consecutive ids, fewer than the batch size, since the
      last frame. */
  function Batched<T>(size: U32, es: seq<Event<T>>): seq<int> {
    if es == [] then []
    else
      var ids := Batched(size, es[..|es| - 1]);
      match es[|es| - 1]
      case Expire => ids
      case Fire(_) => []
      case Submit(x, _) => if Continues(ids, x) && |ids| + 1 < size then ids + [x.id] else []
  }

  predicate Continues<T>(ids: seq<int>, x: Item<T>) {
    x.outcome.Accepted? && (ids == [] || x.id == (ids[|ids| - 1] + 1) % TWO32)
  }

  /** The first and the last id of the last batch, pending or sent; zero before there was any. */
  function LastBatch<T>(size: U32, es: seq<Event<T>>): (int, int) {
    if es == [] then (0, 0)
    else
      var init := es[..|es| - 1];
      var ids := Batched(size, init);
      match es[|es| - 1]
      case Submit(x, _) =>
        if Continues(ids, x) then (if ids == [] then x.id else ids[0], x.id) else LastBatch(size, init)
      case _ => LastBatch(size, init)
  }

  ghost predicate IsBatch<T(!new)>(size: U32, s: State<T>, ids: seq<int>, range: (int, int)) {
    && (s.started <==> ids != []) && range == (s.first, s.last)
    && (ids != [] ==> ids[0] == s.first && ids[|ids| - 1] == s.last && (s.last - s.first + 1) % TWO32 == |ids| < size)
  }

  /** The size that the code computes in 32 bits is one more. */
  lemma OneMore(first: U32, last: U32, id: U32, n: nat)
    requires id == (last + 1) % TWO32 && (last - first + 1) % TWO32 == n && n + 1 < TWO32
    ensures (id - first + 1) % TWO32 == n + 1
  {
    ModAdd(last + 1, 1 - first);
    ModAdd(last - first + 1, 1);
    ModSmall(n + 1);
  }

  /** The batch after one more delivery. */
  lemma JoinedSize<T(!new)>(size: U32, s: State<T>, x: Item<T>, late: bool, ids: seq<int>, range: (int, int))
    requires IsBatch(size, s, ids, range) && 0 <= x.id < TWO32 && Continues(ids, x)
    ensures var j := Joined(s, x, late);
      && Joins(s, x) && j.started && j.first == (if ids == [] then x.id else s.first) && j.last == x.id
      && (j.last - j.first + 1) % TWO32 == |ids| + 1 && j.sent == s.sent
  {
    if ids != [] { OneMore(s.first, s.last, x.id, |ids|); }
  }

  lemma BatchStep<T(!new)>(size: U32, s: State<T>, e: Event<T>, ids: seq<int>, range: (int, int))
    requires IsBatch(size, s, ids, range) && Ready(s, e)
    ensures IsBatch(size, Step(size, s, e),
      match e
      case Expire => ids
      case Fire(_) => []
      case Submit(x, _) => if Continues(ids, x) && |ids| + 1 < size then ids + [x.id] else [],
      if e.Submit? && Continues(ids, e.item) then (if ids == [] then e.item.id else ids[0], e.item.id) else range)
  {
    if e.Submit? && Continues(ids, e.item) {
      JoinedSize(size, s, e.item, e.late, ids, range);
      hide Joined, Joins, Continues;
    }
  }

  lemma SentStep<T(!new)>(size: U32, s: State<T>, e: Event<T>, ids: seq<int>, range: (int, int))
    requires IsBatch(size, s, ids, range) && Ready(s, e)
    ensures Step(size, s, e).sent == s.sent +
      match e
      case Expire => []
      case Fire(_) => [Batch(s)]
      case Submit(x, _) =>
        if Continues(ids, x) then
          if |ids| + 1 < size then [] else [Frame(if ids == [] then x.id else s.first, x.id, Accepted)]
        else (if ids == [] then [] else [Batch(s)]) + [Frame(x.id, x.id, x.outcome)]
  {
    if e.Submit? && Continues(ids, e.item) {
      JoinedSize(size, s, e.item, e.late, ids, range);
      hide Joined, Joins, Continues;
    }
  }

  lemma {:induction false} BatchRun<T(!new)>(size: U32, es: seq<Event<T>>)
    requires Run(size, es).Some?
    ensures IsBatch(size, Run(size, es).value, Batched(size, es), LastBatch(size, es))
  {
    if es != [] {
      var init := es[..|es| - 1];
      BatchRun(size, init);
      hide IsBatch, Step, Ready, Continues;
      BatchStep(size, Run(size, init).value, es[|es| - 1], Batched(size, init), LastBatch(size, init));
    }
  }

  /** What each event sends, in every history. A submission that continues the pending batch sends nothing until
      the batch reaches its size, and then the whole batch; any other submission sends the pending batch, if there
      is one, and then its own delivery. The timer sends the last batch. Nothing else sends anything. */
  lemma SentIs<T(!new)>(size: U32, es: seq<Event<T>>, e: Event<T>)
    requires Run(size, es + [e]).Some?
    ensures Run(size, es).Some?
    ensures var s, t, ids, r := Run(size, es).value, Run(size, es + [e]).value, Batched(size, es), LastBatch(size, es);
      && 0 <= r.0 < TWO32 && 0 <= r.1 < TWO32 && (e.Submit? ==> 0 <= e.item.id < TWO32)
      && (ids != [] ==> r == (ids[0], ids[|ids| - 1]))
      && t.sent == s.sent +
        match e
        case Expire => []
        case Fire(_) => [Frame(r.0, r.1, Accepted)]
        case Submit(x, _) =>
          if Continues(ids, x) then
            if |ids| + 1 < size then [] else [Frame(if ids == [] then x.id else r.0, x.id, Accepted)]
          else (if ids == [] then [] else [Frame(r.0, r.1, Accepted)]) + [Frame(x.id, x.id, x.outcome)]
  {
    assert (es + [e])[..|es + [e]| - 1] == es;
    BatchRun(size, es);
    var s, ids, r := Run(size, es).value, Batched(size, es), LastBatch(size, es);
    hide Run, Batched, LastBatch, Step, Continues;
    SentStep(size, s, e, ids, r);
  }

  /** The timer is set when a batch is started; it runs until it expires, fires or is stopped with a full batch. */
  predicate Ticking<T>(size: U32, es: seq<Event<T>>) {
    es != [] &&
    var init := es[..|es| - 1];
    match es[|es| - 1]
    case Expire => false
    case Fire(_) => false
    case Submit(x, late) =>
      var ids := Batched(size, init);
      if !Continues(ids, x) then Ticking(size, init)
      else (ids == [] || Ticking(size, init)) && !late && |ids| + 1 < size
  }

  /** A value is in the timer's channel: it expired, and the value has not been taken, by the timer arm or after a
      full batch whose timer was not running any more. */
  predicate Rung<T>(size: U32, es: seq<Event<T>>) {
    es != [] &&
    var init := es[..|es| - 1];
    match es[|es| - 1]
    case Expire => true
    case Fire(late) => late
    case Submit(x, late) =>
      var ids := Batched(size, init);
      var ticking := ids == [] || Ticking(size, init);
      if !Continues(ids, x) then Rung(size, init)
      else if |ids| + 1 < size then Rung(size, init) || (late && ticking)
      else Rung(size, init) && ticking && !late
  }

  /** In every history, the timer and its channel are what the events say. */
  lemma {:induction false} TimerIs<T(!new)>(size: U32, es: seq<Event<T>>)
    requires Run(size, es).Some?
    ensures var s := Run(size, es).value; s.running == Ticking(size, es) && s.full == Rung(size, es)
  {
    if es != [] {
      var init, e := es[..|es| - 1], es[|es| - 1];
      TimerIs(size, init);
      BatchRun(size, init);
      NeverBlocks(size, init);
      var s := Run(size, init).value;
      TimerStep(size, s, e, Batched(size, init), LastBatch(size, init));
      hide Step, Ready, Continues, IsBatch, Batched;
    }
  }

  lemma TimerStep<T(!new)>(size: U32, s: State<T>, e: Event<T>, ids: seq<int>, range: (int, int))
    requires IsBatch(size, s, ids, range) && Ready(s, e) && Timed(s)
    ensures var t := Step(size, s, e);
      match e
      case Expire => !t.running && t.full
      case Fire(late) => !t.running && t.full == late
      case Submit(x, late) =>
        var ticking := ids == [] || s.running;
        if !Continues(ids, x) then t.running == s.running && t.full == s.full
        else if |ids| + 1 < size then t.running == (ticking && !late) && t.full == (s.full || (late && ticking))
        else !t.running && t.full == (s.full && ticking && !late)
  {
    if e.Submit? && Continues(ids, e.item) {
      JoinedSize(size, s, e.item, e.late, ids, range);
      hide Continues, Joins;
    }
  }

  class DispositionBatcher<T(!new)> {
    const batchSize: U32
    var batchStarted: bool
    var first: U32
    var last: U32
    var running: bool
    var full: bool
    var blocked: bool
    var sent: seq<Frame<T>>

    ghost function View(): State<T>
      reads this
    {
      State(batchStarted, first, last, running, full, blocked, sent)
    }

    constructor (maxCredit: U32)
      ensures View() == NEW() && batchSize == maxCredit
    {
      batchSize := maxCredit;
      batchStarted, first, last, running, full, blocked, sent := false, 0, 0, false, false, false, [];
    }

    method SendDisposition(first: U32, last: Option<U32>, outcome: Outcome<T>)
      modifies this`sent
      ensures sent == old(sent) + [Frame(first, if last.Some? then last.value else first, outcome)]
    {
      sent := sent + [Frame(first, if last.Some? then last.value else first, outcome)];
    }

    /** Stops the timer and tells whether it was running. */
    method StopTimer() returns (wasRunning: bool)
      modifies this`running
      ensures !running && wasRunning == old(running)
    {
      wasRunning := running;
      running := false;
    }

    /** A running timer may expire before it is stopped, which is when it is `late`. */
    method TimerElapses(late: bool)
      modifies this`running, this`full
      ensures View() == if late && old(running) then Expired(old(View())) else old(View())
    {
      if late && running {
        running := false;
        full := true;
      }
    }

    method Handle(x: Item<T>, late: bool)
      requires Ready(View(), Submit(x, late))
      modifies this
      ensures View() == Step(batchSize, old(View()), Submit(x, late))
    {
      if !x.outcome.Accepted? || (batchStarted && (last + 1) % TWO32 != x.id) {
        if batchStarted {
          SendDisposition(first, Some(last), Accepted);
          batchStarted := false;
        }
        SendDisposition(x.id, None, x.outcome);
        return;
      }
      if batchStarted {
        last := (last + 1) % TWO32;
      } else {
        batchStarted := true;
        first := x.id;
        last := x.id;
        running := true;
      }
      TimerElapses(late);
      if (last - first + 1) % TWO32 >= batchSize {
        SendDisposition(first, Some(last), Accepted);
        batchStarted := false;
        var wasRunning := StopTimer();
        if !wasRunning {
          if full {
            full := false;
          } else {
            blocked := true;
          }
        }
      }
    }

    method TimerFired(late: bool)
      requires Ready(View(), Fire(late))
      modifies this
      ensures View() == Step(batchSize, old(View()), Fire(late))
    {
      full := false;
      SendDisposition(first, Some(last), Accepted);
      batchStarted := false;
      TimerElapses(late);
      var _ := StopTimer();
    }
  }
}
