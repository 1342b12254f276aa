/** Dispositions in flight: callers wait, each on a channel of capacity one, for the peer to
    confirm the settlement of a delivery. */
module InFlight {
  import opened Bytes

  /** A value was put on a wait channel. */
  datatype Signal<T> = Signal(chan: nat, err: T)

  /** `m` maps delivery ids to wait channels, `made` counts the channels made so far. */
  datatype State<T> = State(m: map<U32, nat>, made: nat, sent: seq<Signal<T>>)

  /** A caller starts to wait; a delivery is confirmed, by itself or as part of a range. */
  datatype Event<T> = Add(id: U32) | Confirm(id: U32, err: T)

  function NEW<T>(): State<T> { State(map[], 0, []) }

  function Confirmed<T>(s: State<T>, id: U32, err: T): State<T> {
    if id in s.m then s.(m := s.m - {id}, sent := s.sent + [Signal(s.m[id], err)]) else s
  }

  function Step<T>(s: State<T>, e: Event<T>): State<T> {
    match e
    case Add(id) => State(s.m[id := s.made], s.made + 1, s.sent)
    case Confirm(id, err) => Confirmed(s, id, err)
  }

  function Run<T>(es: seq<Event<T>>): State<T> {
    if es == [] then NEW() else Step(Run(es[..|es| - 1]), es[|es| - 1])
  }

  /** Waiting channels are different from each other and from those that have got their value. */
  ghost predicate Inv<T(!new)>(s: State<T>) {
    && (forall i :: i in s.m ==> s.m[i] < s.made)
    && (forall i, j :: i in s.m && j in s.m && i != j ==> s.m[i] != s.m[j])
    && (forall k :: 0 <= k < |s.sent| ==> s.sent[k].chan < s.made)
    && (forall j, k :: 0 <= j < k < |s.sent| ==> s.sent[j].chan != s.sent[k].chan)
    && (forall i, k :: i in s.m && 0 <= k < |s.sent| ==> s.m[i] != s.sent[k].chan)
  }

  lemma StepKeeps<T(!new)>(s: State<T>, e: Event<T>)
    requires Inv(s)
    ensures Inv(Step(s, e))
  {
  }

  /** In every history of additions and confirmations, ranged ones and the final clearing included,
      a channel gets at most one value: putting it there never blocks. */
  lemma {:induction false} SentOnce<T(!new)>(es: seq<Event<T>>)
    ensures Inv(Run(es))
  {
    if es != [] {
      hide Inv, Step;
      SentOnce(es[..|es| - 1]);
      StepKeeps(Run(es[..|es| - 1]), es[|es| - 1]);
    } else {
      assert Inv(NEW<T>());
    }
  }

  /** A channel that was made, is not waiting and has no value. */
  ghost predicate Lost<T(!new)>(s: State<T>, c: nat) {
    c < s.made && (forall i :: i in s.m ==> s.m[i] != c) && forall k :: 0 <= k < |s.sent| ==> s.sent[k].chan != c
  }

  /** A delivery was registered again while a caller waited for it on `c`. */
  ghost predicate Replaced<T(!new)>(es: seq<Event<T>>, c: nat) {
    es != [] &&
    var init, e := es[..|es| - 1], es[|es| - 1];
    Replaced(init, c) || (e.Add? && e.id in Run(init).m && Run(init).m[e.id] == c)
  }

  lemma LostAdd<T(!new)>(s: State<T>, id: U32, c: nat)
    requires Inv(s)
    ensures Lost(Step(s, Add(id)), c) <==> Lost(s, c) || (id in s.m && s.m[id] == c)
  {
    var s1 := Step(s, Add(id));
    if c >= s.made {
      assert s1.m[id] == s.made;
    } else if id in s.m && s.m[id] == c {
      assert forall i :: i in s1.m && i != id ==> s1.m[i] != c;
    } else if exists i :: i in s.m && s.m[i] == c {
      var i :| i in s.m && s.m[i] == c;
      assert s1.m[i] == c;
    }
  }

  lemma LostConfirm<T(!new)>(s: State<T>, id: U32, err: T, c: nat)
    requires Inv(s)
    ensures Lost(Confirmed(s, id, err), c) <==> Lost(s, c)
  {
    var s1 := Confirmed(s, id, err);
    if id in s.m {
      if s.m[id] == c {
        assert s1.sent[|s.sent|].chan == c;
      } else if exists i :: i in s.m && s.m[i] == c {
        var i :| i in s.m && s.m[i] == c;
        assert s1.m[i] == c;
      } else if !Lost(s, c) && c < s.made {
        var k :| 0 <= k < |s.sent| && s.sent[k].chan == c;
        assert s1.sent[k].chan == c;
      }
    }
  }

  /** In every history, a waiter is left without a value and without anyone to give it one, the final
      clearing included, if and only if its delivery was registered again while it waited. */
  lemma {:induction false} LostIff<T(!new)>(es: seq<Event<T>>, c: nat)
    ensures Lost(Run(es), c) <==> Replaced(es, c)
  {
    if es != [] {
      var init, e := es[..|es| - 1], es[|es| - 1];
      LostIff(init, c);
      SentOnce(init);
      match e {
        case Add(id) => LostAdd(Run(init), id, c);
        case Confirm(id, err) => LostConfirm(Run(init), id, err, c);
      }
      hide Lost, Inv;
    }
  }

  // Ranges.

  function Removed<T>(s: State<T>, first: U32, last: int, err: T): State<T>
    decreases last - first
  {
    if last < first || last >= TWO32 then s else Confirmed(Removed(s, first, last - 1, err), last, err)
  }

  function Confirms<T>(first: U32, last: int, err: T): seq<Event<T>>
    decreases last - first
  {
    if last < first || last >= TWO32 then [] else Confirms(first, last - 1, err) + [Confirm(last, err)]
  }

  lemma {:induction false} RemovedIsConfirms<T(!new)>(es: seq<Event<T>>, first: U32, last: int, err: T)
    ensures Run(es + Confirms(first, last, err)) == Removed(Run(es), first, last, err)
    decreases last - first
  {
    var cs := Confirms(first, last, err);
    if last < first || last >= TWO32 {
      assert es + cs == es;
    } else {
      RemovedIsConfirms(es, first, last - 1, err);
      assert (es + cs)[..|es + cs| - 1] == es + Confirms(first, last - 1, err);
    }
  }

  /** The signals for the registered ids of a range, in ascending order. */
  function SignalsFor<T>(m: map<U32, nat>, first: U32, last: int, err: T): seq<Signal<T>>
    decreases last - first
  {
    if last < first || last >= TWO32 then []
    else SignalsFor(m, first, last - 1, err) + if last in m then [Signal(m[last], err)] else []
  }

  /** A ranged removal touches exactly the registered ids of the range. */
  lemma {:induction false} RemovedExactly<T(!new)>(s: State<T>, first: U32, last: int, err: T)
    requires last < TWO32
    ensures var r := Removed(s, first, last, err);
      && r.made == s.made
      && (forall i :: i in r.m <==> i in s.m && !(first <= i <= last))
      && (forall i :: i in r.m ==> r.m[i] == s.m[i])
      && r.sent == s.sent + SignalsFor(s.m, first, last, err)
    decreases last - first
  {
    if first <= last { RemovedExactly(s, first, last - 1, err); }
  }

  class Waiters<T(!new)> {
    var m: map<U32, nat>
    var made: nat
    var sent: seq<Signal<T>>

    ghost function View(): State<T>
      reads this
    {
      State(m, made, sent)
    }

    constructor ()
      ensures View() == NEW()
    {
      m, made, sent := map[], 0, [];
    }

    method AddWaiter(id: U32) returns (wait: nat)
      modifies this
      ensures View() == Step(old(View()), Add(id)) && m[id] == wait
    {
      wait := made;
      made := made + 1;
      m := m[id := wait];
    }

    /** The loop of the code does not end for a range that ends in the largest number. */
    method Remove(first: U32, last: Option<U32>, err: T)
      requires (if last.Some? then last.value else first) < TWO32 - 1
      modifies this
      ensures View() == Removed(old(View()), first, if last.Some? then last.value else first, err)
    {
      var end := if last.Some? then last.value else first;
      var id: U32 := first;
      while id <= end
        invariant first <= id && (id <= end + 1 || id == first)
        invariant View() == Removed(old(View()), first, id - 1, err)
        decreases end + 1 - id
      {
        if id in m {
          sent := sent + [Signal(m[id], err)];
          m := m - {id};
        }
        id := id + 1;
      }
    }

    /** Signals every remaining waiter, in whatever order the map is traversed, once each, and
        nothing else. */
    method Clear(err: T)
      requires Inv(View())
      modifies this
      ensures Inv(View()) && m == map[] && made == old(made)
      ensures |old(sent)| <= |sent| && sent[..|old(sent)|] == old(sent)
      ensures forall i :: i in old(m) ==> Signal(old(m)[i], err) in sent[|old(sent)|..]
      ensures |sent| == |old(sent)| + |old(m)|
    {
      hide Inv, Progress;
      ghost var s0 := View();
      ProgressStart(s0, err);
      while m != map[]
        invariant Inv(View()) && Progress(s0, View(), err)
        decreases |m|
      {
        var id :| id in m;
        StepKeeps(View(), Confirm(id, err));
        ProgressStep(s0, View(), id, err);
        MapShrinks(m, id);
        sent := sent + [Signal(m[id], err)];
        m := m - {id};
      }
      ProgressEnd(s0, View(), err);
    }
  }

  /** Part of `s0.m` is left; the others have been signalled. */
  ghost predicate Progress<T(!new)>(s0: State<T>, s: State<T>, err: T) {
    && s.made == s0.made
    && (forall i :: i in s.m ==> i in s0.m && s.m[i] == s0.m[i])
    && |s0.sent| <= |s.sent| && s.sent[..|s0.sent|] == s0.sent
    && (forall i :: i in s0.m && i !in s.m ==> Signal(s0.m[i], err) in s.sent[|s0.sent|..])
    && |s.sent| + |s.m| == |s0.sent| + |s0.m|
  }

  lemma ProgressStart<T(!new)>(s: State<T>, err: T)
    ensures Progress(s, s, err)
  {
  }

  lemma ProgressStep<T(!new)>(s0: State<T>, s: State<T>, id: U32, err: T)
    requires Progress(s0, s, err) && id in s.m
    ensures Progress(s0, Confirmed(s, id, err), err)
  {
    MapShrinks(s.m, id);
    var r := Confirmed(s, id, err);
    assert r.sent[|s0.sent|..] == s.sent[|s0.sent|..] + [Signal(s.m[id], err)];
  }

  lemma ProgressEnd<T(!new)>(s0: State<T>, s: State<T>, err: T)
    requires Progress(s0, s, err) && s.m == map[]
    ensures s.made == s0.made && |s0.sent| <= |s.sent| && s.sent[..|s0.sent|] == s0.sent
    ensures |s.sent| == |s0.sent| + |s0.m|
    ensures forall i :: i in s0.m ==> Signal(s0.m[i], err) in s.sent[|s0.sent|..]
  {
  }

  lemma MapShrinks(m: map<U32, nat>, id: U32)
    requires id in m
    ensures |m - {id}| == |m| - 1
  {
    assert (m - {id}).Keys == m.Keys - {id};
    assert |(m - {id}).Keys| == |m.Keys| - 1;
  }
}
