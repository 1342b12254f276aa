/** From the settle mode of a sender to what becomes of the channel on which `Send` waits, and the numbers of its
    deliveries. */
module Sending {
  import opened Bytes
  import opened Frames
  import T = Transfer
  import S = Settlement

  /** A transfer of `send` as the session sees it: `chan` comes with the last one. */
  function TxOf<E>(t: PerformTransfer, chan: nat): S.Event<E> {
    S.Tx(t.handle, t.deliveryID, t.settled, if t.more then None else Some(chan))
  }

  predicate SettlesNow(mode: Option<T.SettleMode>, sendSettled: bool) {
    mode == Some(T.Settled) || (mode == Some(T.Mixed) && sendSettled)
  }

  /** The transfers of a send that came to its end. */
  predicate Complete(ts: seq<PerformTransfer>, settled: bool, handle: U32, id: U32, tag: seq<Byte>, format: U32) {
    ts != [] && T.Marked(ts, true, settled) && T.Numbered(ts, handle, id, tag, format)
  }

  /** The settle mode decides who closes the channel. A delivery that its sender settles has it closed by the
      writer once its last frame is written, and never gets a state. Any other waits until an answer comes for the
      id under which it is registered, whatever else the session does. */
  lemma ModeDecides<E(!new)>(ts: seq<PerformTransfer>, mode: Option<T.SettleMode>, sendSettled: bool, handle: U32,
      id: U32, tag: seq<Byte>, format: U32, chan: nat, es: seq<S.Event<E>>, post: seq<S.Event<E>>)
    requires Complete(ts, SettlesNow(mode, sendSettled), handle, id, tag, format)
    requires S.NewChannels(es + [TxOf(ts[|ts| - 1], chan)] + post)
    ensures var last: S.Event<E> := TxOf(ts[|ts| - 1], chan);
      var s, n := S.Run(es + [last] + post), S.Target(es, last);
      && (mode == Some(T.Settled) || (mode == Some(T.Mixed) && sendSettled) ==>
            && !S.Waited(s, chan) && (Some(chan) in s.out <==> !S.InLog(s.log, chan))
            && (S.InLog(s.log, chan) <==> S.Closing(chan, None) in s.log))
      && (mode == None || mode == Some(T.Unsettled) || (mode == Some(T.Mixed) && !sendSettled) ==>
            && Some(chan) !in s.out && S.Closing(chan, None) !in s.log
            && (n in s.waits && s.waits[n] == chan <==> S.FateOf(n, es + [last], post).Waiting?)
            && forall x :: S.Closing(chan, Some(x)) in s.log <==> S.FateOf(n, es + [last], post) == S.Fate.Settled(x))
  {
    var last: S.Event<E> := TxOf(ts[|ts| - 1], chan);
    S.DeliveryPlace(es, last, post);
    S.OnePlace(es + [last] + post);
    hide S.Run, S.FateOf, S.Target, S.Brought, S.NewChannels;
  }

  /** The transfers of `send`, with those of other links and anything else in between, are a delivery in the sense
      of `SettledIff`. */
  lemma SendSpans<E(!new)>(ts: seq<PerformTransfer>, handle: U32, id: U32, tag: seq<Byte>, format: U32, chan: nat,
      mid: seq<S.Event<E>>)
    requires Complete(ts, false, handle, id, tag, format) && |ts| > 1
    requires forall e :: e in mid && e.Tx? && e.handle == handle ==>
      exists k :: 0 < k < |ts| - 1 && e == TxOf(ts[k], chan)
    ensures S.Spans(TxOf(ts[0], chan), mid, TxOf(ts[|ts| - 1], chan), id)
  {
  }

  // Numbers of deliveries.

  /** The counter of a session after `k` sends of its senders, each of which takes the next number. */
  function NthID(id: U32, k: nat): U32 { if k == 0 then id else (NthID(id, k - 1) + 1) % TWO32 }

  /** The sends of a session carry consecutive numbers, modulo 2^32, and fewer than 2^32 sends apart they are
      different. */
  lemma ConsecutiveIDs(id: U32, j: nat, k: nat)
    requires j <= k
    ensures NthID(id, k) == (id + k) % TWO32
    ensures j < k < j + TWO32 ==> NthID(id, j) != NthID(id, k)
  {
    NthIs(id, j);
    NthIs(id, k);
    if j < k < j + TWO32 { Apart(id + j, k - j); }
  }

  lemma Apart(a: int, d: int)
    requires 0 < d < TWO32
    ensures (a + d) % TWO32 != a % TWO32
  {
    ModAdd(a + d, -a);
    ModAdd(a, -a);
    ModSmall(d);
  }

  lemma {:induction false} NthIs(id: U32, k: nat)
    ensures NthID(id, k) == (id + k) % TWO32
  {
    if k > 0 {
      NthIs(id, k - 1);
      ModAdd(id + k - 1, 1);
    }
  }
}
