/** Link handles and session channels: allocation, release, and the detach handshake that comes
    before the release of a handle. */
module Handles {
  import opened Bytes
  import BM = Bitmap

  datatype Role = Sender | Receiver

  datatype Key = Key(name: string, role: Role)

  class Link {
    const key: Key
    var handle: U32

    constructor (key: Key)
      ensures this.key == key
    {
      this.key := key;
      this.handle := 0;
    }
  }

  datatype AllocError = Duplicate | HandleMax

  /** Different links have different handles, and `taken` are those handles. */
  ghost predicate Registry(handles: map<Key, nat>, taken: set<nat>) {
    && (forall j, k :: j in handles && k in handles && j != k ==> handles[j] != handles[k])
    && (forall k :: k in handles ==> handles[k] in taken)
    && (forall n :: n in taken ==> Owned(handles, n))
  }

  ghost predicate Owned(handles: map<Key, nat>, n: nat) { exists k :: k in handles && handles[k] == n }

  lemma RegistryAdd(handles: map<Key, nat>, taken: set<nat>, key: Key, n: nat)
    requires Registry(handles, taken) && key !in handles && n !in taken
    ensures Registry(handles[key := n], taken + {n})
  {
    var hs := handles[key := n];
    forall m | m in taken + {n} ensures Owned(hs, m) {
      if m == n {
        assert hs[key] == m;
      } else {
        assert Owned(handles, m);
        var k :| k in handles && handles[k] == m;
        assert hs[k] == m;
      }
    }
  }

  lemma RegistryRemove(handles: map<Key, nat>, taken: set<nat>, key: Key)
    requires Registry(handles, taken) && key in handles
    ensures Registry(handles - {key}, taken - {handles[key]})
  {
    var hs := handles - {key};
    forall m | m in taken - {handles[key]} ensures Owned(hs, m) {
      assert Owned(handles, m);
      var k :| k in handles && handles[k] == m;
      assert hs[k] == m;
    }
  }

  lemma RegistryRemoveIff(handles: map<Key, nat>, taken: set<nat>, key: Key, n: nat)
    requires Registry(handles, taken)
    ensures Registry(handles - {key}, taken - {n}) <==> if key in handles then handles[key] == n else n !in taken
  {
    var hs, rest := handles - {key}, taken - {n};
    if key in handles {
      if handles[key] == n {
        RegistryRemove(handles, taken, key);
      } else {
        assert handles[key] in rest && !Owned(hs, handles[key]);
      }
    } else {
      assert hs == handles;
      if n in taken {
        assert Owned(handles, n);
        var k :| k in handles && handles[k] == n;
        assert hs[k] !in rest;
      } else {
        assert rest == taken;
      }
    }
  }

  /** The links of a session. */
  class Session {
    const handles: BM.Bitmap
    var linksByKey: map<Key, Link>

    /** The handles of the registered links. */
    ghost function HandleMap(): (m: map<Key, nat>)
      reads this, linksByKey.Values
      ensures m.Keys == linksByKey.Keys
    {
      map k | k in linksByKey :: linksByKey[k].handle as nat
    }

    /** The allocated bits are the handles of the registered links, which are all different. */
    ghost predicate Valid()
      reads this, handles, linksByKey.Values
    {
      && handles.Valid()
      && (forall k :: k in linksByKey ==> linksByKey[k].key == k)
      && Registry(HandleMap(), handles.Members())
    }

    constructor (handleMax: U32)
      ensures Valid() && fresh(handles) && handles.max == handleMax && linksByKey == map[]
    {
      handles := new BM.Bitmap(handleMax);
      linksByKey := map[];
    }

    /** Gives the link the least free handle. It fails for a name in use, and when all handles
        are taken. */
    method AllocateHandle(l: Link) returns (err: Option<AllocError>)
      requires Valid()
      modifies this`linksByKey, handles, l`handle
      ensures Valid()
      ensures err == Some(Duplicate) <==> l.key in old(linksByKey)
      ensures err == Some(HandleMax) <==>
        l.key !in old(linksByKey) && forall n: nat :: n <= handles.max ==> n in old(handles.Members())
      ensures err.Some? ==> linksByKey == old(linksByKey) && HandleMap() == old(HandleMap())
      ensures err.None? ==>
        && linksByKey == old(linksByKey)[l.key := l] && HandleMap() == old(HandleMap())[l.key := l.handle]
        && l.handle <= handles.max && l.handle !in old(handles.Members())
        && (forall n: nat :: n < l.handle ==> n in old(handles.Members()))
    {
      hide Registry;
      if l.key in linksByKey {
        return Some(Duplicate);
      }
      var next, ok := handles.Next();
      if !ok {
        return Some(HandleMax);
      }
      RegistryAdd(HandleMap(), old(handles.Members()), l.key, next);
      l.handle := next;
      linksByKey := linksByKey[l.key := l];
      assert HandleMap() == old(HandleMap())[l.key := next];
      return None;
    }

    /** Forgets the link's name and frees its handle, whether the link is registered or not. The registry
        stays consistent if and only if the link is registered with this handle, or neither its name nor
        its handle is in use. */
    method DeallocateHandle(l: Link)
      requires Valid()
      modifies this`linksByKey, handles
      ensures handles.Valid() && handles.Members() == old(handles.Members()) - {l.handle}
      ensures linksByKey == old(linksByKey) - {l.key} && HandleMap() == old(HandleMap()) - {l.key}
      ensures Valid() <==>
        if l.key in old(linksByKey) then old(HandleMap())[l.key] == l.handle else l.handle !in old(handles.Members())
    {
      hide Registry;
      RegistryRemoveIff(HandleMap(), handles.Members(), l.key, l.handle);
      linksByKey := linksByKey - {l.key};
      handles.Remove(l.handle);
      assert HandleMap() == old(HandleMap()) - {l.key};
    }
  }

  /** The sessions of a connection, by channel. */
  class Conn<S> {
    const channels: BM.Bitmap
    var sessions: map<int, S>

    ghost predicate Valid()
      reads this, channels
    {
      && channels.Valid() && channels.max < 0x1_0000
      && (forall n: nat :: n in channels.Members() <==> n in sessions)
      && (forall n :: n in sessions ==> 0 <= n)
    }

    constructor (channelMax: U16)
      ensures Valid() && fresh(channels) && channels.max == channelMax && sessions == map[]
    {
      channels := new BM.Bitmap(channelMax);
      sessions := map[];
    }

    /** A new session gets the least free channel, if there is one. */
    method NewSession(s: S) returns (channel: Option<U16>)
      requires Valid()
      modifies this`sessions, channels
      ensures Valid()
      ensures channel.None? <==> forall n: nat :: n <= channels.max ==> n in old(sessions)
      ensures channel.None? ==> sessions == old(sessions)
      ensures channel.Some? ==>
        && channel.value !in old(sessions) && (forall n: nat :: n < channel.value ==> n in old(sessions))
        && sessions == old(sessions)[channel.value := s]
    {
      var n, ok := channels.Next();
      if !ok {
        return None;
      }
      sessions := sessions[n := s];
      return Some(n);
    }

    method DeleteSession(channel: U16)
      requires Valid()
      modifies this`sessions, channels
      ensures Valid() && sessions == old(sessions) - {channel}
    {
      sessions := sessions - {channel};
      channels.Remove(channel);
    }
  }

  // The detach handshake.

  /** What a `select` of `muxDetach` can observe: the session takes our detach, a frame arrives, the
      context or the session ends. */
  datatype Event<T> = Handed | Detach(closed: bool) | Transfer(transfer: T) | Other | CtxDone | SessionDone

  predicate SawClosing<T(==)>(es: seq<Event<T>>) { exists e :: e in es && e == Detach(true) }

  /** Our closing detach has been handed over and the peer's has arrived. */
  predicate ShookHands<T(==)>(received: bool, es: seq<Event<T>>) { Handed in es && (received || SawClosing(es)) }

  /** The handshake is over, or cut short. */
  predicate Ended<T(==)>(received: bool, es: seq<Event<T>>) {
    ShookHands(received, es) || CtxDone in es || SessionDone in es
  }

  function Transfers<T>(es: seq<Event<T>>): seq<T> {
    if es == [] then []
    else
      var e := es[|es| - 1];
      Transfers(es[..|es| - 1]) + if e.Transfer? then [e.transfer] else []
  }

  lemma EndedStep<T>(received: bool, es: seq<Event<T>>, e: Event<T>)
    ensures SawClosing(es + [e]) <==> SawClosing(es) || e == Detach(true)
    ensures Ended(received, es + [e]) <==>
      Ended(received, es) || e == CtxDone || e == SessionDone
      || ((e == Handed || Handed in es) && (received || SawClosing(es) || e == Detach(true)))
    ensures Transfers(es + [e]) == Transfers(es) + if e.Transfer? then [e.transfer] else []
  {
    assert (es + [e])[..|es|] == es;
    assert e in es + [e];
    assert forall x :: x in es + [e] <==> x in es || x == e;
  }

  datatype Detached<T> = Detached(released: bool, consumed: nat, forwarded: seq<T>, waiting: bool)

  /** `muxDetach` over what its selects observe. It goes on until the handshake is over, passes on
      the transfers that arrive meanwhile, and releases the handle if and only if both closing
      detaches are exchanged or the session is done, and the context has not ended. Without an
      ending event it waits. `ctxEnded` tells whether the context has ended by the time of the
      final clean-up. */
  method MuxDetach<T(==)>(received: bool, es: seq<Event<T>>, ctxEnded: bool) returns (r: Detached<T>)
    requires CtxDone in es ==> ctxEnded
    ensures r.consumed <= |es|
    ensures r.waiting <==> !Ended(received, es)
    ensures r.waiting ==> r.consumed == |es|
    ensures !r.waiting ==> Ended(received, es[..r.consumed])
    ensures forall n :: 0 <= n < r.consumed ==> !Ended(received, es[..n])
    ensures r.forwarded == Transfers(es[..r.consumed])
    ensures r.released <==>
      (ShookHands(received, es[..r.consumed]) || SessionDone in es[..r.consumed]) && !ctxEnded
  {
    hide SawClosing, Transfers, Ended, ShookHands;
    EndedStart<T>(received);
    assert es[..0] == [];
    var detachReceived := received;
    var forwarded := [];
    var handed := false;
    var ctxDone, sessionDone := false, false;
    var i := 0;
    // Until the session has taken the detach frame.
    while i < |es| && !handed && !ctxDone && !sessionDone
      invariant i <= |es|
      invariant handed <==> Handed in es[..i]
      invariant ctxDone <==> CtxDone in es[..i]
      invariant sessionDone <==> SessionDone in es[..i]
      invariant detachReceived <==> received || SawClosing(es[..i])
      invariant forwarded == Transfers(es[..i])
      invariant forall n :: 0 <= n < i ==> !Ended(received, es[..n])
    {
      assert es[..i + 1] == es[..i] + [es[i]];
      EndedIs(received, es[..i]);
      EndedStep(received, es[..i], es[i]);
      match es[i] {
        case CtxDone => ctxDone := true;
        case Handed => handed := true;
        case Detach(closed) =>
          if closed {
            detachReceived := true;
          }
        case Transfer(t) => forwarded := forwarded + [t];
        case SessionDone => sessionDone := true;
        case Other =>
      }
      i := i + 1;
    }
    // Unless it has already arrived, until the peer's closing detach does.
    while i < |es| && !detachReceived && !ctxDone && !sessionDone
      invariant i <= |es|
      invariant handed <==> Handed in es[..i]
      invariant i < |es| ==> handed || ctxDone || sessionDone
      invariant ctxDone <==> CtxDone in es[..i]
      invariant sessionDone <==> SessionDone in es[..i]
      invariant detachReceived <==> received || SawClosing(es[..i])
      invariant forwarded == Transfers(es[..i])
      invariant forall n :: 0 <= n < i ==> !Ended(received, es[..n])
    {
      assert es[..i + 1] == es[..i] + [es[i]];
      EndedIs(received, es[..i]);
      EndedStep(received, es[..i], es[i]);
      match es[i] {
        case CtxDone => ctxDone := true;
        case Detach(closed) =>
          if closed {
            detachReceived := true;
          }
        case Transfer(t) => forwarded := forwarded + [t];
        case SessionDone => sessionDone := true;
        case Handed =>
        case Other =>
      }
      i := i + 1;
    }
    var over := (handed && detachReceived) || ctxDone || sessionDone;
    if i == |es| { assert es[..i] == es; }
    EndedIs(received, es[..i]);
    if over { EndedPrefix(received, es, i); }
    r := Detached(over && !ctxEnded, i, forwarded, !over);
  }

  lemma EndedStart<T>(received: bool)
    ensures !Ended<T>(received, []) && !SawClosing<T>([]) && Transfers<T>([]) == []
  {
  }

  lemma EndedIs<T>(received: bool, es: seq<Event<T>>)
    ensures Ended(received, es) <==> ShookHands(received, es) || CtxDone in es || SessionDone in es
    ensures ShookHands(received, es) <==> Handed in es && (received || SawClosing(es))
  {
  }

  lemma EndedPrefix<T>(received: bool, es: seq<Event<T>>, n: nat)
    requires n <= |es| && Ended(received, es[..n])
    ensures Ended(received, es)
  {
    assert forall e :: e in es[..n] ==> e in es;
  }

  /** The whole of `muxDetach` for a registered link: its handle stays taken, so that no other link can
      get it, unless the handshake is complete or the session is done, and the context has not ended. */
  method DetachLink<T(==)>(s: Session, l: Link, received: bool, es: seq<Event<T>>, ctxEnded: bool)
      returns (r: Detached<T>)
    requires s.Valid() && l.key in s.linksByKey && s.linksByKey[l.key] == l
    requires CtxDone in es ==> ctxEnded
    modifies s`linksByKey, s.handles
    ensures s.Valid() && r.consumed <= |es|
    ensures r.released <==>
      (ShookHands(received, es[..r.consumed]) || SessionDone in es[..r.consumed]) && !ctxEnded
    ensures s.linksByKey == old(s.linksByKey) - (if r.released then {l.key} else {})
    ensures l.handle in s.handles.Members() <==> !r.released
  {
    r := MuxDetach(received, es, ctxEnded);
    assert l.handle as nat == s.HandleMap()[l.key];
    if r.released {
      s.DeallocateHandle(l);
    }
  }
}
