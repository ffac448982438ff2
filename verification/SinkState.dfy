/**
 DInputSinkState: what the sink remembers about devices that are not shared, and what it sends to the source to bring
 it up to date. `State` is the value the class holds, with the transport's log read as single signals.
 */
module SinkState {
  import opened InputEvents
  import opened SeqFacts
  import opened KeyDownList
  import opened TouchFragments
  import opened SinkTransport

  datatype State = State(keys: KeyMap, fragments: FragmentMap, lastSession: int, sent: seq<Signal>) {
    predicate Ok() { NoEmptyEntry(fragments) }
  }

  const Empty := State(map[], map[], 0, [])

  function Send(st: State, session: int, signals: seq<Signal>): State {
    if session <= 0 then st else st.(sent := st.sent + signals)
  }

  function KeyDown(session: int, dhId: string, e: RawEvent): seq<Signal> {
    [Signal(session, dhId, EV_KEY, e.code, KEY_DOWN_STATE), Signal(session, dhId, EV_SYN, SYN_REPORT, 0)]
  }

  /** For each recorded key, in press order: the key goes down, then a SYN. */
  function KeyReplay(session: int, dhId: string, l: seq<RawEvent>): seq<Signal> {
    if l == [] then []
    else KeyReplay(session, dhId, l[..|l| - 1]) + KeyDown(session, dhId, l[|l| - 1])
  }

  function SimulateKeys(st: State, session: int, dhId: string): State {
    Send(st, session, KeyReplay(session, dhId, ListOf(st.keys, dhId))).(keys := st.keys - {dhId})
  }

  function SimulateTouch(st: State, session: int, dhId: string): State
    requires st.Ok()
  {
    Send(st, session, SignalsOf(session, Joined(FragmentsOf(st.fragments, dhId)))).(fragments := st.fragments - {dhId})
  }

  function SimulateAll(st: State, session: int, dhIds: seq<string>): (r: State)
    requires st.Ok()
    ensures r.Ok() && forall d :: d in r.keys ==> d in st.keys && r.keys[d] == st.keys[d]
  {
    if dhIds == [] then st
    else
      var d := dhIds[|dhIds| - 1];
      SimulateTouch(SimulateKeys(SimulateAll(st, session, dhIds[..|dhIds| - 1]), session, d), session, d)
  }

  /** RecordDhIds; `out` is the state THROUGH_OUT. */
  function RecordDhIds(st: State, dhIds: seq<string>, out: bool, session: int): (r: State)
    requires st.Ok()
    ensures r.Ok() && forall d :: d in r.keys ==> d in st.keys && r.keys[d] == st.keys[d]
  {
    (if out && session != -1 then SimulateAll(st, session, dhIds) else st).(lastSession := session)
  }

  function MouseUp(e: RawEvent, scanId: int): seq<RawEvent> {
    [RawEvent(e.when, EV_MSC, MSC_SCAN, scanId, e.descriptor, e.path),
     RawEvent(e.when, EV_KEY, BTN_MOUSE, KEY_UP_STATE, e.descriptor, e.path),
     RawEvent(e.when, EV_SYN, SYN_REPORT, 0, e.descriptor, e.path)]
  }

  /** The left button of a mouse comes up while the sink has no key of that device recorded as held. */
  predicate UnknownMouseUp(keys: KeyMap, e: RawEvent, cursor: bool) {
    e.kind == EV_KEY && e.value == KEY_UP_STATE && cursor && e.code == BTN_MOUSE && e.descriptor !in keys
  }

  /** DealNormalKeyEvent; the scan code of a simulated button release is random in the source. */
  function DealNormalKey(st: State, e: RawEvent, cursor: bool, scanId: int): State {
    (if UnknownMouseUp(st.keys, e, cursor)
     then Send(st, st.lastSession, SignalsOf(st.lastSession, MouseUp(e, scanId))) else st)
    .(keys := Recorded(st.keys, e))
  }

  /** DealTouchPadEvent. */
  function DealTouchPad(st: State, e: RawEvent): (r: State)
    requires st.Ok()
    ensures r.Ok()
  {
    var p := Push(FragmentsOf(st.fragments, e.descriptor), e);
    (if p.needSim then Send(st, st.lastSession, SignalsOf(st.lastSession, p.events)) else st)
    .(fragments := PushTo(st.fragments, e.descriptor, e))
  }

  class DInputSinkState {
    var keyDownStateMap: KeyMap
    var lastSessionId: int
    const touchPadEventFragMgr: TouchPadEventFragmentMgr
    const transport: DistributedInputSinkTransport

    ghost predicate Valid()
      reads this, touchPadEventFragMgr
    {
      touchPadEventFragMgr.Valid()
    }

    ghost function View(): State
      reads this, touchPadEventFragMgr, transport
    {
      State(keyDownStateMap, touchPadEventFragMgr.fragments, lastSessionId, Delivered(transport.log))
    }

    constructor (transport: DistributedInputSinkTransport)
      requires transport.log == []
      ensures Valid() && View() == Empty && this.transport == transport && fresh(touchPadEventFragMgr)
    {
      keyDownStateMap := map[];
      lastSessionId := 0;
      touchPadEventFragMgr := new TouchPadEventFragmentMgr();
      this.transport := transport;
    }

    method AddKeyDownState(event: RawEvent)
      modifies this`keyDownStateMap
      ensures keyDownStateMap == Added(old(keyDownStateMap), event)
    {
      var l := if event.descriptor in keyDownStateMap then keyDownStateMap[event.descriptor] else [];
      keyDownStateMap := keyDownStateMap[event.descriptor := l + [event]];
    }

    method RemoveKeyDownState(event: RawEvent)
      modifies this`keyDownStateMap
      ensures keyDownStateMap == Removed(old(keyDownStateMap), event)
    {
      var d := event.descriptor;
      if d !in keyDownStateMap {
        return;
      }
      var i := IndexOf(keyDownStateMap[d], event);
      if i == |keyDownStateMap[d]| {
        return;
      }
      keyDownStateMap := keyDownStateMap[d := WithoutAt(keyDownStateMap[d], i)];
      if keyDownStateMap[d] == [] {
        keyDownStateMap := keyDownStateMap - {d};
        assert keyDownStateMap == old(keyDownStateMap) - {d};
      }
    }

    method CheckAndSetLongPressedKeyOrder(event: RawEvent)
      modifies this`keyDownStateMap
      ensures keyDownStateMap == Reordered(old(keyDownStateMap), event)
    {
      var d := event.descriptor;
      if d !in keyDownStateMap {
        keyDownStateMap := keyDownStateMap[d := [event]];
        assert [] + [event] == [event];
        return;
      }
      var i := IndexOf(keyDownStateMap[d], event);
      if i == |keyDownStateMap[d]| {
        keyDownStateMap := keyDownStateMap[d := keyDownStateMap[d] + [event]];
        return;
      }
      if i == |keyDownStateMap[d]| - 1 {
        assert keyDownStateMap[d := keyDownStateMap[d]] == keyDownStateMap;
        return;
      }
      var backEv := keyDownStateMap[d][i];
      keyDownStateMap := keyDownStateMap[d := WithoutAt(keyDownStateMap[d], i)];
      keyDownStateMap := keyDownStateMap[d := keyDownStateMap[d] + [backEv]];
    }

    method IsDhIdDown(dhId: string) returns (down: bool)
      ensures down == (dhId in keyDownStateMap)
    {
      return dhId in keyDownStateMap;
    }

    method SimulateKeyDownEvents(sessionId: int, dhId: string)
      requires Valid()
      modifies this`keyDownStateMap, transport
      ensures Valid() && View() == SimulateKeys(old(View()), sessionId, dhId)
    {
      if dhId !in keyDownStateMap {
        assert keyDownStateMap - {dhId} == keyDownStateMap;
        return;
      }
      var l := keyDownStateMap[dhId];
      for i := 0 to |l|
        invariant keyDownStateMap == old(keyDownStateMap)
        invariant Delivered(transport.log) ==
          Delivered(old(transport.log)) + (if sessionId <= 0 then [] else KeyReplay(sessionId, dhId, l[..i]))
      {
        PrefixStep(l, i);
        SimulateKeyDownEvent(sessionId, dhId, l[i]);
        ConcatAssoc(Delivered(old(transport.log)), KeyReplay(sessionId, dhId, l[..i]), KeyDown(sessionId, dhId, l[i]));
      }
      assert l[..|l|] == l;
      keyDownStateMap := keyDownStateMap - {dhId};
    }

    method SimulateKeyDownEvent(sessionId: int, dhId: string, event: RawEvent)
      modifies transport
      ensures Delivered(transport.log) == Delivered(old(transport.log)) +
        (if sessionId <= 0 then [] else KeyDown(sessionId, dhId, event))
    {
      DeliveredPush(transport.log, KeyState(sessionId, dhId, EV_KEY, event.code, KEY_DOWN_STATE));
      transport.SendKeyStateNodeMsg(sessionId, dhId, EV_KEY, event.code, KEY_DOWN_STATE);
      DeliveredPush(transport.log, KeyState(sessionId, dhId, EV_SYN, SYN_REPORT, 0));
      transport.SendKeyStateNodeMsg(sessionId, dhId, EV_SYN, SYN_REPORT, 0);
    }

    method SimulateTouchPadEvents(sessionId: int, dhId: string)
      requires Valid()
      modifies touchPadEventFragMgr, transport
      ensures Valid() && View() == SimulateTouch(old(View()), sessionId, dhId)
    {
      var events := touchPadEventFragMgr.GetAndClearEvents(dhId);
      if events == [] {
        return;
      }
      transport.SendKeyStateNodeMsgBatch(sessionId, events);
    }

    method SimulateEventInjectToSrc(sessionId: int, dhIds: seq<string>)
      requires Valid()
      modifies this`keyDownStateMap, touchPadEventFragMgr, transport
      ensures Valid() && View() == if sessionId == -1 then old(View()) else SimulateAll(old(View()), sessionId, dhIds)
    {
      if sessionId == -1 {
        return;
      }
      for i := 0 to |dhIds|
        invariant Valid() && View() == SimulateAll(old(View()), sessionId, dhIds[..i])
      {
        assert dhIds[..i + 1][..i] == dhIds[..i];
        SimulateKeyDownEvents(sessionId, dhIds[i]);
        SimulateTouchPadEvents(sessionId, dhIds[i]);
      }
      assert dhIds[..|dhIds|] == dhIds;
    }

    method Record(dhIds: seq<string>, out: bool, sessionId: int)
      requires Valid()
      modifies this, touchPadEventFragMgr, transport
      ensures Valid() && View() == RecordDhIds(old(View()), dhIds, out, sessionId)
    {
      if out {
        SimulateEventInjectToSrc(sessionId, dhIds);
      }
      lastSessionId := sessionId;
    }

    /** MatchAndDealEvent of the hub, with its two branches DealNormalKeyEvent and DealTouchPadEvent. */
    method MatchAndDealEvent(event: RawEvent, touchPad: bool, cursor: bool, scanId: int)
      requires Valid() && (forall d :: d in keyDownStateMap ==> keyDownStateMap[d] != [])
      modifies this`keyDownStateMap, touchPadEventFragMgr, transport
      ensures Valid() && (forall d :: d in keyDownStateMap ==> keyDownStateMap[d] != [])
      ensures View() == if touchPad then DealTouchPad(old(View()), event)
                        else DealNormalKey(old(View()), event, cursor, scanId)
    {
      if touchPad {
        var needSim, events := touchPadEventFragMgr.PushEvent(event.descriptor, event);
        if needSim {
          transport.SendKeyStateNodeMsgBatch(lastSessionId, events);
        }
        return;
      }
      if event.kind == EV_KEY && event.value == KEY_DOWN_STATE {
        AddKeyDownState(event);
      }
      if event.kind == EV_KEY && event.value == KEY_UP_STATE {
        var down := IsDhIdDown(event.descriptor);
        if cursor && event.code == BTN_MOUSE && !down {
          transport.SendKeyStateNodeMsgBatch(lastSessionId, MouseUp(event, scanId));
        }
        RemoveKeyDownState(event);
      }
      if event.kind == EV_KEY && event.value == KEY_REPEAT {
        CheckAndSetLongPressedKeyOrder(event);
      }
    }
  }
}
