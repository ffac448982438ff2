/**
 DistributedInputSinkManager and its listener: the handlers of the sharing commands over the hub, the session switches,
 the recorded state and the client's listener. Each handler is shown to be one step of the machine in SinkSystem.
 */
module SinkManager {
  import opened InputEvents
  import opened SeqFacts
  import opened StringCodec
  import opened SinkState
  import opened SharingBooks
  import opened SinkSystem
  import opened SinkTransport
  import opened KeyDownList
  import CollectorTurn
  import Deliveries
  import Hub
  import KeyBitmap
  import KeyHandOff
  import SessionSwitch
  import TouchHandOff

  /** The client's copy, kept up to date by its sharing listener. */
  class DistributedInputClient {
    var sharingDhIds: set<string>

    constructor ()
      ensures sharingDhIds == {}
    {
      sharingDhIds := {};
    }

    method OnSharing(dhId: string)
      modifies this
      ensures sharingDhIds == old(sharingDhIds) + {dhId}
    {
      sharingDhIds := sharingDhIds + {dhId};
    }

    method OnNoSharing(dhId: string)
      modifies this
      ensures sharingDhIds == old(sharingDhIds) - {dhId}
    {
      sharingDhIds := sharingDhIds - {dhId};
    }
  }

  class DistributedInputSinkManager {
    var sharingDhIds: set<string>
    var sharingDhIdsMap: map<int, set<string>>
    const hub: Hub.InputHub
    const state: DInputSinkState
    const sinkSwitch: SessionSwitch.DistributedInputSinkSwitch
    const client: DistributedInputClient
    const transport: DistributedInputSinkTransport
    ghost var pressed: KeyMap      // found by the first scan
    ghost var history: seq<Step>   // the commands and events taken since

    /** The manager is where the machine gets by its history. */
    ghost predicate Lived()
      reads this, hub, client, sinkSwitch, state, state.touchPadEventFragMgr, state.transport
    {
      View() == Run(pressed, Hub.Attached(hub.devices), history)
    }

    ghost predicate Valid()
      reads this, hub, hub.state, hub.state.touchPadEventFragMgr
    {
      && hub.state == state && state.transport == transport
      && hub.Valid() && Hub.FirstsShared(hub.devices)
      && forall i :: 0 <= i < |hub.devices| ==> DhIdLike(hub.devices[i].node.descriptor)
    }

    ghost function BooksView(): Books
      reads this, hub, client, sinkSwitch
    {
      Books(hub.SharedIds(), Hub.SharingOf(hub.devices), sharingDhIds, sharingDhIdsMap, client.sharingDhIds,
            sinkSwitch.switchVector)
    }

    ghost function View(): System
      reads this, hub, client, sinkSwitch, state, state.touchPadEventFragMgr, state.transport
    {
      System(BooksView(), state.View())
    }

    constructor (devices: seq<Hub.Device>, iNotifyFd: int)
      requires Hub.SharingOf(devices) == {} && forall i :: 0 <= i < |devices| ==> DhIdLike(devices[i].node.descriptor)
      ensures Valid() && hub.devices == devices && View() == Initial(map[])
      ensures Lived() && history == []
    {
      pressed, history := map[], [];
      sharingDhIds := {};
      sharingDhIdsMap := map[];
      sinkSwitch := new SessionSwitch.DistributedInputSinkSwitch();
      client := new DistributedInputClient();
      var t := new DistributedInputSinkTransport();
      var st := new DInputSinkState(t);
      transport := t;
      state := st;
      hub := new Hub.InputHub(devices, iNotifyFd, st);
    }

    // ----- bookkeeping

    method StoreStartDhids(sessionId: int, dhIds: seq<string>)
      modifies this`sharingDhIds, this`sharingDhIdsMap
      ensures sharingDhIds == old(sharingDhIds) + SetOf(dhIds)
      ensures sharingDhIdsMap
          == old(sharingDhIdsMap)[sessionId := HeldIn(old(sharingDhIdsMap), sessionId) + SetOf(dhIds)]
    {
      var tmpDhids := {};
      if sessionId in sharingDhIdsMap {
        tmpDhids := sharingDhIdsMap[sessionId];
      }
      for i := 0 to |dhIds|
        invariant tmpDhids == HeldIn(old(sharingDhIdsMap), sessionId) + SetOf(dhIds[..i])
        invariant sharingDhIds == old(sharingDhIds) + SetOf(dhIds[..i])
        invariant sharingDhIdsMap == old(sharingDhIdsMap)
      {
        PrefixStep(dhIds, i);
        SetOfPush(dhIds[..i], dhIds[i]);
        tmpDhids := tmpDhids + {dhIds[i]};
        sharingDhIds := sharingDhIds + {dhIds[i]};
      }
      assert dhIds[..|dhIds|] == dhIds;
      sharingDhIdsMap := sharingDhIdsMap[sessionId := tmpDhids];
    }

    method DeleteStopDhids(sessionId: int, stopDhIds: seq<string>) returns (stopIndeedDhIds: seq<string>)
      modifies this`sharingDhIds, this`sharingDhIdsMap
      ensures stopIndeedDhIds == if sessionId in old(sharingDhIdsMap) then stopDhIds else []
      ensures sharingDhIds == old(sharingDhIds) - SetOf(stopIndeedDhIds)
      ensures var left := HeldIn(old(sharingDhIdsMap), sessionId) - SetOf(stopDhIds);
              sharingDhIdsMap == if left == {} then old(sharingDhIdsMap) - {sessionId}
                                 else old(sharingDhIdsMap)[sessionId := left]
    {
      ghost var was := sharingDhIdsMap;
      if sessionId !in sharingDhIdsMap {
        assert sharingDhIdsMap - {sessionId} == sharingDhIdsMap;
        return [];
      }
      for i := 0 to |stopDhIds|
        invariant sharingDhIds == old(sharingDhIds)
        invariant sessionId in sharingDhIdsMap
        invariant sharingDhIdsMap[sessionId] == was[sessionId] - SetOf(stopDhIds[..i])
        invariant sharingDhIdsMap == was[sessionId := sharingDhIdsMap[sessionId]]
      {
        PrefixStep(stopDhIds, i);
        SetOfPush(stopDhIds[..i], stopDhIds[i]);
        var rest := sharingDhIdsMap[sessionId] - {stopDhIds[i]};
        OverwriteTwice(was, sessionId, sharingDhIdsMap[sessionId], rest);
        sharingDhIdsMap := sharingDhIdsMap[sessionId := rest];
      }
      assert stopDhIds[..|stopDhIds|] == stopDhIds;
      if sharingDhIdsMap[sessionId] == {} {
        OverwriteTwice(was, sessionId, {}, {});
        sharingDhIdsMap := sharingDhIdsMap - {sessionId};
      }
      stopIndeedDhIds := stopDhIds;
      ghost var done := sharingDhIdsMap;
      for i := 0 to |stopDhIds|
        invariant sharingDhIdsMap == done
        invariant sharingDhIds == old(sharingDhIds) - SetOf(stopDhIds[..i])
      {
        PrefixStep(stopDhIds, i);
        SetOfPush(stopDhIds[..i], stopDhIds[i]);
        sharingDhIds := sharingDhIds - {stopDhIds[i]};
      }
    }

    /** ReportDhIdSharingState, with the client as its one listener. */
    method ReportDhIdSharingState(sharing: seq<string>, noSharing: seq<string>)
      modifies client
      ensures client.sharingDhIds == old(client.sharingDhIds) + SetOf(sharing) - SetOf(noSharing)
    {
      for i := 0 to |sharing|
        invariant client.sharingDhIds == old(client.sharingDhIds) + SetOf(sharing[..i])
      {
        PrefixStep(sharing, i);
        SetOfPush(sharing[..i], sharing[i]);
        client.OnSharing(sharing[i]);
      }
      assert sharing[..|sharing|] == sharing;
      for i := 0 to |noSharing|
        invariant client.sharingDhIds == old(client.sharingDhIds) + SetOf(sharing) - SetOf(noSharing[..i])
      {
        PrefixStep(noSharing, i);
        SetOfPush(noSharing[..i], noSharing[i]);
        client.OnNoSharing(noSharing[i]);
      }
      assert noSharing[..|noSharing|] == noSharing;
    }

    // ----- handlers; the relay form of each is the same handler under the session towards the sink

    /** OnPrepareRemoteInput and OnRelayPrepareRemoteInput. */
    method OnPrepareRemoteInput(sessionId: int)
      requires Valid()
      modifies sinkSwitch, this`history
      ensures Valid() && View() == Next(old(View()), Hub.Attached(hub.devices), Control(Prepare(sessionId)))
      ensures history == old(history) + [Control(Prepare(sessionId))] && (old(Lived()) ==> Lived())
    {
      sinkSwitch.AddSession(sessionId);
      Snoc(history, Control(Prepare(sessionId)));
      history := history + [Control(Prepare(sessionId))];
    }

    /** One device of the first scan, before anything else happens. */
    method CheckTargetKeyState(device: Hub.Device, keyState: KeyBitmap.Bitmap)
      requires Valid() && history == []
      modifies state`keyDownStateMap, this`pressed
      ensures pressed == state.keyDownStateMap && (old(Lived()) ==> Lived())
      ensures state.keyDownStateMap
              == Hub.ScannedKeys(old(state.keyDownStateMap), device.node, KeyBitmap.Bits(keyState),
                                 KeyBitmap.Limit(keyState), Hub.AskedKeys(device))
    {
      hub.CheckTargetKeyState(device, keyState);
      pressed := state.keyDownStateMap;
    }

    /** OnStartRemoteInputDhid and OnRelayStartDhidRemoteInput. */
    method OnStartRemoteInputDhid(sessionId: int, strDhids: string)
      requires Valid()
      modifies this`sharingDhIds, this`sharingDhIdsMap, this`history, sinkSwitch, client
      modifies hub`devices, hub`sharedDHIds, state, state.touchPadEventFragMgr, state.transport
      ensures Valid() && Hub.SameDevices(hub.devices, old(hub.devices))
      ensures View() == Next(old(View()), Hub.Attached(old(hub.devices)), Control(StartDhid(sessionId, strDhids)))
      ensures history == old(history) + [Control(StartDhid(sessionId, strDhids))] && (old(Lived()) ==> Lived())
    {
      Snoc(history, Control(StartDhid(sessionId, strDhids)));
      history := history + [Control(StartDhid(sessionId, strDhids))];
      StartAndReplay(sessionId, strDhids);
      Hub.SameAttached(hub.devices, old(hub.devices));
    }

    method StartAndReplay(sessionId: int, strDhids: string)
      requires Valid()
      modifies this`sharingDhIds, this`sharingDhIdsMap, sinkSwitch, client
      modifies hub`devices, hub`sharedDHIds, state, state.touchPadEventFragMgr, state.transport
      ensures Valid() && Hub.SameDevices(hub.devices, old(hub.devices))
      ensures View() == Next(old(View()), Hub.Attached(old(hub.devices)), Control(StartDhid(sessionId, strDhids)))
    {
      var ok := sinkSwitch.StartSwitch(sessionId);
      if !ok {
        SessionSwitch.IndexOfMeans(old(sinkSwitch.switchVector), sessionId);
        return;
      }
      var devDhIds := SplitStringToVector(strDhids, INPUT_STRING_SPLIT_POINT, []);
      assert [] + DhIds(strDhids) == DhIds(strDhids);
      state.Record(devDhIds, true, sessionId);
      assert state.keyDownStateMap == state.View().keys;
      Share(sessionId, devDhIds);
    }

    /** The bookkeeping of a start whose switch is on. */
    method Share(sessionId: int, devDhIds: seq<string>)
      requires Valid()
      modifies this`sharingDhIds, this`sharingDhIdsMap, client, hub`devices, hub`sharedDHIds
      ensures Valid() && Hub.SameDevices(hub.devices, old(hub.devices))
      ensures BooksView().(switches := [])
              == Start(old(BooksView()), Hub.Attached(old(hub.devices)), sessionId, SetOf(devDhIds)).(switches := [])
    {
      var affected := hub.SetSharingDevices(true, devDhIds);
      StoreStartDhids(sessionId, affected);
      ReportDhIdSharingState(affected, []);
      assert client.sharingDhIds == old(client.sharingDhIds) + SetOf(affected);
      SameDhIds(old(hub.devices), hub.devices);
    }

    /** OnStopRemoteInputDhid and OnRelayStopDhidRemoteInput. */
    method OnStopRemoteInputDhid(sessionId: int, strDhids: string)
      requires Valid()
      modifies this`sharingDhIds, this`sharingDhIdsMap, this`history, sinkSwitch, client
      modifies hub`devices, hub`sharedDHIds, state, state.touchPadEventFragMgr, state.transport
      ensures Valid() && Hub.SameDevices(hub.devices, old(hub.devices))
      ensures View() == Next(old(View()), Hub.Attached(old(hub.devices)), Control(StopDhid(sessionId, strDhids)))
      ensures history == old(history) + [Control(StopDhid(sessionId, strDhids))] && (old(Lived()) ==> Lived())
    {
      Snoc(history, Control(StopDhid(sessionId, strDhids)));
      history := history + [Control(StopDhid(sessionId, strDhids))];
      var stopOnCmdDhIds := SplitStringToVector(strDhids, INPUT_STRING_SPLIT_POINT, []);
      assert [] + DhIds(strDhids) == DhIds(strDhids);
      Unshare(sessionId, stopOnCmdDhIds);
      state.Record(stopOnCmdDhIds, false, sessionId);
      assert state.keyDownStateMap == state.View().keys;
      StopSwitches(sessionId);
      Hub.SameAttached(hub.devices, old(hub.devices));
    }

    /** The bookkeeping of a stop, before any switch goes off. */
    method Unshare(sessionId: int, stopOnCmdDhIds: seq<string>)
      requires Valid()
      modifies this`sharingDhIds, this`sharingDhIdsMap, client, hub`devices, hub`sharedDHIds
      ensures Valid() && Hub.SameDevices(hub.devices, old(hub.devices))
      ensures BooksView().(switches := [])
              == Stop(old(BooksView()), sessionId, SetOf(stopOnCmdDhIds)).(switches := [])
    {
      var stopIndeedDhIds := DeleteStopDhids(sessionId, stopOnCmdDhIds);
      var _ := hub.SetSharingDevices(false, stopIndeedDhIds);
      ReportDhIdSharingState([], stopIndeedDhIds);
      assert client.sharingDhIds == old(client.sharingDhIds) - SetOf(stopIndeedDhIds);
      SameDhIds(old(hub.devices), hub.devices);
    }

    /** The end of a stop: once nothing is shared, the switch of the session goes off, and then all of them. */
    method StopSwitches(sessionId: int)
      modifies sinkSwitch
      ensures sinkSwitch.switchVector ==
                if hub.SharedIds() == {} then SessionSwitch.AllOff(old(sinkSwitch.switchVector))
                else old(sinkSwitch.switchVector)
    {
      var stopped := hub.IsAllDevicesStoped();
      if stopped {
        sinkSwitch.StopSwitch(sessionId);
      }
      var isAllClosed := hub.IsAllDevicesStoped();
      if isAllClosed {
        sinkSwitch.StopAllSwitch();
        var none := sinkSwitch.GetSwitchOpenedSession();
        SessionSwitch.OpenedIsEarliest(sinkSwitch.switchVector);
        assert none == SessionSwitch.ERR_GET_OPEN_SESSION_FAIL;
      }
    }

    /** OnUnprepareRemoteInput and OnRelayUnprepareRemoteInput: stops everything shared, through a joined string. */
    method OnUnprepareRemoteInput(sessionId: int)
      requires Valid()
      modifies this`sharingDhIds, this`sharingDhIdsMap, this`history, sinkSwitch, client
      modifies hub`devices, hub`sharedDHIds, state, state.touchPadEventFragMgr, state.transport
      ensures Valid() && Hub.SameDevices(hub.devices, old(hub.devices))
      ensures View() == Next(old(View()), Hub.Attached(old(hub.devices)), Control(Unprepare(sessionId)))
      ensures history == old(history) + [Control(Unprepare(sessionId))] && (old(Lived()) ==> Lived())
    {
      ghost var was := history;
      StopAllAndRemove(sessionId);
      Snoc(was, Control(Unprepare(sessionId)));
      history := was + [Control(Unprepare(sessionId))];
      Hub.SameAttached(hub.devices, old(hub.devices));
    }

    method StopAllAndRemove(sessionId: int)
      requires Valid()
      modifies this`sharingDhIds, this`sharingDhIdsMap, this`history, sinkSwitch, client
      modifies hub`devices, hub`sharedDHIds, state, state.touchPadEventFragMgr, state.transport
      ensures Valid() && Hub.SameDevices(hub.devices, old(hub.devices))
      ensures View() == Next(old(View()), Hub.Attached(old(hub.devices)), Control(Unprepare(sessionId)))
    {
      var sharing := hub.GetSharingDevices();
      if sharing != [] {
        StopShared(sessionId, sharing);
      }
      sinkSwitch.RemoveSession(sessionId);
    }

    /** Stopping what is shared, through one joined string. */
    method StopShared(sessionId: int, sharing: seq<string>)
      requires Valid() && SetOf(sharing) == Hub.SharingOf(hub.devices) && sharing != []
      modifies this`sharingDhIds, this`sharingDhIdsMap, this`history, sinkSwitch, client
      modifies hub`devices, hub`sharedDHIds, state, state.touchPadEventFragMgr, state.transport
      ensures Valid() && Hub.SameDevices(hub.devices, old(hub.devices))
      ensures BooksView() == Stop(old(BooksView()), sessionId, SetOf(sharing))
      ensures state.View() == RecordDhIds(old(state.View()), [], false, sessionId)
    {
      var joined := JointDhIds(sharing);
      SharingSurvivesJoin(sharing);
      OnStopRemoteInputDhid(sessionId, joined);
    }

    lemma SharingSurvivesJoin(sharing: seq<string>)
      requires Valid() && SetOf(sharing) == Hub.SharingOf(hub.devices) && sharing != []
      ensures Split(Join(sharing, INPUT_STRING_SPLIT_POINT), INPUT_STRING_SPLIT_POINT) == sharing
    {
      forall d | d in sharing ensures DhIdLike(d) {
        assert d in SetOf(sharing);
      }
      assert sharing[0] in sharing;
      SplitJoinRoundTrip(sharing, INPUT_STRING_SPLIT_POINT);
    }

    /** What a turn polls, and around what. */
    ghost function Polled(bufferSize: nat): Hub.Poll
      reads hub, state, state.touchPadEventFragMgr, state.transport
    {
      Hub.Poll([], bufferSize, hub.pendingEventIndex, hub.pendingItems, state.View(), hub.touchDescriptor)
    }

    ghost function Around(screens: seq<Hub.TouchScreen.SinkScreenInfo>, scanId: int): Hub.Surroundings
      reads hub
    {
      Hub.Surroundings(hub.iNotifyFd, hub.devices, hub.SharedIds(), screens, scanId)
    }

    /** The events behind a turn, those of devices that are not shared first. */
    ghost function StepsOfTurn(bufferSize: nat, screens: seq<Hub.TouchScreen.SinkScreenInfo>, scanId: int): seq<Step>
      requires Valid()
      reads this, hub, hub.state, state, state.touchPadEventFragMgr, state.transport
    {
      var turn := CollectorTurn.TurnSteps(Polled(bufferSize), Around(screens, scanId));
      turn.recorded + turn.forwarded
    }

    /** One turn of the collecting thread: poll, then forward what was collected to the session that is open. */
    method CollectAndForward(bufferSize: nat, screens: seq<Hub.TouchScreen.SinkScreenInfo>, scanId: int)
      returns (out: seq<RawEvent>)
      requires Valid()
      modifies hub`pendingItems, hub`pendingEventIndex, hub`sharedDHIds, hub`touchDescriptor, this`history
      modifies state, state.touchPadEventFragMgr, state.transport
      ensures Valid() && |out| <= bufferSize && BooksView() == old(BooksView())
      ensures var session := SessionSwitch.Opened(sinkSwitch.switchVector);
              var p := Hub.ServeAll(old(Polled(bufferSize)), old(Around(screens, scanId)));
              out == p.out && state.View() == Send(p.st, session, SignalsOf(session, out))
      ensures var steps := old(StepsOfTurn(bufferSize, screens, scanId));
              && history == old(history) + steps && View() == Feed(old(View()), Hub.Attached(hub.devices), steps)
              && (old(Lived()) ==> Lived())
    {
      ghost var attached, steps := Hub.Attached(hub.devices), StepsOfTurn(bufferSize, screens, scanId);
      TurnSeen(bufferSize, screens, scanId);
      FeedConcat(Initial(pressed), attached, history, steps);
      history := history + steps;
      out := PollAndForward(bufferSize, screens, scanId);
    }

    lemma TurnSeen(bufferSize: nat, screens: seq<Hub.TouchScreen.SinkScreenInfo>, scanId: int)
      requires Valid()
      ensures var p, session := Hub.ServeAll(Polled(bufferSize), Around(screens, scanId)), View().Opened();
              Feed(View(), Hub.Attached(hub.devices), StepsOfTurn(bufferSize, screens, scanId))
              == System(BooksView(), Send(p.st, session, SignalsOf(session, p.out)))
    {
      CollectorTurn.TurnIsSteps(View(), Hub.Attached(hub.devices), bufferSize, hub.pendingEventIndex, hub.pendingItems,
                                hub.touchDescriptor, Around(screens, scanId));
    }

    method PollAndForward(bufferSize: nat, screens: seq<Hub.TouchScreen.SinkScreenInfo>, scanId: int)
      returns (out: seq<RawEvent>)
      requires Valid()
      modifies hub`pendingItems, hub`pendingEventIndex, hub`sharedDHIds, hub`touchDescriptor
      modifies state, state.touchPadEventFragMgr, state.transport
      ensures Valid() && |out| <= bufferSize && BooksView() == old(BooksView())
      ensures var session := SessionSwitch.Opened(sinkSwitch.switchVector);
              var p := Hub.ServeAll(old(Polled(bufferSize)), old(Around(screens, scanId)));
              out == p.out && state.View() == Send(p.st, session, SignalsOf(session, out))
    {
      ghost var capacity;
      out, capacity := hub.GetEvents(bufferSize, screens, scanId);
      Forward(out);
    }

    /** What the posted message does: the events go to the session that is open. */
    method Forward(out: seq<RawEvent>)
      requires Valid()
      modifies transport
      ensures Valid() && BooksView() == old(BooksView())
      ensures var session := SessionSwitch.Opened(sinkSwitch.switchVector);
              state.View() == Send(old(state.View()), session, SignalsOf(session, out))
    {
      if out == [] {
        ConcatEmpty(state.View().sent);
        return;
      }
      var session := sinkSwitch.GetSwitchOpenedSession();
      DeliveredPush(transport.log, Body(session, out));
      transport.ForwardBody(session, out);
    }

    // ----- what the hand-off theorems say of the manager itself, after any calls of its handlers and turns

    lemma {:induction false} KeysShown(node: Node, s: int)
      requires Lived() && KeyHandOff.LegalRun(pressed, Hub.Attached(hub.devices), history, node, s)
      ensures var l := KeyHandOff.Truth(pressed, Hub.Attached(hub.devices), history, node, s).ledger;
              View().SourceAt(s, node.descriptor) == (l.held - l.missing) + l.stuck
    {
      KeyHandOff.SourceShowsHeldKeys(pressed, Hub.Attached(hub.devices), history, node, s);
    }

    /** What any session was sent of a device, signal by signal. */
    lemma {:induction false} SentIsTold(node: Node, s: int)
      requires Lived() && Deliveries.LegalRun(pressed, Hub.Attached(hub.devices), history, node)
      ensures View().ToldAt(s, node.descriptor)
              == Deliveries.Told(pressed, Hub.Attached(hub.devices), history, node, s)
    {
      Deliveries.LogIsTold(pressed, Hub.Attached(hub.devices), history, node, s);
    }

    lemma {:induction false} TouchpadShown(node: Node, s: int)
      requires Lived() && TouchHandOff.LegalRun(Hub.Attached(hub.devices), history, node, s)
      ensures var l := TouchHandOff.Truth(pressed, Hub.Attached(hub.devices), history, node, s).ledger;
              View().SourceAt(s, node.descriptor) == (l.held - l.missing) + l.stuck
    {
      TouchHandOff.SourceShowsTouchpad(pressed, Hub.Attached(hub.devices), history, node, s);
    }
  }

  lemma SameDhIds(a: seq<Hub.Device>, b: seq<Hub.Device>)
    requires Hub.SameDevices(a, b) && forall i :: 0 <= i < |a| ==> DhIdLike(a[i].node.descriptor)
    ensures forall i :: 0 <= i < |b| ==> DhIdLike(b[i].node.descriptor)
  {
    forall i | 0 <= i < |b| ensures DhIdLike(b[i].node.descriptor) {
      assert a[i].(isShare := false) == b[i].(isShare := false);
    }
  }

  /** A descriptor that survives joining: not empty and without the separator. */
  predicate DhIdLike(d: string) {
    d != "" && INPUT_STRING_SPLIT_POINT !in d
  }
}
