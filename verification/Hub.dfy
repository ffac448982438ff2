/**
 InputHub: the opened devices and which of them are shared, and the polling step that records or collects what was read
 from each ready device. Opening and closing of devices is not modelled: the list of devices is given.
 */
module Hub {
  import opened InputEvents
  import opened SeqFacts
  import opened KeyDownList
  import opened KeyBitmap
  import opened TouchScreen
  import opened SinkState
  import opened SinkSystem
  import KeyHandOff

  datatype Device = Device(fd: int, node: Node, keyboard: bool, isShare: bool) {
    predicate Touch() { node.touchPad || node.touchScreen }

    /** MakeDevice gives the keyboard class only to a device that has no other. */
    predicate Made() { keyboard ==> !node.cursor && !Touch() }
  }

  function Attached(devices: seq<Device>): set<string> {
    set i | 0 <= i < |devices| :: devices[i].node.descriptor
  }

  function SharingOf(devices: seq<Device>): set<string> {
    set i | 0 <= i < |devices| && devices[i].isShare :: devices[i].node.descriptor
  }

  /** Only the first device of a descriptor is ever flagged. */
  predicate FirstsShared(devices: seq<Device>) {
    forall i, j :: 0 <= i < j < |devices| && devices[j].isShare ==>
        devices[i].node.descriptor != devices[j].node.descriptor
  }

  /** The same devices, whatever their flags. */
  predicate SameDevices(a: seq<Device>, b: seq<Device>) {
    |a| == |b| && forall i :: 0 <= i < |a| ==> a[i].(isShare := false) == b[i].(isShare := false)
  }

  lemma SameAttached(a: seq<Device>, b: seq<Device>)
    requires SameDevices(a, b)
    ensures Attached(a) == Attached(b)
  {
    forall d ensures d in Attached(a) <==> d in Attached(b) {
      if d in Attached(a) {
        var i :| 0 <= i < |a| && a[i].node.descriptor == d;
        assert b[i].node.descriptor == d;
      }
      if d in Attached(b) {
        var i :| 0 <= i < |b| && b[i].node.descriptor == d;
        assert a[i].node.descriptor == d;
      }
    }
  }

  /** Flagging the first device of a descriptor. */
  lemma FlagFirst(devices: seq<Device>, i: nat, enabled: bool)
    requires i < |devices| && FirstsShared(devices)
    requires forall j :: 0 <= j < i ==> devices[j].node.descriptor != devices[i].node.descriptor
    ensures var r, d := devices[i := devices[i].(isShare := enabled)], devices[i].node.descriptor;
            && FirstsShared(r) && SameDevices(r, devices)
            && SharingOf(r) == if enabled then SharingOf(devices) + {d} else SharingOf(devices) - {d}
  {
    var r, d := devices[i := devices[i].(isShare := enabled)], devices[i].node.descriptor;
    forall x ensures x in SharingOf(r) <==> if x == d then enabled else x in SharingOf(devices) {
      if x == d {
        forall k | 0 <= k < |r| && k != i ensures !(r[k].isShare && r[k].node.descriptor == d) {
          assert devices[k] == r[k];
        }
        assert r[i].node.descriptor == d && r[i].isShare == enabled;
      } else {
        if x in SharingOf(r) {
          var k :| 0 <= k < |r| && r[k].isShare && r[k].node.descriptor == x;
          assert devices[k] == r[k];
        }
        if x in SharingOf(devices) {
          var k :| 0 <= k < |devices| && devices[k].isShare && devices[k].node.descriptor == x;
          assert devices[k] == r[k];
        }
      }
    }
  }

  // ----- polling

  /** A ready file descriptor: what can be read from it, and whether the poll reported input. */
  datatype Item = Item(fd: int, avail: seq<InputEvent>, pollIn: bool)

  function DeviceByFd(devices: seq<Device>, fd: int): (i: nat)
    ensures i <= |devices| && (i < |devices| ==> devices[i].fd == fd)
    ensures forall j :: 0 <= j < i ==> devices[j].fd != fd
  {
    if devices == [] || devices[0].fd == fd then 0 else 1 + DeviceByFd(devices[1..], fd)
  }

  /** The events of `s` before `n` that are not flagged, in order. */
  function Unflagged(s: seq<InputEvent>, flags: seq<bool>, n: nat): (r: seq<InputEvent>)
    requires n <= |s| && n <= |flags|
    ensures |r| <= n
  {
    if n == 0 then [] else Unflagged(s, flags, n - 1) + (if flags[n - 1] then [] else [s[n - 1]])
  }

  lemma {:induction false} PairsWithin(s: seq<InputEvent>, n: nat)
    requires n <= |s|
    ensures Within(Pairs(s, n), n)
  {
    forall p | p in Pairs(s, n) ensures p.0 <= p.1 < n {
      PairsExact(s, n, p);
    }
  }

  function NoFlags(n: nat): seq<bool> {
    seq(n, _ => false)
  }

  /** What CollectEvent makes of the events read before it copies them. */
  function Prepared(node: Node, burst: seq<InputEvent>, capacity: nat, touchId: string, screens: seq<SinkScreenInfo>)
    : (f: Frame)
    requires |burst| <= capacity
    ensures |f.events| == |burst| && |f.flags| == capacity
  {
    var f := Frame(burst, NoFlags(capacity), touchId);
    PairsWithin(burst, |burst|);
    if node.touchScreen then Passes(f, Pairs(burst, |burst|), screens) else f
  }

  function Collected(node: Node, burst: seq<InputEvent>, capacity: nat, touchId: string, screens: seq<SinkScreenInfo>)
    : (r: seq<RawEvent>)
    requires |burst| <= capacity
    ensures |r| <= |burst|
  {
    var f := Prepared(node, burst, capacity, touchId, screens);
    EventsOfLength(node, Unflagged(f.events, f.flags, |burst|), f.touchId);
    EventsOf(node, Unflagged(f.events, f.flags, |burst|), f.touchId)
  }

  lemma {:induction false} EventsOfLength(node: Node, burst: seq<InputEvent>, touchId: string)
    ensures |EventsOf(node, burst, touchId)| == |burst|
  {
    if burst != [] {
      EventsOfLength(node, burst[..|burst| - 1], touchId);
    }
  }

  /** How many of the first `n` are not flagged. */
  function Rank(flags: seq<bool>, n: nat): nat
    requires n <= |flags|
  {
    if n == 0 then 0 else Rank(flags, n - 1) + (if flags[n - 1] then 0 else 1)
  }

  /** Each event that is not flagged comes out once, behind those before it, and nothing else does. */
  lemma {:induction false} UnflaggedInOrder(s: seq<InputEvent>, flags: seq<bool>, n: nat, i: nat)
    requires i < n <= |s| && n <= |flags| && !flags[i]
    ensures |Unflagged(s, flags, n)| == Rank(flags, n) && Rank(flags, i) < Rank(flags, n)
    ensures Unflagged(s, flags, n)[Rank(flags, i)] == s[i]
  {
    UnflaggedCount(s, flags, n - 1);
    if i < n - 1 {
      UnflaggedInOrder(s, flags, n - 1, i);
    }
  }

  lemma {:induction false} UnflaggedCount(s: seq<InputEvent>, flags: seq<bool>, n: nat)
    requires n <= |s| && n <= |flags|
    ensures |Unflagged(s, flags, n)| == Rank(flags, n)
  {
    if n > 0 {
      UnflaggedCount(s, flags, n - 1);
    }
  }

  lemma {:induction false} UnflaggedAll(s: seq<InputEvent>, flags: seq<bool>, n: nat)
    requires n <= |s| && n <= |flags| && forall i :: 0 <= i < n ==> !flags[i]
    ensures Unflagged(s, flags, n) == s[..n]
  {
    if n > 0 {
      UnflaggedAll(s, flags, n - 1);
      PrefixStep(s, n - 1);
    }
  }

  /** Keyboards, mice and touchpads are collected whole and unchanged. */
  lemma CollectedWhole(node: Node, burst: seq<InputEvent>, capacity: nat, touchId: string, screens: seq<SinkScreenInfo>)
    requires |burst| <= capacity && !node.touchScreen
    ensures Collected(node, burst, capacity, touchId, screens) == EventsOf(node, burst, touchId)
  {
    UnflaggedAll(burst, NoFlags(capacity), |burst|);
    assert burst[..|burst|] == burst;
  }

  /** The state of one GetEvents call. */
  datatype Poll = Poll(out: seq<RawEvent>, capacity: nat, index: nat, items: seq<Item>, st: State, touchId: string)

  datatype Surroundings = Surroundings(notifyFd: int, devices: seq<Device>, shared: set<string>,
                                       screens: seq<SinkScreenInfo>, scanId: int)

  function Min(a: nat, b: nat): nat { if a < b then a else b }

  /**
   One ready descriptor. A full buffer leaves the index in place, so that the descriptor is served again next time.
   */
  function Serve(p: Poll, w: Surroundings): (r: Poll)
    requires p.st.Ok() && p.index < |p.items|
    ensures r.st.Ok() && |r.items| == |p.items| && p.index <= r.index <= p.index + 1
    ensures r.index == p.index ==> r.capacity == 0
    ensures |r.out| + r.capacity == |p.out| + p.capacity
  {
    var item := p.items[p.index];
    if item.fd == w.notifyFd then p.(index := p.index + 1)
    else
      var n := Min(|item.avail|, p.capacity);
      var burst := item.avail[..n];
      var q := p.(index := p.index + 1, items := p.items[p.index := item.(avail := item.avail[n..])]);
      var i := DeviceByFd(w.devices, item.fd);
      if i == |w.devices| then q
      else
        Dispatch(q, w, w.devices[i].node, burst, item.pollIn)
  }

  /** What was read from a device is recorded if the device is not shared, and collected if it is. */
  function Dispatch(p: Poll, w: Surroundings, node: Node, burst: seq<InputEvent>, pollIn: bool): (r: Poll)
    requires p.st.Ok() && |burst| <= p.capacity && p.index > 0
    ensures r.st.Ok() && |r.out| + r.capacity == |p.out| + p.capacity && r.items == p.items
    ensures r.index == p.index || (r.index == p.index - 1 && r.capacity == 0)
  {
    if node.descriptor !in w.shared then p.(st := RecordBurst(p.st, node, burst, p.touchId, w.scanId))
    else if !pollIn then p
    else
      var more := Collected(node, burst, p.capacity, p.touchId, w.screens);
      var left := p.capacity - |more|;
      p.(out := p.out + more, capacity := left,
         touchId := if !node.touchScreen then p.touchId
                    else Prepared(node, burst, p.capacity, p.touchId, w.screens).touchId,
         index := if left == 0 then p.index - 1 else p.index)
  }

  function ServeAll(p: Poll, w: Surroundings): (r: Poll)
    requires p.st.Ok() && p.index <= |p.items|
    ensures r.st.Ok() && |r.out| + r.capacity == |p.out| + p.capacity
    ensures p.index <= r.index <= |p.items| && (r.index < |p.items| ==> r.capacity == 0)
    decreases |p.items| - p.index
  {
    if p.index == |p.items| then p
    else
      var q := Serve(p, w);
      if q.index == p.index then q else ServeAll(q, w)
  }

  class InputHub {
    var devices: seq<Device>
    var sharedDHIds: map<string, bool>
    var touchDescriptor: string
    var pendingItems: seq<Item>
    var pendingEventIndex: nat
    const iNotifyFd: int
    const state: DInputSinkState

    constructor (devices: seq<Device>, iNotifyFd: int, state: DInputSinkState)
      requires SharingOf(devices) == {}
      ensures this.devices == devices && SharedIds() == {} && this.state == state && FirstsShared(devices)
      ensures pendingItems == [] && pendingEventIndex == 0
    {
      assert forall i :: 0 <= i < |devices| && devices[i].isShare ==> devices[i].node.descriptor in SharingOf(devices);
      this.devices := devices;
      this.iNotifyFd := iNotifyFd;
      this.state := state;
      sharedDHIds := map[];
      touchDescriptor := "";
      pendingItems := [];
      pendingEventIndex := 0;
    }

    /** The entries of sharedDHIds_ that are true. */
    ghost function SharedIds(): set<string>
      reads this`sharedDHIds
    {
      set d | d in sharedDHIds && sharedDHIds[d]
    }

    // ----- sharing

    method SetSharingDevices(enabled: bool, dhIds: seq<string>) returns (affected: seq<string>)
      requires FirstsShared(devices)
      modifies this`devices, this`sharedDHIds
      ensures FirstsShared(devices) && SameDevices(devices, old(devices))
      ensures var ids, attached := SetOf(dhIds), Attached(old(devices));
              && SetOf(affected) == ids * attached
              && SharedIds() == (if enabled then old(SharedIds()) + ids else old(SharedIds()) - ids)
              && SharingOf(devices)
                  == (if enabled then old(SharingOf(devices)) + ids * attached else old(SharingOf(devices)) - ids)
    {
      affected := [];
      for k := 0 to |dhIds|
        invariant FirstsShared(devices) && SameDevices(devices, old(devices))
        invariant Attached(devices) == Attached(old(devices))
        invariant var ids, attached := SetOf(dhIds[..k]), Attached(old(devices));
          && SetOf(affected) == ids * attached
          && SharedIds() == (if enabled then old(SharedIds()) + ids else old(SharedIds()) - ids)
          && SharingOf(devices)
              == (if enabled then old(SharingOf(devices)) + ids * attached else old(SharingOf(devices)) - ids)
      {
        PrefixStep(dhIds, k);
        assert SetOf(dhIds[..k + 1]) == SetOf(dhIds[..k]) + {dhIds[k]};
        var found := SetSharing(enabled, dhIds[k]);
        SameAttached(devices, old(devices));
        if found {
          SetOfPush(affected, dhIds[k]);
          affected := affected + [dhIds[k]];
        }
      }
      assert dhIds[..|dhIds|] == dhIds;
    }

    /** The inner loop, for one id. */
    method SetSharing(enabled: bool, dhId: string) returns (found: bool)
      requires FirstsShared(devices)
      modifies this`devices, this`sharedDHIds
      ensures FirstsShared(devices) && SameDevices(devices, old(devices))
      ensures found == (dhId in Attached(old(devices)))
      ensures SharedIds() == if enabled then old(SharedIds()) + {dhId} else old(SharedIds()) - {dhId}
      ensures SharingOf(devices) == if enabled then old(SharingOf(devices)) + (if found then {dhId} else {})
                                  else old(SharingOf(devices)) - {dhId}
    {
      sharedDHIds := sharedDHIds[dhId := enabled];
      for i := 0 to |devices|
        invariant devices == old(devices)
        invariant forall j :: 0 <= j < i ==> devices[j].node.descriptor != dhId
      {
        if devices[i].node.descriptor == dhId {
          FlagFirst(devices, i, enabled);
          devices := devices[i := devices[i].(isShare := enabled)];
          return true;
        }
      }
      return false;
    }

    method GetSharingDevices() returns (dhIds: seq<string>)
      ensures SetOf(dhIds) == SharingOf(devices)
      ensures dhIds != [] <==> SharingOf(devices) != {}
    {
      dhIds := [];
      for k := 0 to |devices|
        invariant SetOf(dhIds) == SharingOf(devices[..k])
      {
        SharingPush(devices, k);
        if devices[k].isShare {
          dhIds := dhIds + [devices[k].node.descriptor];
        }
      }
      assert devices[..|devices|] == devices;
      if dhIds != [] {
        assert dhIds[0] in SetOf(dhIds);
      }
    }

    method IsAllDevicesStoped() returns (stopped: bool)
      ensures stopped == (SharedIds() == {})
    {
      var rest := sharedDHIds.Keys;
      while rest != {}
        invariant rest <= sharedDHIds.Keys
        invariant forall d :: d in sharedDHIds && d !in rest ==> !sharedDHIds[d]
        decreases |rest|
      {
        var d :| d in rest;
        if sharedDHIds[d] {
          assert d in SharedIds();
          return false;
        }
        rest := rest - {d};
      }
      return true;
    }

    // ----- polling

    ghost predicate Valid()
      reads this, state, state.touchPadEventFragMgr
    {
      && state.Valid() && (forall d :: d in state.keyDownStateMap ==> state.keyDownStateMap[d] != [])
      && pendingEventIndex <= |pendingItems|
    }

    method RecordDeviceChangeStates(node: Node, readBuffer: seq<InputEvent>, scanId: int)
      requires Valid()
      modifies state`keyDownStateMap, state.touchPadEventFragMgr, state.transport
      ensures Valid()
      ensures state.View() == RecordBurst(old(state.View()), node, readBuffer, touchDescriptor, scanId)
    {
      for i := 0 to |readBuffer|
        invariant Valid()
        invariant state.View() == RecordBurst(old(state.View()), node, readBuffer[..i], touchDescriptor, scanId)
      {
        PrefixStep(readBuffer, i);
        state.MatchAndDealEvent(EventOf(node, readBuffer[i], touchDescriptor), node.touchPad, node.cursor, scanId);
      }
      assert readBuffer[..|readBuffer|] == readBuffer;
    }

    /** `capacity` is what is left of the caller's buffer; what was read fits into it. */
    method CollectEvent(node: Node, readBuffer: array<InputEvent>, capacity: nat, screens: seq<SinkScreenInfo>)
      returns (out: seq<RawEvent>, left: nat)
      requires readBuffer.Length <= capacity
      modifies readBuffer, this`touchDescriptor
      ensures |out| + left == capacity
      ensures out == Collected(node, old(readBuffer[..]), capacity, old(touchDescriptor), screens)
      ensures touchDescriptor == if node.touchScreen
                                 then Prepared(node, old(readBuffer[..]), capacity, old(touchDescriptor),
                                               screens).touchId
                                 else old(touchDescriptor)
    {
      var needFilted := new bool[capacity](_ => false);
      var count := readBuffer.Length;
      assert needFilted[..] == NoFlags(capacity);
      ghost var f := Prepared(node, readBuffer[..], capacity, touchDescriptor, screens);
      if node.touchScreen {
        touchDescriptor := HandleTouchScreenEvent(readBuffer, count, needFilted, screens, touchDescriptor);
        assert Frame(readBuffer[..], needFilted[..], touchDescriptor) == f;
      }
      out, left := CopyEvents(node, readBuffer, needFilted);
    }

    method CopyEvents(node: Node, readBuffer: array<InputEvent>, needFilted: array<bool>)
      returns (out: seq<RawEvent>, left: nat)
      requires readBuffer.Length <= needFilted.Length
      ensures |out| + left == needFilted.Length
      ensures out == EventsOf(node, Unflagged(readBuffer[..], needFilted[..], readBuffer.Length), touchDescriptor)
    {
      out, left := [], needFilted.Length;
      ghost var s, flags := readBuffer[..], needFilted[..];
      for i := 0 to readBuffer.Length
        invariant |out| + left == needFilted.Length && |out| <= i
        invariant out == EventsOf(node, Unflagged(s, flags, i), touchDescriptor)
      {
        assert readBuffer[i] == s[i] && needFilted[i] == flags[i];
        assert Unflagged(s, flags, i) + [] == Unflagged(s, flags, i);
        if !needFilted[i] {
          Snoc(Unflagged(s, flags, i), s[i]);
          out := out + [EventOf(node, readBuffer[i], touchDescriptor)];
          left := left - 1;
          if left == 0 {
            assert i + 1 == readBuffer.Length;
            return;
          }
        }
      }
    }

    method GetEvents(bufferSize: nat, screens: seq<SinkScreenInfo>, scanId: int)
      returns (out: seq<RawEvent>, ghost capacity: nat)
      requires Valid() && FirstsShared(devices)
      modifies this`pendingItems, this`pendingEventIndex, this`sharedDHIds, this`touchDescriptor
      modifies state`keyDownStateMap, state.touchPadEventFragMgr, state.transport
      ensures Valid() && SharedIds() == old(SharedIds())
      ensures |out| + capacity == bufferSize
      ensures Poll(out, capacity, pendingEventIndex, pendingItems, state.View(), touchDescriptor)
              == ServeAll(Poll([], bufferSize, old(pendingEventIndex), old(pendingItems), old(state.View()),
                               old(touchDescriptor)),
                          Surroundings(iNotifyFd, devices, SharedIds(), screens, scanId))
    {
      out := [];
      var left := bufferSize;
      ghost var w := Surroundings(iNotifyFd, devices, SharedIds(), screens, scanId);
      ghost var p0 := Poll([], bufferSize, pendingEventIndex, pendingItems, state.View(), touchDescriptor);
      while pendingEventIndex < |pendingItems|
        invariant Valid() && SharedIds() == w.shared
        invariant state.View().Ok()
        invariant ServeAll(Poll(out, left, pendingEventIndex, pendingItems, state.View(), touchDescriptor), w)
            == ServeAll(p0, w)
        decreases |pendingItems| - pendingEventIndex
      {
        ghost var p := Poll(out, left, pendingEventIndex, pendingItems, state.View(), touchDescriptor);
        var full;
        out, left, full := ServeNext(out, left, screens, scanId);
        if full {
          break;
        }
      }
      capacity := left;
    }

    /** The loop body; `full` is its break. */
    method ServeNext(out: seq<RawEvent>, capacity: nat, screens: seq<SinkScreenInfo>, scanId: int)
      returns (out': seq<RawEvent>, left: nat, full: bool)
      requires Valid() && pendingEventIndex < |pendingItems|
      modifies this`pendingItems, this`pendingEventIndex, this`sharedDHIds, this`touchDescriptor
      modifies state`keyDownStateMap, state.touchPadEventFragMgr, state.transport
      ensures Valid() && SharedIds() == old(SharedIds())
      ensures full == (pendingEventIndex == old(pendingEventIndex))
      ensures Poll(out', left, pendingEventIndex, pendingItems, state.View(), touchDescriptor)
              == Serve(Poll(out, capacity, old(pendingEventIndex), old(pendingItems), old(state.View()),
                            old(touchDescriptor)),
                       Surroundings(iNotifyFd, devices, SharedIds(), screens, scanId))
    {
      out', left, full := out, capacity, false;
      var item := pendingItems[pendingEventIndex];
      pendingEventIndex := pendingEventIndex + 1;
      if item.fd == iNotifyFd {
        return;
      }
      var count := Min(|item.avail|, capacity);
      var readBuffer := new InputEvent[count](i requires 0 <= i < count => item.avail[i]);
      assert readBuffer[..] == item.avail[..count];
      pendingItems := pendingItems[pendingEventIndex - 1 := item.(avail := item.avail[count..])];
      var i := DeviceByFd(devices, item.fd);
      if i == |devices| {
        return;
      }
      out', left, full := DispatchRead(devices[i].node, readBuffer, item.pollIn, out, capacity, screens, scanId);
    }

    method DispatchRead(node: Node, readBuffer: array<InputEvent>, pollIn: bool, out: seq<RawEvent>, capacity: nat,
                        screens: seq<SinkScreenInfo>, scanId: int)
      returns (out': seq<RawEvent>, left: nat, full: bool)
      requires Valid() && pendingEventIndex > 0 && readBuffer.Length <= capacity
      modifies this`pendingEventIndex, this`sharedDHIds, this`touchDescriptor, readBuffer
      modifies state`keyDownStateMap, state.touchPadEventFragMgr, state.transport
      ensures Valid() && SharedIds() == old(SharedIds())
      ensures full == (pendingEventIndex != old(pendingEventIndex))
      ensures Poll(out', left, pendingEventIndex, pendingItems, state.View(), touchDescriptor)
              == Dispatch(Poll(out, capacity, old(pendingEventIndex), pendingItems, old(state.View()),
                               old(touchDescriptor)),
                          Surroundings(iNotifyFd, devices, old(SharedIds()), screens, scanId),
                          node, old(readBuffer[..]), pollIn)
    {
      out', left, full := out, capacity, false;
      if node.descriptor !in sharedDHIds {
        sharedDHIds := sharedDHIds[node.descriptor := false];
      }
      if !sharedDHIds[node.descriptor] {
        RecordDeviceChangeStates(node, readBuffer[..], scanId);
        return;
      }
      if pollIn {
        var more;
        more, left := CollectEvent(node, readBuffer, capacity, screens);
        out' := out + more;
        if left == 0 {
          pendingEventIndex := pendingEventIndex - 1;
          full := true;
        }
      }
    }

    // ----- keys found pressed when monitoring begins

    method CheckTargetKeyState(device: Device, keyState: Bitmap)
      modifies state`keyDownStateMap
      ensures state.keyDownStateMap
              == ScannedKeys(old(state.keyDownStateMap), device.node, Bits(keyState), Limit(keyState),
                             AskedKeys(device))
    {
      ghost var was, asked := state.keyDownStateMap, AskedKeys(device);
      var done, stop := 0, false;
      AskedParts(device);
      if device.node.cursor {
        done, stop := SavePressed(device.node, keyState, Buttons(), done, asked, was);
        if stop {
          return;
        }
      }
      if device.keyboard {
        done, stop := SavePressed(device.node, keyState, Range(0, KEY_MAX), done, asked, was);
        if stop {
          return;
        }
      }
      if device.Touch() {
        done, stop := SavePressed(device.node, keyState, [BTN_TOUCH], done, asked, was);
        if stop {
          return;
        }
      }
      assert asked[..done] == asked;
    }

    /**
     The length check, bit test and save for a stretch of keys; `from` keys were looked at before, `asked` are all that
     are asked for. The source writes the three mouse buttons and the touch out instead of looping over them.
     */
    method SavePressed(node: Node, keyState: Bitmap, keys: seq<nat>, from: nat, ghost asked: seq<nat>,
                       ghost was: KeyMap)
      returns (done: nat, stop: bool)
      requires from + |keys| <= |asked| && asked[from..from + |keys|] == keys
      requires AllBelow(asked[..from], Limit(keyState))
      requires state.keyDownStateMap == ScannedKeys(was, node, Bits(keyState), Limit(keyState), asked[..from])
      modifies state`keyDownStateMap
      ensures done == from + |keys|
      ensures !stop ==> AllBelow(asked[..done], Limit(keyState))
      ensures state.keyDownStateMap
              == ScannedKeys(was, node, Bits(keyState), Limit(keyState), if stop then asked else asked[..done])
    {
      ghost var bits, limit := Bits(keyState), Limit(keyState);
      done := from + |keys|;
      for i := 0 to |keys|
        invariant AllBelow(asked[..from + i], limit)
        invariant state.keyDownStateMap == ScannedKeys(was, node, bits, limit, asked[..from + i])
      {
        var key := keys[i];
        assert asked[from + i] == key;
        var exceeds := IsLengthExceeds(keyState, key);
        if exceeds {
          Stopped(bits, limit, asked, from + i);
          return done, true;
        }
        ScannedKeysStep(was, node, bits, limit, asked, from + i);
        var pressed := TestBit(keyState, key);
        if pressed {
          state.AddKeyDownState(PressedKey(node, key));
        }
      }
      return done, false;
    }
  }

  lemma AskedParts(device: Device)
    ensures var a := if device.node.cursor then 3 else 0;
            var b := if device.keyboard then KEY_MAX else 0;
            var asked := AskedKeys(device);
            && |asked| == a + b + (if device.Touch() then 1 else 0)
            && (device.node.cursor ==> asked[0..3] == Buttons())
            && (device.keyboard ==> asked[a..a + b] == Range(0, KEY_MAX))
            && (device.Touch() ==> asked[a + b..a + b + 1] == [BTN_TOUCH])
  {
  }

  lemma Stopped(bits: nat -> bool, limit: nat, asked: seq<nat>, n: nat)
    requires n < |asked| && AllBelow(asked[..n], limit) && asked[n] >= limit
    ensures Saved(bits, limit, asked) == Saved(bits, limit, asked[..n])
  {
    CutJoin(asked, n);
    SavedConcat(bits, limit, asked[..n], asked[n..]);
    ConcatEmpty(Saved(bits, limit, asked[..n]));
  }

  lemma SavedStep(bits: nat -> bool, limit: nat, asked: seq<nat>, n: nat)
    requires n < |asked| && AllBelow(asked[..n], limit) && asked[n] < limit
    ensures AllBelow(asked[..n + 1], limit)
    ensures Saved(bits, limit, asked[..n + 1])
            == if bits(asked[n]) then Saved(bits, limit, asked[..n]) + [asked[n]] else Saved(bits, limit, asked[..n])
  {
    PrefixStep(asked, n);
    SavedConcat(bits, limit, asked[..n], [asked[n]]);
    ConsParts(asked[n], []);
    ConcatEmpty([asked[n]]);
    ConcatEmpty(Saved(bits, limit, asked[..n]));
  }

  /** The keys recorded by a scan: those saved, added in order. */
  function ScannedKeys(was: KeyMap, node: Node, bits: nat -> bool, limit: nat, asked: seq<nat>): KeyMap {
    AddedAll(was, node, Saved(bits, limit, asked))
  }

  lemma ScannedKeysStep(was: KeyMap, node: Node, bits: nat -> bool, limit: nat, asked: seq<nat>, n: nat)
    requires n < |asked| && AllBelow(asked[..n], limit) && asked[n] < limit
    ensures AllBelow(asked[..n + 1], limit)
    ensures var before := ScannedKeys(was, node, bits, limit, asked[..n]);
            ScannedKeys(was, node, bits, limit, asked[..n + 1])
            == if bits(asked[n]) then Added(before, PressedKey(node, asked[n])) else before
  {
    SavedStep(bits, limit, asked, n);
    AddedAllPush(was, node, Saved(bits, limit, asked[..n]), asked[n]);
  }

  lemma AddedAllPush(keys: KeyMap, node: Node, codes: seq<nat>, code: nat)
    ensures AddedAll(keys, node, codes + [code]) == Added(AddedAll(keys, node, codes), PressedKey(node, code))
  {
    Snoc(codes, code);
  }

  lemma SharingPush(devices: seq<Device>, k: nat)
    requires k < |devices|
    ensures SharingOf(devices[..k + 1])
            == SharingOf(devices[..k]) + (if devices[k].isShare then {devices[k].node.descriptor} else {})
  {
    var a, b := devices[..k], devices[..k + 1];
    var added := if devices[k].isShare then {devices[k].node.descriptor} else {};
    forall d ensures d in SharingOf(b) <==> d in SharingOf(a) + added {
      if d in SharingOf(b) {
        var i :| 0 <= i < |b| && b[i].isShare && b[i].node.descriptor == d;
        assert i < k ==> a[i] == b[i];
      }
      if d in SharingOf(a) {
        var i :| 0 <= i < |a| && a[i].isShare && a[i].node.descriptor == d;
        assert a[i] == b[i];
      }
      assert b[k] == devices[k];
    }
  }

  // ----- the initial scan of a device

  /** SavePressedKeyState. */
  function PressedKey(node: Node, key: nat): RawEvent {
    RawEvent(0, EV_KEY, key, KEY_DOWN_STATE, node.descriptor, node.path)
  }

  function AddedAll(keys: KeyMap, node: Node, codes: seq<nat>): KeyMap {
    if codes == [] then keys
    else Added(AddedAll(keys, node, codes[..|codes| - 1]), PressedKey(node, codes[|codes| - 1]))
  }

  /** The bits looked at, in order: the buttons of a mouse, all keys of a keyboard, the touch of a touch device. */
  function AskedKeys(device: Device): seq<nat> {
    (if device.node.cursor then Buttons() else [])
    + (if device.keyboard then Range(0, KEY_MAX) else [])
    + (if device.Touch() then [BTN_TOUCH] else [])
  }

  function Buttons(): seq<nat> { [BTN_LEFT, BTN_RIGHT, BTN_MIDDLE] }

  lemma AskedAscend(device: Device)
    requires device.Made()
    ensures Ascending(AskedKeys(device))
  {
  }

  /**
   The first scan records each key that it asks for once, if the bitmap reaches it and it is set, in ascending order.
   */
  lemma ScanRecordsOnce(device: Device, bits: nat -> bool, limit: nat)
    requires device.Made()
    ensures var s := Saved(bits, limit, AskedKeys(device));
            Ascending(s) && forall k :: k in s <==> k in AskedKeys(device) && k < limit && bits(k)
  {
    AskedAscend(device);
    AscendingSaved(bits, limit, AskedKeys(device));
  }

  lemma {:induction false} AddedAllList(node: Node, codes: seq<nat>)
    ensures var l := ListOf(AddedAll(map[], node, codes), node.descriptor);
            |l| == |codes| && forall i :: 0 <= i < |l| ==> l[i] == PressedKey(node, codes[i])
    ensures node.descriptor in AddedAll(map[], node, codes) <==> codes != []
  {
    if codes != [] {
      AddedAllList(node, codes[..|codes| - 1]);
    }
  }

  lemma ScanIsList(device: Device, bits: nat -> bool, limit: nat)
    requires device.Made()
    ensures var pressed, node := AddedAll(map[], device.node, Saved(bits, limit, AskedKeys(device))), device.node;
            && KeyHandOff.ListOfKeys(ListOf(pressed, node.descriptor), node)
            && (node.descriptor in pressed ==> pressed[node.descriptor] != [])
            && forall k :: k in KeyHandOff.Codes(ListOf(pressed, node.descriptor))
                           <==> k in AskedKeys(device) && k < limit && bits(k)
  {
    var codes := Saved(bits, limit, AskedKeys(device));
    ScanRecordsOnce(device, bits, limit);
    AddedAllList(device.node, codes);
    PressedCodes(ListOf(AddedAll(map[], device.node, codes), device.node.descriptor), codes, device.node);
  }

  /** The down events of ascending keys are a list of distinct keys. */
  lemma PressedCodes(l: seq<RawEvent>, codes: seq<nat>, node: Node)
    requires |l| == |codes| && Ascending(codes) && forall i :: 0 <= i < |l| ==> l[i] == PressedKey(node, codes[i])
    ensures KeyHandOff.ListOfKeys(l, node) && forall k: nat :: k in KeyHandOff.Codes(l) <==> k in codes
  {
    forall i, j | 0 <= i < j < |l| ensures l[i].code != l[j].code {
      assert codes[i] < codes[j];
    }
    forall k: nat | k in codes ensures k in KeyHandOff.Codes(l) {
      var i :| 0 <= i < |codes| && codes[i] == k;
      assert l[i] in l && l[i].code == k;
    }
  }

  /**
   The first scan of any device without a touch class, mice included, is a state from which key hand-off may start.
   */
  lemma ScanStartsKeyHandOff(device: Device, bits: nat -> bool, limit: nat, s: int)
    requires device.Made() && !device.Touch() && s > 0
    ensures KeyHandOff.LegalRun(AddedAll(map[], device.node, Saved(bits, limit, AskedKeys(device))), {}, [],
                                device.node, s)
  {
    ScanIsList(device, bits, limit);
  }

  /** The first scan of a touchpad finds the finger down exactly if the bit of the touch is set and there. */
  lemma ScanFindsFinger(device: Device, bits: nat -> bool, limit: nat)
    requires device.Made() && device.Touch()
    ensures var pressed := AddedAll(map[], device.node, Saved(bits, limit, AskedKeys(device)));
            BTN_TOUCH in KeyHandOff.Codes(ListOf(pressed, device.node.descriptor))
            <==> BTN_TOUCH < limit && bits(BTN_TOUCH)
  {
    ScanIsList(device, bits, limit);
  }

  /** What the first scan asks of a device, said without the list of what it looks at. */
  predicate Asked(device: Device, k: nat) {
    || (device.node.cursor && BTN_LEFT <= k <= BTN_MIDDLE)
    || (device.keyboard && k < KEY_MAX)
    || (device.Touch() && k == BTN_TOUCH)
  }

  /**
   The first scan of a device whose bitmap of `n` words reports `keys`: one down event of the node for each of them that
   is asked for and has a word, in ascending order.
   */
  lemma {:induction false} ScanOfKeys(device: Device, keys: seq<nat>, n: nat)
    requires device.Made()
    ensures var words, d := BitmapOf(keys, n), device.node.descriptor;
            var l := ListOf(ScannedKeys(map[], device.node, Bits(words), Limit(words), AskedKeys(device)), d);
            && (forall k :: k in KeyHandOff.Codes(l) <==> k in keys && k < n * 64 && Asked(device, k))
            && (forall i :: 0 <= i < |l| ==> l[i] == PressedKey(device.node, l[i].code))
            && (forall i, j :: 0 <= i < j < |l| ==> l[i].code < l[j].code)
  {
    var words := BitmapOf(keys, n);
    var codes := Saved(Bits(words), Limit(words), AskedKeys(device));
    ScanRecordsOnce(device, Bits(words), Limit(words));
    ScanIsList(device, Bits(words), Limit(words));
    AddedAllList(device.node, codes);
    forall k: nat ensures k in AskedKeys(device) <==> Asked(device, k) {
      AskedIs(device, k);
    }
    forall k: nat ensures Bits(words)(k) <==> k in keys && k < n * 64 {
      BitmapHasKeys(keys, n, k);
    }
  }

  lemma AskedIs(device: Device, k: nat)
    ensures k in AskedKeys(device) <==> Asked(device, k)
  {
    var r := Range(0, KEY_MAX);
    if k < KEY_MAX {
      assert r[k] == k;
    }
    assert k in Buttons() <==> BTN_LEFT <= k <= BTN_MIDDLE;
  }
}
