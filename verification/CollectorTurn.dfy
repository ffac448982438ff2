/**
 One turn of the collecting thread, in which the hub serves every ready device and what was collected is sent as one
 message, against the machine that handles single events.
 */
module CollectorTurn {
  import opened InputEvents
  import opened SeqFacts
  import opened SinkState
  import opened SinkSystem
  import opened Hub
  import SessionSwitch

  function StepsOf(node: Node, burst: seq<InputEvent>, touchId: string, scanId: int): seq<Step> {
    if burst == [] then []
    else
      StepsOf(node, burst[..|burst| - 1], touchId, scanId) + [Physical(node, burst[|burst| - 1], touchId, scanId)]
  }

  function StepEvents(steps: seq<Step>): seq<RawEvent> {
    if steps == [] then []
    else
      var s := steps[|steps| - 1];
      StepEvents(steps[..|steps| - 1]) + (if s.Physical? then [EventOf(s.node, s.ev, s.touchId)] else [])
  }

  /**
   The events behind one turn: those of devices that are not shared, which are recorded, and those collected, which for
   a touchscreen are the projected events that the frame filter lets through.
   */
  datatype Turn = Turn(recorded: seq<Step>, forwarded: seq<Step>)

  function ServedSteps(p: Poll, w: Surroundings): Turn
    requires p.index < |p.items|
  {
    var item := p.items[p.index];
    var i := DeviceByFd(w.devices, item.fd);
    if item.fd == w.notifyFd || i == |w.devices| then Turn([], [])
    else
      var node, burst := w.devices[i].node, item.avail[..Min(|item.avail|, p.capacity)];
      if node.descriptor !in w.shared then Turn(StepsOf(node, burst, p.touchId, w.scanId), [])
      else if item.pollIn then
        var f := Prepared(node, burst, p.capacity, p.touchId, w.screens);
        Turn([], StepsOf(node, Unflagged(f.events, f.flags, |burst|), f.touchId, w.scanId))
      else Turn([], [])
  }

  function TurnSteps(p: Poll, w: Surroundings): Turn
    requires p.st.Ok() && p.index <= |p.items|
    decreases |p.items| - p.index
  {
    if p.index == |p.items| then Turn([], [])
    else
      var q, first := Serve(p, w), ServedSteps(p, w);
      if q.index == p.index then first
      else
        var rest := TurnSteps(q, w);
        Turn(first.recorded + rest.recorded, first.forwarded + rest.forwarded)
  }

  /** Forwarded steps all belong to shared devices. */
  predicate AllShared(steps: seq<Step>, shared: set<string>) {
    forall i :: 0 <= i < |steps| ==> steps[i].Physical? && steps[i].node.descriptor in shared
  }

  lemma {:induction false} StepEventsConcat(a: seq<Step>, b: seq<Step>)
    ensures StepEvents(a + b) == StepEvents(a) + StepEvents(b)
  {
    if b == [] {
      assert a + b == a;
    } else {
      var s := b[|b| - 1];
      LastOfConcat(a, b);
      StepEventsConcat(a, b[..|b| - 1]);
      ConcatAssoc(StepEvents(a), StepEvents(b[..|b| - 1]),
                  if s.Physical? then [EventOf(s.node, s.ev, s.touchId)] else []);
    }
  }

  lemma {:induction false} StepsOfBurst(node: Node, burst: seq<InputEvent>, touchId: string, scanId: int)
    ensures StepEvents(StepsOf(node, burst, touchId, scanId)) == EventsOf(node, burst, touchId)
    ensures forall i :: 0 <= i < |StepsOf(node, burst, touchId, scanId)| ==>
              var step := StepsOf(node, burst, touchId, scanId)[i]; step.Physical? && step.node == node
  {
    if burst != [] {
      var front, s := burst[..|burst| - 1], Physical(node, burst[|burst| - 1], touchId, scanId);
      StepsOfBurst(node, front, touchId, scanId);
      Snoc(StepsOf(node, front, touchId, scanId), s);
    }
  }

  /** Recording a burst is feeding its events to the machine. */
  lemma {:induction false} RecordedBurstIsSteps(sys: System, attached: set<string>, node: Node, burst: seq<InputEvent>,
                                                touchId: string, scanId: int)
    requires sys.Ok() && !sys.Shares(node.descriptor)
    ensures Feed(sys, attached, StepsOf(node, burst, touchId, scanId))
            == System(sys.books, RecordBurst(sys.state, node, burst, touchId, scanId))
  {
    if burst != [] {
      var front, s := burst[..|burst| - 1], Physical(node, burst[|burst| - 1], touchId, scanId);
      RecordedBurstIsSteps(sys, attached, node, front, touchId, scanId);
      Snoc(StepsOf(node, front, touchId, scanId), s);
    }
  }

  /** Feeding the machine events of shared devices sends them to the open session, in order. */
  lemma {:induction false} SharedStepsAreSent(sys: System, attached: set<string>, steps: seq<Step>)
    requires sys.Ok() && AllShared(steps, sys.books.shared)
    ensures var session := SessionSwitch.Opened(sys.books.switches);
            Feed(sys, attached, steps)
                == System(sys.books, Send(sys.state, session, SignalsOf(session, StepEvents(steps))))
  {
    var session := SessionSwitch.Opened(sys.books.switches);
    if steps == [] {
      assert sys.state.sent + [] == sys.state.sent;
    } else {
      var front, s := steps[..|steps| - 1], steps[|steps| - 1];
      var e := EventOf(s.node, s.ev, s.touchId);
      SharedStepsAreSent(sys, attached, front);
      SignalsOfConcat(session, StepEvents(front), [e]);
      assert [e][1..] == [];
      ConcatAssoc(sys.state.sent, SignalsOf(session, StepEvents(front)), [SignalOf(session, e)]);
    }
  }

  lemma ServedIsSteps(sys: System, attached: set<string>, p: Poll, w: Surroundings)
    requires p.st.Ok() && p.index < |p.items| && p.st == sys.state
    requires w.shared == sys.books.shared
    ensures var q, t := Serve(p, w), ServedSteps(p, w);
            && Feed(sys, attached, t.recorded) == System(sys.books, q.st)
            && q.out == p.out + StepEvents(t.forwarded) && AllShared(t.forwarded, w.shared)
  {
    var item := p.items[p.index];
    var i := DeviceByFd(w.devices, item.fd);
    assert p.out + [] == p.out;
    if item.fd != w.notifyFd && i < |w.devices| {
      var node, burst := w.devices[i].node, item.avail[..Min(|item.avail|, p.capacity)];
      if node.descriptor !in w.shared {
        RecordedBurstIsSteps(sys, attached, node, burst, p.touchId, w.scanId);
      } else if item.pollIn {
        var f := Prepared(node, burst, p.capacity, p.touchId, w.screens);
        StepsOfBurst(node, Unflagged(f.events, f.flags, |burst|), f.touchId, w.scanId);
      }
    }
  }

  lemma {:induction false} TurnRecords(sys: System, attached: set<string>, p: Poll, w: Surroundings)
    requires p.st.Ok() && p.index <= |p.items| && p.st == sys.state
    requires w.shared == sys.books.shared
    ensures var q, t := ServeAll(p, w), TurnSteps(p, w);
            && Feed(sys, attached, t.recorded) == System(sys.books, q.st)
            && q.out == p.out + StepEvents(t.forwarded) && AllShared(t.forwarded, w.shared)
    decreases |p.items| - p.index
  {
    assert p.out + [] == p.out;
    if p.index < |p.items| {
      var q, first := Serve(p, w), ServedSteps(p, w);
      ServedIsSteps(sys, attached, p, w);
      if q.index != p.index {
        var mid, rest := System(sys.books, q.st), TurnSteps(q, w);
        TurnRecords(mid, attached, q, w);
        FeedConcat(sys, attached, first.recorded, rest.recorded);
        StepEventsConcat(first.forwarded, rest.forwarded);
        ConcatAssoc(p.out, StepEvents(first.forwarded), StepEvents(rest.forwarded));
      }
    }
  }

  lemma FeedTurn(sys: System, attached: set<string>, t: Turn, st: State)
    requires sys.Ok() && st.Ok() && AllShared(t.forwarded, sys.books.shared)
    requires Feed(sys, attached, t.recorded) == System(sys.books, st)
    ensures var session := SessionSwitch.Opened(sys.books.switches);
            Feed(sys, attached, t.recorded + t.forwarded)
            == System(sys.books, Send(st, session, SignalsOf(session, StepEvents(t.forwarded))))
  {
    FeedConcat(sys, attached, t.recorded, t.forwarded);
    SharedStepsAreSent(System(sys.books, st), attached, t.forwarded);
  }

  /**
   A whole turn leaves the sink where the machine gets by first taking the events of the devices that are not shared and
   then those collected from the shared ones, each in the order they were read.
   */
  lemma TurnIsSteps(sys: System, attached: set<string>, bufferSize: nat, index: nat, items: seq<Item>, touchId: string,
                    w: Surroundings)
    requires sys.Ok() && index <= |items| && w.shared == sys.books.shared
    ensures var session := SessionSwitch.Opened(sys.books.switches);
            var start := Poll([], bufferSize, index, items, sys.state, touchId);
            var p, t := ServeAll(start, w), TurnSteps(start, w);
            Feed(sys, attached, t.recorded + t.forwarded)
            == System(sys.books, Send(p.st, session, SignalsOf(session, p.out)))
  {
    var start := Poll([], bufferSize, index, items, sys.state, touchId);
    var p, t := ServeAll(start, w), TurnSteps(start, w);
    TurnRecords(sys, attached, start, w);
    ConcatEmpty(StepEvents(t.forwarded));
    FeedTurn(sys, attached, t, p.st);
  }
}
