/**
 The sink as one machine: sharing commands and single physical events, in any order. A command is one step, and
 sending is delivery in order.
 */
module SinkSystem {
  import opened InputEvents
  import opened KeyDownList
  import opened TouchFragments
  import opened SeqFacts
  import opened SinkState
  import opened SharingBooks
  import SharingRoutes
  import SessionSwitch
  import StringCodec

  datatype System = System(books: Books, state: State) {
    predicate Ok() { state.Ok() }

    predicate Shares(dhId: string) { dhId in books.shared }

    /** The keys that the source at the other end of `session`, having received all that was sent there, holds down. */
    function SourceAt(session: int, dhId: string): set<nat> {
      Replay({}, state.sent, session, dhId)
    }

    /** What was sent to `session` of the device. */
    function ToldAt(session: int, dhId: string): seq<Signal> {
      At(state.sent, session, dhId)
    }

    /** The session that events of shared devices are sent to. */
    function Opened(): int { SessionSwitch.Opened(books.switches) }
  }

  /** An opened device node: its path, its descriptor (the dhId) and the classes that steer event handling. */
  datatype Node = Node(path: string, descriptor: string, cursor: bool, touchPad: bool, touchScreen: bool)

  /** Events of a touchscreen carry the id of the screen they were last projected from. */
  function EventOf(node: Node, ev: InputEvent, touchId: string): RawEvent {
    RawEvent(ev.when, ev.kind, ev.code, ev.value, if node.touchScreen then touchId else node.descriptor, node.path)
  }

  datatype Step =
    | Control(cmd: Command)
    | Physical(node: Node, ev: InputEvent, touchId: string, scanId: int)

  function DhIds(s: string): seq<string> {
    StringCodec.Split(s, StringCodec.INPUT_STRING_SPLIT_POINT)
  }

  /**
   What a command makes of the recorded state: starting replays it, and every start or stop names the last session.
   */
  function DoState(b: Books, st: State, cmd: Command): (r: State)
    requires st.Ok()
    ensures r.Ok()
  {
    match cmd
    case Prepare(s) => st
    case Unprepare(s) => if b.flagged == {} then st else RecordDhIds(st, [], false, s)
    case StartDhid(s, dhIds) =>
      if s in SessionSwitch.Ids(b.switches) then RecordDhIds(st, DhIds(dhIds), true, s) else st
    case StopDhid(s, dhIds) => RecordDhIds(st, DhIds(dhIds), false, s)
  }

  /** MatchAndDealEvent. */
  function RecordEvent(st: State, node: Node, e: RawEvent, scanId: int): (r: State)
    requires st.Ok()
    ensures r.Ok()
  {
    if node.touchPad then DealTouchPad(st, e) else DealNormalKey(st, e, node.cursor, scanId)
  }

  /** A physical event is forwarded to the open session if its device is shared, and recorded otherwise. */
  function OnPhysical(b: Books, st: State, node: Node, e: RawEvent, scanId: int): (r: State)
    requires st.Ok()
    ensures r.Ok()
  {
    if node.descriptor in b.shared then
      var session := SessionSwitch.Opened(b.switches);
      Send(st, session, [SignalOf(session, e)])
    else RecordEvent(st, node, e, scanId)
  }

  function Next(sys: System, attached: set<string>, step: Step): (r: System)
    requires sys.Ok()
    ensures r.Ok()
  {
    match step
    case Control(cmd) => System(Do(sys.books, attached, cmd), DoState(sys.books, sys.state, cmd))
    case Physical(node, ev, touchId, scanId) =>
      System(sys.books, OnPhysical(sys.books, sys.state, node, EventOf(node, ev, touchId), scanId))
  }

  /** Everything read from a device that is not shared is recorded, in order. */
  function RecordBurst(st: State, node: Node, burst: seq<InputEvent>, touchId: string, scanId: int): (r: State)
    requires st.Ok()
    ensures r.Ok()
  {
    if burst == [] then st
    else
      var n := |burst| - 1;
      RecordEvent(RecordBurst(st, node, burst[..n], touchId, scanId), node, EventOf(node, burst[n], touchId), scanId)
  }

  function EventsOf(node: Node, burst: seq<InputEvent>, touchId: string): seq<RawEvent> {
    if burst == [] then []
    else EventsOf(node, burst[..|burst| - 1], touchId) + [EventOf(node, burst[|burst| - 1], touchId)]
  }

  /** The machine over some steps. */
  function Feed(sys: System, attached: set<string>, steps: seq<Step>): (r: System)
    requires sys.Ok()
    ensures r.Ok()
  {
    if steps == [] then sys
    else Next(Feed(sys, attached, steps[..|steps| - 1]), attached, steps[|steps| - 1])
  }

  lemma {:induction false} FeedConcat(sys: System, attached: set<string>, a: seq<Step>, b: seq<Step>)
    requires sys.Ok()
    ensures Feed(sys, attached, a + b) == Feed(Feed(sys, attached, a), attached, b)
  {
    if b == [] {
      assert a + b == a;
    } else {
      LastOfConcat(a, b);
      FeedConcat(sys, attached, a, b[..|b| - 1]);
    }
  }

  /** The sink before any command, with the keys found pressed when monitoring began. */
  function Initial(pressed: KeyMap): System {
    System(NoBooks, State(pressed, map[], 0, []))
  }

  function Run(pressed: KeyMap, attached: set<string>, steps: seq<Step>): (r: System)
    ensures r.Ok()
  {
    Feed(Initial(pressed), attached, steps)
  }

  /** Legal commands; and `node` is the only node of its device, and no touchscreen event passes for one of its own. */
  predicate LegalFor(step: Step, attached: set<string>, node: Node) {
    match step
    case Control(cmd) => Legal(cmd, attached)
    case Physical(n, ev, touchId, scanId) =>
      && (n.descriptor == node.descriptor ==> n == node)
      && (n.touchScreen ==> touchId != node.descriptor)
  }

  // ----- what holds for all devices

  predicate From(fragments: seq<Fragment>, dhId: string) {
    forall e :: e in Joined(fragments) ==> e.descriptor == dhId
  }

  ghost predicate AllFrom(st: State)
    requires st.Ok()
  {
    forall k :: k in st.fragments ==> From(st.fragments[k], k)
  }

  ghost predicate Sound(sys: System, attached: set<string>) {
    && sys.Ok()
    && Coherent(sys.books, attached)
    && sys.state.lastSession >= 0
    && AllFrom(sys.state)
  }

  lemma PushKeepsFrom(fragments: seq<Fragment>, e: RawEvent, dhId: string)
    requires fragments != [] && From(fragments, dhId) && e.descriptor == dhId
    ensures From(Push(fragments, e).fragments, dhId)
    ensures forall x :: x in Push(fragments, e).events ==> x.descriptor == dhId
  {
    var closed, last := fragments[..|fragments| - 1], fragments[|fragments| - 1];
    JoinedSplit(fragments);
    ForceFrom(closed, last + [e], dhId);
    ForceFrom(closed + [last + [e]], [], dhId);
    ForceFrom(closed, [], dhId);
    assert Joined([[]]) == [];
  }

  lemma ForceFrom(closed: seq<Fragment>, f: Fragment, dhId: string)
    requires From(closed, dhId) && forall x :: x in f ==> x.descriptor == dhId
    ensures From(closed + [f], dhId)
  {
    JoinedConcat(closed, [f]);
    assert [f][1..] == [];
    assert Joined([f]) == f + [];
  }

  lemma {:induction false} SignalsOfFrom(session: int, events: seq<RawEvent>, dhId: string)
    requires forall e :: e in events ==> e.descriptor == dhId
    ensures forall s :: s in SignalsOf(session, events) ==> s.dhId == dhId && s.session == session
  {
    if events != [] {
      SignalsOfFrom(session, events[1..], dhId);
    }
  }

  lemma {:induction false} KeyReplayFrom(session: int, dhId: string, l: seq<RawEvent>)
    ensures forall s :: s in KeyReplay(session, dhId, l) ==> s.dhId == dhId && s.session == session
  {
    if l != [] {
      KeyReplayFrom(session, dhId, l[..|l| - 1]);
    }
  }

  /** What a replay sends of the recorded state of a device. */
  function StartSignals(st: State, session: int, d: string): seq<Signal>
    requires st.Ok()
  {
    KeyReplay(session, d, ListOf(st.keys, d)) + SignalsOf(session, Joined(FragmentsOf(st.fragments, d)))
  }

  /** What a source at `s` that shows `shown` for `d` shows once the recorded state of `d` has been sent to it. */
  function Seen(shown: set<nat>, st: State, s: int, d: string): set<nat>
    requires st.Ok()
  {
    Replay(Replay(shown, KeyReplay(s, d, ListOf(st.keys, d)), s, d),
           SignalsOf(s, Joined(FragmentsOf(st.fragments, d))), s, d)
  }

  predicate SameFor(a: State, b: State, s: int, d: string)
    requires a.Ok() && b.Ok()
  {
    && a.lastSession == b.lastSession
    && ListOf(a.keys, d) == ListOf(b.keys, d) && (d in a.keys <==> d in b.keys)
    && FragmentsOf(a.fragments, d) == FragmentsOf(b.fragments, d) && (d in a.fragments <==> d in b.fragments)
    && At(a.sent, s, d) == At(b.sent, s, d)
  }

  /** Replaying the recorded state of some devices to `session`, as the device `d` and the session `s` see it. */
  lemma {:induction false} SimulateAllSeen(st: State, session: int, dhIds: seq<string>, s: int, d: string)
    requires st.Ok() && session > 0 && AllFrom(st)
    ensures var r := SimulateAll(st, session, dhIds);
            && AllFrom(r)
            && if d in dhIds then
                 && r.lastSession == st.lastSession && d !in r.keys && d !in r.fragments
                 && At(r.sent, s, d) == At(st.sent, s, d) + (if session == s then StartSignals(st, s, d) else [])
               else SameFor(r, st, s, d)
  {
    ConcatEmpty(At(st.sent, s, d));
    if dhIds != [] {
      var x, front := dhIds[|dhIds| - 1], dhIds[..|dhIds| - 1];
      var before := SimulateAll(st, session, front);
      SimulateAllSeen(st, session, front, s, d);
      SimulateOneSeen(before, session, x, s, d);
      ConcatEmpty(At(before.sent, s, d));
      assert d in dhIds <==> d in front || d == x;
      if d in front {
        NothingToStart(before, s, d);
      }
    }
  }

  lemma NothingToStart(st: State, s: int, d: string)
    requires st.Ok() && d !in st.keys && d !in st.fragments
    ensures StartSignals(st, s, d) == []
  {
    assert Joined([[]]) == [];
  }

  /** A stretch of signals of one device to one session, as another device or session sees it, or as they do. */
  lemma AtStretch(sent: seq<Signal>, a: seq<Signal>, session: int, x: string, s: int, d: string)
    requires forall y :: y in a ==> y.dhId == x && y.session == session
    ensures At(sent + a, s, d) == At(sent, s, d) + (if x == d && session == s then a else [])
  {
    AtConcat(sent, a, s, d);
    if x == d && session == s {
      AtOwn(a, s, d);
    } else {
      AtOthers(a, s, d);
    }
  }

  lemma SimulateOneSeen(st: State, session: int, x: string, s: int, d: string)
    requires st.Ok() && session > 0 && AllFrom(st)
    ensures var r := SimulateTouch(SimulateKeys(st, session, x), session, x);
            && r.lastSession == st.lastSession && r.keys == st.keys - {x} && r.fragments == st.fragments - {x}
            && At(r.sent, s, d)
               == At(st.sent, s, d) + (if x == d && session == s then StartSignals(st, s, d) else [])
  {
    var k := KeyReplay(session, x, ListOf(st.keys, x));
    var f := SignalsOf(session, Joined(FragmentsOf(st.fragments, x)));
    KeyReplayFrom(session, x, ListOf(st.keys, x));
    assert Joined([[]]) == [];
    SignalsOfFrom(session, Joined(FragmentsOf(st.fragments, x)), x);
    StretchOf(st.sent, k, f, session, x, s, d);
  }

  lemma StretchOf(sent: seq<Signal>, k: seq<Signal>, f: seq<Signal>, session: int, x: string, s: int, d: string)
    requires forall y :: y in k ==> y.dhId == x && y.session == session
    requires forall y :: y in f ==> y.dhId == x && y.session == session
    ensures At((sent + k) + f, s, d) == At(sent, s, d) + (if x == d && session == s then k + f else [])
  {
    AtStretch(sent, k, session, x, s, d);
    AtStretch(sent + k, f, session, x, s, d);
    ConcatAssoc(At(sent, s, d), k, f);
  }

  /** What a source shows after it was sent something more. */
  lemma ShownAfter(before: seq<Signal>, after: seq<Signal>, more: seq<Signal>, s: int, d: string)
    requires At(after, s, d) == At(before, s, d) + more
    ensures Replay({}, after, s, d) == Replay(Replay({}, before, s, d), more, s, d)
  {
    ReplayAt({}, after, s, d);
    ReplayAt({}, before, s, d);
    ReplayConcat({}, At(before, s, d), more, s, d);
  }

  lemma ShownSame(before: seq<Signal>, after: seq<Signal>, s: int, d: string)
    requires At(after, s, d) == At(before, s, d)
    ensures Replay({}, after, s, d) == Replay({}, before, s, d)
  {
    ReplayAt({}, after, s, d);
    ReplayAt({}, before, s, d);
  }

  /** A command that starts sharing: its session is known, and it names the device. */
  predicate Starts(cmd: Command, b: Books, d: string) {
    cmd.StartDhid? && cmd.session in SessionSwitch.Ids(b.switches) && d in DhIds(cmd.dhIds)
  }

  /** A command, as one device and session see it: only a start that names the device replays, to its own session. */
  lemma CommandSeen(sys: System, attached: set<string>, cmd: Command, s: int, d: string)
    requires Sound(sys, attached) && Legal(cmd, attached)
    ensures var r := Next(sys, attached, Control(cmd));
            if Starts(cmd, sys.books, d) then
              && r.Shares(d) && d !in r.state.keys && d !in r.state.fragments
              && r.ToldAt(s, d)
                 == sys.ToldAt(s, d) + (if cmd.session == s then StartSignals(sys.state, s, d) else [])
            else
              && (r.Shares(d) ==> sys.Shares(d))
              && SameFor(r.state.(lastSession := 0), sys.state.(lastSession := 0), s, d)
  {
    if cmd.StartDhid? && cmd.session in SessionSwitch.Ids(sys.books.switches) {
      SimulateAllSeen(sys.state, cmd.session, DhIds(cmd.dhIds), s, d);
    }
  }

  /** The same, in the keys that the source at the session shows. */
  lemma CommandShown(sys: System, attached: set<string>, cmd: Command, s: int, d: string)
    requires Sound(sys, attached) && Legal(cmd, attached)
    ensures Next(sys, attached, Control(cmd)).SourceAt(s, d)
            == if Starts(cmd, sys.books, d) && cmd.session == s then Seen(sys.SourceAt(s, d), sys.state, s, d)
               else sys.SourceAt(s, d)
  {
    var r := Next(sys, attached, Control(cmd));
    CommandSeen(sys, attached, cmd, s, d);
    if Starts(cmd, sys.books, d) && cmd.session == s {
      ShownAfter(sys.state.sent, r.state.sent, StartSignals(sys.state, s, d), s, d);
      ReplayConcat(sys.SourceAt(s, d), KeyReplay(s, d, ListOf(sys.state.keys, d)),
                   SignalsOf(s, Joined(FragmentsOf(sys.state.fragments, d))), s, d);
    } else {
      ConcatEmpty(sys.ToldAt(s, d));
      ShownSame(sys.state.sent, r.state.sent, s, d);
    }
  }

  lemma CommandSound(sys: System, attached: set<string>, cmd: Command)
    requires Sound(sys, attached) && Legal(cmd, attached)
    ensures Sound(Next(sys, attached, Control(cmd)), attached)
  {
    CommandKeepsCoherent(sys.books, attached, cmd);
    if cmd.StartDhid? {
      SimulateAllSeen(sys.state, cmd.session, DhIds(cmd.dhIds), 0, "");
    }
  }

  lemma PhysicalSound(sys: System, attached: set<string>, step: Step)
    requires Sound(sys, attached) && step.Physical?
    ensures Sound(Next(sys, attached, step), attached)
  {
    var e := EventOf(step.node, step.ev, step.touchId);
    if step.node.descriptor !in sys.books.shared && step.node.touchPad {
      assert Joined([[]]) == [];
      PushKeepsFrom(FragmentsOf(sys.state.fragments, e.descriptor), e, e.descriptor);
    }
  }

  lemma SentByOthers(st: State, signals: seq<Signal>, s: int, d: string)
    requires forall x :: x in signals ==> x.dhId != d || x.session != s
    ensures At(st.sent + signals, s, d) == At(st.sent, s, d)
    ensures Replay({}, st.sent + signals, s, d) == Replay({}, st.sent, s, d)
  {
    AtConcat(st.sent, signals, s, d);
    AtOthers(signals, s, d);
    ConcatEmpty(At(st.sent, s, d));
    ShownSame(st.sent, st.sent + signals, s, d);
  }

  /** Events of the device that are sent to a session, as the session `s` is told of them. */
  lemma SentAt(st: State, session: int, events: seq<RawEvent>, s: int, d: string)
    requires forall e :: e in events ==> e.descriptor == d
    ensures At(Send(st, session, SignalsOf(session, events)).sent, s, d)
            == At(st.sent, s, d) + (if session == s && s > 0 then SignalsOf(s, events) else [])
  {
    ConcatEmpty(At(st.sent, s, d));
    if session > 0 {
      SignalsOfFrom(session, events, d);
      AtStretch(st.sent, SignalsOf(session, events), session, d, s, d);
    }
  }

  lemma OthersTouchPad(st: State, e: RawEvent, s: int, d: string)
    requires st.Ok() && AllFrom(st) && e.descriptor != d
    ensures SameFor(DealTouchPad(st, e), st, s, d)
  {
    var f := FragmentsOf(st.fragments, e.descriptor);
    assert Joined([[]]) == [];
    PushKeepsFrom(f, e, e.descriptor);
    SignalsOfFrom(st.lastSession, Push(f, e).events, e.descriptor);
    SentByOthers(st, SignalsOf(st.lastSession, Push(f, e).events), s, d);
  }

  lemma OthersKey(st: State, e: RawEvent, cursor: bool, scanId: int, s: int, d: string)
    requires st.Ok() && e.descriptor != d
    ensures SameFor(DealNormalKey(st, e, cursor, scanId), st, s, d)
  {
    SignalsOfFrom(st.lastSession, MouseUp(e, scanId), e.descriptor);
    SentByOthers(st, SignalsOf(st.lastSession, MouseUp(e, scanId)), s, d);
  }

  /** An event of another device changes nothing that belongs to `d`, nor what any session is told or shows of it. */
  lemma OthersLeaveAlone(sys: System, attached: set<string>, step: Step, s: int, d: string)
    requires Sound(sys, attached) && step.Physical?
    requires EventOf(step.node, step.ev, step.touchId).descriptor != d
    ensures var r := Next(sys, attached, step);
            && r.books == sys.books && r.Ok() && SameFor(r.state, sys.state, s, d)
            && r.SourceAt(s, d) == sys.SourceAt(s, d)
  {
    var e, st := EventOf(step.node, step.ev, step.touchId), sys.state;
    if step.node.descriptor in sys.books.shared {
      SentByOthers(st, [SignalOf(sys.Opened(), e)], s, d);
    } else if step.node.touchPad {
      OthersTouchPad(st, e, s, d);
    } else {
      OthersKey(st, e, step.node.cursor, step.scanId, s, d);
    }
    ShownSame(st.sent, Next(sys, attached, step).state.sent, s, d);
  }

  lemma OneMoreSignal(sent: seq<Signal>, session: int, e: RawEvent, s: int)
    ensures var d, after := e.descriptor, sent + [SignalOf(session, e)];
            && At(after, s, d) == At(sent, s, d) + (if s == session then [SignalOf(s, e)] else [])
            && Replay({}, after, s, d)
               == if s == session then KeyAfter(Replay({}, sent, s, d), e) else Replay({}, sent, s, d)
  {
    var d, after := e.descriptor, sent + [SignalOf(session, e)];
    AtStretch(sent, [SignalOf(session, e)], session, d, s, d);
    if s == session {
      ShownAfter(sent, after, [SignalOf(s, e)], s, d);
      ConsParts(SignalOf(s, e), []);
      ConcatEmpty([SignalOf(s, e)]);
    } else {
      ConcatEmpty(At(sent, s, d));
      ShownSame(sent, after, s, d);
    }
  }

  /** An event of a shared device reaches one source, the one at the open session. */
  lemma ForwardedSeen(sys: System, attached: set<string>, step: Step, s: int)
    requires Sound(sys, attached) && step.Physical? && sys.Shares(step.node.descriptor) && !step.node.touchScreen
    ensures var r, d, e := Next(sys, attached, step), step.node.descriptor, EventOf(step.node, step.ev, step.touchId);
            && r.state.(sent := []) == sys.state.(sent := []) && r.books == sys.books
            && r.ToldAt(s, d) == sys.ToldAt(s, d) + (if s == sys.Opened() then [SignalOf(s, e)] else [])
            && r.SourceAt(s, d) == if s == sys.Opened() then KeyAfter(sys.SourceAt(s, d), e) else sys.SourceAt(s, d)
  {
    CoherentIsOpen(sys.books, attached);
    OneMoreSignal(sys.state.sent, sys.Opened(), EventOf(step.node, step.ev, step.touchId), s);
  }

  // ----- the commands of a run

  function CommandsOf(steps: seq<Step>): seq<Command> {
    if steps == [] then []
    else
      var last := steps[|steps| - 1];
      CommandsOf(steps[..|steps| - 1]) + (if last.Control? then [last.cmd] else [])
  }

  /** The books of a run are those of its commands: events do not touch them. */
  lemma {:induction false} BooksOfRun(pressed: KeyMap, attached: set<string>, steps: seq<Step>)
    ensures Run(pressed, attached, steps).books == RunCommands(attached, CommandsOf(steps))
  {
    if steps != [] {
      var before, last := steps[..|steps| - 1], steps[|steps| - 1];
      BooksOfRun(pressed, attached, before);
      if last.Control? {
        Snoc(CommandsOf(before), last.cmd);
      } else {
        ConcatEmpty(CommandsOf(before));
      }
    }
  }

  lemma BeforeFits(attached: set<string>, steps: seq<Step>)
    requires steps != [] && SharingRoutes.StartsFit(attached, CommandsOf(steps))
    ensures SharingRoutes.StartsFit(attached, CommandsOf(steps[..|steps| - 1]))
  {
    var before, last := steps[..|steps| - 1], steps[|steps| - 1];
    if last.Control? {
      Snoc(CommandsOf(before), last.cmd);
    } else {
      ConcatEmpty(CommandsOf(before));
    }
  }

  lemma BooksRouted(pressed: KeyMap, attached: set<string>, steps: seq<Step>)
    requires SharingRoutes.StartsFit(attached, CommandsOf(steps))
    requires forall i :: 0 <= i < |CommandsOf(steps)| ==> Legal(CommandsOf(steps)[i], attached)
    ensures SharingRoutes.Routed(Run(pressed, attached, steps).books)
  {
    SharingRoutes.RoutedIffStartsFit(attached, CommandsOf(steps));
    SharingRoutes.AlwaysRoutedIsRouted(attached, CommandsOf(steps));
    BooksOfRun(pressed, attached, steps);
  }
}
