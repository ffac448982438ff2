/**
 Hand-off of held keys between the sink and the sources, for a keyboard or mouse with one node: over every run of the
 sink, and for every session, the keys that the source at its other end shows are known exactly.
 */
module KeyHandOff {
  import opened InputEvents
  import opened KeyDownList
  import opened TouchFragments
  import opened SinkState
  import opened SharingBooks
  import opened SharingRoutes
  import opened SinkSystem
  import opened Ledgers
  import SessionSwitch

  /** What an observer knows: the ledger of one session, and the keys seen going down or repeating since last shared. */
  datatype KeyTruth = KeyTruth(ledger: Ledger, listed: set<nat>)

  /** A release of the left mouse button is passed on even while not shared, if no key was seen going down there. */
  predicate PassedOn(t: KeyTruth, node: Node, e: RawEvent) {
    node.cursor && e.kind == EV_KEY && e.code == BTN_MOUSE && e.value == KEY_UP_STATE && t.listed == {}
  }

  /** Whether session `s` is told of an event of the node as it happens. */
  predicate Tells(sys: System, t: KeyTruth, node: Node, e: RawEvent, s: int) {
    if sys.Shares(node.descriptor) then sys.Opened() == s else PassedOn(t, node, e) && sys.state.lastSession == s
  }

  function ListChange(listed: set<nat>, e: RawEvent): set<nat> {
    if e.kind != EV_KEY then listed
    else if e.value in {KEY_DOWN_STATE, KEY_REPEAT} then listed + {e.code}
    else if e.value == KEY_UP_STATE then listed - {e.code}
    else listed
  }

  function KeyChange(t: KeyTruth, shared: bool, e: RawEvent, told: bool): KeyTruth
    requires t.ledger.Ok()
  {
    KeyTruth(t.ledger.Change(e, told), if shared then t.listed else ListChange(t.listed, e))
  }

  /** Keys are pressed when up, and repeated or released when down. */
  predicate Plausible(t: KeyTruth, ev: InputEvent) {
    ev.kind == EV_KEY ==>
      && (ev.value == KEY_DOWN_STATE ==> ev.code !in t.ledger.held)
      && (ev.value in {KEY_UP_STATE, KEY_REPEAT} ==> ev.code in t.ledger.held)
  }

  function Codes(l: seq<RawEvent>): set<nat> {
    set e | e in l :: e.code
  }

  /** A list of distinct keys of the node. */
  predicate ListOfKeys(l: seq<RawEvent>, node: Node) {
    && (forall e :: e in l ==> e.kind == EV_KEY && e.descriptor == node.descriptor && e.path == node.path)
    && (forall i, j :: 0 <= i < j < |l| ==> l[i].code != l[j].code)
  }

  ghost predicate KeyInv(sys: System, t: KeyTruth, node: Node, s: int) {
    var d := node.descriptor;
    && t.ledger.Ok() && t.listed <= t.ledger.held
    && sys.SourceAt(s, d) == t.ledger.Shown()
    && d !in sys.state.fragments
    && if sys.Shares(d) then d !in sys.state.keys && t.listed == {}
       else
         && ListOfKeys(ListOf(sys.state.keys, d), node) && Codes(ListOf(sys.state.keys, d)) == t.listed
         && (d in sys.state.keys ==> sys.state.keys[d] != [])
  }

  // ----- the key list as a set of codes

  lemma CodesPush(l: seq<RawEvent>, e: RawEvent)
    ensures Codes(l + [e]) == Codes(l) + {e.code}
  {
    assert forall x :: x in l + [e] <==> x in l || x == e;
  }

  lemma CodesConcat(a: seq<RawEvent>, b: seq<RawEvent>)
    ensures Codes(a + b) == Codes(a) + Codes(b)
  {
    assert forall x :: x in a + b <==> x in a || x in b;
  }

  lemma DistinctWithoutAt(l: seq<RawEvent>, i: nat, node: Node)
    requires ListOfKeys(l, node) && i < |l|
    ensures ListOfKeys(WithoutAt(l, i), node)
    ensures l[i].code !in Codes(l[..i]) && l[i].code !in Codes(l[i + 1..])
  {
    var w := WithoutAt(l, i);
    forall j, k | 0 <= j < k < |w| ensures w[j].code != w[k].code {
      assert w[j] == l[if j < i then j else j + 1] && w[k] == l[if k < i then k else k + 1];
    }
  }

  lemma CodesWithoutAt(l: seq<RawEvent>, i: nat, node: Node)
    requires ListOfKeys(l, node) && i < |l|
    ensures Codes(WithoutAt(l, i)) == Codes(l) - {l[i].code}
  {
    DistinctWithoutAt(l, i, node);
    CodesConcat(l[..i], l[i + 1..]);
    CodesPush(l[..i], l[i]);
    CodesConcat(l[..i] + [l[i]], l[i + 1..]);
    assert l == l[..i] + [l[i]] + l[i + 1..];
  }

  lemma FindByCode(l: seq<RawEvent>, e: RawEvent, node: Node)
    requires ListOfKeys(l, node) && e.kind == EV_KEY && e.descriptor == node.descriptor && e.path == node.path
    ensures IndexOf(l, e) < |l| <==> e.code in Codes(l)
    ensures IndexOf(l, e) < |l| ==> l[IndexOf(l, e)].code == e.code
  {
    if e.code in Codes(l) {
      var j :| 0 <= j < |l| && l[j].code == e.code;
      assert SameKey(l[j], e);
    }
  }

  lemma ListPushed(l: seq<RawEvent>, e: RawEvent, node: Node)
    requires ListOfKeys(l, node) && e.kind == EV_KEY && e.descriptor == node.descriptor && e.path == node.path
    requires e.code !in Codes(l)
    ensures ListOfKeys(l + [e], node) && Codes(l + [e]) == Codes(l) + {e.code}
  {
    CodesPush(l, e);
    forall i | 0 <= i < |l| ensures l[i].code != e.code {
      assert l[i] in l;
    }
  }

  /** Recording a key event of the node, as a change of the set of listed codes. */
  lemma ListRecorded(l: seq<RawEvent>, e: RawEvent, node: Node)
    requires ListOfKeys(l, node) && e.kind == EV_KEY && e.descriptor == node.descriptor && e.path == node.path
    ensures e.code !in Codes(l) ==> ListOfKeys(l + [e], node) && Codes(l + [e]) == Codes(l) + {e.code}
    ensures ListOfKeys(Released(l, e), node) && Codes(Released(l, e)) == Codes(l) - {e.code}
    ensures ListOfKeys(Repeated(l, e), node) && Codes(Repeated(l, e)) == Codes(l) + {e.code}
  {
    FindByCode(l, e, node);
    var i := IndexOf(l, e);
    if i == |l| {
      ListPushed(l, e, node);
    } else {
      DistinctWithoutAt(l, i, node);
      CodesWithoutAt(l, i, node);
      ListPushed(WithoutAt(l, i), l[i], node);
      assert l[i] in l;
    }
  }

  lemma {:induction false} ReplayKeys(shown: set<nat>, session: int, d: string, l: seq<RawEvent>)
    ensures Replay(shown, KeyReplay(session, d, l), session, d) == shown + Codes(l)
  {
    if l != [] {
      var front, e := l[..|l| - 1], l[|l| - 1];
      ReplayKeys(shown, session, d, front);
      ReplayConcat(shown, KeyReplay(session, d, front), KeyDown(session, d, e), session, d);
      assert l == front + [e];
      CodesPush(front, e);
      var x := shown + Codes(front);
      var rest := KeyDown(session, d, e)[1..];
      assert rest == [Signal(session, d, EV_SYN, SYN_REPORT, 0)] && rest[1..] == [];
      assert Replay(x + {e.code}, rest, session, d) == x + {e.code};
    }
  }

  // ----- one step

  lemma KeysSeen(shown: set<nat>, st: State, s: int, d: string)
    requires st.Ok() && d !in st.fragments
    ensures Seen(shown, st, s, d) == shown + Codes(ListOf(st.keys, d))
  {
    assert Joined([[]]) == [];
    ReplayKeys(shown, s, d, ListOf(st.keys, d));
  }

  /** A start that names the device tells its own session the listed keys; no other command tells anything. */
  function Commanded(t: KeyTruth, starts: bool, told: bool): KeyTruth
    requires t.ledger.Ok()
  {
    if !starts then t else KeyTruth(if told then t.ledger.HearDown(t.listed) else t.ledger, {})
  }

  lemma {:induction false} KeyCommand(sys: System, t: KeyTruth, attached: set<string>, cmd: Command, node: Node, s: int)
    requires Sound(sys, attached) && KeyInv(sys, t, node, s) && Legal(cmd, attached)
    ensures var starts := Starts(cmd, sys.books, node.descriptor);
            KeyInv(Next(sys, attached, Control(cmd)), Commanded(t, starts, cmd.session == s), node, s)
  {
    CommandSeen(sys, attached, cmd, s, node.descriptor);
    CommandShown(sys, attached, cmd, s, node.descriptor);
    KeysSeen(sys.SourceAt(s, node.descriptor), sys.state, s, node.descriptor);
  }

  lemma SentMouseUp(st: State, e: RawEvent, scanId: int, s: int)
    ensures Replay({}, st.sent + SignalsOf(s, MouseUp(e, scanId)), s, e.descriptor)
            == Replay({}, st.sent, s, e.descriptor) - {BTN_MOUSE}
  {
    var up, shown := MouseUp(e, scanId), Replay({}, st.sent, s, e.descriptor);
    ReplayConcat({}, st.sent, SignalsOf(s, up), s, e.descriptor);
    ReplayIsKeysAfter(shown, s, up, e.descriptor);
    assert up[1..] == [up[1], up[2]] && up[1..][1..] == [up[2]] && up[1..][1..][1..] == [];
    assert KeysAfter(shown, up) == KeysAfter(shown, up[1..]) == KeysAfter(shown - {BTN_MOUSE}, up[1..][1..]);
    assert KeysAfter(shown - {BTN_MOUSE}, up[1..][1..]) == KeysAfter(shown - {BTN_MOUSE}, []);
  }

  /** What an event that is recorded adds to what was sent: at most the release of the left mouse button. */
  lemma RecordedSource(sys: System, attached: set<string>, step: Step, node: Node, s: int)
    requires sys.Ok() && step.Physical? && step.node == node && !node.touchPad && !node.touchScreen && s > 0
    requires !sys.Shares(node.descriptor)
    ensures var r, d, e := Next(sys, attached, step), node.descriptor, EventOf(node, step.ev, step.touchId);
            && r.books == sys.books && r.state.fragments == sys.state.fragments
            && r.state.keys == Recorded(sys.state.keys, e)
            && r.SourceAt(s, d) == if UnknownMouseUp(sys.state.keys, e, node.cursor) && sys.state.lastSession == s
                                   then sys.SourceAt(s, d) - {BTN_MOUSE} else sys.SourceAt(s, d)
  {
    var e, last := EventOf(node, step.ev, step.touchId), sys.state.lastSession;
    if last == s {
      SentMouseUp(sys.state, e, step.scanId, s);
    } else {
      SignalsOfFrom(last, MouseUp(e, step.scanId), e.descriptor);
      SentByOthers(sys.state, SignalsOf(last, MouseUp(e, step.scanId)), s, e.descriptor);
    }
  }

  /** The recorded list of the node stays one of distinct keys, and its codes change as the observer expects. */
  lemma RecordedList(keys: KeyMap, e: RawEvent, node: Node)
    requires e.descriptor == node.descriptor && e.path == node.path
    requires ListOfKeys(ListOf(keys, node.descriptor), node)
    requires node.descriptor in keys ==> keys[node.descriptor] != []
    requires e.kind == EV_KEY && e.value == KEY_DOWN_STATE ==> e.code !in Codes(ListOf(keys, node.descriptor))
    ensures var d, r := node.descriptor, Recorded(keys, e);
            && ListOfKeys(ListOf(r, d), node) && (d in r ==> r[d] != [])
            && Codes(ListOf(r, d)) ==
                 if e.kind != EV_KEY then Codes(ListOf(keys, d))
                 else if e.value in {KEY_DOWN_STATE, KEY_REPEAT} then Codes(ListOf(keys, d)) + {e.code}
                 else if e.value == KEY_UP_STATE then Codes(ListOf(keys, d)) - {e.code}
                 else Codes(ListOf(keys, d))
  {
    if e.kind == EV_KEY {
      ListRecorded(ListOf(keys, node.descriptor), e, node);
    }
  }

  lemma {:induction false} KeyEventRecorded(sys: System, t: KeyTruth, attached: set<string>, step: Step, node: Node,
                                            s: int)
    requires Sound(sys, attached) && KeyInv(sys, t, node, s) && !node.touchPad && !node.touchScreen && s > 0
    requires step.Physical? && step.node == node && Plausible(t, step.ev) && !sys.Shares(node.descriptor)
    ensures var e := EventOf(node, step.ev, step.touchId);
            KeyInv(Next(sys, attached, step), KeyChange(t, false, e, Tells(sys, t, node, e, s)), node, s)
  {
    RecordedSource(sys, attached, step, node, s);
    RecordedList(sys.state.keys, EventOf(node, step.ev, step.touchId), node);
    ListedIff(sys.state.keys, node.descriptor, t.listed);
  }

  lemma ListedIff(keys: KeyMap, d: string, listed: set<nat>)
    requires Codes(ListOf(keys, d)) == listed && (d in keys ==> keys[d] != [])
    ensures d !in keys <==> listed == {}
  {
    if d in keys {
      assert keys[d][0].code in Codes(keys[d]);
    }
  }

  ghost predicate KeyLegal(t: KeyTruth, attached: set<string>, step: Step, node: Node) {
    LegalFor(step, attached, node) && (step.Physical? && step.node == node ==> Plausible(t, step.ev))
  }

  function Watch(sys: System, t: KeyTruth, step: Step, node: Node, s: int): (r: KeyTruth)
    requires sys.Ok() && t.ledger.Ok()
    ensures r.ledger.Ok()
  {
    match step
    case Control(cmd) => Commanded(t, Starts(cmd, sys.books, node.descriptor), cmd.session == s)
    case Physical(n, ev, touchId, _) =>
      var e := EventOf(n, ev, touchId);
      if n == node then KeyChange(t, sys.Shares(node.descriptor), e, Tells(sys, t, node, e, s)) else t
  }

  lemma KeyStep(sys: System, t: KeyTruth, attached: set<string>, step: Step, node: Node, s: int)
    requires Sound(sys, attached) && KeyInv(sys, t, node, s) && !node.touchPad && !node.touchScreen && s > 0
    requires KeyLegal(t, attached, step, node)
    ensures KeyInv(Next(sys, attached, step), Watch(sys, t, step, node, s), node, s)
    ensures Sound(Next(sys, attached, step), attached)
  {
    match step
    case Control(cmd) =>
      KeyCommand(sys, t, attached, cmd, node, s);
      CommandSound(sys, attached, cmd);
    case Physical(n, ev, touchId, scanId) =>
      PhysicalSound(sys, attached, step);
      if n != node {
        OthersLeaveAlone(sys, attached, step, s, node.descriptor);
      } else if sys.Shares(node.descriptor) {
        ForwardedSeen(sys, attached, step, s);
      } else {
        KeyEventRecorded(sys, t, attached, step, node, s);
      }
  }

  // ----- every run

  /** The observer's knowledge after a run that starts with some keys of the node found pressed. */
  function Truth(pressed: KeyMap, attached: set<string>, steps: seq<Step>, node: Node, s: int): (t: KeyTruth)
    ensures t.ledger.Ok()
  {
    var codes := Codes(ListOf(pressed, node.descriptor));
    if steps == [] then KeyTruth(Ledger(codes, codes, {}), codes)
    else
      var before, step := steps[..|steps| - 1], steps[|steps| - 1];
      Watch(Run(pressed, attached, before), Truth(pressed, attached, before, node, s), step, node, s)
  }

  ghost predicate LegalRun(pressed: KeyMap, attached: set<string>, steps: seq<Step>, node: Node, s: int) {
    if steps == [] then
      && !node.touchPad && !node.touchScreen && s > 0
      && ListOfKeys(ListOf(pressed, node.descriptor), node)
      && (node.descriptor in pressed ==> pressed[node.descriptor] != [])
    else
      var before, step := steps[..|steps| - 1], steps[|steps| - 1];
      && LegalRun(pressed, attached, before, node, s)
      && KeyLegal(Truth(pressed, attached, before, node, s), attached, step, node)
  }

  lemma {:induction false} RunKeepsKeyInv(pressed: KeyMap, attached: set<string>, steps: seq<Step>, node: Node, s: int)
    requires LegalRun(pressed, attached, steps, node, s)
    ensures Sound(Run(pressed, attached, steps), attached)
    ensures KeyInv(Run(pressed, attached, steps), Truth(pressed, attached, steps, node, s), node, s)
    ensures !node.touchPad && !node.touchScreen && s > 0
  {
    if steps == [] {
      SharingNeverOrphaned(attached, []);
    } else {
      var before, step := steps[..|steps| - 1], steps[|steps| - 1];
      RunKeepsKeyInv(pressed, attached, before, node, s);
      KeyStep(Run(pressed, attached, before), Truth(pressed, attached, before, node, s), attached, step, node, s);
    }
  }

  /**
   In every reachable state the source at any session shows the held keys without the missing ones, and the stuck ones:
   exactly the held keys just when none is missing and none is stuck.
   */
  lemma {:induction false} SourceShowsHeldKeys(pressed: KeyMap, attached: set<string>, steps: seq<Step>, node: Node,
                                               s: int)
    requires LegalRun(pressed, attached, steps, node, s)
    ensures var source := Run(pressed, attached, steps).SourceAt(s, node.descriptor);
            var l := Truth(pressed, attached, steps, node, s).ledger;
            && source == (l.held - l.missing) + l.stuck && l.missing <= l.held && l.stuck !! l.held
            && (source == l.held <==> l.missing == {} && l.stuck == {})
  {
    RunKeepsKeyInv(pressed, attached, steps, node, s);
    ExactIffShown(Truth(pressed, attached, steps, node, s).ledger);
  }

  // ----- when hand-off is exact

  /** Sharing of the node's device stops. */
  predicate Stops(sys: System, attached: set<string>, step: Step, d: string)
    requires sys.Ok()
  {
    sys.Shares(d) && !Next(sys, attached, step).Shares(d)
  }

  /** Sharing of the node's device stops only while none of its keys is held. */
  ghost predicate StopsWithKeysUp(pressed: KeyMap, attached: set<string>, steps: seq<Step>, node: Node, s: int) {
    steps != [] ==>
      var before, step := steps[..|steps| - 1], steps[|steps| - 1];
      && StopsWithKeysUp(pressed, attached, before, node, s)
      && (Stops(Run(pressed, attached, before), attached, step, node.descriptor)
          ==> Truth(pressed, attached, before, node, s).ledger.held == {})
  }

  /** The source at the open session shows the held keys of a shared device, and any other source none. */
  predicate ExactFor(sys: System, t: KeyTruth, d: string, s: int) {
    && (if sys.Shares(d) && s == sys.Opened() then t.ledger.missing == {} else t.ledger.missing == t.ledger.held)
    && t.ledger.stuck == {} && (!sys.Shares(d) ==> t.listed == t.ledger.held)
  }

  lemma HearNothing(l: Ledger)
    requires l.Ok()
    ensures l.HearDown({}) == l
  {
  }

  lemma HearAllHeld(l: Ledger)
    requires l.Ok() && l.stuck == {}
    ensures var r := l.HearDown(l.held); r.missing == {} && r.stuck == {}
  {
  }

  lemma CommandKeepsExact(sys: System, t: KeyTruth, attached: set<string>, cmd: Command, node: Node, s: int)
    requires Sound(sys, attached) && KeyInv(sys, t, node, s) && Legal(cmd, attached)
    requires Routed(sys.books) && Routed(Next(sys, attached, Control(cmd)).books)
    requires ExactFor(sys, t, node.descriptor, s)
    ensures var starts := Starts(cmd, sys.books, node.descriptor);
            ExactFor(Next(sys, attached, Control(cmd)), Commanded(t, starts, cmd.session == s), node.descriptor, s)
            <==> (Stops(sys, attached, Control(cmd), node.descriptor) ==> t.ledger.held == {})
  {
    var d, r := node.descriptor, Next(sys, attached, Control(cmd));
    CommandSeen(sys, attached, cmd, s, d);
    CommandShown(sys, attached, cmd, s, d);
    if r.Shares(d) {
      RouteOfSharing(sys.books, attached, cmd, d);
      if sys.Shares(d) {
        HearNothing(t.ledger);
      } else {
        HearAllHeld(t.ledger);
      }
    }
  }

  /** One step keeps the hand-off exact unless it stops sharing while a key is held. */
  lemma StepKeepsExact(sys: System, t: KeyTruth, attached: set<string>, step: Step, node: Node, s: int)
    requires Sound(sys, attached) && KeyInv(sys, t, node, s) && KeyLegal(t, attached, step, node)
    requires Routed(sys.books) && Routed(Next(sys, attached, step).books)
    requires ExactFor(sys, t, node.descriptor, s)
    ensures ExactFor(Next(sys, attached, step), Watch(sys, t, step, node, s), node.descriptor, s)
            <==> (Stops(sys, attached, step, node.descriptor) ==> t.ledger.held == {})
  {
    if step.Control? {
      CommandKeepsExact(sys, t, attached, step.cmd, node, s);
    }
  }

  ghost predicate AlwaysExact(pressed: KeyMap, attached: set<string>, steps: seq<Step>, node: Node, s: int) {
    && ExactFor(Run(pressed, attached, steps), Truth(pressed, attached, steps, node, s), node.descriptor, s)
    && (steps != [] ==> AlwaysExact(pressed, attached, steps[..|steps| - 1], node, s))
  }

  lemma AlwaysExactIsExact(pressed: KeyMap, attached: set<string>, steps: seq<Step>, node: Node, s: int)
    requires AlwaysExact(pressed, attached, steps, node, s)
    ensures ExactFor(Run(pressed, attached, steps), Truth(pressed, attached, steps, node, s), node.descriptor, s)
  {
  }

  /** What the last step of a run starts from. */
  lemma LastStepKnown(pressed: KeyMap, attached: set<string>, steps: seq<Step>, node: Node, s: int)
    requires LegalRun(pressed, attached, steps, node, s) && StartsFit(attached, CommandsOf(steps)) && steps != []
    ensures var before, step := steps[..|steps| - 1], steps[|steps| - 1];
            var sys, t := Run(pressed, attached, before), Truth(pressed, attached, before, node, s);
            && StartsFit(attached, CommandsOf(before))
            && Sound(sys, attached) && KeyInv(sys, t, node, s) && KeyLegal(t, attached, step, node)
            && Routed(sys.books) && Routed(Next(sys, attached, step).books)
  {
    var before := steps[..|steps| - 1];
    BeforeFits(attached, steps);
    RunIsRouted(pressed, attached, steps, node, s);
    RunIsRouted(pressed, attached, before, node, s);
    RunKeepsKeyInv(pressed, attached, before, node, s);
  }

  /**
   Over runs whose starts fit: in every state of the run the source at the open session shows the held keys of the
   shared device and any other source none, and the recorded list is complete, exactly if sharing of the device only
   stops with its keys up.
   */
  lemma {:induction false} ExactIffStopsWithKeysUp(pressed: KeyMap, attached: set<string>, steps: seq<Step>, node: Node,
                                                   s: int)
    requires LegalRun(pressed, attached, steps, node, s) && StartsFit(attached, CommandsOf(steps))
    ensures AlwaysExact(pressed, attached, steps, node, s) <==> StopsWithKeysUp(pressed, attached, steps, node, s)
  {
    if steps != [] {
      var before, step := steps[..|steps| - 1], steps[|steps| - 1];
      LastStepKnown(pressed, attached, steps, node, s);
      ExactIffStopsWithKeysUp(pressed, attached, before, node, s);
      if AlwaysExact(pressed, attached, before, node, s) {
        AlwaysExactIsExact(pressed, attached, before, node, s);
        StepKeepsExact(Run(pressed, attached, before), Truth(pressed, attached, before, node, s), attached, step, node,
                       s);
      }
    }
  }

  /**
   If sharing of the device only stops with its keys up, and every start fits the books it finds, then in every
   reachable state the session that holds the shared device shows exactly its held keys, and every other one shows
   none.
   */
  lemma {:induction false} HandOffExactWhenStartsFit(pressed: KeyMap, attached: set<string>, steps: seq<Step>,
                                                     node: Node, s: int)
    requires LegalRun(pressed, attached, steps, node, s) && StopsWithKeysUp(pressed, attached, steps, node, s)
    requires StartsFit(attached, CommandsOf(steps))
    ensures var sys, d := Run(pressed, attached, steps), node.descriptor;
            sys.SourceAt(s, d) == if sys.Shares(d) && d in Held(sys.books, s)
                                  then Truth(pressed, attached, steps, node, s).ledger.held else {}
  {
    var sys, d := Run(pressed, attached, steps), node.descriptor;
    RunKeepsKeyInv(pressed, attached, steps, node, s);
    ExactIffStopsWithKeysUp(pressed, attached, steps, node, s);
    AlwaysExactIsExact(pressed, attached, steps, node, s);
    RunIsRouted(pressed, attached, steps, node, s);
    if sys.Shares(d) {
      HolderIsOpened(sys.books, attached, s, d);
    }
  }

  // ----- the same with a left mouse button that sharing stopped on

  predicate LiftsLeft(e: RawEvent) {
    e.kind == EV_KEY && e.code == BTN_MOUSE && e.value == KEY_UP_STATE
  }

  /**
   While the device is not shared, a session may be left with the left button, as long as that is still held; and every
   other held key is in the recorded list.
   */
  predicate LeftKnown(sys: System, t: KeyTruth, d: string, s: int) {
    var shown := t.ledger.Shown();
    if !sys.Shares(d) then t.ledger.stuck == {} && shown <= {BTN_MOUSE} && t.ledger.held == t.listed + shown
    else if s == sys.Opened() then t.ledger.Exact()
    else shown == {}
  }

  /**
   What the hand-off needs of a step. Sharing stops with no key held but the left button, and not even that one if
   another session is served. A left button that `s` was left with comes up before another session starts sharing the
   device; and it does so at a mouse while no other key is recorded, and while `s` was the last one to start or stop.
   */
  ghost predicate LeftCareful(sys: System, t: KeyTruth, attached: set<string>, step: Step, node: Node, s: int)
    requires sys.Ok()
  {
    var d := node.descriptor;
    && (Stops(sys, attached, step, d) ==> t.ledger.held <= if sys.Opened() == s then {BTN_MOUSE} else {})
    && match step
       case Control(cmd) =>
         Starts(cmd, sys.books, d) && !sys.Shares(d) && cmd.session != s ==> sys.SourceAt(s, d) == {}
       case Physical(n, ev, touchId, _) =>
         n == node && !sys.Shares(d) && LiftsLeft(EventOf(n, ev, touchId)) && BTN_MOUSE in sys.SourceAt(s, d) ==>
           node.cursor && t.listed == {} && sys.state.lastSession == s
  }

  lemma CommandKeepsLeft(sys: System, t: KeyTruth, attached: set<string>, cmd: Command, node: Node, s: int)
    requires Sound(sys, attached) && KeyInv(sys, t, node, s) && Legal(cmd, attached)
    requires Routed(sys.books) && Routed(Next(sys, attached, Control(cmd)).books)
    requires LeftKnown(sys, t, node.descriptor, s)
    ensures var starts := Starts(cmd, sys.books, node.descriptor);
            LeftKnown(Next(sys, attached, Control(cmd)), Commanded(t, starts, cmd.session == s), node.descriptor, s)
            <==> LeftCareful(sys, t, attached, Control(cmd), node, s)
  {
    var d, r := node.descriptor, Next(sys, attached, Control(cmd));
    CommandSeen(sys, attached, cmd, s, d);
    CommandShown(sys, attached, cmd, s, d);
    if r.Shares(d) {
      RouteOfSharing(sys.books, attached, cmd, d);
      if sys.Shares(d) {
        HearNothing(t.ledger);
      } else if cmd.session == s {
        HearRest(t.ledger, t.listed);
      }
    } else if sys.Shares(d) && s == sys.Opened() {
      ExactIffShown(t.ledger);
    }
  }

  lemma HearRest(l: Ledger, listed: set<nat>)
    requires l.Ok() && l.held == listed + l.Shown()
    ensures l.HearDown(listed).Exact()
  {
    ExactIffShown(l.HearDown(listed));
  }

  lemma EventKeepsLeft(t: KeyTruth, e: RawEvent, told: bool)
    requires t.ledger.Ok() && t.ledger.stuck == {} && t.ledger.Shown() <= {BTN_MOUSE}
    requires t.ledger.held == t.listed + t.ledger.Shown()
    requires e.kind == EV_KEY && e.value == KEY_DOWN_STATE ==> e.code !in t.ledger.held
    requires e.kind == EV_KEY && e.value in {KEY_UP_STATE, KEY_REPEAT} ==> e.code in t.ledger.held
    requires told ==> LiftsLeft(e) && t.listed == {}
    ensures var r := KeyChange(t, false, e, told);
            && (r.ledger.stuck == {} && r.ledger.Shown() <= {BTN_MOUSE} && r.ledger.held == r.listed + r.ledger.Shown()
                <==> (LiftsLeft(e) && BTN_MOUSE in t.ledger.Shown() ==> told))
  {
    if LiftsLeft(e) && BTN_MOUSE in t.ledger.Shown() && !told {
      assert BTN_MOUSE in KeyChange(t, false, e, told).ledger.stuck;
    }
  }

  lemma StepKeepsLeft(sys: System, t: KeyTruth, attached: set<string>, step: Step, node: Node, s: int)
    requires Sound(sys, attached) && KeyInv(sys, t, node, s) && KeyLegal(t, attached, step, node)
    requires Routed(sys.books) && Routed(Next(sys, attached, step).books)
    requires LeftKnown(sys, t, node.descriptor, s)
    ensures LeftKnown(Next(sys, attached, step), Watch(sys, t, step, node, s), node.descriptor, s)
            <==> LeftCareful(sys, t, attached, step, node, s)
  {
    if step.Control? {
      CommandKeepsLeft(sys, t, attached, step.cmd, node, s);
    } else if step.node == node && !sys.Shares(node.descriptor) {
      var e := EventOf(node, step.ev, step.touchId);
      EventKeepsLeft(t, e, Tells(sys, t, node, e, s));
    }
  }

  ghost predicate AlwaysLeftKnown(pressed: KeyMap, attached: set<string>, steps: seq<Step>, node: Node, s: int) {
    && LeftKnown(Run(pressed, attached, steps), Truth(pressed, attached, steps, node, s), node.descriptor, s)
    && (steps != [] ==> AlwaysLeftKnown(pressed, attached, steps[..|steps| - 1], node, s))
  }

  lemma AlwaysLeftKnownIsKnown(pressed: KeyMap, attached: set<string>, steps: seq<Step>, node: Node, s: int)
    requires AlwaysLeftKnown(pressed, attached, steps, node, s)
    ensures LeftKnown(Run(pressed, attached, steps), Truth(pressed, attached, steps, node, s), node.descriptor, s)
  {
  }

  ghost predicate LeftCarefulRun(pressed: KeyMap, attached: set<string>, steps: seq<Step>, node: Node, s: int) {
    steps != [] ==>
      var before, step := steps[..|steps| - 1], steps[|steps| - 1];
      && LeftCarefulRun(pressed, attached, before, node, s)
      && LeftCareful(Run(pressed, attached, before), Truth(pressed, attached, before, node, s), attached, step, node, s)
  }

  /** Over runs whose starts fit, what is left behind stays known in every state exactly if every step is careful. */
  lemma {:induction false} LeftKnownIffCareful(pressed: KeyMap, attached: set<string>, steps: seq<Step>, node: Node,
                                               s: int)
    requires LegalRun(pressed, attached, steps, node, s) && StartsFit(attached, CommandsOf(steps))
    ensures AlwaysLeftKnown(pressed, attached, steps, node, s) <==> LeftCarefulRun(pressed, attached, steps, node, s)
  {
    if steps != [] {
      var before, step := steps[..|steps| - 1], steps[|steps| - 1];
      LastStepKnown(pressed, attached, steps, node, s);
      LeftKnownIffCareful(pressed, attached, before, node, s);
      if AlwaysLeftKnown(pressed, attached, before, node, s) {
        AlwaysLeftKnownIsKnown(pressed, attached, before, node, s);
        StepKeepsLeft(Run(pressed, attached, before), Truth(pressed, attached, before, node, s), attached, step, node,
                      s);
      }
    }
  }

  /**
   Then the session that holds the shared device shows exactly its held keys and any other one none; and while the
   device is not shared, a session shows at most the left button it was left with, and only as long as that is held.
   */
  lemma {:induction false} HandOffExactButLeft(pressed: KeyMap, attached: set<string>, steps: seq<Step>, node: Node,
                                               s: int)
    requires LegalRun(pressed, attached, steps, node, s) && LeftCarefulRun(pressed, attached, steps, node, s)
    requires StartsFit(attached, CommandsOf(steps))
    ensures var sys, d := Run(pressed, attached, steps), node.descriptor;
            var held := Truth(pressed, attached, steps, node, s).ledger.held;
            if sys.Shares(d) then sys.SourceAt(s, d) == if d in Held(sys.books, s) then held else {}
            else sys.SourceAt(s, d) <= {BTN_MOUSE} * held
  {
    var sys, d := Run(pressed, attached, steps), node.descriptor;
    RunKeepsKeyInv(pressed, attached, steps, node, s);
    LeftKnownIffCareful(pressed, attached, steps, node, s);
    AlwaysLeftKnownIsKnown(pressed, attached, steps, node, s);
    RunIsRouted(pressed, attached, steps, node, s);
    ExactIffShown(Truth(pressed, attached, steps, node, s).ledger);
    if sys.Shares(d) {
      HolderIsOpened(sys.books, attached, s, d);
    }
  }

  lemma {:induction false} LegalCommands(pressed: KeyMap, attached: set<string>, steps: seq<Step>, node: Node, s: int)
    requires LegalRun(pressed, attached, steps, node, s)
    ensures forall i :: 0 <= i < |CommandsOf(steps)| ==> Legal(CommandsOf(steps)[i], attached)
  {
    if steps != [] {
      LegalCommands(pressed, attached, steps[..|steps| - 1], node, s);
    }
  }

  lemma RunIsRouted(pressed: KeyMap, attached: set<string>, steps: seq<Step>, node: Node, s: int)
    requires LegalRun(pressed, attached, steps, node, s) && StartsFit(attached, CommandsOf(steps))
    ensures Routed(Run(pressed, attached, steps).books)
  {
    LegalCommands(pressed, attached, steps, node, s);
    BooksRouted(pressed, attached, steps);
  }

  // ----- the two conditions are needed

  /** A press on a shared device reaches the open session and no other. */
  lemma PressReaches(sys: System, attached: set<string>, step: Step, s: int)
    requires Sound(sys, attached) && step.Physical? && sys.Shares(step.node.descriptor) && !step.node.touchScreen
    requires step.ev.kind == EV_KEY && step.ev.value == KEY_DOWN_STATE
    ensures var d, c := step.node.descriptor, step.ev.code;
            c in Next(sys, attached, step).SourceAt(s, d) <==> s == sys.Opened() || c in sys.SourceAt(s, d)
  {
    ForwardedSeen(sys, attached, step, s);
  }

  /** So a fresh press reaches every session that holds the device exactly if all of them are the open one. */
  lemma HoldersServedIff(sys: System, attached: set<string>, step: Step)
    requires Sound(sys, attached) && step.Physical? && sys.Shares(step.node.descriptor) && !step.node.touchScreen
    requires step.ev.kind == EV_KEY && step.ev.value == KEY_DOWN_STATE
    requires forall s :: step.ev.code !in sys.SourceAt(s, step.node.descriptor)
    ensures var d := step.node.descriptor;
            (forall s :: d in Held(sys.books, s) ==> step.ev.code in Next(sys, attached, step).SourceAt(s, d))
            <==> forall s :: d in Held(sys.books, s) ==> s == sys.Opened()
  {
    forall s {
      PressReaches(sys, attached, step, s);
    }
  }

  const NOTHING := KeyTruth(Ledger({}, {}, {}), {})

  lemma InitialKnown(node: Node, attached: set<string>, s: int)
    requires !node.touchPad && !node.touchScreen && s > 0
    ensures Sound(Initial(map[]), attached) && KeyInv(Initial(map[]), NOTHING, node, s)
  {
    RunKeepsKeyInv(map[], attached, [], node, s);
  }

  /** Sessions `x` and `y` are prepared, and `x` borrows the device `a`. */
  function OneBorrowed(attached: set<string>, x: int, y: int, a: string): (sys: System)
    ensures sys.Ok()
  {
    var s1 := Next(Initial(map[]), attached, Control(Prepare(x)));
    var s2 := Next(s1, attached, Control(Prepare(y)));
    Next(s2, attached, Control(StartDhid(x, a)))
  }

  predicate SecondDevice(attached: set<string>, x: int, y: int, a: string, node: Node) {
    TwoBorrowers(attached, x, y, a, node.descriptor) && !node.touchPad && !node.touchScreen
  }

  lemma OneBorrowedKnown(attached: set<string>, x: int, y: int, a: string, node: Node, s: int)
    requires SecondDevice(attached, x, y, a, node) && s > 0
    ensures var sys := OneBorrowed(attached, x, y, a);
            && sys.books == OneStarted(attached, x, y, a) && !sys.Shares(node.descriptor)
            && Sound(sys, attached) && KeyInv(sys, NOTHING, node, s)
  {
    var s1 := Next(Initial(map[]), attached, Control(Prepare(x)));
    var s2 := Next(s1, attached, Control(Prepare(y)));
    OneStartedIs(attached, x, y, a);
    InitialKnown(node, attached, s);
    KeyStep(Initial(map[]), NOTHING, attached, Control(Prepare(x)), node, s);
    KeyStep(s1, NOTHING, attached, Control(Prepare(y)), node, s);
    KeyStep(s2, NOTHING, attached, Control(StartDhid(x, a)), node, s);
  }

  function KeyEvent(node: Node, code: nat, value: int): Step {
    Physical(node, InputEvent(0, EV_KEY, code, value), "", 0)
  }

  lemma BorrowedWithKey(attached: set<string>, x: int, y: int, a: string, node: Node, c: nat)
    requires SecondDevice(attached, x, y, a, node)
    ensures var s4 := Next(OneBorrowed(attached, x, y, a), attached, KeyEvent(node, c, KEY_DOWN_STATE));
            var s5 := Next(s4, attached, Control(StartDhid(y, node.descriptor)));
            && Sound(s5, attached) && s5.Shares(node.descriptor) && s5.Opened() == x
            && s5.SourceAt(y, node.descriptor) == {c}
  {
    var s3, press := OneBorrowed(attached, x, y, a), KeyEvent(node, c, KEY_DOWN_STATE);
    OneBorrowedKnown(attached, x, y, a, node, y);
    SecondBorrowerIsNotServed(attached, x, y, a, node.descriptor);
    KeyStep(s3, NOTHING, attached, press, node, y);
    var s4, t4 := Next(s3, attached, press), Watch(s3, NOTHING, press, node, y);
    KeyStep(s4, t4, attached, Control(StartDhid(y, node.descriptor)), node, y);
  }

  /**
   A start that does not fit: `x` has borrowed one device, a key of another one goes down, `y` borrows that one, and the
   key comes up. The release goes to `x`, and the key stays down at `y`, although nothing was ever stopped.
   */
  lemma {:induction false} SecondBorrowerKeepsKey(attached: set<string>, x: int, y: int, a: string, node: Node, c: nat)
    requires SecondDevice(attached, x, y, a, node)
    ensures var s4 := Next(OneBorrowed(attached, x, y, a), attached, KeyEvent(node, c, KEY_DOWN_STATE));
            var s5 := Next(s4, attached, Control(StartDhid(y, node.descriptor)));
            var s6 := Next(s5, attached, KeyEvent(node, c, KEY_UP_STATE));
            s6.Shares(node.descriptor) && s6.SourceAt(y, node.descriptor) == {c}
  {
    var s4 := Next(OneBorrowed(attached, x, y, a), attached, KeyEvent(node, c, KEY_DOWN_STATE));
    BorrowedWithKey(attached, x, y, a, node, c);
    ForwardedSeen(Next(s4, attached, Control(StartDhid(y, node.descriptor))), attached,
                  KeyEvent(node, c, KEY_UP_STATE), y);
  }

  lemma SecondStartKnown(sys: System, attached: set<string>, x: int, y: int, a: string, node: Node, s: int)
    requires SecondDevice(attached, x, y, a, node) && s > 0
    requires Sound(sys, attached) && KeyInv(sys, NOTHING, node, s) && sys.books == OneStarted(attached, x, y, a)
    ensures var r := Next(sys, attached, Control(StartDhid(y, node.descriptor)));
            Sound(r, attached) && r.Shares(node.descriptor) && r.Opened() == x && r.SourceAt(s, node.descriptor) == {}
  {
    SecondBorrowerIsNotServed(attached, x, y, a, node.descriptor);
    KeyStep(sys, NOTHING, attached, Control(StartDhid(y, node.descriptor)), node, s);
  }

  lemma FreshPress(sys: System, attached: set<string>, node: Node, c: nat, s: int)
    requires Sound(sys, attached) && sys.Shares(node.descriptor) && !node.touchScreen
    requires sys.SourceAt(s, node.descriptor) == {}
    ensures Next(sys, attached, KeyEvent(node, c, KEY_DOWN_STATE)).SourceAt(s, node.descriptor)
            == if s == sys.Opened() then {c} else {}
  {
    ForwardedSeen(sys, attached, KeyEvent(node, c, KEY_DOWN_STATE), s);
  }

  lemma PressAfterSecondStart(attached: set<string>, x: int, y: int, a: string, node: Node, c: nat, s: int)
    requires SecondDevice(attached, x, y, a, node) && s > 0
    ensures var s4 := Next(OneBorrowed(attached, x, y, a), attached, Control(StartDhid(y, node.descriptor)));
            var s5 := Next(s4, attached, KeyEvent(node, c, KEY_DOWN_STATE));
            s5.SourceAt(s, node.descriptor) == if s == x then {c} else {}
  {
    var sys := OneBorrowed(attached, x, y, a);
    OneBorrowedKnown(attached, x, y, a, node, s);
    SecondStartKnown(sys, attached, x, y, a, node, s);
    FreshPress(Next(sys, attached, Control(StartDhid(y, node.descriptor))), attached, node, c, s);
  }

  /** Pressed after the second start, the key reaches `x`, which never borrowed the device, and not `y`, which did. */
  lemma {:induction false} FirstBorrowerGetsAll(attached: set<string>, x: int, y: int, a: string, node: Node, c: nat)
    requires SecondDevice(attached, x, y, a, node)
    ensures var s4 := Next(OneBorrowed(attached, x, y, a), attached, Control(StartDhid(y, node.descriptor)));
            var s5 := Next(s4, attached, KeyEvent(node, c, KEY_DOWN_STATE));
            s5.SourceAt(y, node.descriptor) == {} && s5.SourceAt(x, node.descriptor) == {c}
  {
    PressAfterSecondStart(attached, x, y, a, node, c, x);
    PressAfterSecondStart(attached, x, y, a, node, c, y);
  }

  /**
   A release while the device is not shared leaves the key down at a session exactly if it was shown there, unless it is
   the left button of a mouse, no key is recorded, and the session was the last one to start or stop.
   */
  lemma {:induction false} ReleaseStaysIff(sys: System, t: KeyTruth, attached: set<string>, step: Step, node: Node,
                                           s: int)
    requires Sound(sys, attached) && KeyInv(sys, t, node, s) && !node.touchPad && !node.touchScreen && s > 0
    requires step.Physical? && step.node == node && Plausible(t, step.ev) && !sys.Shares(node.descriptor)
    requires step.ev.kind == EV_KEY && step.ev.value == KEY_UP_STATE
    ensures var c := step.ev.code;
            c in Next(sys, attached, step).SourceAt(s, node.descriptor)
            <==> c in sys.SourceAt(s, node.descriptor)
                 && !(c == BTN_MOUSE && node.cursor && t.listed == {} && sys.state.lastSession == s)
  {
    KeyEventRecorded(sys, t, attached, step, node, s);
  }

  /** A stop that names the device, by a session with an entry. */
  lemma StopKnown(sys: System, t: KeyTruth, attached: set<string>, y: int, dhIds: string, node: Node, s: int)
    requires Sound(sys, attached) && KeyInv(sys, t, node, s) && !node.touchPad && !node.touchScreen && s > 0
    requires sys.Shares(node.descriptor) && y > 0 && y in sys.books.bySession && node.descriptor in Ids(dhIds)
    ensures var r := Next(sys, attached, Control(StopDhid(y, dhIds)));
            && Sound(r, attached) && KeyInv(r, t, node, s) && !r.Shares(node.descriptor) && r.state.lastSession == y
            && SessionSwitch.Ids(r.books.switches) == SessionSwitch.Ids(sys.books.switches)
            && r.SourceAt(s, node.descriptor) == sys.SourceAt(s, node.descriptor)
  {
    KeyStep(sys, t, attached, Control(StopDhid(y, dhIds)), node, s);
    SessionSwitch.CallRefinesMap(sys.books.switches, SessionSwitch.StopAllOp);
  }

  /** A start for a session that the switches know. */
  lemma StartKnown(sys: System, t: KeyTruth, attached: set<string>, dhIds: string, node: Node, s: int)
    requires Sound(sys, attached) && KeyInv(sys, t, node, s) && !node.touchPad && !node.touchScreen && s > 0
    requires s in SessionSwitch.Ids(sys.books.switches) && Ids(dhIds) <= attached && node.descriptor in Ids(dhIds)
    ensures var r := Next(sys, attached, Control(StartDhid(s, dhIds)));
            r.Shares(node.descriptor) && r.SourceAt(s, node.descriptor) == sys.SourceAt(s, node.descriptor) + t.listed
  {
    KeyStep(sys, t, attached, Control(StartDhid(s, dhIds)), node, s);
  }

  /**
   From any reachable state in which the device is shared and a key held: after stopping, releasing the key and starting
   again the session shows the key, which is up, exactly if it showed it before and the key is not the left button of
   a mouse.
   */
  lemma {:induction false} StopWhileHeldLeavesKeyStuck(sys: System, t: KeyTruth, attached: set<string>, dhIds: string,
                                                       node: Node, up: InputEvent, s: int)
    requires Sound(sys, attached) && KeyInv(sys, t, node, s) && !node.touchPad && !node.touchScreen && s > 0
    requires sys.Shares(node.descriptor) && s in sys.books.bySession && s in SessionSwitch.Ids(sys.books.switches)
    requires Ids(dhIds) <= attached && node.descriptor in Ids(dhIds)
    requires up.kind == EV_KEY && up.value == KEY_UP_STATE && up.code in t.ledger.held
    ensures var s1 := Next(sys, attached, Control(StopDhid(s, dhIds)));
            var s2 := Next(s1, attached, Physical(node, up, "", 0));
            var s3 := Next(s2, attached, Control(StartDhid(s, dhIds)));
            && s3.Shares(node.descriptor)
            && (up.code in s3.SourceAt(s, node.descriptor)
                <==> up.code in sys.SourceAt(s, node.descriptor) && !(node.cursor && up.code == BTN_MOUSE))
  {
    var stop, lift := Control(StopDhid(s, dhIds)), Physical(node, up, "", 0);
    var s1 := Next(sys, attached, stop);
    StopKnown(sys, t, attached, s, dhIds, node, s);
    ReleaseStaysIff(s1, t, attached, lift, node, s);
    KeyStep(s1, t, attached, lift, node, s);
    StartKnown(Next(s1, attached, lift), Watch(s1, t, lift, node, s), attached, dhIds, node, s);
  }

  /**
   From any reachable state in which the device is shared and its left button held and shown: after stopping, pressing
   another key and releasing the left button, the session goes on to show it, at a mouse too.
   */
  lemma {:induction false} OtherPressKeepsLeft(sys: System, t: KeyTruth, attached: set<string>, dhIds: string,
                                               node: Node, c: nat, s: int)
    requires Sound(sys, attached) && KeyInv(sys, t, node, s) && !node.touchPad && !node.touchScreen && s > 0
    requires sys.Shares(node.descriptor) && s in sys.books.bySession && node.descriptor in Ids(dhIds)
    requires BTN_MOUSE in t.ledger.held && BTN_MOUSE in sys.SourceAt(s, node.descriptor)
    requires c != BTN_MOUSE && c !in t.ledger.held
    ensures var s1 := Next(sys, attached, Control(StopDhid(s, dhIds)));
            var s2 := Next(s1, attached, KeyEvent(node, c, KEY_DOWN_STATE));
            BTN_MOUSE in Next(s2, attached, KeyEvent(node, BTN_MOUSE, KEY_UP_STATE)).SourceAt(s, node.descriptor)
  {
    var s1, press := Next(sys, attached, Control(StopDhid(s, dhIds))), KeyEvent(node, c, KEY_DOWN_STATE);
    StopKnown(sys, t, attached, s, dhIds, node, s);
    KeyStep(s1, t, attached, press, node, s);
    var s2, t2 := Next(s1, attached, press), Watch(s1, t, press, node, s);
    assert c in t2.listed;
    ReleaseStaysIff(s2, t2, attached, KeyEvent(node, BTN_MOUSE, KEY_UP_STATE), node, s);
  }

  /** The device alone is prepared and borrowed by `x`. */
  function Borrowed(attached: set<string>, x: int, d: string): (sys: System)
    ensures sys.Ok()
  {
    Next(Next(Initial(map[]), attached, Control(Prepare(x))), attached, Control(StartDhid(x, d)))
  }

  lemma BorrowedKnown(attached: set<string>, x: int, node: Node)
    requires x > 0 && Ids(node.descriptor) == {node.descriptor} <= attached && !node.touchPad && !node.touchScreen
    ensures var sys, d := Borrowed(attached, x, node.descriptor), node.descriptor;
            && Sound(sys, attached) && KeyInv(sys, NOTHING, node, x)
            && sys.Shares(d) && sys.Opened() == x
            && x in sys.books.bySession && x in SessionSwitch.Ids(sys.books.switches)
  {
    var s0, d := Initial(map[]), node.descriptor;
    var s1 := Next(s0, attached, Control(Prepare(x)));
    InitialKnown(node, attached, x);
    OneBorrower(attached, x, d);
    KeyStep(s0, NOTHING, attached, Control(Prepare(x)), node, x);
    KeyStep(s1, NOTHING, attached, Control(StartDhid(x, d)), node, x);
  }

  /** The same from the beginning: borrow, press, stop, release, borrow again. */
  lemma {:induction false} StuckFromTheStart(attached: set<string>, x: int, node: Node, c: nat)
    requires x > 0 && Ids(node.descriptor) == {node.descriptor} <= attached && !node.touchPad && !node.touchScreen
    requires c != BTN_MOUSE
    ensures var d, lift := node.descriptor, InputEvent(0, EV_KEY, c, KEY_UP_STATE);
            var s3 := Next(Borrowed(attached, x, d), attached, KeyEvent(node, c, KEY_DOWN_STATE));
            var s4 := Next(s3, attached, Control(StopDhid(x, d)));
            var s5 := Next(s4, attached, Physical(node, lift, "", 0));
            c in Next(s5, attached, Control(StartDhid(x, d))).SourceAt(x, d)
  {
    var sys, d, press := Borrowed(attached, x, node.descriptor), node.descriptor, KeyEvent(node, c, KEY_DOWN_STATE);
    BorrowedKnown(attached, x, node);
    KeyStep(sys, NOTHING, attached, press, node, x);
    FreshPress(sys, attached, node, c, x);
    var lift := InputEvent(0, EV_KEY, c, KEY_UP_STATE);
    StopWhileHeldLeavesKeyStuck(Next(sys, attached, press), Watch(sys, NOTHING, press, node, x), attached, d, node,
                                lift, x);
  }

  /** The same from the beginning: borrow a mouse, press left, stop, press right, release left. */
  lemma {:induction false} LeftStuckFromTheStart(attached: set<string>, x: int, node: Node, c: nat)
    requires x > 0 && Ids(node.descriptor) == {node.descriptor} <= attached && !node.touchPad && !node.touchScreen
    requires c != BTN_MOUSE
    ensures var d := node.descriptor;
            var s3 := Next(Borrowed(attached, x, d), attached, KeyEvent(node, BTN_MOUSE, KEY_DOWN_STATE));
            var s4 := Next(s3, attached, Control(StopDhid(x, d)));
            var s5 := Next(s4, attached, KeyEvent(node, c, KEY_DOWN_STATE));
            BTN_MOUSE in Next(s5, attached, KeyEvent(node, BTN_MOUSE, KEY_UP_STATE)).SourceAt(x, d)
  {
    var sys, d := Borrowed(attached, x, node.descriptor), node.descriptor;
    var press := KeyEvent(node, BTN_MOUSE, KEY_DOWN_STATE);
    BorrowedKnown(attached, x, node);
    KeyStep(sys, NOTHING, attached, press, node, x);
    FreshPress(sys, attached, node, BTN_MOUSE, x);
    OtherPressKeepsLeft(Next(sys, attached, press), Watch(sys, NOTHING, press, node, x), attached, d, node, c, x);
  }
}
