/**
 What each session is sent of one device, signal by signal and in order, over every run of the sink: what is forwarded,
 what a start replays, what a lifting frame and a release of the left mouse button send back, and nothing else.
 */
module Deliveries {
  import opened InputEvents
  import opened SeqFacts
  import opened KeyDownList
  import opened TouchFragments
  import opened SinkState
  import opened SharingBooks
  import opened SinkSystem
  import SessionSwitch

  /**
   What an observer of the commands and of one device keeps: the keys recorded as held, in the `order` in which they
   last went down or repeated, those that the first scan found first; the events `recorded` of a touchpad since its
   buffer was emptied; and the `last` session to start or stop anything.
   */
  datatype Story = Story(order: seq<nat>, recorded: seq<RawEvent>, last: int)

  function WithoutFirst(order: seq<nat>, c: nat): seq<nat> {
    if order == [] then []
    else if order[0] == c then order[1..]
    else [order[0]] + WithoutFirst(order[1..], c)
  }

  /** A key that goes down comes last, one that repeats becomes last, and one that comes up goes. */
  function Ordered(order: seq<nat>, e: RawEvent): seq<nat> {
    if e.kind != EV_KEY then order
    else if e.value == KEY_DOWN_STATE then order + [e.code]
    else if e.value == KEY_UP_STATE then WithoutFirst(order, e.code)
    else if e.value == KEY_REPEAT then WithoutFirst(order, e.code) + [e.code]
    else order
  }

  /** The SYN ends a frame that lifts the finger. */
  predicate Lifts(recorded: seq<RawEvent>, e: RawEvent) {
    IsSynEvent(e) && OpenLifts(recorded)
  }

  function LastNamed(last: int, b: Books, cmd: Command): int {
    match cmd
    case Prepare(_) => last
    case Unprepare(s) => if b.shared == {} then last else s
    case StartDhid(s, _) => if s in SessionSwitch.Ids(b.switches) then s else last
    case StopDhid(s, _) => s
  }

  /** The story after a step that finds the books `b`. */
  function GoesOn(story: Story, b: Books, node: Node, step: Step): Story {
    match step
    case Control(cmd) =>
      var last := LastNamed(story.last, b, cmd);
      if Starts(cmd, b, node.descriptor) then Story([], [], last) else story.(last := last)
    case Physical(n, ev, touchId, _) =>
      var e := EventOf(n, ev, touchId);
      if n != node || node.descriptor in b.shared then story
      else if node.touchPad then story.(recorded := if Lifts(story.recorded, e) then [] else story.recorded + [e])
      else story.(order := Ordered(story.order, e))
  }

  /** Each key down, followed by a SYN. */
  function Downs(s: int, d: string, order: seq<nat>): seq<Signal> {
    if order == [] then []
    else
      Downs(s, d, order[..|order| - 1])
      + [Signal(s, d, EV_KEY, order[|order| - 1], KEY_DOWN_STATE), Signal(s, d, EV_SYN, SYN_REPORT, 0)]
  }

  /** What a lifting frame sends back: all that is retained, unless the first frame of that presses the finger. */
  function SentBack(recorded: seq<RawEvent>, e: RawEvent): seq<RawEvent> {
    var all := Retained(recorded) + [e];
    if Lifts(recorded, e) && !HasTouch(FirstFrame(all), KEY_DOWN_STATE) then all else []
  }

  /** The release of the left button of a mouse that has no key recorded, with a scan code before it. */
  function PassedOn(story: Story, node: Node, e: RawEvent, scanId: int): seq<RawEvent> {
    if node.cursor && e.kind == EV_KEY && e.code == BTN_MOUSE && e.value == KEY_UP_STATE && story.order == [] then
      [RawEvent(e.when, EV_MSC, MSC_SCAN, scanId, e.descriptor, e.path),
       RawEvent(e.when, EV_KEY, BTN_MOUSE, KEY_UP_STATE, e.descriptor, e.path),
       RawEvent(e.when, EV_SYN, SYN_REPORT, 0, e.descriptor, e.path)]
    else []
  }

  /** What session `s` is sent of the device by one step. */
  function ToldBy(story: Story, b: Books, node: Node, step: Step, s: int): seq<Signal> {
    var d := node.descriptor;
    match step
    case Control(cmd) =>
      if Starts(cmd, b, d) && cmd.session == s then Downs(s, d, story.order) + SignalsOf(s, Retained(story.recorded))
      else []
    case Physical(n, ev, touchId, scanId) =>
      var e := EventOf(n, ev, touchId);
      if n != node then []
      else if d in b.shared then if s == SessionSwitch.Opened(b.switches) then [SignalOf(s, e)] else []
      else if s != story.last || s <= 0 then []
      else SignalsOf(s, if node.touchPad then SentBack(story.recorded, e) else PassedOn(story, node, e, scanId))
  }

  function CodeList(l: seq<RawEvent>): (r: seq<nat>)
    ensures |r| == |l|
  {
    seq(|l|, i requires 0 <= i < |l| => l[i].code)
  }

  /** The books before the last step of a run, from its commands alone. */
  function BooksBefore(attached: set<string>, steps: seq<Step>): Books
    requires steps != []
  {
    RunCommands(attached, CommandsOf(steps[..|steps| - 1]))
  }

  function StoryOf(pressed: KeyMap, attached: set<string>, steps: seq<Step>, node: Node): Story {
    if steps == [] then Story(CodeList(ListOf(pressed, node.descriptor)), [], 0)
    else
      GoesOn(StoryOf(pressed, attached, steps[..|steps| - 1], node), BooksBefore(attached, steps), node,
             steps[|steps| - 1])
  }

  /** All that session `s` is sent of the device in a run. */
  function Told(pressed: KeyMap, attached: set<string>, steps: seq<Step>, node: Node, s: int): seq<Signal> {
    if steps == [] then []
    else
      var before := steps[..|steps| - 1];
      Told(pressed, attached, before, node, s)
      + ToldBy(StoryOf(pressed, attached, before, node), BooksBefore(attached, steps), node, steps[|steps| - 1], s)
  }

  // ----- the recorded keys as an order of codes

  /** Key events of one node, in a list that is not kept empty. */
  predicate OwnKeys(keys: KeyMap, node: Node) {
    && (node.descriptor in keys ==> keys[node.descriptor] != [])
    && forall e :: e in ListOf(keys, node.descriptor) ==> OwnKey(e, node)
  }

  predicate OwnKey(e: RawEvent, node: Node) {
    e.kind == EV_KEY && e.descriptor == node.descriptor && e.path == node.path
  }

  lemma CodeListCut(l: seq<RawEvent>, i: nat)
    requires i <= |l|
    ensures CodeList(l[..i]) == CodeList(l)[..i] && CodeList(l[i..]) == CodeList(l)[i..]
  {
  }

  lemma CodeListConcat(a: seq<RawEvent>, b: seq<RawEvent>)
    ensures CodeList(a + b) == CodeList(a) + CodeList(b)
  {
  }

  lemma {:induction false} WithoutFirstAt(order: seq<nat>, c: nat, i: nat)
    requires i < |order| && order[i] == c && forall j :: 0 <= j < i ==> order[j] != c
    ensures WithoutFirst(order, c) == order[..i] + order[i + 1..]
  {
    if i > 0 {
      WithoutFirstAt(order[1..], c, i - 1);
      assert order[..i] == [order[0]] + order[1..][..i - 1];
      ConcatAssoc([order[0]], order[1..][..i - 1], order[i + 1..]);
    }
  }

  lemma {:induction false} WithoutFirstNone(order: seq<nat>, c: nat)
    requires forall j :: 0 <= j < |order| ==> order[j] != c
    ensures WithoutFirst(order, c) == order
  {
    if order != [] {
      WithoutFirstNone(order[1..], c);
    }
  }

  lemma ReleasedOrder(l: seq<RawEvent>, e: RawEvent, node: Node)
    requires OwnKey(e, node) && forall x :: x in l ==> OwnKey(x, node)
    ensures CodeList(Released(l, e)) == WithoutFirst(CodeList(l), e.code)
  {
    var i := IndexOf(l, e);
    forall j | 0 <= j < |l| ensures SameKey(l[j], e) <==> CodeList(l)[j] == e.code {
      assert l[j] in l;
    }
    if i < |l| {
      CodeListConcat(l[..i], l[i + 1..]);
      CodeListCut(l, i);
      CodeListCut(l, i + 1);
      WithoutFirstAt(CodeList(l), e.code, i);
    } else {
      WithoutFirstNone(CodeList(l), e.code);
    }
  }

  lemma RepeatedOrder(l: seq<RawEvent>, e: RawEvent, node: Node)
    requires OwnKey(e, node) && forall x :: x in l ==> OwnKey(x, node)
    ensures CodeList(Repeated(l, e)) == WithoutFirst(CodeList(l), e.code) + [e.code]
  {
    var i := IndexOf(l, e);
    ReleasedOrder(l, e, node);
    if i == |l| {
      CodeListConcat(l, [e]);
    } else {
      CodeListConcat(WithoutAt(l, i), [l[i]]);
      if i == |l| - 1 {
        CutJoin(l, i);
        assert l == WithoutAt(l, i) + [l[i]];
      }
    }
  }

  lemma RecordedOrder(keys: KeyMap, e: RawEvent, node: Node)
    requires OwnKeys(keys, node) && e.descriptor == node.descriptor && e.path == node.path
    ensures OwnKeys(Recorded(keys, e), node)
    ensures CodeList(ListOf(Recorded(keys, e), node.descriptor)) == Ordered(CodeList(ListOf(keys, node.descriptor)), e)
  {
    var l := ListOf(keys, node.descriptor);
    if e.kind == EV_KEY {
      ReleasedOrder(l, e, node);
      RepeatedOrder(l, e, node);
      CodeListConcat(l, [e]);
    }
  }

  lemma {:induction false} ReplayIsDowns(s: int, d: string, l: seq<RawEvent>)
    ensures KeyReplay(s, d, l) == Downs(s, d, CodeList(l))
  {
    if l != [] {
      CodeListCut(l, |l| - 1);
      ReplayIsDowns(s, d, l[..|l| - 1]);
    }
  }

  // ----- one step

  ghost predicate Follows(sys: System, story: Story, node: Node) {
    var d, st := node.descriptor, sys.state;
    && st.Ok() && st.lastSession == story.last && CodeList(ListOf(st.keys, d)) == story.order
    && (if node.touchPad then Represents(FragmentsOf(st.fragments, d), story.recorded)
        else story.recorded == [] && d !in st.fragments && OwnKeys(st.keys, node))
    && (sys.Shares(d) ==> story.order == [] && story.recorded == [] && d !in st.fragments)
  }

  lemma StartIsTold(sys: System, story: Story, node: Node, s: int)
    requires Follows(sys, story, node)
    ensures StartSignals(sys.state, s, node.descriptor)
            == Downs(s, node.descriptor, story.order) + SignalsOf(s, Retained(story.recorded))
  {
    var d, st := node.descriptor, sys.state;
    ReplayIsDowns(s, d, ListOf(st.keys, d));
    if node.touchPad {
      RepresentsJoined(FragmentsOf(st.fragments, d), story.recorded);
    } else {
      assert Joined([[]]) == [] && Retained([]) == [];
    }
  }

  lemma CommandTells(sys: System, story: Story, attached: set<string>, cmd: Command, node: Node, s: int)
    requires Sound(sys, attached) && Follows(sys, story, node) && Legal(cmd, attached)
    ensures var r, step := Next(sys, attached, Control(cmd)), Control(cmd);
            && Follows(r, GoesOn(story, sys.books, node, step), node)
            && r.ToldAt(s, node.descriptor)
               == sys.ToldAt(s, node.descriptor) + ToldBy(story, sys.books, node, step, s)
  {
    CommandSeen(sys, attached, cmd, s, node.descriptor);
    EmptyRepresents();
    StartIsTold(sys, story, node, s);
    ConcatEmpty(sys.ToldAt(s, node.descriptor));
  }

  lemma PushSends(st: State, e: RawEvent, s: int)
    requires st.Ok() && AllFrom(st)
    ensures var d, p := e.descriptor, Push(FragmentsOf(st.fragments, e.descriptor), e);
            (p.needSim || p.events == []) ==>
              At(DealTouchPad(st, e).sent, s, d)
              == At(st.sent, s, d) + (if st.lastSession == s && s > 0 then SignalsOf(s, p.events) else [])
  {
    assert Joined([[]]) == [];
    PushKeepsFrom(FragmentsOf(st.fragments, e.descriptor), e, e.descriptor);
    SentAt(st, st.lastSession, Push(FragmentsOf(st.fragments, e.descriptor), e).events, s, e.descriptor);
    ConcatEmpty(At(st.sent, s, e.descriptor));
  }

  lemma PushedIs(fragments: seq<Fragment>, recorded: seq<RawEvent>, e: RawEvent)
    requires Represents(fragments, recorded)
    ensures var p := Push(fragments, e);
            && Represents(p.fragments, if Lifts(recorded, e) then [] else recorded + [e])
            && p.events == SentBack(recorded, e) && (p.needSim || p.events == [])
  {
    PushFollowsHistory(fragments, recorded, e);
  }

  /** One event of a touchpad, against what was recorded of it. */
  lemma PushOnRecord(st: State, recorded: seq<RawEvent>, e: RawEvent, s: int)
    requires st.Ok() && AllFrom(st) && Represents(FragmentsOf(st.fragments, e.descriptor), recorded)
    ensures var r, d := DealTouchPad(st, e), e.descriptor;
            && r.keys == st.keys && r.lastSession == st.lastSession
            && Represents(FragmentsOf(r.fragments, d), if Lifts(recorded, e) then [] else recorded + [e])
            && At(r.sent, s, d) == At(st.sent, s, d)
                                   + (if st.lastSession == s && s > 0 then SignalsOf(s, SentBack(recorded, e)) else [])
  {
    PushedIs(FragmentsOf(st.fragments, e.descriptor), recorded, e);
    PushedFragments(st.fragments, e.descriptor, e);
    PushSends(st, e, s);
  }

  lemma TouchPadTells(sys: System, story: Story, attached: set<string>, step: Step, node: Node, s: int)
    requires Sound(sys, attached) && Follows(sys, story, node) && node.touchPad && !node.touchScreen
    requires step.Physical? && step.node == node && !sys.Shares(node.descriptor)
    ensures var r := Next(sys, attached, step);
            && Follows(r, GoesOn(story, sys.books, node, step), node)
            && r.ToldAt(s, node.descriptor)
               == sys.ToldAt(s, node.descriptor) + ToldBy(story, sys.books, node, step, s)
  {
    var e := EventOf(node, step.ev, step.touchId);
    PushOnRecord(sys.state, story.recorded, e, s);
    ConcatEmpty(sys.ToldAt(s, node.descriptor));
  }

  lemma KeyTells(sys: System, story: Story, attached: set<string>, step: Step, node: Node, s: int)
    requires Sound(sys, attached) && Follows(sys, story, node) && !node.touchPad && !node.touchScreen
    requires step.Physical? && step.node == node && !sys.Shares(node.descriptor)
    ensures var r := Next(sys, attached, step);
            && Follows(r, GoesOn(story, sys.books, node, step), node)
            && r.ToldAt(s, node.descriptor)
               == sys.ToldAt(s, node.descriptor) + ToldBy(story, sys.books, node, step, s)
  {
    var d, e, st := node.descriptor, EventOf(node, step.ev, step.touchId), sys.state;
    RecordedOrder(st.keys, e, node);
    SentAt(st, st.lastSession, MouseUp(e, step.scanId), s, d);
    ConcatEmpty(sys.ToldAt(s, d));
    assert d in st.keys <==> story.order != [];
  }

  lemma StepTells(sys: System, story: Story, attached: set<string>, step: Step, node: Node, s: int)
    requires Sound(sys, attached) && Follows(sys, story, node) && !node.touchScreen && LegalFor(step, attached, node)
    ensures var r := Next(sys, attached, step);
            && Sound(r, attached) && Follows(r, GoesOn(story, sys.books, node, step), node)
            && r.ToldAt(s, node.descriptor)
               == sys.ToldAt(s, node.descriptor) + ToldBy(story, sys.books, node, step, s)
  {
    if step.Control? {
      CommandTells(sys, story, attached, step.cmd, node, s);
      CommandSound(sys, attached, step.cmd);
    } else {
      PhysicalSound(sys, attached, step);
      ConcatEmpty(sys.ToldAt(s, node.descriptor));
      if step.node != node {
        OthersLeaveAlone(sys, attached, step, s, node.descriptor);
      } else if sys.Shares(node.descriptor) {
        ForwardedSeen(sys, attached, step, s);
      } else if node.touchPad {
        TouchPadTells(sys, story, attached, step, node, s);
      } else {
        KeyTells(sys, story, attached, step, node, s);
      }
    }
  }

  // ----- every run

  /** Any run of a device with one node that is no touchscreen, from any keys that the first scan found. */
  ghost predicate LegalRun(pressed: KeyMap, attached: set<string>, steps: seq<Step>, node: Node) {
    && !node.touchScreen && (!node.touchPad ==> OwnKeys(pressed, node))
    && forall i :: 0 <= i < |steps| ==> LegalFor(steps[i], attached, node)
  }

  /**
   In every reachable state, whatever the events: what any session was sent of the device, in order, is what the story
   of the steps tells it.
   */
  lemma {:induction false} LogIsTold(pressed: KeyMap, attached: set<string>, steps: seq<Step>, node: Node, s: int)
    requires LegalRun(pressed, attached, steps, node)
    ensures Sound(Run(pressed, attached, steps), attached)
    ensures Follows(Run(pressed, attached, steps), StoryOf(pressed, attached, steps, node), node)
    ensures Run(pressed, attached, steps).ToldAt(s, node.descriptor) == Told(pressed, attached, steps, node, s)
  {
    if steps == [] {
      SharingNeverOrphaned(attached, []);
      EmptyRepresents();
    } else {
      var before, step := steps[..|steps| - 1], steps[|steps| - 1];
      LogIsTold(pressed, attached, before, node, s);
      BooksOfRun(pressed, attached, before);
      StepTells(Run(pressed, attached, before), StoryOf(pressed, attached, before, node), attached, step, node, s);
    }
  }

  /**
   So a start that names the device adds to what its session was sent: the recorded keys in order, each followed by a
   SYN, then all that is retained of what a touchpad produced since its buffer was emptied; and nothing to any other.
   */
  lemma {:induction false} StartTells(pressed: KeyMap, attached: set<string>, steps: seq<Step>, cmd: Command,
                                      node: Node, s: int)
    requires LegalRun(pressed, attached, steps, node) && Legal(cmd, attached)
    requires Starts(cmd, Run(pressed, attached, steps).books, node.descriptor)
    ensures var sys, story := Run(pressed, attached, steps), StoryOf(pressed, attached, steps, node);
            var d := node.descriptor;
            Next(sys, attached, Control(cmd)).ToldAt(s, d)
            == sys.ToldAt(s, d) + (if s == cmd.session
                                   then Downs(s, d, story.order) + SignalsOf(s, Retained(story.recorded)) else [])
  {
    LogIsTold(pressed, attached, steps, node, s);
    CommandTells(Run(pressed, attached, steps), StoryOf(pressed, attached, steps, node), attached, cmd, node, s);
  }
}
