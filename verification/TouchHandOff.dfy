/**
 Hand-off of the keys of a touchpad with one node, its touch above all: over every run of the sink, with sharing
 switched at any point of a frame, what the source at any session shows is known exactly.
 */
module TouchHandOff {
  import opened InputEvents
  import opened SeqFacts
  import opened KeyDownList
  import opened TouchFragments
  import opened SinkState
  import opened SharingBooks
  import opened SharingRoutes
  import opened SinkSystem
  import opened Ledgers
  import Deliveries
  import KeyHandOff
  import SessionSwitch

  /**
   What an observer knows: the ledger of one session; the keys that the first scan found `scanned` and that were not
   replayed since; the events `recorded` since the buffer was last emptied; and whether the frame being received has
   `moved` the finger.
   */
  datatype TouchTruth = TouchTruth(ledger: Ledger, scanned: set<nat>, recorded: seq<RawEvent>, moved: bool)

  predicate MovesTouch(e: RawEvent) {
    IsTouch(e, KEY_DOWN_STATE) || IsTouch(e, KEY_UP_STATE)
  }

  function Moved(moved: bool, e: RawEvent): bool {
    !IsSynEvent(e) && (moved || MovesTouch(e))
  }

  /** The SYN ends a frame that lifts the finger. */
  predicate Lifts(t: TouchTruth, e: RawEvent) {
    Deliveries.Lifts(t.recorded, e)
  }

  /** What was recorded is then sent back, unless its first frame pressed the finger. */
  predicate SendsBack(t: TouchTruth, e: RawEvent) {
    Lifts(t, e) && !HasTouch(FirstFrame(Retained(t.recorded) + [e]), KEY_DOWN_STATE)
  }

  function SharedChange(t: TouchTruth, e: RawEvent, told: bool): (r: TouchTruth)
    requires t.ledger.Ok()
    ensures r.ledger.Ok()
  {
    t.(ledger := t.ledger.Change(e, told), moved := Moved(t.moved, e))
  }

  function RecordedChange(t: TouchTruth, e: RawEvent, last: bool): (r: TouchTruth)
    requires t.ledger.Ok()
    ensures r.ledger.Ok()
  {
    var l := t.ledger.Change(e, false);
    TouchTruth(if SendsBack(t, e) && last then l.Hear(Retained(t.recorded) + [e]) else l, t.scanned,
               if Lifts(t, e) then [] else t.recorded + [e], Moved(t.moved, e))
  }

  /** A start that names the device tells its own session the scanned keys and then what is retained of the record. */
  function Commanded(t: TouchTruth, starts: bool, told: bool): (r: TouchTruth)
    requires t.ledger.Ok()
    ensures r.ledger.Ok()
  {
    if !starts then t
    else
      TouchTruth(if told then t.ledger.HearDown(t.scanned).Hear(Retained(t.recorded)) else t.ledger, {}, [], t.moved)
  }

  ghost predicate TouchInv(sys: System, t: TouchTruth, node: Node, s: int)
    requires sys.Ok()
  {
    var d := node.descriptor;
    && t.ledger.Ok() && sys.SourceAt(s, d) == t.ledger.Shown()
    && KeyHandOff.Codes(ListOf(sys.state.keys, d)) == t.scanned
    && if sys.Shares(d) then t.scanned == {} && t.recorded == [] && d !in sys.state.keys && d !in sys.state.fragments
       else Represents(FragmentsOf(sys.state.fragments, d), t.recorded)
  }

  // ----- one step

  lemma FragmentsFrom(st: State, d: string)
    requires st.Ok() && AllFrom(st)
    ensures From(FragmentsOf(st.fragments, d), d)
  {
    assert Joined([[]]) == [];
  }

  lemma TouchSeen(st: State, recorded: seq<RawEvent>, shown: set<nat>, s: int, d: string)
    requires st.Ok() && AllFrom(st) && Represents(FragmentsOf(st.fragments, d), recorded)
    ensures Seen(shown, st, s, d) == KeysAfter(shown + KeyHandOff.Codes(ListOf(st.keys, d)), Retained(recorded))
  {
    FragmentsFrom(st, d);
    KeyHandOff.ReplayKeys(shown, s, d, ListOf(st.keys, d));
    ReplayIsKeysAfter(shown + KeyHandOff.Codes(ListOf(st.keys, d)), s, Joined(FragmentsOf(st.fragments, d)), d);
    RepresentsJoined(FragmentsOf(st.fragments, d), recorded);
  }

  lemma TouchCommand(sys: System, t: TouchTruth, attached: set<string>, cmd: Command, node: Node, s: int)
    requires Sound(sys, attached) && TouchInv(sys, t, node, s) && Legal(cmd, attached)
    ensures var starts := Starts(cmd, sys.books, node.descriptor);
            TouchInv(Next(sys, attached, Control(cmd)), Commanded(t, starts, cmd.session == s), node, s)
  {
    var d, r := node.descriptor, Next(sys, attached, Control(cmd));
    CommandSeen(sys, attached, cmd, s, d);
    CommandShown(sys, attached, cmd, s, d);
    EmptyRepresents();
    if Starts(cmd, sys.books, d) {
      TouchSeen(sys.state, t.recorded, sys.SourceAt(s, d), s, d);
    }
  }

  /** What one event of an unshared touchpad makes of the keys shown. */
  lemma PushShown(st: State, recorded: seq<RawEvent>, e: RawEvent, s: int)
    requires st.Ok() && AllFrom(st) && Represents(FragmentsOf(st.fragments, e.descriptor), recorded) && s > 0
    ensures var d, shown := e.descriptor, Replay({}, st.sent, s, e.descriptor);
            Replay({}, DealTouchPad(st, e).sent, s, d)
            == if st.lastSession == s then KeysAfter(shown, Deliveries.SentBack(recorded, e)) else shown
  {
    var d, r := e.descriptor, DealTouchPad(st, e);
    Deliveries.PushOnRecord(st, recorded, e, s);
    if st.lastSession == s {
      FragmentsFrom(st, d);
      PushKeepsFrom(FragmentsOf(st.fragments, d), e, d);
      Deliveries.PushedIs(FragmentsOf(st.fragments, d), recorded, e);
      ShownAfter(st.sent, r.sent, SignalsOf(s, Deliveries.SentBack(recorded, e)), s, d);
      ReplayIsKeysAfter(Replay({}, st.sent, s, d), s, Deliveries.SentBack(recorded, e), d);
    } else {
      ConcatEmpty(At(st.sent, s, d));
      ShownSame(st.sent, r.sent, s, d);
    }
  }

  lemma TouchEventRecorded(sys: System, t: TouchTruth, attached: set<string>, step: Step, node: Node, s: int)
    requires Sound(sys, attached) && TouchInv(sys, t, node, s) && node.touchPad && !node.touchScreen && s > 0
    requires step.Physical? && step.node == node && !sys.Shares(node.descriptor)
    ensures var e := EventOf(node, step.ev, step.touchId);
            TouchInv(Next(sys, attached, step), RecordedChange(t, e, sys.state.lastSession == s), node, s)
  {
    var e := EventOf(node, step.ev, step.touchId);
    Deliveries.PushOnRecord(sys.state, t.recorded, e, s);
    PushShown(sys.state, t.recorded, e, s);
  }

  function Watch(sys: System, t: TouchTruth, step: Step, node: Node, s: int): (r: TouchTruth)
    requires sys.Ok() && t.ledger.Ok()
    ensures r.ledger.Ok()
  {
    match step
    case Control(cmd) => Commanded(t, Starts(cmd, sys.books, node.descriptor), cmd.session == s)
    case Physical(n, ev, touchId, _) =>
      var e := EventOf(n, ev, touchId);
      if n != node then t
      else if sys.Shares(node.descriptor) then SharedChange(t, e, sys.Opened() == s)
      else RecordedChange(t, e, sys.state.lastSession == s)
  }

  lemma TouchStep(sys: System, t: TouchTruth, attached: set<string>, step: Step, node: Node, s: int)
    requires Sound(sys, attached) && TouchInv(sys, t, node, s) && node.touchPad && !node.touchScreen && s > 0
    requires LegalFor(step, attached, node)
    ensures TouchInv(Next(sys, attached, step), Watch(sys, t, step, node, s), node, s)
    ensures Sound(Next(sys, attached, step), attached)
  {
    match step
    case Control(cmd) =>
      TouchCommand(sys, t, attached, cmd, node, s);
      CommandSound(sys, attached, cmd);
    case Physical(n, ev, touchId, scanId) =>
      PhysicalSound(sys, attached, step);
      if n != node {
        OthersLeaveAlone(sys, attached, step, s, node.descriptor);
      } else if sys.Shares(node.descriptor) {
        ForwardedSeen(sys, attached, step, s);
      } else {
        TouchEventRecorded(sys, t, attached, step, node, s);
      }
  }

  // ----- every run

  function Truth(pressed: KeyMap, attached: set<string>, steps: seq<Step>, node: Node, s: int): (t: TouchTruth)
    ensures t.ledger.Ok()
  {
    var codes := KeyHandOff.Codes(ListOf(pressed, node.descriptor));
    if steps == [] then TouchTruth(Ledger(codes, codes, {}), codes, [], false)
    else
      var before, step := steps[..|steps| - 1], steps[|steps| - 1];
      Watch(Run(pressed, attached, before), Truth(pressed, attached, before, node, s), step, node, s)
  }

  /** Any run of a touchpad, from any keys that the first scan found pressed. */
  ghost predicate LegalRun(attached: set<string>, steps: seq<Step>, node: Node, s: int) {
    && node.touchPad && !node.touchScreen && s > 0
    && forall i :: 0 <= i < |steps| ==> LegalFor(steps[i], attached, node)
  }

  lemma {:induction false} RunKeepsTouchInv(pressed: KeyMap, attached: set<string>, steps: seq<Step>, node: Node,
                                            s: int)
    requires LegalRun(attached, steps, node, s)
    ensures Sound(Run(pressed, attached, steps), attached)
    ensures TouchInv(Run(pressed, attached, steps), Truth(pressed, attached, steps, node, s), node, s)
  {
    if steps == [] {
      SharingNeverOrphaned(attached, []);
      EmptyRepresents();
    } else {
      var before, step := steps[..|steps| - 1], steps[|steps| - 1];
      RunKeepsTouchInv(pressed, attached, before, node, s);
      TouchStep(Run(pressed, attached, before), Truth(pressed, attached, before, node, s), attached, step, node, s);
    }
  }

  /**
   In every reachable state, for every key of the touchpad, the source at any session shows the held keys without the
   missing ones, and the stuck ones: exactly the held keys just when none is missing and none is stuck.
   */
  lemma {:induction false} SourceShowsTouchpad(pressed: KeyMap, attached: set<string>, steps: seq<Step>, node: Node,
                                               s: int)
    requires LegalRun(attached, steps, node, s)
    ensures var source := Run(pressed, attached, steps).SourceAt(s, node.descriptor);
            var l := Truth(pressed, attached, steps, node, s).ledger;
            && source == (l.held - l.missing) + l.stuck && l.missing <= l.held && l.stuck !! l.held
            && (source == l.held <==> l.missing == {} && l.stuck == {})
  {
    RunKeepsTouchInv(pressed, attached, steps, node, s);
    ExactIffShown(Truth(pressed, attached, steps, node, s).ledger);
  }

  /**
   What a start shows of a key, from any reachable state: the last word that is retained of what was recorded, and
   without one whether the first scan found it pressed or the session showed it before.
   */
  lemma {:induction false} StartShows(sys: System, t: TouchTruth, attached: set<string>, cmd: Command, node: Node,
                                      s: int, c: nat)
    requires Sound(sys, attached) && TouchInv(sys, t, node, s) && Legal(cmd, attached)
    requires Starts(cmd, sys.books, node.descriptor) && cmd.session == s
    ensures var word := LastSaid(Retained(t.recorded), c);
            c in Next(sys, attached, Control(cmd)).SourceAt(s, node.descriptor)
            <==> word.Down? || (word.Nothing? && (c in t.scanned || c in sys.SourceAt(s, node.descriptor)))
  {
    TouchCommand(sys, t, attached, cmd, node, s);
    LastWordCounts(t.ledger.Shown() + t.scanned, Retained(t.recorded), c);
  }

  // ----- when the finger is shown as it is

  lemma {:induction false} SaidConcat(a: seq<RawEvent>, b: seq<RawEvent>, c: nat)
    ensures LastSaid(a + b, c) == if LastSaid(b, c).Nothing? then LastSaid(a, c) else LastSaid(b, c)
    decreases |b|
  {
    if b == [] {
      ConcatEmpty(a);
    } else {
      LastOfConcat(a, b);
      SaidConcat(a, b[..|b| - 1], c);
    }
  }

  lemma SaidOne(e: RawEvent, c: nat)
    ensures LastSaid([e], c) ==
              if e.kind == EV_KEY && e.code == c && e.value == KEY_DOWN_STATE then Said.Down
              else if e.kind == EV_KEY && e.code == c && e.value == KEY_UP_STATE then Said.Up
              else Said.Nothing
  {
    assert LastSaid([e][..0], c).Nothing?;
  }

  lemma {:induction false} SaidNonPosition(h: seq<RawEvent>, c: nat)
    ensures LastSaid(NonPosition(h), c) == LastSaid(h, c)
  {
    if h != [] {
      var front, e := h[..|h| - 1], h[|h| - 1];
      assert h == front + [e];
      SaidNonPosition(front, c);
      NonPositionConcat(front, [e]);
      NonPositionOne(e);
      SaidConcat(front, [e], c);
      SaidConcat(NonPosition(front), NonPosition([e]), c);
      SaidOne(e, c);
    }
  }

  lemma {:induction false} SaidTouch(h: seq<RawEvent>)
    ensures LastSaid(h, BTN_TOUCH).Nothing? <==> !HasTouch(h, KEY_DOWN_STATE) && !HasTouch(h, KEY_UP_STATE)
    ensures LastSaid(h, BTN_TOUCH).Down? ==> HasTouch(h, KEY_DOWN_STATE)
    ensures LastSaid(h, BTN_TOUCH).Up? ==> HasTouch(h, KEY_UP_STATE)
  {
    if h != [] {
      var front, e := h[..|h| - 1], h[|h| - 1];
      SaidTouch(front);
      assert h == front + [e];
      HasTouchConcat(front, [e], KEY_DOWN_STATE);
      HasTouchConcat(front, [e], KEY_UP_STATE);
      HasTouchOne(e, KEY_DOWN_STATE);
      HasTouchOne(e, KEY_UP_STATE);
    }
  }

  lemma HasTouchOne(e: RawEvent, value: int)
    ensures HasTouch([e], value) <==> IsTouch(e, value)
  {
    assert e in [e];
  }

  lemma HasTouchConcat(a: seq<RawEvent>, b: seq<RawEvent>, value: int)
    ensures HasTouch(a + b, value) <==> HasTouch(a, value) || HasTouch(b, value)
  {
    assert forall e :: e in a + b <==> e in a || e in b;
  }

  /** What is retained is that of the closed frames and the open one. */
  lemma RetainedParts(h: seq<RawEvent>)
    ensures Retained(h) == Retained(h[..OpenFrom(h)]) + NonPosition(h[OpenFrom(h)..])
  {
    var i := OpenFrom(h);
    RetainedOpen(h[i..]);
    CutJoin(h, i);
    RetainedConcat(h[..i], h[i..]);
  }

  lemma RetainedInFrame(h: seq<RawEvent>, e: RawEvent)
    requires !IsSynEvent(e)
    ensures Retained(h + [e]) == Retained(h) + NonPosition([e])
  {
    var i := OpenFrom(h);
    OpenAfter(h, e);
    CutConcat(h, [e], i);
    RetainedParts(h);
    RetainedParts(h + [e]);
    NonPositionConcat(h[i..], [e]);
    ConcatAssoc(Retained(h[..i]), NonPosition(h[i..]), NonPosition([e]));
  }

  /** A frame that pressed the finger and ends now is not just the press and its SYN. */
  predicate Roomy(t: TouchTruth, e: RawEvent) {
    var open := t.recorded[OpenFrom(t.recorded)..];
    IsSynEvent(e) && HasTouch(open, KEY_DOWN_STATE) && !OpenLifts(t.recorded) ==> |NonPosition(open)| != 1
  }

  /** Presses and lifts alternate, and a frame holds at most one of them. */
  predicate Plausible(t: TouchTruth, e: RawEvent) {
    && (IsTouch(e, KEY_DOWN_STATE) ==> BTN_TOUCH !in t.ledger.held && !t.moved)
    && (IsTouch(e, KEY_UP_STATE) ==> BTN_TOUCH in t.ledger.held && !t.moved)
  }

  /** The last word on the touch that is retained of what was recorded. */
  function Word(t: TouchTruth): Said {
    LastSaid(Retained(t.recorded), BTN_TOUCH)
  }

  /** The last word that is retained of the frames before the open one. */
  function ClosedWord(t: TouchTruth): Said {
    LastSaid(Retained(t.recorded[..OpenFrom(t.recorded)]), BTN_TOUCH)
  }

  predicate OpenPresses(t: TouchTruth) {
    HasTouch(t.recorded[OpenFrom(t.recorded)..], KEY_DOWN_STATE)
  }

  /** What alternating touches keep: no closed frame lifts, and what the open frame says is how the finger is. */
  predicate FrameInv(t: TouchTruth) {
    var down := BTN_TOUCH in t.ledger.held;
    && !ClosedWord(t).Up? && (ClosedWord(t).Down? ==> down || OpenLifts(t.recorded))
    && (OpenLifts(t.recorded) ==> t.moved && !down)
    && (OpenPresses(t) ==> t.moved && down && ClosedWord(t).Nothing?)
  }

  lemma WordParts(t: TouchTruth)
    ensures var open := LastSaid(t.recorded[OpenFrom(t.recorded)..], BTN_TOUCH);
            Word(t) == if open.Nothing? then ClosedWord(t) else open
    ensures Word(t).Nothing? ==> ClosedWord(t).Nothing? && !OpenPresses(t) && !OpenLifts(t.recorded)
    ensures FrameInv(t) ==> (Word(t).Up? <==> OpenLifts(t.recorded))
    ensures FrameInv(t) ==> (Word(t).Down? ==> BTN_TOUCH in t.ledger.held)
  {
    var h, i := t.recorded, OpenFrom(t.recorded);
    RetainedParts(h);
    SaidConcat(Retained(h[..i]), NonPosition(h[i..]), BTN_TOUCH);
    SaidNonPosition(h[i..], BTN_TOUCH);
    SaidTouch(h[i..]);
  }

  /** What an event inside a frame adds to the open frame, and to what is retained. */
  lemma OpenGrows(h: seq<RawEvent>, e: RawEvent)
    requires !IsSynEvent(e)
    ensures OpenFrom(h + [e]) == OpenFrom(h) && (h + [e])[..OpenFrom(h)] == h[..OpenFrom(h)]
    ensures OpenLifts(h + [e]) <==> OpenLifts(h) || IsTouch(e, KEY_UP_STATE)
    ensures HasTouch((h + [e])[OpenFrom(h)..], KEY_DOWN_STATE)
            <==> HasTouch(h[OpenFrom(h)..], KEY_DOWN_STATE) || IsTouch(e, KEY_DOWN_STATE)
  {
    var i := OpenFrom(h);
    OpenAfter(h, e);
    CutConcat(h, [e], i);
    HasTouchConcat(h[i..], [e], KEY_UP_STATE);
    HasTouchConcat(h[i..], [e], KEY_DOWN_STATE);
    HasTouchOne(e, KEY_UP_STATE);
    HasTouchOne(e, KEY_DOWN_STATE);
  }

  lemma WordGrows(h: seq<RawEvent>, e: RawEvent)
    requires !IsSynEvent(e)
    ensures LastSaid(Retained(h + [e]), BTN_TOUCH)
            == if IsTouch(e, KEY_DOWN_STATE) then Said.Down else if IsTouch(e, KEY_UP_STATE) then Said.Up
               else LastSaid(Retained(h), BTN_TOUCH)
  {
    RetainedInFrame(h, e);
    SaidConcat(Retained(h), NonPosition([e]), BTN_TOUCH);
    SaidNonPosition([e], BTN_TOUCH);
    SaidOne(e, BTN_TOUCH);
  }

  /** What an event inside a frame changes of what is known of the finger. */
  predicate Grown(t: TouchTruth, e: RawEvent, r: TouchTruth) {
    var down := BTN_TOUCH in t.ledger.held;
    && !IsSynEvent(e) && r.recorded == t.recorded + [e] && r.scanned == t.scanned
    && r.ledger.Shown() == t.ledger.Shown() && r.moved == (t.moved || MovesTouch(e))
    && (BTN_TOUCH in r.ledger.held <==> IsTouch(e, KEY_DOWN_STATE) || (down && !IsTouch(e, KEY_UP_STATE)))
  }

  lemma RecordedGrows(t: TouchTruth, e: RawEvent, last: bool)
    requires t.ledger.Ok() && !IsSynEvent(e)
    ensures Grown(t, e, RecordedChange(t, e, last))
  {
  }

  lemma {:induction false} FrameGrows(t: TouchTruth, e: RawEvent, r: TouchTruth)
    requires Grown(t, e, r) && FrameInv(t) && Plausible(t, e)
    ensures FrameInv(r) && ClosedWord(r) == ClosedWord(t)
    ensures Word(r) == if IsTouch(e, KEY_DOWN_STATE) then Said.Down else if IsTouch(e, KEY_UP_STATE) then Said.Up
                       else Word(t)
  {
    WordParts(t);
    OpenGrows(t.recorded, e);
    WordGrows(t.recorded, e);
  }

  lemma BetweenFrames(t: TouchTruth)
    requires OpenFrom(t.recorded) == |t.recorded|
    ensures ClosedWord(t) == Word(t) && !OpenLifts(t.recorded) && !OpenPresses(t)
  {
    assert t.recorded[..|t.recorded|] == t.recorded;
  }

  /** The end of a frame that does not lift: its press is lost exactly if it was alone there. */
  lemma {:induction false} FrameCloses(t: TouchTruth, e: RawEvent, last: bool)
    requires t.ledger.Ok() && FrameInv(t) && IsSynEvent(e) && !OpenLifts(t.recorded)
    ensures var r := RecordedChange(t, e, last);
            && FrameInv(r) && r.recorded == t.recorded + [e] && Word(r) == if Roomy(t, e) then Word(t) else Said.Nothing
  {
    var h, i := t.recorded, OpenFrom(t.recorded);
    var open := NonPosition(h[i..]);
    WordParts(t);
    RetainedClosed(h, e);
    SaidConcat(Retained(h[..i]), open + [e], BTN_TOUCH);
    SaidConcat(open, [e], BTN_TOUCH);
    SaidOne(e, BTN_TOUCH);
    SaidNonPosition(h[i..], BTN_TOUCH);
    SaidTouch(h[i..]);
    ConcatEmpty(Retained(h[..i]));
    OpenAfter(h, e);
    BetweenFrames(RecordedChange(t, e, last));
  }

  lemma Emptied(t: TouchTruth)
    requires t.recorded == []
    ensures FrameInv(t) && Word(t).Nothing?
  {
    assert Retained([]) == [];
    BetweenFrames(t);
  }

  lemma RecordedKeepsFrame(t: TouchTruth, e: RawEvent, last: bool)
    requires t.ledger.Ok() && FrameInv(t) && Plausible(t, e)
    ensures FrameInv(RecordedChange(t, e, last))
  {
    if !IsSynEvent(e) {
      RecordedGrows(t, e, last);
      FrameGrows(t, e, RecordedChange(t, e, last));
    } else if OpenLifts(t.recorded) {
      Emptied(RecordedChange(t, e, last));
    } else {
      FrameCloses(t, e, last);
    }
  }

  /**
   What has to hold while the touchpad is not shared: a start now would show the finger as it is unless the first scan
   is stale, nothing is shown of a finger that is up and not just lifting, nor of one that was pressed since.
   */
  predicate FingerInv(t: TouchTruth) {
    var down, shown := BTN_TOUCH in t.ledger.held, BTN_TOUCH in t.ledger.Shown();
    && FrameInv(t)
    && (Word(t).Nothing? ==> (down ==> shown || BTN_TOUCH in t.scanned) && (shown ==> down))
    && (HasTouch(t.recorded, KEY_DOWN_STATE) ==> !shown)
  }

  lemma FingerGrows(t: TouchTruth, e: RawEvent, r: TouchTruth)
    requires Grown(t, e, r) && FingerInv(t) && Plausible(t, e)
    ensures FingerInv(r)
  {
    FrameGrows(t, e, r);
    WordParts(t);
    HasTouchConcat(t.recorded, [e], KEY_DOWN_STATE);
    HasTouchOne(e, KEY_DOWN_STATE);
  }

  lemma FrameClosed(t: TouchTruth, e: RawEvent, last: bool)
    requires t.ledger.Ok() && FingerInv(t) && IsSynEvent(e) && !OpenLifts(t.recorded)
    ensures FingerInv(RecordedChange(t, e, last)) <==> Roomy(t, e) || BTN_TOUCH in t.scanned
  {
    var h, i := t.recorded, OpenFrom(t.recorded);
    FrameCloses(t, e, last);
    CutJoin(h, i);
    HasTouchConcat(h[..i], h[i..], KEY_DOWN_STATE);
    HasTouchConcat(h, [e], KEY_DOWN_STATE);
    HasTouchOne(e, KEY_DOWN_STATE);
  }

  /** A frame that lifts the finger takes it from the session exactly if it is sent back there. */
  lemma LiftTakes(t: TouchTruth, e: RawEvent, last: bool)
    requires t.ledger.Ok() && FrameInv(t) && Lifts(t, e)
    ensures BTN_TOUCH in RecordedChange(t, e, last).ledger.Shown()
            <==> BTN_TOUCH in t.ledger.Shown() && !(SendsBack(t, e) && last)
  {
    var all := Retained(t.recorded) + [e];
    WordParts(t);
    SaidConcat(Retained(t.recorded), [e], BTN_TOUCH);
    SaidOne(e, BTN_TOUCH);
    LastWordCounts(t.ledger.Shown(), all, BTN_TOUCH);
  }

  lemma FrameLifted(t: TouchTruth, e: RawEvent, last: bool)
    requires t.ledger.Ok() && FingerInv(t) && Lifts(t, e)
    ensures FingerInv(RecordedChange(t, e, last)) <==> (BTN_TOUCH in t.ledger.Shown() ==> last)
  {
    var all, r := Retained(t.recorded) + [e], RecordedChange(t, e, last);
    LiftTakes(t, e, last);
    Emptied(r);
    if HasTouch(FirstFrame(all), KEY_DOWN_STATE) {
      var x :| x in FirstFrame(all) && IsTouch(x, KEY_DOWN_STATE);
      assert x in all;
      RetainedIsOffAxis(t.recorded, x);
    }
  }

  /** The first scan found a finger down that is up by now, and nothing that is retained says so. */
  predicate StaleScan(t: TouchTruth) {
    BTN_TOUCH in t.scanned && BTN_TOUCH !in t.ledger.held && Word(t).Nothing?
  }

  // ----- on the machine

  /**
   While the touchpad is shared, the open session shows the finger as it is and any other one shows none; and while it
   is not shared, a start would make it so.
   */
  ghost predicate FingerKnown(sys: System, t: TouchTruth, d: string, s: int) {
    if !sys.Shares(d) then FingerInv(t)
    else if s == sys.Opened() then BTN_TOUCH in t.ledger.Shown() <==> BTN_TOUCH in t.ledger.held
    else BTN_TOUCH !in t.ledger.Shown()
  }

  /**
   What the hand-off of a touch needs of a step. A finger found down by the first scan is down at the first start; when
   another session starts sharing the touchpad, `s` shows no finger, and when another one stops sharing it, the finger
   is up; a press shares its frame with another event, or the first scan still speaks for it; and a touch that `s` was
   left with is lifted before another session is the last to start or stop anything.
   */
  ghost predicate Careful(sys: System, t: TouchTruth, attached: set<string>, step: Step, node: Node, s: int)
    requires sys.Ok()
  {
    var d := node.descriptor;
    match step
    case Control(cmd) =>
      && (Starts(cmd, sys.books, d) && !sys.Shares(d) ==>
            if cmd.session == s then !StaleScan(t) else BTN_TOUCH !in sys.SourceAt(s, d))
      && (sys.Shares(d) && !Next(sys, attached, step).Shares(d) && sys.Opened() != s ==> BTN_TOUCH !in t.ledger.held)
    case Physical(n, ev, touchId, _) =>
      var e := EventOf(n, ev, touchId);
      n == node && !sys.Shares(d) ==>
        && (Roomy(t, e) || BTN_TOUCH in t.scanned)
        && (Lifts(t, e) && BTN_TOUCH in sys.SourceAt(s, d) ==> sys.state.lastSession == s)
  }

  /** What a start makes of the finger, from any state that alternating touches reach. */
  lemma StartedFinger(t: TouchTruth, told: bool)
    requires t.ledger.Ok() && FrameInv(t)
    ensures var r, shown := Commanded(t, true, told).ledger, BTN_TOUCH in t.ledger.Shown();
            && r.held == t.ledger.held
            && (told ==> ((BTN_TOUCH in r.Shown() <==> BTN_TOUCH in r.held)
                          <==> (Word(t).Nothing? ==> (BTN_TOUCH in t.scanned || shown <==> BTN_TOUCH in r.held))))
            && (!told ==> (BTN_TOUCH in r.Shown() <==> shown))
  {
    LastWordCounts(t.ledger.HearDown(t.scanned).Shown(), Retained(t.recorded), BTN_TOUCH);
    WordParts(t);
  }

  lemma RestartChangesNothing(t: TouchTruth, told: bool)
    requires t.ledger.Ok() && t.scanned == {} && t.recorded == []
    ensures var r := Commanded(t, true, told).ledger; r.held == t.ledger.held && r.Shown() == t.ledger.Shown()
  {
    assert Retained([]) == [];
  }

  lemma CommandKeepsFinger(sys: System, t: TouchTruth, attached: set<string>, cmd: Command, node: Node, s: int)
    requires Sound(sys, attached) && TouchInv(sys, t, node, s) && Legal(cmd, attached)
    requires Routed(sys.books) && Routed(Next(sys, attached, Control(cmd)).books)
    requires FingerKnown(sys, t, node.descriptor, s)
    ensures var starts := Starts(cmd, sys.books, node.descriptor);
            FingerKnown(Next(sys, attached, Control(cmd)), Commanded(t, starts, cmd.session == s), node.descriptor, s)
            <==> Careful(sys, t, attached, Control(cmd), node, s)
  {
    var d, r := node.descriptor, Next(sys, attached, Control(cmd));
    CommandSeen(sys, attached, cmd, s, d);
    CommandShown(sys, attached, cmd, s, d);
    if r.Shares(d) {
      RouteOfSharing(sys.books, attached, cmd, d);
      if sys.Shares(d) {
        RestartChangesNothing(t, cmd.session == s);
      } else {
        StartedFinger(t, cmd.session == s);
      }
    } else if sys.Shares(d) {
      Emptied(t);
    }
  }

  lemma EventKeepsFinger(sys: System, t: TouchTruth, attached: set<string>, step: Step, node: Node, s: int)
    requires Sound(sys, attached) && TouchInv(sys, t, node, s) && step.Physical?
    requires FingerKnown(sys, t, node.descriptor, s) && PlausibleStep(t, step, node)
    ensures FingerKnown(Next(sys, attached, step), Watch(sys, t, step, node, s), node.descriptor, s)
            <==> Careful(sys, t, attached, step, node, s)
  {
    if step.node == node && !sys.Shares(node.descriptor) {
      var e, last := EventOf(node, step.ev, step.touchId), sys.state.lastSession == s;
      if !IsSynEvent(e) {
        RecordedGrows(t, e, last);
        FingerGrows(t, e, RecordedChange(t, e, last));
      } else if OpenLifts(t.recorded) {
        FrameLifted(t, e, last);
      } else {
        FrameClosed(t, e, last);
      }
    }
  }

  predicate PlausibleStep(t: TouchTruth, step: Step, node: Node) {
    step.Physical? && step.node == node ==> Plausible(t, EventOf(node, step.ev, step.touchId))
  }

  /** The touches of the node alternate, one at most in a frame. */
  ghost predicate Alternating(pressed: KeyMap, attached: set<string>, steps: seq<Step>, node: Node, s: int) {
    steps != [] ==>
      var before := steps[..|steps| - 1];
      && Alternating(pressed, attached, before, node, s)
      && PlausibleStep(Truth(pressed, attached, before, node, s), steps[|steps| - 1], node)
  }

  lemma StepKeepsFrame(sys: System, t: TouchTruth, attached: set<string>, step: Step, node: Node, s: int)
    requires sys.Ok() && t.ledger.Ok() && FrameInv(t) && PlausibleStep(t, step, node)
    requires sys.Shares(node.descriptor) ==> t.recorded == []
    ensures FrameInv(Watch(sys, t, step, node, s))
  {
    var r := Watch(sys, t, step, node, s);
    if step.Physical? && step.node == node && !sys.Shares(node.descriptor) {
      RecordedKeepsFrame(t, EventOf(node, step.ev, step.touchId), sys.state.lastSession == s);
    } else if r.recorded == [] {
      Emptied(r);
    }
  }

  lemma {:induction false} RunKeepsFrame(pressed: KeyMap, attached: set<string>, steps: seq<Step>, node: Node, s: int)
    requires LegalRun(attached, steps, node, s) && Alternating(pressed, attached, steps, node, s)
    ensures FrameInv(Truth(pressed, attached, steps, node, s))
  {
    if steps == [] {
      Emptied(Truth(pressed, attached, steps, node, s));
    } else {
      var before, step := steps[..|steps| - 1], steps[|steps| - 1];
      RunKeepsFrame(pressed, attached, before, node, s);
      RunKeepsTouchInv(pressed, attached, before, node, s);
      StepKeepsFrame(Run(pressed, attached, before), Truth(pressed, attached, before, node, s), attached, step, node,
                     s);
    }
  }

  ghost predicate CarefulRun(pressed: KeyMap, attached: set<string>, steps: seq<Step>, node: Node, s: int) {
    steps != [] ==>
      var before, step := steps[..|steps| - 1], steps[|steps| - 1];
      && CarefulRun(pressed, attached, before, node, s)
      && Careful(Run(pressed, attached, before), Truth(pressed, attached, before, node, s), attached, step, node, s)
  }

  lemma {:induction false} LegalCommands(attached: set<string>, steps: seq<Step>, node: Node)
    requires forall i :: 0 <= i < |steps| ==> LegalFor(steps[i], attached, node)
    ensures forall i :: 0 <= i < |CommandsOf(steps)| ==> Legal(CommandsOf(steps)[i], attached)
  {
    if steps != [] {
      LegalCommands(attached, steps[..|steps| - 1], node);
    }
  }

  lemma RunIsRouted(pressed: KeyMap, attached: set<string>, steps: seq<Step>, node: Node, s: int)
    requires LegalRun(attached, steps, node, s) && StartsFit(attached, CommandsOf(steps))
    ensures Routed(Run(pressed, attached, steps).books)
  {
    LegalCommands(attached, steps, node);
    BooksRouted(pressed, attached, steps);
  }

  lemma StepKeepsFinger(sys: System, t: TouchTruth, attached: set<string>, step: Step, node: Node, s: int)
    requires Sound(sys, attached) && TouchInv(sys, t, node, s) && LegalFor(step, attached, node)
    requires Routed(sys.books) && Routed(Next(sys, attached, step).books)
    requires FingerKnown(sys, t, node.descriptor, s) && PlausibleStep(t, step, node)
    ensures FingerKnown(Next(sys, attached, step), Watch(sys, t, step, node, s), node.descriptor, s)
            <==> Careful(sys, t, attached, step, node, s)
  {
    if step.Control? {
      CommandKeepsFinger(sys, t, attached, step.cmd, node, s);
    } else {
      EventKeepsFinger(sys, t, attached, step, node, s);
    }
  }

  ghost predicate AlwaysFingerKnown(pressed: KeyMap, attached: set<string>, steps: seq<Step>, node: Node, s: int) {
    && FingerKnown(Run(pressed, attached, steps), Truth(pressed, attached, steps, node, s), node.descriptor, s)
    && (steps != [] ==> AlwaysFingerKnown(pressed, attached, steps[..|steps| - 1], node, s))
  }

  lemma AlwaysFingerKnownIsKnown(pressed: KeyMap, attached: set<string>, steps: seq<Step>, node: Node, s: int)
    requires AlwaysFingerKnown(pressed, attached, steps, node, s)
    ensures FingerKnown(Run(pressed, attached, steps), Truth(pressed, attached, steps, node, s), node.descriptor, s)
  {
  }

  lemma FingerKnownAtFirst(pressed: KeyMap, attached: set<string>, node: Node, s: int)
    ensures FingerKnown(Run(pressed, attached, []), Truth(pressed, attached, [], node, s), node.descriptor, s)
  {
    Emptied(Truth(pressed, attached, [], node, s));
  }

  /**
   For alternating touches and starts that fit, wherever in a frame sharing is switched: the finger is known at the
   session in every state of the run exactly if every step is careful.
   */
  lemma {:induction false} FingerKnownIffCareful(pressed: KeyMap, attached: set<string>, steps: seq<Step>, node: Node,
                                                 s: int)
    requires LegalRun(attached, steps, node, s) && Alternating(pressed, attached, steps, node, s)
    requires StartsFit(attached, CommandsOf(steps))
    ensures AlwaysFingerKnown(pressed, attached, steps, node, s) <==> CarefulRun(pressed, attached, steps, node, s)
  {
    if steps == [] {
      FingerKnownAtFirst(pressed, attached, node, s);
    } else {
      var before, step := steps[..|steps| - 1], steps[|steps| - 1];
      BeforeFits(attached, steps);
      RunIsRouted(pressed, attached, steps, node, s);
      RunIsRouted(pressed, attached, before, node, s);
      RunKeepsTouchInv(pressed, attached, before, node, s);
      FingerKnownIffCareful(pressed, attached, before, node, s);
      if AlwaysFingerKnown(pressed, attached, before, node, s) {
        AlwaysFingerKnownIsKnown(pressed, attached, before, node, s);
        StepKeepsFinger(Run(pressed, attached, before), Truth(pressed, attached, before, node, s), attached, step, node,
                        s);
      }
    }
  }

  lemma WordNeedsPress(t: TouchTruth)
    ensures Word(t).Down? ==> HasTouch(t.recorded, KEY_DOWN_STATE)
    ensures FrameInv(t) && Word(t).Up? ==> OpenLifts(t.recorded)
  {
    WordParts(t);
    SaidTouch(Retained(t.recorded));
    if HasTouch(Retained(t.recorded), KEY_DOWN_STATE) {
      var x :| x in Retained(t.recorded) && IsTouch(x, KEY_DOWN_STATE);
      RetainedIsOffAxis(t.recorded, x);
    }
  }

  /**
   With careful steps and starts that fit, wherever in a frame sharing is switched: at every shared moment the session
   that holds the touchpad shows the finger as it is, and any other one shows none; and while the touchpad is not
   shared, a session shows at most a touch that it was left with and whose lifting frame is not complete.
   */
  lemma {:induction false} HandOffExactWhenCareful(pressed: KeyMap, attached: set<string>, steps: seq<Step>, node: Node,
                                                   s: int)
    requires LegalRun(attached, steps, node, s) && Alternating(pressed, attached, steps, node, s)
    requires CarefulRun(pressed, attached, steps, node, s) && StartsFit(attached, CommandsOf(steps))
    ensures var sys, t, d := Run(pressed, attached, steps), Truth(pressed, attached, steps, node, s), node.descriptor;
            var shown := BTN_TOUCH in sys.SourceAt(s, d);
            if sys.Shares(d) then shown <==> d in Held(sys.books, s) && BTN_TOUCH in t.ledger.held
            else
              shown ==>
                && !HasTouch(t.recorded, KEY_DOWN_STATE)
                && (BTN_TOUCH in t.ledger.held || OpenLifts(t.recorded))
  {
    var sys, t, d := Run(pressed, attached, steps), Truth(pressed, attached, steps, node, s), node.descriptor;
    RunKeepsTouchInv(pressed, attached, steps, node, s);
    FingerKnownIffCareful(pressed, attached, steps, node, s);
    AlwaysFingerKnownIsKnown(pressed, attached, steps, node, s);
    RunIsRouted(pressed, attached, steps, node, s);
    WordNeedsPress(t);
    if sys.Shares(d) {
      HolderIsOpened(sys.books, attached, s, d);
    }
  }

  // ----- where it is not

  /**
   Over any run of alternating touches: a start shows the finger as it is exactly if something retained speaks of it, or
   else what the first scan found or the session showed before is how the finger is now.
   */
  lemma {:induction false} StartRightIff(pressed: KeyMap, attached: set<string>, steps: seq<Step>, cmd: Command,
                                         node: Node, s: int)
    requires LegalRun(attached, steps, node, s) && Alternating(pressed, attached, steps, node, s)
    requires Legal(cmd, attached) && Starts(cmd, Run(pressed, attached, steps).books, node.descriptor)
    requires cmd.session == s
    ensures var sys, t := Run(pressed, attached, steps), Truth(pressed, attached, steps, node, s);
            var down := BTN_TOUCH in t.ledger.held;
            (BTN_TOUCH in Next(sys, attached, Control(cmd)).SourceAt(s, node.descriptor) <==> down)
            <==> (Word(t).Nothing? ==>
                    (BTN_TOUCH in t.scanned || BTN_TOUCH in sys.SourceAt(s, node.descriptor) <==> down))
  {
    var sys, t := Run(pressed, attached, steps), Truth(pressed, attached, steps, node, s);
    RunKeepsTouchInv(pressed, attached, steps, node, s);
    RunKeepsFrame(pressed, attached, steps, node, s);
    StartShows(sys, t, attached, cmd, node, s, BTN_TOUCH);
    WordParts(t);
  }

  /**
   Over any run of alternating touches: a frame that lifts the finger takes a touch from a session exactly if that was
   the last one to start or stop, and the first frame retained presses no finger.
   */
  lemma {:induction false} ResetReachesIff(pressed: KeyMap, attached: set<string>, steps: seq<Step>, step: Step,
                                           node: Node, s: int)
    requires LegalRun(attached, steps, node, s) && Alternating(pressed, attached, steps, node, s)
    requires !Run(pressed, attached, steps).Shares(node.descriptor) && LegalFor(step, attached, node)
    requires step.Physical? && step.node == node
    requires Lifts(Truth(pressed, attached, steps, node, s), EventOf(node, step.ev, step.touchId))
    ensures var sys, t, e := Run(pressed, attached, steps), Truth(pressed, attached, steps, node, s),
                             EventOf(node, step.ev, step.touchId);
            BTN_TOUCH in Next(sys, attached, step).SourceAt(s, node.descriptor)
            <==> BTN_TOUCH in sys.SourceAt(s, node.descriptor)
                 && !(sys.state.lastSession == s && !HasTouch(FirstFrame(Retained(t.recorded) + [e]), KEY_DOWN_STATE))
  {
    var sys, t := Run(pressed, attached, steps), Truth(pressed, attached, steps, node, s);
    RunKeepsTouchInv(pressed, attached, steps, node, s);
    RunKeepsFrame(pressed, attached, steps, node, s);
    TouchStep(sys, t, attached, step, node, s);
    LiftTakes(t, EventOf(node, step.ev, step.touchId), sys.state.lastSession == s);
  }

  function Press(value: int): InputEvent { InputEvent(0, EV_KEY, BTN_TOUCH, value) }

  const SYN := InputEvent(0, EV_SYN, SYN_REPORT, 0)

  /** A frame that is nothing but a touch event retains nothing. */
  lemma BareFrame(h: seq<RawEvent>, e: RawEvent, syn: RawEvent)
    requires OpenFrom(h) == |h| && !IsPositionEvent(e) && !IsSynEvent(e) && IsSynEvent(syn)
    ensures Retained(h + [e] + [syn]) == Retained(h)
  {
    OpenAfter(h, e);
    RetainedClosed(h + [e], syn);
    CutConcat(h, [e], |h|);
    assert (h + [e])[..|h|] == h && (h + [e])[|h|..] == [e];
    NonPositionOne(e);
    ConcatEmpty(Retained(h));
  }

  lemma BareFrameLiftsNot(h: seq<RawEvent>, e: RawEvent)
    requires OpenFrom(h) == |h| && !IsSynEvent(e) && !IsTouch(e, KEY_UP_STATE)
    ensures !OpenLifts(h) && !OpenLifts(h + [e])
  {
    OpenAfter(h, e);
    assert h[|h|..] == [] && (h + [e])[|h|..] == [e];
    HasTouchOne(e, KEY_UP_STATE);
  }

  /**
   From any reachable state in which the touchpad is not shared, between frames and with the finger up: after a press
   alone in its frame, a start shows the finger exactly if the first scan still speaks for it or the session showed it.
   */
  lemma {:induction false} BarePressShownIff(sys: System, t: TouchTruth, attached: set<string>, dhIds: string,
                                             node: Node, s: int)
    requires Sound(sys, attached) && TouchInv(sys, t, node, s) && node.touchPad && !node.touchScreen && s > 0
    requires !sys.Shares(node.descriptor) && OpenFrom(t.recorded) == |t.recorded|
    requires FrameInv(t) && BTN_TOUCH !in t.ledger.held
    requires s in SessionSwitch.Ids(sys.books.switches) && Ids(dhIds) <= attached && node.descriptor in Ids(dhIds)
    ensures var s1 := Next(sys, attached, Physical(node, Press(KEY_DOWN_STATE), "", 0));
            var s2 := Next(s1, attached, Physical(node, SYN, "", 0));
            var s3 := Next(s2, attached, Control(StartDhid(s, dhIds)));
            && s3.Shares(node.descriptor)
            && (BTN_TOUCH in s3.SourceAt(s, node.descriptor)
                <==> BTN_TOUCH in t.scanned || BTN_TOUCH in sys.SourceAt(s, node.descriptor))
  {
    var p1, p2 := Physical(node, Press(KEY_DOWN_STATE), "", 0), Physical(node, SYN, "", 0);
    var press, syn := EventOf(node, Press(KEY_DOWN_STATE), ""), EventOf(node, SYN, "");
    BareFrame(t.recorded, press, syn);
    BareFrameLiftsNot(t.recorded, press);
    BetweenFrames(t);
    WordParts(t);
    TouchStep(sys, t, attached, p1, node, s);
    var s1, t1 := Next(sys, attached, p1), Watch(sys, t, p1, node, s);
    assert t1.recorded == t.recorded + [press];
    TouchStep(s1, t1, attached, p2, node, s);
    var s2, t2 := Next(s1, attached, p2), Watch(s1, t1, p2, node, s);
    assert t2.recorded == t.recorded + [press] + [syn];
    StartShows(s2, t2, attached, StartDhid(s, dhIds), node, s, BTN_TOUCH);
  }

  function Prepared(pressed: KeyMap, attached: set<string>, x: int): (sys: System)
    ensures sys.Ok()
  {
    Next(Initial(pressed), attached, Control(Prepare(x)))
  }

  predicate OneTouchpad(attached: set<string>, x: int, node: Node) {
    node.touchPad && !node.touchScreen && x > 0 && Ids(node.descriptor) == {node.descriptor} <= attached
  }

  lemma PreparedKnown(pressed: KeyMap, attached: set<string>, x: int, node: Node)
    requires OneTouchpad(attached, x, node)
    ensures var sys, codes := Prepared(pressed, attached, x), KeyHandOff.Codes(ListOf(pressed, node.descriptor));
            && Sound(sys, attached) && !sys.Shares(node.descriptor) && x in SessionSwitch.Ids(sys.books.switches)
            && TouchInv(sys, TouchTruth(Ledger(codes, codes, {}), codes, [], false), node, x)
  {
    RunKeepsTouchInv(pressed, attached, [], node, x);
    OneBorrower(attached, x, node.descriptor);
    TouchStep(Initial(pressed), Truth(pressed, attached, [], node, x), attached, Control(Prepare(x)), node, x);
  }

  /** The same from the beginning: prepare, a bare press, borrow. */
  lemma {:induction false} LostFromTheStart(attached: set<string>, x: int, node: Node)
    requires OneTouchpad(attached, x, node)
    ensures var d := node.descriptor;
            var s1 := Next(Prepared(map[], attached, x), attached, Physical(node, Press(KEY_DOWN_STATE), "", 0));
            var s2 := Next(s1, attached, Physical(node, SYN, "", 0));
            BTN_TOUCH !in Next(s2, attached, Control(StartDhid(x, d))).SourceAt(x, d)
  {
    PreparedKnown(map[], attached, x, node);
    var t := TouchTruth(Ledger({}, {}, {}), {}, [], false);
    Emptied(t);
    BarePressShownIff(Prepared(map[], attached, x), t, attached, node.descriptor, node, x);
  }

  lemma LiftedFrame(t: TouchTruth, up: RawEvent, syn: RawEvent, last: bool)
    requires t.ledger.Ok() && t.recorded == [] && IsTouch(up, KEY_UP_STATE) && IsSynEvent(syn)
    ensures var r := RecordedChange(RecordedChange(t, up, last), syn, last);
            r.recorded == [] && r.scanned == t.scanned && BTN_TOUCH !in r.ledger.held
  {
    ConcatEmpty([up]);
    OpenAfter([], up);
    HasTouchOne(up, KEY_UP_STATE);
    assert [up][0..] == [up];
  }

  /** The first scan finds the finger down, it lifts, and a first start puts it down at the source. */
  lemma {:induction false} StaleScanFromTheStart(pressed: KeyMap, attached: set<string>, x: int, node: Node)
    requires OneTouchpad(attached, x, node) && BTN_TOUCH in KeyHandOff.Codes(ListOf(pressed, node.descriptor))
    ensures var d := node.descriptor;
            var s1 := Next(Prepared(pressed, attached, x), attached, Physical(node, Press(KEY_UP_STATE), "", 0));
            var s2 := Next(s1, attached, Physical(node, SYN, "", 0));
            BTN_TOUCH in Next(s2, attached, Control(StartDhid(x, d))).SourceAt(x, d)
  {
    var codes := KeyHandOff.Codes(ListOf(pressed, node.descriptor));
    var sys, t := Prepared(pressed, attached, x), TouchTruth(Ledger(codes, codes, {}), codes, [], false);
    var p1, p2 := Physical(node, Press(KEY_UP_STATE), "", 0), Physical(node, SYN, "", 0);
    PreparedKnown(pressed, attached, x, node);
    TouchStep(sys, t, attached, p1, node, x);
    var s1, t1 := Next(sys, attached, p1), Watch(sys, t, p1, node, x);
    TouchStep(s1, t1, attached, p2, node, x);
    var s2, t2 := Next(s1, attached, p2), Watch(s1, t1, p2, node, x);
    LiftedFrame(t, EventOf(node, Press(KEY_UP_STATE), ""), EventOf(node, SYN, ""), sys.state.lastSession == x);
    assert Retained([]) == [];
    StartShows(s2, t2, attached, StartDhid(x, node.descriptor), node, x, BTN_TOUCH);
  }

  /** A start right after a stop, by whichever session, tells nothing: what went on before is not recorded. */
  lemma {:induction false} StartAfterStop(sys: System, t: TouchTruth, attached: set<string>, y: int, dhIds: string,
                                          node: Node, s: int)
    requires Sound(sys, attached) && TouchInv(sys, t, node, s) && node.touchPad && !node.touchScreen && s > 0
    requires sys.Shares(node.descriptor) && y > 0 && y in sys.books.bySession
    requires s in SessionSwitch.Ids(sys.books.switches) && Ids(dhIds) <= attached && node.descriptor in Ids(dhIds)
    ensures var s1 := Next(sys, attached, Control(StopDhid(y, dhIds)));
            var s2 := Next(s1, attached, Control(StartDhid(s, dhIds)));
            s2.Shares(node.descriptor) && s2.SourceAt(s, node.descriptor) == sys.SourceAt(s, node.descriptor)
  {
    var stop, start := Control(StopDhid(y, dhIds)), Control(StartDhid(s, dhIds));
    TouchStep(sys, t, attached, stop, node, s);
    SessionSwitch.CallRefinesMap(sys.books.switches, SessionSwitch.StopAllOp);
    var s1 := Next(sys, attached, stop);
    TouchStep(s1, t, attached, start, node, s);
    RestartChangesNothing(t, true);
  }

  lemma OneBorrowedKnown(attached: set<string>, y: int, s: int, node: Node)
    requires OneTouchpad(attached, s, node) && y > 0 && y != s
    ensures var sys, d := KeyHandOff.OneBorrowed(attached, y, s, node.descriptor), node.descriptor;
            && Sound(sys, attached) && TouchInv(sys, TouchTruth(Ledger({}, {}, {}), {}, [], false), node, s)
            && sys.Shares(d) && sys.Opened() == y && y in sys.books.bySession
            && s in SessionSwitch.Ids(sys.books.switches) && sys.SourceAt(s, d) == {}
  {
    var t, d := TouchTruth(Ledger({}, {}, {}), {}, [], false), node.descriptor;
    var s1 := Next(Initial(map[]), attached, Control(Prepare(y)));
    var s2 := Next(s1, attached, Control(Prepare(s)));
    OneStartedIs(attached, y, s, d);
    RunKeepsTouchInv(map[], attached, [], node, s);
    TouchStep(Initial(map[]), t, attached, Control(Prepare(y)), node, s);
    TouchStep(s1, t, attached, Control(Prepare(s)), node, s);
    TouchStep(s2, t, attached, Control(StartDhid(y, d)), node, s);
  }

  /** From the beginning: `y` borrows the touchpad, the finger goes down, `y` stops, and `s` borrows it: no finger. */
  lemma {:induction false} StopByOtherLosesFinger(attached: set<string>, y: int, s: int, node: Node)
    requires OneTouchpad(attached, s, node) && y > 0 && y != s
    ensures var d := node.descriptor;
            var s4 := Next(KeyHandOff.OneBorrowed(attached, y, s, d), attached,
                           KeyHandOff.KeyEvent(node, BTN_TOUCH, KEY_DOWN_STATE));
            var s5 := Next(s4, attached, Control(StopDhid(y, d)));
            var s6 := Next(s5, attached, Control(StartDhid(s, d)));
            s6.Shares(d) && s6.SourceAt(s, d) == {}
  {
    var sys := KeyHandOff.OneBorrowed(attached, y, s, node.descriptor);
    var t := TouchTruth(Ledger({}, {}, {}), {}, [], false);
    var press := KeyHandOff.KeyEvent(node, BTN_TOUCH, KEY_DOWN_STATE);
    OneBorrowedKnown(attached, y, s, node);
    TouchStep(sys, t, attached, press, node, s);
    KeyHandOff.FreshPress(sys, attached, node, BTN_TOUCH, s);
    StartAfterStop(Next(sys, attached, press), Watch(sys, t, press, node, s), attached, y, node.descriptor, node, s);
  }
}
