/**
 The touchpad buffer of TouchPadEventFragmentMgr: for each device the events recorded while it is not shared, cut
 into one fragment per SYN frame. The last fragment is the frame still being received.
 */
module TouchFragments {
  import opened InputEvents
  import opened SeqFacts

  type Fragment = seq<RawEvent>
  type FragmentMap = map<string, seq<Fragment>>

  /** Some event of the fragment is a BTN_TOUCH key event with this value. */
  predicate HasTouch(f: Fragment, value: int) {
    exists e :: e in f && IsTouch(e, value)
  }

  function Joined(fragments: seq<Fragment>): seq<RawEvent> {
    if fragments == [] then [] else fragments[0] + Joined(fragments[1..])
  }

  datatype Pushed = Pushed(fragments: seq<Fragment>, needSim: bool, events: seq<RawEvent>)

  /** PushEvent on the fragments of one device, with DealSynEvent inlined. */
  function Push(fragments: seq<Fragment>, e: RawEvent): Pushed
    requires fragments != []
  {
    var closed, current := fragments[..|fragments| - 1], fragments[|fragments| - 1] + [e];
    if IsPositionEvent(e) then Pushed(fragments, false, [])
    else if !IsSynEvent(e) then Pushed(closed + [current], false, [])
    else if HasTouch(current, KEY_UP_STATE) then
      var all := closed + [current];
      if HasTouch(all[0], KEY_DOWN_STATE) then Pushed([[]], false, []) else Pushed([[]], true, Joined(all))
    else if |current| == 2 then Pushed(closed + [[]], false, [])
    else Pushed(closed + [current] + [[]], false, [])
  }

  function FragmentsOf(m: FragmentMap, dhId: string): seq<Fragment> {
    if dhId in m then m[dhId] else [[]]
  }

  predicate NoEmptyEntry(m: FragmentMap) {
    forall d :: d in m ==> m[d] != []
  }

  /** PushEvent on the whole buffer: a position event is refused before an entry is made for the device. */
  function PushTo(m: FragmentMap, dhId: string, e: RawEvent): FragmentMap
    requires NoEmptyEntry(m)
  {
    if IsPositionEvent(e) then m else m[dhId := Push(FragmentsOf(m, dhId), e).fragments]
  }

  // ----- shape

  predicate NoSyn(f: Fragment) {
    forall j :: 0 <= j < |f| ==> !IsSynEvent(f[j])
  }

  /** A closed fragment ends in its only SYN_REPORT, lifts no finger and is not of the size that is dropped. */
  predicate Closed(f: Fragment) {
    && f != [] && NoSyn(f[..|f| - 1]) && IsSynEvent(f[|f| - 1])
    && !HasTouch(f, KEY_UP_STATE) && |f| != 2
  }

  predicate Shape(fragments: seq<Fragment>) {
    && fragments != []
    && (forall i :: 0 <= i < |fragments| - 1 ==> Closed(fragments[i]))
    && NoSyn(fragments[|fragments| - 1])
  }

  lemma PushKeepsShape(fragments: seq<Fragment>, e: RawEvent)
    requires Shape(fragments)
    ensures Shape(Push(fragments, e).fragments)
  {
    var closed, current := fragments[..|fragments| - 1], fragments[|fragments| - 1] + [e];
    assert current[..|current| - 1] == fragments[|fragments| - 1];
    if IsSynEvent(e) && !HasTouch(current, KEY_UP_STATE) && |current| != 2 {
      assert Closed(current);
    }
  }

  lemma {:induction false} JoinedConcat(a: seq<Fragment>, b: seq<Fragment>)
    ensures Joined(a + b) == Joined(a) + Joined(b)
  {
    if a == [] {
      assert a + b == b;
    } else {
      FirstOfConcat(a, b);
      JoinedConcat(a[1..], b);
      ConcatAssoc(a[0], Joined(a[1..]), Joined(b));
    }
  }

  /** The buffer ends with its last fragment. */
  lemma {:induction false} JoinedSplit(fragments: seq<Fragment>)
    requires fragments != []
    ensures Joined(fragments) == Joined(fragments[..|fragments| - 1]) + fragments[|fragments| - 1]
  {
    var last := fragments[|fragments| - 1];
    assert fragments == fragments[..|fragments| - 1] + [last];
    JoinedConcat(fragments[..|fragments| - 1], [last]);
    assert Joined([last]) == last + Joined([]);
  }

  // ----- what is kept of a history: an independent reading of the pushed events, frame by frame

  function FirstSyn(h: seq<RawEvent>): (i: nat)
    ensures i <= |h| && (i < |h| ==> IsSynEvent(h[i]))
    ensures forall j :: 0 <= j < i ==> !IsSynEvent(h[j])
  {
    if h == [] || IsSynEvent(h[0]) then 0 else 1 + FirstSyn(h[1..])
  }

  function NonPosition(h: seq<RawEvent>): seq<RawEvent> {
    if h == [] then [] else (if IsPositionEvent(h[0]) then [] else [h[0]]) + NonPosition(h[1..])
  }

  function Kept(frame: seq<RawEvent>): seq<RawEvent> {
    if |frame| == 2 then [] else frame
  }

  /** Position events go, and so do complete frames that then have exactly two events. */
  function Retained(h: seq<RawEvent>): seq<RawEvent>
    decreases |h|
  {
    var k := FirstSyn(h);
    if k == |h| then NonPosition(h)
    else Kept(NonPosition(h[..k + 1])) + Retained(h[k + 1..])
  }

  /** Where the frame that is still open begins. */
  function OpenFrom(h: seq<RawEvent>): (i: nat)
    ensures i <= |h| && (i > 0 ==> IsSynEvent(h[i - 1])) && NoSyn(h[i..])
  {
    if h == [] || IsSynEvent(h[|h| - 1]) then |h| else
      var i := OpenFrom(h[..|h| - 1]);
      assert h[i..] == h[..|h| - 1][i..] + [h[|h| - 1]];
      i
  }

  lemma {:induction false} NonPositionConcat(a: seq<RawEvent>, b: seq<RawEvent>)
    ensures NonPosition(a + b) == NonPosition(a) + NonPosition(b)
  {
    if a == [] {
      assert a + b == b;
    } else {
      FirstOfConcat(a, b);
      NonPositionConcat(a[1..], b);
      ConcatAssoc(if IsPositionEvent(a[0]) then [] else [a[0]], NonPosition(a[1..]), NonPosition(b));
    }
  }

  lemma FirstSynIs(h: seq<RawEvent>, k: nat)
    requires k <= |h| && (forall j :: 0 <= j < k ==> !IsSynEvent(h[j])) && (k < |h| ==> IsSynEvent(h[k]))
    ensures FirstSyn(h) == k
  {
  }

  /** The first SYN_REPORT is at `k`. */
  predicate SynAt(h: seq<RawEvent>, k: nat) {
    k < |h| && IsSynEvent(h[k]) && forall j :: 0 <= j < k ==> !IsSynEvent(h[j])
  }

  lemma RetainedStep(h: seq<RawEvent>, k: nat)
    requires SynAt(h, k)
    ensures Retained(h) == Kept(NonPosition(h[..k + 1])) + Retained(h[k + 1..])
  {
    FirstSynIs(h, k);
  }

  lemma NonPositionOne(e: RawEvent)
    ensures NonPosition([e]) == if IsPositionEvent(e) then [] else [e]
  {
    assert NonPosition([e][1..]) == [];
  }

  lemma SynAtConcat(a: seq<RawEvent>, b: seq<RawEvent>, k: nat)
    requires SynAt(a, k)
    ensures SynAt(a + b, k)
  {
    assert forall j :: 0 <= j <= k ==> (a + b)[j] == a[j];
  }

  lemma EndOfRest(a: seq<RawEvent>, k: nat)
    requires k <= |a|
    ensures a[k..] != [] ==> a[k..][|a[k..]| - 1] == a[|a| - 1]
  {
  }

  lemma FrameThenMore(a: seq<RawEvent>, b: seq<RawEvent>, k: nat)
    requires SynAt(a, k)
    ensures Retained(a + b) == Kept(NonPosition(a[..k + 1])) + Retained(a[k + 1..] + b)
  {
    SynAtConcat(a, b, k);
    CutConcat(a, b, k + 1);
    RetainedStep(a + b, k);
  }

  /** Whole frames are retained independently of what follows them. */
  lemma {:induction false} RetainedConcat(a: seq<RawEvent>, b: seq<RawEvent>)
    requires a != [] ==> IsSynEvent(a[|a| - 1])
    ensures Retained(a + b) == Retained(a) + Retained(b)
    decreases |a|
  {
    if a == [] {
      assert a + b == b;
    } else {
      var k := FirstSyn(a);
      var rest := a[k + 1..];
      EndOfRest(a, k + 1);
      RetainedStep(a, k);
      FrameThenMore(a, b, k);
      RetainedConcat(rest, b);
      ConcatAssoc(Kept(NonPosition(a[..k + 1])), Retained(rest), Retained(b));
    }
  }

  lemma RetainedOpen(t: seq<RawEvent>)
    requires NoSyn(t)
    ensures Retained(t) == NonPosition(t)
  {
    assert t[..|t|] == t;
    FirstSynIs(t, |t|);
  }

  lemma RetainedFrame(t: seq<RawEvent>, syn: RawEvent)
    requires NoSyn(t) && IsSynEvent(syn)
    ensures Retained(t + [syn]) == if |NonPosition(t)| == 1 then [] else NonPosition(t) + [syn]
  {
    Snoc(t, syn);
    RetainedStep(t + [syn], |t|);
    assert (t + [syn])[..|t| + 1] == t + [syn];
    NonPositionConcat(t, [syn]);
    NonPositionOne(syn);
  }

  /** The codes of a position: X and Y of the pad, and of a touch on it. */
  predicate OnAxis(e: RawEvent) {
    e.kind == 3 && (e.code == 0x00 || e.code == 0x01 || e.code == 0x35 || e.code == 0x36)
  }

  lemma {:induction false} NonPositionIs(h: seq<RawEvent>, e: RawEvent)
    ensures e in NonPosition(h) <==> e in h && !OnAxis(e)
  {
    if h != [] {
      NonPositionIs(h[1..], e);
      assert e in h <==> e == h[0] || e in h[1..];
      assert e in NonPosition(h) <==> (e == h[0] && !IsPositionEvent(e)) || e in NonPosition(h[1..]);
    }
  }

  /** Nothing on an axis is retained; and of a frame that is still open, everything else is. */
  lemma {:induction false} RetainedIsOffAxis(h: seq<RawEvent>, e: RawEvent)
    ensures e in Retained(h) ==> e in h && !OnAxis(e)
    ensures NoSyn(h) ==> (e in Retained(h) <==> e in h && !OnAxis(e))
    decreases |h|
  {
    var k := FirstSyn(h);
    if k == |h| {
      NonPositionIs(h, e);
    } else {
      NonPositionIs(h[..k + 1], e);
      RetainedIsOffAxis(h[k + 1..], e);
    }
  }

  // ----- conservation

  /** `fragments` is what the buffer must hold after the history `h` of events pushed since it was last emptied. */
  predicate Represents(fragments: seq<Fragment>, h: seq<RawEvent>) {
    && Shape(fragments)
    && Joined(fragments[..|fragments| - 1]) == Retained(h[..OpenFrom(h)])
    && fragments[|fragments| - 1] == NonPosition(h[OpenFrom(h)..])
  }

  /** The frame that `h` leaves open lifts a finger. */
  predicate OpenLifts(h: seq<RawEvent>) {
    HasTouch(h[OpenFrom(h)..], KEY_UP_STATE)
  }

  lemma {:induction false} NonPositionKeepsTouch(h: seq<RawEvent>, value: int)
    ensures HasTouch(NonPosition(h), value) <==> HasTouch(h, value)
  {
    if h != [] {
      NonPositionKeepsTouch(h[1..], value);
      assert forall e :: e in h <==> e == h[0] || e in h[1..];
    }
  }

  lemma {:induction false} RepresentsJoined(fragments: seq<Fragment>, h: seq<RawEvent>)
    requires Represents(fragments, h)
    ensures Joined(fragments) == Retained(h)
  {
    var i := OpenFrom(h);
    JoinedSplit(fragments);
    RetainedOpen(h[i..]);
    assert h == h[..i] + h[i..];
    RetainedConcat(h[..i], h[i..]);
  }

  function FirstFrame(s: seq<RawEvent>): seq<RawEvent> {
    var k := FirstSyn(s);
    if k == |s| then s else s[..k + 1]
  }

  /** A buffer whose last fragment has its SYN starts with its first fragment, and that is its first frame. */
  lemma FirstFragment(all: seq<Fragment>)
    requires all != [] && all[0] != [] && NoSyn(all[0][..|all[0]| - 1]) && IsSynEvent(all[0][|all[0]| - 1])
    ensures FirstFrame(Joined(all)) == all[0]
  {
    var f, s := all[0], Joined(all);
    assert s == f + Joined(all[1..]);
    assert forall j :: 0 <= j < |f| - 1 ==> s[j] == f[..|f| - 1][j];
    FirstSynIs(s, |f| - 1);
    assert s[..|f|] == f;
  }

  /** The buffer at the end of a frame, before it is decided what happens to it. */
  lemma AllAtSyn(fragments: seq<Fragment>, syn: RawEvent)
    requires Shape(fragments) && IsSynEvent(syn)
    ensures var all := fragments[..|fragments| - 1] + [fragments[|fragments| - 1] + [syn]];
            all[0] == FirstFrame(Joined(all)) && Joined(all) == Joined(fragments) + [syn]
  {
    var last := fragments[|fragments| - 1];
    var all := fragments[..|fragments| - 1] + [last + [syn]];
    JoinedSplit(fragments);
    JoinedSplit(all);
    assert all[..|all| - 1] == fragments[..|fragments| - 1];
    if |fragments| == 1 {
      assert all[0][..|all[0]| - 1] == last;
    } else {
      assert Closed(fragments[0]);
    }
    FirstFragment(all);
  }

  lemma OpenAfter(h: seq<RawEvent>, e: RawEvent)
    ensures IsSynEvent(e) ==> OpenFrom(h + [e]) == |h| + 1
    ensures !IsSynEvent(e) ==> OpenFrom(h + [e]) == OpenFrom(h)
  {
    Snoc(h, e);
  }

  lemma PushInsideFrame(fragments: seq<Fragment>, h: seq<RawEvent>, e: RawEvent)
    requires Represents(fragments, h) && !IsSynEvent(e)
    ensures Represents(Push(fragments, e).fragments, h + [e])
  {
    var i, closed := OpenFrom(h), fragments[..|fragments| - 1];
    PushKeepsShape(fragments, e);
    OpenAfter(h, e);
    CutConcat(h, [e], i);
    NonPositionConcat(h[i..], [e]);
    NonPositionOne(e);
    Snoc(closed, fragments[|closed|] + [e]);
  }

  /** What is retained of a history that a SYN_REPORT has just completed. */
  lemma {:induction false} RetainedClosed(h: seq<RawEvent>, e: RawEvent)
    requires IsSynEvent(e)
    ensures var i, open := OpenFrom(h), NonPosition(h[OpenFrom(h)..]);
            Retained(h + [e]) == Retained(h[..i]) + (if |open| == 1 then [] else open + [e])
  {
    var i := OpenFrom(h);
    CutConcat(h, [e], i);
    CutJoin(h + [e], i);
    RetainedConcat(h[..i], h[i..] + [e]);
    RetainedFrame(h[i..], e);
  }

  lemma PushAtSyn(fragments: seq<Fragment>, e: RawEvent)
    requires fragments != [] && IsSynEvent(e) && !HasTouch(fragments[|fragments| - 1] + [e], KEY_UP_STATE)
    ensures var f, last := Push(fragments, e).fragments, fragments[|fragments| - 1];
            && f[|f| - 1] == []
            && Joined(f[..|f| - 1]) == Joined(fragments[..|fragments| - 1]) + (if |last| == 1 then [] else last + [e])
  {
    var closed, current := fragments[..|fragments| - 1], fragments[|fragments| - 1] + [e];
    if |current| == 2 {
      Snoc(closed, []);
      ConcatEmpty(Joined(closed));
    } else {
      Snoc(closed + [current], []);
      Snoc(closed, current);
      JoinedSplit(closed + [current]);
    }
  }

  lemma PushClosesFrame(fragments: seq<Fragment>, h: seq<RawEvent>, e: RawEvent)
    requires Represents(fragments, h) && IsSynEvent(e)
    requires !HasTouch(fragments[|fragments| - 1] + [e], KEY_UP_STATE)
    ensures Represents(Push(fragments, e).fragments, h + [e])
  {
    PushKeepsShape(fragments, e);
    PushAtSyn(fragments, e);
    OpenAfter(h, e);
    Snoc(h, e);
    assert (h + [e])[..|h| + 1] == h + [e];
    RetainedClosed(h, e);
  }

  lemma LiftSeen(fragments: seq<Fragment>, h: seq<RawEvent>, e: RawEvent)
    requires Represents(fragments, h) && IsSynEvent(e)
    ensures HasTouch(fragments[|fragments| - 1] + [e], KEY_UP_STATE) <==> OpenLifts(h)
  {
    var last := fragments[|fragments| - 1];
    NonPositionKeepsTouch(h[OpenFrom(h)..], KEY_UP_STATE);
    assert forall x :: x in last + [e] <==> x in last || x == e;
  }

  lemma {:induction false} PushLifts(fragments: seq<Fragment>, h: seq<RawEvent>, e: RawEvent)
    requires Represents(fragments, h) && IsSynEvent(e) && OpenLifts(h)
    ensures var p := Push(fragments, e);
            && p.fragments == [[]] && (p.needSim <==> !HasTouch(FirstFrame(Retained(h) + [e]), KEY_DOWN_STATE))
            && p.events == (if p.needSim then Retained(h) + [e] else [])
  {
    LiftSeen(fragments, h, e);
    RepresentsJoined(fragments, h);
    AllAtSyn(fragments, e);
  }

  lemma EmptyRepresents()
    ensures Represents([[]], [])
  {
    assert Joined([[]][..0]) == [];
  }

  /**
   One push, against the history: a lifting frame empties the buffer and hands out exactly the retained events if the
   first retained frame presses no finger, and nothing otherwise; any other event just joins the history.
   */
  lemma {:induction false} PushFollowsHistory(fragments: seq<Fragment>, h: seq<RawEvent>, e: RawEvent)
    requires Represents(fragments, h)
    ensures var p := Push(fragments, e);
            var lifts := IsSynEvent(e) && OpenLifts(h);
            && Represents(p.fragments, if lifts then [] else h + [e])
            && (p.needSim <==> lifts && !HasTouch(FirstFrame(Retained(h) + [e]), KEY_DOWN_STATE))
            && p.events == (if p.needSim then Retained(h) + [e] else [])
  {
    if !IsSynEvent(e) {
      PushInsideFrame(fragments, h, e);
    } else {
      LiftSeen(fragments, h, e);
      if OpenLifts(h) {
        PushLifts(fragments, h, e);
        EmptyRepresents();
      } else {
        PushClosesFrame(fragments, h, e);
      }
    }
  }

  // ----- over any run of pushes, flushes and clears of any devices

  datatype BufferOp = PushOp(dhId: string, event: RawEvent) | TakeOp(dhId: string) | ClearOp(dhId: string)

  function DoOp(m: FragmentMap, op: BufferOp): (r: FragmentMap)
    requires NoEmptyEntry(m)
    ensures NoEmptyEntry(r)
  {
    match op
    case PushOp(d, e) => PushTo(m, d, e)
    case TakeOp(d) => m - {d}
    case ClearOp(d) => m - {d}
  }

  function RunOps(ops: seq<BufferOp>): (m: FragmentMap)
    ensures NoEmptyEntry(m)
  {
    if ops == [] then map[] else DoOp(RunOps(ops[..|ops| - 1]), ops[|ops| - 1])
  }

  function SinceOp(h: seq<RawEvent>, op: BufferOp, dhId: string): seq<RawEvent> {
    if op.dhId != dhId then h
    else if !op.PushOp? || (IsSynEvent(op.event) && OpenLifts(h)) then []
    else h + [op.event]
  }

  /** The events pushed for a device since its buffer was last taken, cleared or ended by a lifting frame. */
  function Since(ops: seq<BufferOp>, dhId: string): seq<RawEvent> {
    if ops == [] then [] else SinceOp(Since(ops[..|ops| - 1], dhId), ops[|ops| - 1], dhId)
  }

  lemma PushedFragments(m: FragmentMap, d: string, e: RawEvent)
    requires NoEmptyEntry(m)
    ensures FragmentsOf(PushTo(m, d, e), d) == Push(FragmentsOf(m, d), e).fragments
  {
  }

  lemma {:induction false} OpKeepsHistory(m: FragmentMap, h: seq<RawEvent>, op: BufferOp, dhId: string)
    requires NoEmptyEntry(m) && Represents(FragmentsOf(m, dhId), h)
    ensures Represents(FragmentsOf(DoOp(m, op), dhId), SinceOp(h, op, dhId))
  {
    match op
    case PushOp(d, e) =>
      if d == dhId {
        PushedFragments(m, d, e);
        PushFollowsHistory(FragmentsOf(m, d), h, e);
      }
    case TakeOp(d) => EmptyRepresents();
    case ClearOp(d) => EmptyRepresents();
  }

  lemma {:induction false} RunKeepsHistory(ops: seq<BufferOp>, dhId: string)
    ensures Represents(FragmentsOf(RunOps(ops), dhId), Since(ops, dhId))
  {
    if ops == [] {
      EmptyRepresents();
    } else {
      RunKeepsHistory(ops[..|ops| - 1], dhId);
      OpKeepsHistory(RunOps(ops[..|ops| - 1]), Since(ops[..|ops| - 1], dhId), ops[|ops| - 1], dhId);
    }
  }

  /** Conservation and shape: the buffer always holds exactly the retained part of what came in since it was emptied. */
  lemma {:induction false} BufferHoldsRetained(ops: seq<BufferOp>, dhId: string)
    ensures Joined(FragmentsOf(RunOps(ops), dhId)) == Retained(Since(ops, dhId))
    ensures dhId in RunOps(ops) ==> Shape(RunOps(ops)[dhId])
  {
    RunKeepsHistory(ops, dhId);
    RepresentsJoined(FragmentsOf(RunOps(ops), dhId), Since(ops, dhId));
  }

  /** What a push returns in any reachable state. */
  lemma {:induction false} LiftReturnsRetained(ops: seq<BufferOp>, dhId: string, e: RawEvent)
    ensures var p, h := Push(FragmentsOf(RunOps(ops), dhId), e), Since(ops, dhId);
            && (p.needSim <==> IsSynEvent(e) && OpenLifts(h)
                               && !HasTouch(FirstFrame(Retained(h) + [e]), KEY_DOWN_STATE))
            && p.events == (if p.needSim then Retained(h) + [e] else [])
  {
    RunKeepsHistory(ops, dhId);
    PushFollowsHistory(FragmentsOf(RunOps(ops), dhId), Since(ops, dhId), e);
  }

  // ----- the class

  /** IsTouchPadOptFinish and IsTouchPadOptStart: the same scan, for a lifted and for a pressed finger. */
  method ScanTouch(f: Fragment, value: int) returns (found: bool)
    ensures found == HasTouch(f, value)
  {
    found := false;
    for i := 0 to |f|
      invariant !found && forall j :: 0 <= j < i ==> !IsTouch(f[j], value)
    {
      if IsTouch(f[i], value) {
        found := true;
        break;
      }
    }
  }

  method JoinAll(fragments: seq<Fragment>) returns (all: seq<RawEvent>)
    ensures all == Joined(fragments)
  {
    all := [];
    for i := 0 to |fragments|
      invariant all == Joined(fragments[..i])
    {
      all := all + fragments[i];
      JoinedSplit(fragments[..i + 1]);
      assert fragments[..i + 1][..i] == fragments[..i];
    }
    assert fragments[..|fragments|] == fragments;
  }

  lemma LastReplaced(was: seq<Fragment>, current: Fragment)
    requires was != []
    ensures var now := was[..|was| - 1] + [current];
            now == was[|was| - 1 := current] && now[..|was| - 1] == was[..|was| - 1] && now[|was| - 1] == current
  {
  }

  class TouchPadEventFragmentMgr {
    var fragments: FragmentMap

    ghost predicate Valid()
      reads this
    {
      NoEmptyEntry(fragments)
    }

    constructor ()
      ensures Valid() && fragments == map[]
    {
      fragments := map[];
    }

    method PushEvent(dhId: string, event: RawEvent) returns (needSim: bool, events: seq<RawEvent>)
      requires Valid()
      modifies this
      ensures Valid() && fragments == PushTo(old(fragments), dhId, event)
      ensures var p := Push(FragmentsOf(old(fragments), dhId), event); needSim == p.needSim && events == p.events
    {
      if IsPositionEvent(event) {
        return false, [];
      }
      ghost var m, was := fragments, FragmentsOf(fragments, dhId);
      if dhId !in fragments {
        fragments := fragments[dhId := [[]]];
      }
      var last := |fragments[dhId]| - 1;
      var current := fragments[dhId][last] + [event];
      LastReplaced(was, current);
      OverwriteTwice(m, dhId, was, was[..last] + [current]);
      fragments := fragments[dhId := fragments[dhId][last := current]];
      assert fragments == m[dhId := was[..last] + [current]];
      OverwriteTwice(m, dhId, was[..last] + [current], Push(was, event).fragments);
      if IsSynEvent(event) {
        needSim, events := DealSynEvent(dhId);
        return;
      }
      return false, [];
    }

    /** The last fragment has just received its SYN_REPORT. */
    method DealSynEvent(dhId: string) returns (needSim: bool, events: seq<RawEvent>)
      requires Valid() && dhId in fragments
      modifies this
      ensures Valid()
      ensures var was := old(fragments)[dhId];
              var current := was[|was| - 1];
              if HasTouch(current, KEY_UP_STATE) then
                && needSim == !HasTouch(was[0], KEY_DOWN_STATE)
                && events == (if needSim then Joined(was) else [])
                && fragments == old(fragments)[dhId := [[]]]
              else
                && !needSim && events == []
                && fragments == old(fragments)[dhId :=
                     (if |current| == 2 then was[..|was| - 1] else was) + [[]]]
    {
      var current := fragments[dhId][|fragments[dhId]| - 1];
      var finish := ScanTouch(current, KEY_UP_STATE);
      if finish {
        needSim, events := false, [];
        var start := ScanTouch(fragments[dhId][0], KEY_DOWN_STATE);
        if !start {
          events := JoinAll(fragments[dhId]);
          needSim := true;
        }
        fragments := fragments[dhId := [[]]];
        return;
      }
      if |current| == 2 {
        fragments := fragments[dhId := fragments[dhId][..|fragments[dhId]| - 1]];
      }
      fragments := fragments[dhId := fragments[dhId] + [[]]];
      return false, [];
    }

    method Clear(dhId: string)
      requires Valid()
      modifies this
      ensures Valid() && fragments == old(fragments) - {dhId}
    {
      fragments := fragments - {dhId};
    }

    method GetAndClearEvents(dhId: string) returns (all: seq<RawEvent>)
      requires Valid()
      modifies this
      ensures Valid() && fragments == old(fragments) - {dhId}
      ensures all == Joined(FragmentsOf(old(fragments), dhId))
    {
      if dhId !in fragments {
        assert Joined([[]]) == [];
        return [];
      }
      all := JoinAll(fragments[dhId]);
      fragments := fragments - {dhId};
    }
  }
}
