/**
 What polling reads: over one call and over any number of calls, each ready descriptor is read from its front, nothing
 is read twice or passed over, and what was read is recorded or collected in order.
 */
module PollReads {
  import opened InputEvents
  import opened SeqFacts
  import opened SinkState
  import opened SinkSystem
  import opened Hub

  /** What is left of an item is the end of what it had. */
  predicate Left(before: Item, after: Item) {
    && |after.avail| <= |before.avail|
    && after == before.(avail := before.avail[|before.avail| - |after.avail|..])
  }

  function Read(before: Item, after: Item): seq<InputEvent>
    requires Left(before, after)
  {
    before.avail[..|before.avail| - |after.avail|]
  }

  predicate AllLeft(before: seq<Item>, after: seq<Item>) {
    |before| == |after| && forall i :: 0 <= i < |before| ==> Left(before[i], after[i])
  }

  /**
   What becomes of what is read of an item: it is recorded if the device is not shared, and collected if it is and the
   poll reported input. The notification is not read, and what is read of any other item is dropped.
   */
  datatype Role = Notifies | Drops | Records(node: Node) | Collects(node: Node)

  function RoleOf(item: Item, w: Surroundings): Role {
    var i := DeviceByFd(w.devices, item.fd);
    if item.fd == w.notifyFd then Notifies
    else if i == |w.devices| then Drops
    else if w.devices[i].node.descriptor !in w.shared then Records(w.devices[i].node)
    else if item.pollIn then Collects(w.devices[i].node)
    else Drops
  }

  /** The roles of the items, and what else the events carry. */
  datatype Setup = Setup(roles: seq<Role>, touchId: string, scanId: int)

  function SetupOf(p: Poll, w: Surroundings): Setup {
    Setup(seq(|p.items|, i requires 0 <= i < |p.items| => RoleOf(p.items[i], w)), p.touchId, w.scanId)
  }

  predicate NoTouchScreens(w: Surroundings) {
    forall i :: 0 <= i < |w.devices| ==> !w.devices[i].node.touchScreen
  }

  /** The events that were read of one item and are collected. */
  function GatheredOf(v: Setup, role: Role, before: Item, after: Item): seq<RawEvent>
    requires Left(before, after)
  {
    if role.Collects? then EventsOf(role.node, Read(before, after), v.touchId) else []
  }

  /** The same of all items from `i` on, in order. */
  function Gathered(v: Setup, before: seq<Item>, after: seq<Item>, i: nat): seq<RawEvent>
    requires AllLeft(before, after) && i <= |before| == |v.roles|
    decreases |before| - i
  {
    if i == |before| then []
    else GatheredOf(v, v.roles[i], before[i], after[i]) + Gathered(v, before, after, i + 1)
  }

  /** What recording what was read of one item makes of the recorded state. */
  function NotedOf(v: Setup, st: State, role: Role, before: Item, after: Item): (r: State)
    requires st.Ok() && Left(before, after)
    ensures r.Ok()
  {
    if role.Records? then RecordBurst(st, role.node, Read(before, after), v.touchId, v.scanId) else st
  }

  function Noted(v: Setup, st: State, before: seq<Item>, after: seq<Item>, i: nat): (r: State)
    requires st.Ok() && AllLeft(before, after) && i <= |before| == |v.roles|
    ensures r.Ok()
    decreases |before| - i
  {
    if i == |before| then st
    else Noted(v, NotedOf(v, st, v.roles[i], before[i], after[i]), before, after, i + 1)
  }

  /** `got` is gathered, and the state `st'` noted, of what was read between the items `a` and `c`, from `i` on. */
  predicate ReadsItems(v: Setup, a: seq<Item>, st: State, i: nat, c: seq<Item>, st': State, got: seq<RawEvent>) {
    && st.Ok() && AllLeft(a, c) && i <= |a| == |v.roles|
    && got == Gathered(v, a, c, i) && st' == Noted(v, st, a, c, i)
  }

  predicate SameFrom(a: seq<Item>, b: seq<Item>, i: nat) {
    |a| == |b| && forall j :: i <= j < |a| ==> a[j] == b[j]
  }

  predicate SameBefore(a: seq<Item>, b: seq<Item>, i: nat) {
    |a| == |b| && forall j :: 0 <= j < i && j < |a| ==> a[j] == b[j]
  }

  lemma ReadThenLeft(before: Item, after: Item)
    requires Left(before, after)
    ensures Read(before, after) + after.avail == before.avail
  {
  }

  lemma LeftSelf(item: Item)
    ensures Left(item, item) && Read(item, item) == []
  {
    assert item.avail[0..] == item.avail;
  }

  lemma AllLeftSelf(items: seq<Item>)
    ensures AllLeft(items, items)
  {
    forall i | 0 <= i < |items| ensures Left(items[i], items[i]) {
      LeftSelf(items[i]);
    }
  }

  lemma LeftAgain(a: Item, b: Item, c: Item)
    requires Left(a, b) && Left(b, c)
    ensures Left(a, c) && Read(a, c) == Read(a, b) + Read(b, c)
  {
  }

  lemma AllLeftAgain(a: seq<Item>, b: seq<Item>, c: seq<Item>)
    requires AllLeft(a, b) && AllLeft(b, c)
    ensures AllLeft(a, c)
  {
    forall i | 0 <= i < |a| ensures Left(a[i], c[i]) {
      LeftAgain(a[i], b[i], c[i]);
    }
  }

  // ----- what is gathered and noted

  lemma NothingOf(v: Setup, st: State, role: Role, item: Item)
    requires st.Ok()
    ensures Left(item, item) && GatheredOf(v, role, item, item) == [] && NotedOf(v, st, role, item, item) == st
  {
    LeftSelf(item);
  }

  lemma {:induction false} NothingRead(v: Setup, a: seq<Item>, st: State, i: nat, c: seq<Item>)
    requires st.Ok() && AllLeft(a, c) && i <= |a| == |v.roles| && SameFrom(a, c, i)
    ensures ReadsItems(v, a, st, i, c, st, [])
    decreases |a| - i
  {
    if i < |a| {
      NothingOf(v, st, v.roles[i], a[i]);
      NothingRead(v, a, st, i + 1, c);
    }
  }

  lemma {:induction false} ReadsSame(v: Setup, a: seq<Item>, b: seq<Item>, st: State, i: nat, c: seq<Item>, st': State,
                                     got: seq<RawEvent>)
    requires ReadsItems(v, a, st, i, c, st', got) && AllLeft(b, c) && SameFrom(a, b, i)
    ensures ReadsItems(v, b, st, i, c, st', got)
    decreases |a| - i
  {
    if i < |a| {
      ReadsSame(v, a, b, NotedOf(v, st, v.roles[i], a[i], c[i]), i + 1, c, st', Gathered(v, a, c, i + 1));
    }
  }

  lemma ItemThenRest(v: Setup, a: seq<Item>, st: State, i: nat, c: seq<Item>, st': State, got: seq<RawEvent>)
    requires st.Ok() && AllLeft(a, c) && i < |a| == |v.roles|
    requires ReadsItems(v, a, NotedOf(v, st, v.roles[i], a[i], c[i]), i + 1, c, st', got)
    ensures ReadsItems(v, a, st, i, c, st', GatheredOf(v, v.roles[i], a[i], c[i]) + got)
  {
  }

  lemma ItemAlone(v: Setup, a: seq<Item>, st: State, i: nat, c: seq<Item>)
    requires st.Ok() && AllLeft(a, c) && i < |a| == |v.roles| && SameFrom(a, c, i + 1)
    ensures ReadsItems(v, a, st, i, c, NotedOf(v, st, v.roles[i], a[i], c[i]), GatheredOf(v, v.roles[i], a[i], c[i]))
  {
    NothingRead(v, a, NotedOf(v, st, v.roles[i], a[i], c[i]), i + 1, c);
    ItemThenRest(v, a, st, i, c, NotedOf(v, st, v.roles[i], a[i], c[i]), []);
    ConcatEmpty(GatheredOf(v, v.roles[i], a[i], c[i]));
  }

  lemma RestAfterItem(v: Setup, a: seq<Item>, st: State, i: nat, c: seq<Item>, st': State, got: seq<RawEvent>)
    requires ReadsItems(v, a, st, i, c, st', got) && i < |a|
    ensures ReadsItems(v, a, NotedOf(v, st, v.roles[i], a[i], c[i]), i + 1, c, st', Gathered(v, a, c, i + 1))
    ensures got == GatheredOf(v, v.roles[i], a[i], c[i]) + Gathered(v, a, c, i + 1)
  {
  }

  // ----- one item

  /** Serving an item takes the first events that it has, as many as there is room for. */
  lemma ServedItem(p: Poll, w: Surroundings)
    requires p.st.Ok() && p.index < |p.items|
    ensures var item, after := p.items[p.index], Serve(p, w).items[p.index];
            && Left(item, after)
            && Read(item, after) == item.avail[..if item.fd == w.notifyFd then 0 else Min(|item.avail|, p.capacity)]
    ensures forall i :: 0 <= i < |p.items| && i != p.index ==> Serve(p, w).items[i] == p.items[i]
  {
    LeftSelf(p.items[p.index]);
  }

  lemma ServedKnown(p: Poll, w: Surroundings)
    requires p.st.Ok() && p.index < |p.items| && NoTouchScreens(w)
    ensures var item, q := p.items[p.index], Serve(p, w);
            var role, burst := RoleOf(item, w), item.avail[..Min(|item.avail|, p.capacity)];
            && q.touchId == p.touchId
            && q.out == p.out + (if role.Collects? then EventsOf(role.node, burst, p.touchId) else [])
            && q.st == (if role.Records? then RecordBurst(p.st, role.node, burst, p.touchId, w.scanId) else p.st)
            && (q.index == p.index <==> role.Collects? && q.capacity == 0)
  {
    var item, role := p.items[p.index], RoleOf(p.items[p.index], w);
    ConcatEmpty(p.out);
    if role.Collects? {
      CollectedWhole(role.node, item.avail[..Min(|item.avail|, p.capacity)], p.capacity, p.touchId, w.screens);
    }
  }

  lemma ServedEffect(p: Poll, w: Surroundings)
    requires p.st.Ok() && p.index < |p.items| && NoTouchScreens(w)
    ensures var v, item, q := SetupOf(p, w), p.items[p.index], Serve(p, w);
            && Left(item, q.items[p.index]) && q.touchId == p.touchId
            && q.out == p.out + GatheredOf(v, v.roles[p.index], item, q.items[p.index])
            && q.st == NotedOf(v, p.st, v.roles[p.index], item, q.items[p.index])
            && (q.index == p.index <==> v.roles[p.index].Collects? && q.capacity == 0)
  {
    ServedItem(p, w);
    ServedKnown(p, w);
  }

  lemma SameSetup(p: Poll, q: Poll, w: Surroundings)
    requires AllLeft(p.items, q.items) && p.touchId == q.touchId
    ensures SetupOf(p, w) == SetupOf(q, w)
  {
    assert forall i :: 0 <= i < |p.items| ==> RoleOf(p.items[i], w) == RoleOf(q.items[i], w);
  }

  // ----- one call

  /** The events that were there are read from the front of each item, and only of those between the two indices. */
  predicate Conserves(p: Poll, r: Poll) {
    && AllLeft(p.items, r.items) && p.index <= r.index <= |p.items|
    && SameBefore(p.items, r.items, p.index) && SameFrom(p.items, r.items, r.index + 1)
  }

  lemma AllLeftServed(p: Poll, w: Surroundings)
    requires p.st.Ok() && p.index < |p.items|
    ensures var q := Serve(p, w);
            && AllLeft(p.items, q.items) && SameFrom(p.items, q.items, p.index + 1)
            && SameBefore(p.items, q.items, p.index)
  {
    AllLeftSelf(p.items);
    ServedItem(p, w);
  }

  lemma ConservesOn(p: Poll, q: Poll, r: Poll)
    requires p.index < |p.items| && q.index == p.index + 1 && Conserves(q, r) && AllLeft(p.items, q.items)
    requires SameFrom(p.items, q.items, p.index + 1) && SameBefore(p.items, q.items, p.index)
    ensures Conserves(p, r)
  {
    AllLeftAgain(p.items, q.items, r.items);
  }

  lemma {:induction false} CallConserves(p: Poll, w: Surroundings)
    requires p.st.Ok() && p.index <= |p.items|
    ensures Conserves(p, ServeAll(p, w))
    decreases |p.items| - p.index
  {
    if p.index == |p.items| {
      AllLeftSelf(p.items);
    } else {
      var q := Serve(p, w);
      AllLeftServed(p, w);
      if q.index != p.index {
        CallConserves(q, w);
        ConservesOn(p, q, ServeAll(q, w));
      }
    }
  }

  /** What `r` has more than `p` was read of the items that the index of `p` has not passed, in order. */
  ghost predicate ReadsTo(p: Poll, r: Poll, w: Surroundings) {
    && r.touchId == p.touchId && |r.out| >= |p.out| && r.out[..|p.out|] == p.out
    && ReadsItems(SetupOf(p, w), p.items, p.st, p.index, r.items, r.st, r.out[|p.out|..])
  }

  lemma NoneRead(p: Poll, w: Surroundings)
    requires p.st.Ok() && p.index <= |p.items|
    ensures ReadsTo(p, p, w)
  {
    AllLeftSelf(p.items);
    NothingRead(SetupOf(p, w), p.items, p.st, p.index, p.items);
    assert p.out[|p.out|..] == [];
  }

  lemma StoppedReads(p: Poll, w: Surroundings)
    requires p.st.Ok() && p.index < |p.items| && NoTouchScreens(w)
    requires Serve(p, w).index == p.index
    ensures ReadsTo(p, Serve(p, w), w)
  {
    var v, q := SetupOf(p, w), Serve(p, w);
    CallConserves(p, w);
    ServedEffect(p, w);
    ItemAlone(v, p.items, p.st, p.index, q.items);
    OutPart(p.out, q.out, GatheredOf(v, v.roles[p.index], p.items[p.index], q.items[p.index]));
  }

  lemma OutPart(out: seq<RawEvent>, out2: seq<RawEvent>, more: seq<RawEvent>)
    requires out2 == out + more
    ensures out2[..|out|] == out && out2[|out|..] == more
  {
  }

  lemma OutGrows(out: seq<RawEvent>, first: seq<RawEvent>, out2: seq<RawEvent>, rest: seq<RawEvent>)
    requires |out2| >= |out + first| && out2[..|out + first|] == out + first && out2[|out + first|..] == rest
    ensures out2[..|out|] == out && out2[|out|..] == first + rest
  {
    CutJoin(out2, |out + first|);
    assert out2 == out + (first + rest);
  }

  lemma PassedReads(p: Poll, r: Poll, w: Surroundings)
    requires p.st.Ok() && p.index < |p.items| && NoTouchScreens(w) && AllLeft(p.items, r.items)
    requires Serve(p, w).index == p.index + 1 && SameBefore(Serve(p, w).items, r.items, p.index + 1)
    requires ReadsTo(Serve(p, w), r, w)
    ensures ReadsTo(p, r, w)
  {
    var v, q, i := SetupOf(p, w), Serve(p, w), p.index;
    ServedItem(p, w);
    ServedEffect(p, w);
    CallConserves(p, w);
    AllLeftServed(p, w);
    SameSetup(p, q, w);
    var first, rest := GatheredOf(v, v.roles[i], p.items[i], q.items[i]), r.out[|q.out|..];
    ReadsSame(v, q.items, p.items, q.st, i + 1, r.items, r.st, rest);
    ItemThenRest(v, p.items, p.st, i, r.items, r.st, rest);
    OutGrows(p.out, first, r.out, rest);
  }

  /** One call collects and records exactly what it reads of each item, in order. */
  lemma {:induction false} CallReads(p: Poll, w: Surroundings)
    requires p.st.Ok() && p.index <= |p.items| && NoTouchScreens(w)
    ensures ReadsTo(p, ServeAll(p, w), w)
    decreases |p.items| - p.index
  {
    if p.index == |p.items| {
      NoneRead(p, w);
    } else {
      var q := Serve(p, w);
      CallConserves(p, w);
      if q.index == p.index {
        StoppedReads(p, w);
      } else {
        CallConserves(q, w);
        CallReads(q, w);
        PassedReads(p, ServeAll(q, w), w);
      }
    }
  }

  /** The room for an item that a call has passed: what was filled from there on, and what is left. */
  function RoomAt(v: Setup, p: Poll, r: Poll, i: nat): nat
    requires AllLeft(p.items, r.items) && i <= |p.items| == |v.roles|
  {
    r.capacity + |Gathered(v, p.items, r.items, i)|
  }

  /** What holds of an item that a call has passed: there was room, and it was read as far as that goes. */
  predicate PassedWell(v: Setup, p: Poll, r: Poll, i: nat)
    requires AllLeft(p.items, r.items) && i < |p.items| == |v.roles|
  {
    && RoomAt(v, p, r, i) > 0
    && (!v.roles[i].Notifies? ==> |Read(p.items[i], r.items[i])| == Min(|p.items[i].avail|, RoomAt(v, p, r, i)))
    && (v.roles[i].Collects? ==> r.items[i].avail == [])
  }

  lemma RoomIsCapacity(p: Poll, w: Surroundings)
    requires p.st.Ok() && p.index <= |p.items| && NoTouchScreens(w)
    ensures var r := ServeAll(p, w);
            AllLeft(p.items, r.items) && RoomAt(SetupOf(p, w), p, r, p.index) == p.capacity
  {
    CallReads(p, w);
  }

  lemma FirstPassedWell(p: Poll, w: Surroundings)
    requires p.st.Ok() && p.index < |p.items| && NoTouchScreens(w) && p.capacity > 0
    requires Serve(p, w).index != p.index
    ensures AllLeft(p.items, ServeAll(p, w).items) && PassedWell(SetupOf(p, w), p, ServeAll(p, w), p.index)
  {
    var v, q := SetupOf(p, w), Serve(p, w);
    RoomIsCapacity(p, w);
    ServedItem(p, w);
    ServedEffect(p, w);
    CallConserves(q, w);
    var role, item, after := v.roles[p.index], p.items[p.index], q.items[p.index];
    if role.Collects? {
      EventsOfLength(role.node, Read(item, after), p.touchId);
      assert |Read(item, after)| < p.capacity;
    }
  }

  lemma {:induction false} GatheredSame(v: Setup, a: seq<Item>, b: seq<Item>, c: seq<Item>, i: nat)
    requires AllLeft(a, c) && AllLeft(b, c) && i <= |a| == |v.roles| && SameFrom(a, b, i)
    ensures Gathered(v, a, c, i) == Gathered(v, b, c, i)
    decreases |a| - i
  {
    if i < |a| {
      GatheredSame(v, a, b, c, i + 1);
    }
  }

  lemma RestPassed(v: Setup, p: Poll, q: Poll, r: Poll)
    requires p.index < |p.items| == |v.roles| && q.index == p.index + 1 && r.index <= |p.items|
    requires AllLeft(p.items, r.items) && AllLeft(q.items, r.items) && SameFrom(p.items, q.items, q.index)
    requires forall i :: q.index <= i < r.index ==> PassedWell(v, q, r, i)
    ensures forall i :: q.index <= i < r.index ==> PassedWell(v, p, r, i)
  {
    forall i | q.index <= i < r.index ensures PassedWell(v, p, r, i) {
      GatheredSame(v, p.items, q.items, r.items, i);
      assert PassedWell(v, q, r, i);
    }
  }

  lemma RoomLeft(p: Poll, w: Surroundings)
    requires p.st.Ok() && p.index < |p.items| && NoTouchScreens(w) && p.capacity > 0
    requires Serve(p, w).index != p.index
    ensures Serve(p, w).capacity > 0
  {
    ServedEffect(p, w);
    ConcatEmpty(p.out);
  }

  ghost predicate PassesTo(v: Setup, p: Poll, r: Poll) {
    && AllLeft(p.items, r.items) && |p.items| == |v.roles| && r.index <= |p.items|
    && (forall i :: p.index <= i < r.index ==> PassedWell(v, p, r, i))
    && (r.index < |p.items| ==> r.capacity == 0 && v.roles[r.index].Collects?)
  }

  lemma PassesOn(v: Setup, p: Poll, q: Poll, r: Poll)
    requires PassesTo(v, q, r) && q.index == p.index + 1 && p.index < |p.items|
    requires AllLeft(p.items, r.items) && SameFrom(p.items, q.items, q.index) && PassedWell(v, p, r, p.index)
    ensures PassesTo(v, p, r)
  {
    RestPassed(v, p, q, r);
  }

  lemma ServedSetup(p: Poll, w: Surroundings)
    requires p.st.Ok() && p.index < |p.items| && NoTouchScreens(w)
    ensures SetupOf(Serve(p, w), w) == SetupOf(p, w) && SameFrom(p.items, Serve(p, w).items, p.index + 1)
  {
    AllLeftServed(p, w);
    ServedEffect(p, w);
    SameSetup(p, Serve(p, w), w);
  }

  /**
   A call into a buffer with room passes an item only having read all that there was room for, and there was some; of a
   shared device it has then read all. It stops before the end only at a shared device that filled the buffer.
   */
  lemma {:induction false} CallPasses(p: Poll, w: Surroundings)
    requires p.st.Ok() && p.index <= |p.items| && NoTouchScreens(w) && p.capacity > 0
    ensures PassesTo(SetupOf(p, w), p, ServeAll(p, w))
    decreases |p.items| - p.index
  {
    CallConserves(p, w);
    if p.index < |p.items| {
      var q := Serve(p, w);
      ServedEffect(p, w);
      if q.index != p.index {
        RoomLeft(p, w);
        CallPasses(q, w);
        ServedSetup(p, w);
        FirstPassedWell(p, w);
        PassesOn(SetupOf(p, w), p, q, ServeAll(q, w));
      }
    }
  }

  // ----- any number of calls

  /** The state after `n` calls, each into an empty buffer of that size; `out` is what all of them returned. */
  function Called(p: Poll, w: Surroundings, size: nat, n: nat): (r: Poll)
    requires p.st.Ok() && p.index <= |p.items|
    ensures r.st.Ok() && r.index <= |r.items| && |r.items| == |p.items|
  {
    if n == 0 then p.(out := [])
    else
      var q := Called(p, w, size, n - 1);
      CallConserves(q.(out := [], capacity := size), w);
      var r := ServeAll(q.(out := [], capacity := size), w);
      r.(out := q.out + r.out)
  }

  /** The item that a call stopped at is unchanged, or of a shared device; those behind it are unchanged. */
  predicate StoppedAt(v: Setup, a: seq<Item>, b: seq<Item>, k: nat) {
    && |a| == |b| == |v.roles| && SameFrom(a, b, k + 1)
    && (k < |a| ==> a[k] == b[k] || v.roles[k].Collects?)
  }

  lemma {:induction false} EventsOfConcat(node: Node, a: seq<InputEvent>, b: seq<InputEvent>, touchId: string)
    ensures EventsOf(node, a + b, touchId) == EventsOf(node, a, touchId) + EventsOf(node, b, touchId)
  {
    if b == [] {
      ConcatEmpty(a);
      ConcatEmpty(EventsOf(node, a, touchId));
    } else {
      var front, e := b[..|b| - 1], b[|b| - 1];
      LastOfConcat(a, b);
      EventsOfConcat(node, a, front, touchId);
      ConcatAssoc(EventsOf(node, a, touchId), EventsOf(node, front, touchId), [EventOf(node, e, touchId)]);
    }
  }

  lemma GatheredOfAgain(v: Setup, role: Role, a: Item, b: Item, c: Item)
    requires Left(a, b) && Left(b, c)
    ensures Left(a, c) && GatheredOf(v, role, a, c) == GatheredOf(v, role, a, b) + GatheredOf(v, role, b, c)
  {
    LeftAgain(a, b, c);
    if role.Collects? {
      EventsOfConcat(role.node, Read(a, b), Read(b, c), v.touchId);
    }
  }

  lemma NotedOfAgain(v: Setup, st: State, role: Role, a: Item, b: Item, c: Item)
    requires st.Ok() && Left(a, b) && Left(b, c) && (a == b || role.Collects?)
    ensures Left(a, c) && NotedOf(v, st, role, a, b) == st
    ensures NotedOf(v, st, role, a, c) == NotedOf(v, st, role, b, c)
  {
    LeftAgain(a, b, c);
    LeftSelf(a);
  }

  lemma GatheredOfOn(v: Setup, role: Role, a: Item, b: Item, c: Item, rest: seq<RawEvent>)
    requires Left(a, b) && Left(b, c)
    ensures Left(a, c)
    ensures GatheredOf(v, role, a, c) + rest == GatheredOf(v, role, a, b) + (GatheredOf(v, role, b, c) + rest)
  {
    GatheredOfAgain(v, role, a, b, c);
    ConcatAssoc(GatheredOf(v, role, a, b), GatheredOf(v, role, b, c), rest);
  }

  lemma ItemGoesOn(v: Setup, a: seq<Item>, st: State, i: nat, c: seq<Item>, mid: State, st': State, all: seq<RawEvent>,
                   rest: seq<RawEvent>)
    requires st.Ok() && AllLeft(a, c) && i < |a| == |v.roles| && mid == NotedOf(v, st, v.roles[i], a[i], c[i])
    requires all == GatheredOf(v, v.roles[i], a[i], c[i]) + rest && ReadsItems(v, a, mid, i + 1, c, st', rest)
    ensures ReadsItems(v, a, st, i, c, st', all)
  {
  }

  lemma ReadsOnItem(v: Setup, a: seq<Item>, b: seq<Item>, c: seq<Item>, st: State, st2: State, got: seq<RawEvent>,
                    k: nat)
    requires ReadsItems(v, b, st, k, c, st2, got) && k < |a| && AllLeft(a, b) && AllLeft(a, c)
    requires StoppedAt(v, a, b, k)
    ensures ReadsItems(v, a, st, k, c, st2, GatheredOf(v, v.roles[k], a[k], b[k]) + got)
  {
    var rest, mid := Gathered(v, b, c, k + 1), NotedOf(v, st, v.roles[k], b[k], c[k]);
    RestAfterItem(v, b, st, k, c, st2, got);
    ReadsSame(v, b, a, mid, k + 1, c, st2, rest);
    NotedOfAgain(v, st, v.roles[k], a[k], b[k], c[k]);
    GatheredOfOn(v, v.roles[k], a[k], b[k], c[k], rest);
    ItemGoesOn(v, a, st, k, c, mid, st2, GatheredOf(v, v.roles[k], a[k], b[k]) + got, rest);
  }

  /** Where the first call stopped, the second one goes on. */
  lemma ReadsOn(v: Setup, a: seq<Item>, b: seq<Item>, c: seq<Item>, st: State, st1: State, st2: State,
                got1: seq<RawEvent>, got2: seq<RawEvent>, k: nat)
    requires ReadsItems(v, a, st, k, b, st1, got1) && ReadsItems(v, b, st1, k, c, st2, got2)
    requires StoppedAt(v, a, b, k) && AllLeft(a, c)
    ensures ReadsItems(v, a, st, k, c, st2, got1 + got2)
  {
    if k == |a| {
      ConcatEmpty(got1);
    } else {
      NotedOfAgain(v, st, v.roles[k], a[k], b[k], c[k]);
      ItemAlone(v, a, st, k, b);
      ReadsOnItem(v, a, b, c, st, st2, got2, k);
    }
  }

  lemma {:induction false} ReadsAgain(v: Setup, a: seq<Item>, b: seq<Item>, c: seq<Item>, st: State, st1: State,
                                      st2: State, got1: seq<RawEvent>, got2: seq<RawEvent>, i: nat, k: nat)
    requires ReadsItems(v, a, st, i, b, st1, got1) && ReadsItems(v, b, st1, k, c, st2, got2)
    requires i <= k && StoppedAt(v, a, b, k) && SameBefore(b, c, k) && AllLeft(a, c)
    ensures ReadsItems(v, a, st, i, c, st2, got1 + got2)
    decreases |a| - i
  {
    if i == k {
      ReadsOn(v, a, b, c, st, st1, st2, got1, got2, k);
    } else {
      var first, got := GatheredOf(v, v.roles[i], a[i], b[i]), Gathered(v, a, b, i + 1);
      RestAfterItem(v, a, st, i, b, st1, got1);
      ReadsAgain(v, a, b, c, NotedOf(v, st, v.roles[i], a[i], b[i]), st1, st2, got, got2, i + 1, k);
      ItemThenRest(v, a, st, i, c, st2, got + got2);
      ConcatAssoc(first, got, got2);
    }
  }

  /** Of the shared devices that the index has passed, everything was read. */
  predicate Emptied(v: Setup, b: seq<Item>, i: nat, k: nat) {
    |b| == |v.roles| && k <= |b| && forall j :: i <= j < k && v.roles[j].Collects? ==> b[j].avail == []
  }

  /** What some calls keep. */
  ghost predicate Calls(v: Setup, p: Poll, q: Poll) {
    && q.touchId == p.touchId && ReadsItems(v, p.items, p.st, p.index, q.items, q.st, q.out)
    && p.index <= q.index <= |p.items| && StoppedAt(v, p.items, q.items, q.index)
    && Emptied(v, q.items, p.index, q.index)
  }

  lemma EmptiedByCall(v: Setup, q: Poll, r: Poll)
    requires AllLeft(q.items, r.items) && r.index <= |q.items| == |v.roles|
    requires forall i :: q.index <= i < r.index ==> PassedWell(v, q, r, i)
    ensures Emptied(v, r.items, q.index, r.index)
  {
    forall j | q.index <= j < r.index && v.roles[j].Collects? ensures r.items[j].avail == [] {
      assert PassedWell(v, q, r, j);
    }
  }

  /** One call into an empty buffer with room. */
  lemma CallAlone(q: Poll, w: Surroundings)
    requires q.st.Ok() && q.index <= |q.items| && NoTouchScreens(w) && q.capacity > 0 && q.out == []
    ensures var v, r := SetupOf(q, w), ServeAll(q, w);
            && Calls(v, q, r) && SameBefore(q.items, r.items, q.index)
            && (r.index < |q.items| ==> |r.out| == q.capacity && v.roles[r.index].Collects?)
  {
    var v, r := SetupOf(q, w), ServeAll(q, w);
    CallConserves(q, w);
    CallReads(q, w);
    CallPasses(q, w);
    EmptiedByCall(v, q, r);
    assert r.out[0..] == r.out;
  }

  lemma CallsAgain(v: Setup, p: Poll, q: Poll, w: Surroundings, size: nat)
    requires v == SetupOf(p, w) && Calls(v, p, q) && NoTouchScreens(w) && size > 0
    ensures var r := ServeAll(q.(out := [], capacity := size), w); Calls(v, p, r.(out := q.out + r.out))
  {
    var q' := q.(out := [], capacity := size);
    var r := ServeAll(q', w);
    SameSetup(p, q', w);
    CallAlone(q', w);
    AllLeftAgain(p.items, q.items, r.items);
    ReadsAgain(v, p.items, q.items, r.items, p.st, q.st, r.st, q.out, r.out, p.index, q.index);
  }

  lemma {:induction false} CallsKeep(p: Poll, w: Surroundings, size: nat, n: nat)
    requires p.st.Ok() && p.index <= |p.items| && NoTouchScreens(w) && size > 0
    ensures Calls(SetupOf(p, w), p, Called(p, w, size, n))
  {
    if n == 0 {
      AllLeftSelf(p.items);
      NothingRead(SetupOf(p, w), p.items, p.st, p.index, p.items);
    } else {
      CallsKeep(p, w, size, n - 1);
      CallsAgain(SetupOf(p, w), p, Called(p, w, size, n - 1), w, size);
    }
  }

  function EverythingOf(v: Setup, role: Role, item: Item): seq<RawEvent> {
    if role.Collects? then EventsOf(role.node, item.avail, v.touchId) else []
  }

  /** All events that the shared devices from `i` on have ready, in order. */
  function Everything(v: Setup, items: seq<Item>, i: nat): seq<RawEvent>
    requires i <= |items| == |v.roles|
    decreases |items| - i
  {
    if i == |items| then [] else EverythingOf(v, v.roles[i], items[i]) + Everything(v, items, i + 1)
  }

  lemma GatheredOfAll(v: Setup, role: Role, a: Item, b: Item)
    requires Left(a, b)
    ensures |GatheredOf(v, role, a, b)| <= |EverythingOf(v, role, a)|
    ensures (role.Collects? ==> b.avail == []) ==> GatheredOf(v, role, a, b) == EverythingOf(v, role, a)
  {
    ReadThenLeft(a, b);
    if role.Collects? {
      EventsOfLength(role.node, Read(a, b), v.touchId);
      EventsOfLength(role.node, a.avail, v.touchId);
      ConcatEmpty(Read(a, b));
    }
  }

  lemma {:induction false} GatheredAll(v: Setup, a: seq<Item>, b: seq<Item>, i: nat)
    requires AllLeft(a, b) && i <= |a| == |v.roles|
    ensures |Gathered(v, a, b, i)| <= |Everything(v, a, i)|
    ensures Emptied(v, b, i, |b|) ==> Gathered(v, a, b, i) == Everything(v, a, i)
    decreases |a| - i
  {
    if i < |a| {
      GatheredAll(v, a, b, i + 1);
      GatheredOfAll(v, v.roles[i], a[i], b[i]);
    }
  }

  lemma CallFills(q: Poll, w: Surroundings, size: nat)
    requires q.st.Ok() && q.index <= |q.items| && NoTouchScreens(w) && size > 0
    ensures var r := ServeAll(q.(out := [], capacity := size), w);
            q.index <= r.index && (r.index < |q.items| ==> |r.out| == size)
  {
    CallAlone(q.(out := [], capacity := size), w);
  }

  function Times(n: nat, size: nat): nat {
    if n == 0 then 0 else Times(n - 1, size) + size
  }

  lemma {:induction false} TimesIs(n: nat, size: nat)
    ensures Times(n, size) == n * size
  {
    if n > 0 {
      TimesIs(n - 1, size);
    }
  }

  /** Short of the end, that many events were returned. */
  predicate Filled(r: Poll, total: nat) {
    r.index < |r.items| ==> |r.out| == total
  }

  lemma LastCallFills(p: Poll, w: Surroundings, size: nat, n: nat, total: nat)
    requires p.st.Ok() && p.index <= |p.items| && NoTouchScreens(w) && size > 0 && n > 0
    requires Filled(Called(p, w, size, n - 1), total)
    ensures Filled(Called(p, w, size, n), total + size)
  {
    CallFills(Called(p, w, size, n - 1), w, size);
  }

  /** Calls that end before the last item have filled their buffers. */
  lemma {:induction false} CallsFill(p: Poll, w: Surroundings, size: nat, n: nat)
    requires p.st.Ok() && p.index <= |p.items| && NoTouchScreens(w) && size > 0
    ensures Filled(Called(p, w, size, n), Times(n, size))
  {
    if n > 0 {
      CallsFill(p, w, size, n - 1);
      LastCallFills(p, w, size, n, Times(n - 1, size));
    }
  }

  /**
   Calls into a buffer of any size but zero come to the end, and have then returned every event of the shared devices,
   in order and once.
   */
  lemma {:induction false} CallsCollectAll(p: Poll, w: Surroundings, size: nat, n: nat)
    requires p.st.Ok() && p.index <= |p.items| && NoTouchScreens(w) && size > 0
    ensures var all, r := Everything(SetupOf(p, w), p.items, p.index), Called(p, w, size, n);
            && (n * size > |all| ==> r.index == |p.items|)
            && (r.index == |p.items| ==> r.out == all)
  {
    CallsKeep(p, w, size, n);
    CallsFill(p, w, size, n);
    TimesIs(n, size);
    GatheredAll(SetupOf(p, w), p.items, Called(p, w, size, n).items, p.index);
  }

  /**
   Over any number of calls: what was read of each item, followed by what is left of it, is what it had, and exactly
   what was read is recorded and returned.
   */
  lemma {:induction false} CallsConserve(p: Poll, w: Surroundings, size: nat, n: nat)
    requires p.st.Ok() && p.index <= |p.items| && NoTouchScreens(w) && size > 0
    ensures var v, r := SetupOf(p, w), Called(p, w, size, n);
            && AllLeft(p.items, r.items)
            && (forall i :: 0 <= i < |p.items| ==>
                  Read(p.items[i], r.items[i]) + r.items[i].avail == p.items[i].avail)
            && r.out == Gathered(v, p.items, r.items, p.index)
            && r.st == Noted(v, p.st, p.items, r.items, p.index)
  {
    var r := Called(p, w, size, n);
    CallsKeep(p, w, size, n);
    forall i | 0 <= i < |p.items| ensures Read(p.items[i], r.items[i]) + r.items[i].avail == p.items[i].avail {
      ReadThenLeft(p.items[i], r.items[i]);
    }
  }

  /**
   A device that is not shared is read whole by the call that passes it exactly if its events fit the room that the
   shared devices before it have left; the rest waits for the next poll.
   */
  lemma {:induction false} RecordedWholeIff(p: Poll, w: Surroundings, i: nat)
    requires p.st.Ok() && NoTouchScreens(w) && p.capacity > 0 && p.index <= i < |p.items|
    requires i < ServeAll(p, w).index && SetupOf(p, w).roles[i].Records?
    ensures var v, r := SetupOf(p, w), ServeAll(p, w);
            && AllLeft(p.items, r.items)
            && RoomAt(v, p, r, i) == p.capacity - |Gathered(v, p.items, r.items, p.index)|
                                     + |Gathered(v, p.items, r.items, i)|
            && (r.items[i].avail == [] <==> |p.items[i].avail| <= RoomAt(v, p, r, i))
  {
    CallPasses(p, w);
    RoomIsCapacity(p, w);
    assert PassedWell(SetupOf(p, w), p, ServeAll(p, w), i);
  }
}
