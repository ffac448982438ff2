/**
 The key-down lists of DInputSinkState: for each device the events of the keys recorded as held, in press order.
 A device without recorded keys has no entry.
 */
module KeyDownList {
  import opened InputEvents
  import opened SeqFacts

  type KeyMap = map<string, seq<RawEvent>>

  /** std::find with the source's equality: the first entry for the key of `e`, or the end of the list. */
  function IndexOf(l: seq<RawEvent>, e: RawEvent): (i: nat)
    ensures i <= |l|
    ensures i < |l| ==> SameKey(l[i], e)
    ensures forall j :: 0 <= j < i ==> !SameKey(l[j], e)
  {
    if l == [] || SameKey(l[0], e) then 0 else 1 + IndexOf(l[1..], e)
  }

  function WithoutAt(l: seq<RawEvent>, i: nat): seq<RawEvent>
    requires i < |l|
  {
    l[..i] + l[i + 1..]
  }

  /** The list without its first entry for the key of `e`. */
  function Released(l: seq<RawEvent>, e: RawEvent): seq<RawEvent> {
    var i := IndexOf(l, e);
    if i < |l| then WithoutAt(l, i) else l
  }

  function Repeated(l: seq<RawEvent>, e: RawEvent): seq<RawEvent> {
    var i := IndexOf(l, e);
    if i == |l| then l + [e]
    else if i == |l| - 1 then l
    else WithoutAt(l, i) + [l[i]]
  }

  function ListOf(keys: KeyMap, dhId: string): seq<RawEvent> {
    if dhId in keys then keys[dhId] else []
  }

  function Added(keys: KeyMap, e: RawEvent): KeyMap {
    keys[e.descriptor := ListOf(keys, e.descriptor) + [e]]
  }

  function Removed(keys: KeyMap, e: RawEvent): KeyMap {
    var l := ListOf(keys, e.descriptor);
    var i := IndexOf(l, e);
    if i == |l| then keys
    else if |l| == 1 then keys - {e.descriptor}
    else keys[e.descriptor := WithoutAt(l, i)]
  }

  function Reordered(keys: KeyMap, e: RawEvent): KeyMap {
    keys[e.descriptor := Repeated(ListOf(keys, e.descriptor), e)]
  }

  /** What recording one event does to the lists, whatever else it triggers. */
  function Recorded(keys: KeyMap, e: RawEvent): KeyMap {
    if e.kind != EV_KEY then keys
    else if e.value == KEY_DOWN_STATE then Added(keys, e)
    else if e.value == KEY_UP_STATE then Removed(keys, e)
    else if e.value == KEY_REPEAT then Reordered(keys, e)
    else keys
  }

  function RecordedAll(events: seq<RawEvent>): KeyMap {
    if events == [] then map[] else Recorded(RecordedAll(events[..|events| - 1]), events[|events| - 1])
  }

  // ----- the lists against a plain counter

  function Count(l: seq<RawEvent>, k: RawEvent): nat {
    if l == [] then 0 else (if SameKey(l[0], k) then 1 else 0) + Count(l[1..], k)
  }

  /** Down adds one, up takes one away if there is one, a repeat raises to at least one. */
  function Counted(before: nat, e: RawEvent): nat {
    if e.value == KEY_DOWN_STATE then before + 1
    else if e.value == KEY_UP_STATE then (if before > 0 then before - 1 else 0)
    else if e.value == KEY_REPEAT then (if before > 0 then before else 1)
    else before
  }

  function Counter(events: seq<RawEvent>, k: RawEvent): nat {
    if events == [] then 0
    else
      var before, e := Counter(events[..|events| - 1], k), events[|events| - 1];
      if e.kind == EV_KEY && SameKey(e, k) then Counted(before, e) else before
  }

  lemma {:induction false} CountConcat(a: seq<RawEvent>, b: seq<RawEvent>, k: RawEvent)
    ensures Count(a + b, k) == Count(a, k) + Count(b, k)
  {
    if a == [] {
      assert a + b == b;
    } else {
      FirstOfConcat(a, b);
      CountConcat(a[1..], b, k);
    }
  }

  lemma {:induction false} CountZero(l: seq<RawEvent>, k: RawEvent)
    ensures Count(l, k) == 0 <==> forall j :: 0 <= j < |l| ==> !SameKey(l[j], k)
  {
    if l != [] {
      CountZero(l[1..], k);
      assert forall j :: 0 <= j < |l[1..]| ==> l[1..][j] == l[j + 1];
      if Count(l, k) != 0 && !SameKey(l[0], k) {
        var j :| 0 <= j < |l[1..]| && SameKey(l[1..][j], k);
        assert SameKey(l[j + 1], k);
      }
    }
  }

  lemma CountWithoutAt(l: seq<RawEvent>, i: nat, k: RawEvent)
    requires i < |l|
    ensures Count(l, k) == Count(WithoutAt(l, i), k) + Count([l[i]], k)
  {
    assert l == l[..i] + ([l[i]] + l[i + 1..]);
    CountConcat(l[..i], [l[i]] + l[i + 1..], k);
    CountConcat([l[i]], l[i + 1..], k);
    CountConcat(l[..i], l[i + 1..], k);
  }

  lemma CountReleased(l: seq<RawEvent>, e: RawEvent, k: RawEvent)
    ensures Count(Released(l, e), k) == if SameKey(e, k) && Count(l, k) > 0 then Count(l, k) - 1 else Count(l, k)
  {
    var i := IndexOf(l, e);
    CountZero(l, k);
    if i < |l| {
      CountWithoutAt(l, i, k);
    }
  }

  lemma CountRepeated(l: seq<RawEvent>, e: RawEvent, k: RawEvent)
    ensures Count(Repeated(l, e), k) == if SameKey(e, k) && Count(l, k) == 0 then 1 else Count(l, k)
  {
    var i := IndexOf(l, e);
    CountZero(l, k);
    if i == |l| {
      CountConcat(l, [e], k);
    } else {
      CountWithoutAt(l, i, k);
      CountConcat(WithoutAt(l, i), [l[i]], k);
    }
  }

  lemma CountRemoved(keys: KeyMap, e: RawEvent, k: RawEvent)
    ensures var before := Count(ListOf(keys, k.descriptor), k);
            Count(ListOf(Removed(keys, e), k.descriptor), k)
            == if SameKey(e, k) && before > 0 then before - 1 else before
  {
    CountReleased(ListOf(keys, e.descriptor), e, k);
  }

  lemma CountRecorded(keys: KeyMap, e: RawEvent, k: RawEvent)
    requires e.kind == EV_KEY
    ensures var before := Count(ListOf(keys, k.descriptor), k);
            Count(ListOf(Recorded(keys, e), k.descriptor), k) == if SameKey(e, k) then Counted(before, e) else before
  {
    var l := ListOf(keys, e.descriptor);
    if e.value == KEY_DOWN_STATE {
      CountConcat(l, [e], k);
    } else if e.value == KEY_UP_STATE {
      CountRemoved(keys, e, k);
    } else if e.value == KEY_REPEAT {
      CountRepeated(l, e, k);
    }
  }

  /** Over any event stream each key is listed as often as the counter says, and no list is kept empty. */
  lemma {:induction false} ListFollowsCounter(events: seq<RawEvent>, k: RawEvent)
    ensures Count(ListOf(RecordedAll(events), k.descriptor), k) == Counter(events, k)
    ensures forall d :: d in RecordedAll(events) ==> RecordedAll(events)[d] != []
  {
    if events != [] {
      var rest, e := events[..|events| - 1], events[|events| - 1];
      ListFollowsCounter(rest, k);
      if e.kind == EV_KEY {
        CountRecorded(RecordedAll(rest), e, k);
      }
    }
  }

  // ----- a repeat only moves its own key

  function Others(l: seq<RawEvent>, e: RawEvent): seq<RawEvent> {
    if l == [] then [] else (if SameKey(l[0], e) then [] else [l[0]]) + Others(l[1..], e)
  }

  lemma {:induction false} OthersConcat(a: seq<RawEvent>, b: seq<RawEvent>, e: RawEvent)
    ensures Others(a + b, e) == Others(a, e) + Others(b, e)
  {
    if a == [] {
      assert a + b == b;
    } else {
      FirstOfConcat(a, b);
      OthersConcat(a[1..], b, e);
      ConcatAssoc(if SameKey(a[0], e) then [] else [a[0]], Others(a[1..], e), Others(b, e));
    }
  }

  lemma OthersWithoutAt(l: seq<RawEvent>, i: nat, e: RawEvent)
    requires i < |l| && SameKey(l[i], e)
    ensures Others(WithoutAt(l, i), e) == Others(l, e)
  {
    assert l == l[..i] + ([l[i]] + l[i + 1..]);
    OthersConcat(l[..i], [l[i]] + l[i + 1..], e);
    OthersConcat([l[i]], l[i + 1..], e);
    OthersConcat(l[..i], l[i + 1..], e);
  }

  /** After a repeat its key is last, the other keys keep their order, and no recorded event is lost. */
  lemma RepeatMovesItsKeyLast(l: seq<RawEvent>, e: RawEvent)
    ensures Repeated(l, e) != [] && SameKey(Repeated(l, e)[|Repeated(l, e)| - 1], e)
    ensures Others(Repeated(l, e), e) == Others(l, e)
    ensures multiset(Repeated(l, e)) == multiset(l) + (if IndexOf(l, e) == |l| then multiset{e} else multiset{})
  {
    var i := IndexOf(l, e);
    if i == |l| {
      OthersConcat(l, [e], e);
    } else if i < |l| - 1 {
      OthersWithoutAt(l, i, e);
      OthersConcat(WithoutAt(l, i), [l[i]], e);
      assert multiset(Repeated(l, e)) == multiset(l) by {
        assert l == l[..i] + [l[i]] + l[i + 1..];
      }
    }
  }

  /** The entries of the key of `e`, oldest first. */
  function Own(l: seq<RawEvent>, e: RawEvent): seq<RawEvent> {
    if l == [] then [] else (if SameKey(l[0], e) then [l[0]] else []) + Own(l[1..], e)
  }

  lemma {:induction false} OwnConcat(a: seq<RawEvent>, b: seq<RawEvent>, e: RawEvent)
    ensures Own(a + b, e) == Own(a, e) + Own(b, e)
  {
    if a == [] {
      assert a + b == b;
    } else {
      FirstOfConcat(a, b);
      OwnConcat(a[1..], b, e);
      ConcatAssoc(if SameKey(a[0], e) then [a[0]] else [], Own(a[1..], e), Own(b, e));
    }
  }

  lemma {:induction false} OwnNone(l: seq<RawEvent>, e: RawEvent)
    requires forall j :: 0 <= j < |l| ==> !SameKey(l[j], e)
    ensures Own(l, e) == []
  {
    if l != [] {
      OwnNone(l[1..], e);
    }
  }

  lemma OwnWithoutFirst(l: seq<RawEvent>, e: RawEvent)
    requires IndexOf(l, e) < |l|
    ensures Own(l, e) == [l[IndexOf(l, e)]] + Own(WithoutAt(l, IndexOf(l, e)), e)
  {
    var i := IndexOf(l, e);
    assert l == l[..i] + ([l[i]] + l[i + 1..]);
    OwnNone(l[..i], e);
    OwnConcat(l[..i], [l[i]] + l[i + 1..], e);
    OwnConcat([l[i]], l[i + 1..], e);
    OwnConcat(l[..i], l[i + 1..], e);
    assert Own([l[i]], e) == [l[i]];
  }

  /**
   A release takes the oldest entry of its key, if there is one, and keeps all others of the device in order; the lists
   of other devices stay, and a list without entries goes.
   */
  lemma {:induction false} ReleaseTakesOldest(keys: KeyMap, e: RawEvent)
    ensures var d, l, r := e.descriptor, ListOf(keys, e.descriptor), ListOf(Removed(keys, e), e.descriptor);
            && Others(r, e) == Others(l, e)
            && Own(r, e) == (if Own(l, e) == [] then [] else Own(l, e)[1..])
            && Removed(keys, e) - {d} == keys - {d}
            && (Own(l, e) != [] ==> (d in Removed(keys, e) <==> r != []))
            && (Own(l, e) == [] ==> Removed(keys, e) == keys)
  {
    var l := ListOf(keys, e.descriptor);
    var i := IndexOf(l, e);
    if i < |l| {
      OthersWithoutAt(l, i, e);
      OwnWithoutFirst(l, e);
      ConsParts(l[i], Own(WithoutAt(l, i), e));
      if |l| == 1 {
        assert WithoutAt(l, i) == [];
      } else {
        OverwriteTwice(keys, e.descriptor, WithoutAt(l, i), l);
      }
    } else {
      OwnNone(l, e);
    }
  }

  /** A release finds a key by kind, code, device and node, whatever its time and value, and touches no other entry. */
  lemma {:induction false} ReleaseMatches(keys: KeyMap, e: RawEvent, x: RawEvent)
    ensures var l, r := ListOf(keys, e.descriptor), ListOf(Removed(keys, e), e.descriptor);
            && (|r| < |l| <==> exists y :: y in l && y.kind == e.kind && y.code == e.code
                                          && y.descriptor == e.descriptor && y.path == e.path)
            && (x.code != e.code || x.path != e.path || x.kind != e.kind ==> multiset(r)[x] == multiset(l)[x])
  {
    var l := ListOf(keys, e.descriptor);
    var i := IndexOf(l, e);
    if i < |l| {
      assert l[i] in l;
      assert l == l[..i] + [l[i]] + l[i + 1..];
      if |l| == 1 {
        assert WithoutAt(l, i) == [];
      }
    }
  }
}
