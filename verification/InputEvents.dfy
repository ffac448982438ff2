/** Raw input events, the event tests of the sink, and what a source device makes of the events sent to it. */
module InputEvents {
  import opened SeqFacts

  // Event types and codes of <linux/input-event-codes.h>
  const EV_SYN: nat := 0
  const EV_KEY: nat := 1
  const EV_ABS: nat := 3
  const EV_MSC: nat := 4
  const SYN_REPORT: nat := 0
  const MSC_SCAN: nat := 4
  const ABS_X: nat := 0x00
  const ABS_Y: nat := 0x01
  const ABS_MT_POSITION_X: nat := 0x35
  const ABS_MT_POSITION_Y: nat := 0x36
  const BTN_LEFT: nat := 0x110
  const BTN_RIGHT: nat := 0x111
  const BTN_MIDDLE: nat := 0x112
  const BTN_MOUSE: nat := 0x110
  const BTN_TOUCH: nat := 0x14a
  const KEY_MAX: nat := 0x2ff

  const KEY_UP_STATE := 0
  const KEY_DOWN_STATE := 1
  const KEY_REPEAT := 2

  /** An event as it is read from a device node. */
  datatype InputEvent = InputEvent(when: int, kind: nat, code: nat, value: int)

  datatype RawEvent = RawEvent(when: int, kind: nat, code: nat, value: int, descriptor: string, path: string)

  /** Equality of raw events in the source: it looks at neither the time nor the value. */
  predicate SameKey(a: RawEvent, b: RawEvent) {
    a.kind == b.kind && a.code == b.code && a.descriptor == b.descriptor && a.path == b.path
  }

  predicate IsPositionEvent(e: RawEvent) {
    e.kind == EV_ABS && e.code in {ABS_MT_POSITION_X, ABS_MT_POSITION_Y, ABS_X, ABS_Y}
  }

  predicate IsSynEvent(e: RawEvent) {
    e.kind == EV_SYN && e.code == SYN_REPORT
  }

  predicate IsTouch(e: RawEvent, value: int) {
    e.kind == EV_KEY && e.code == BTN_TOUCH && e.value == value
  }

  /** One event as it leaves the sink for the source at the other end of `session`. */
  datatype Signal = Signal(session: int, dhId: string, kind: nat, code: nat, value: int)

  function SignalOf(session: int, e: RawEvent): Signal {
    Signal(session, e.descriptor, e.kind, e.code, e.value)
  }

  function SignalsOf(session: int, events: seq<RawEvent>): (s: seq<Signal>)
    ensures |s| == |events|
  {
    if events == [] then [] else [SignalOf(session, events[0])] + SignalsOf(session, events[1..])
  }

  lemma {:induction false} SignalsOfConcat(session: int, a: seq<RawEvent>, b: seq<RawEvent>)
    ensures SignalsOf(session, a + b) == SignalsOf(session, a) + SignalsOf(session, b)
  {
    if a == [] {
      assert a + b == b;
    } else {
      FirstOfConcat(a, b);
      SignalsOfConcat(session, a[1..], b);
      ConcatAssoc([SignalOf(session, a[0])], SignalsOf(session, a[1..]), SignalsOf(session, b));
    }
  }

  // ----- a source: the keys that the virtual twin of a device holds down at the other end of one session

  /** A press adds the key, a release removes it, anything else (a repeat, motion, SYN) leaves the keys alone. */
  function Apply(held: set<nat>, s: Signal, session: int, dhId: string): set<nat> {
    if s.session != session || s.dhId != dhId || s.kind != EV_KEY then held
    else if s.value == KEY_DOWN_STATE then held + {s.code}
    else if s.value == KEY_UP_STATE then held - {s.code}
    else held
  }

  function Replay(held: set<nat>, signals: seq<Signal>, session: int, dhId: string): set<nat>
    decreases |signals|
  {
    if signals == [] then held else Replay(Apply(held, signals[0], session, dhId), signals[1..], session, dhId)
  }

  lemma {:induction false} ReplayConcat(held: set<nat>, a: seq<Signal>, b: seq<Signal>, session: int, dhId: string)
    ensures Replay(held, a + b, session, dhId) == Replay(Replay(held, a, session, dhId), b, session, dhId)
    decreases |a|
  {
    if a == [] {
      assert a + b == b;
    } else {
      FirstOfConcat(a, b);
      ReplayConcat(Apply(held, a[0], session, dhId), a[1..], b, session, dhId);
    }
  }

  /** Signals of other devices or to other sessions do not move the keys. */
  lemma {:induction false} ReplayOthers(held: set<nat>, a: seq<Signal>, session: int, dhId: string)
    requires forall s :: s in a ==> s.dhId != dhId || s.session != session
    ensures Replay(held, a, session, dhId) == held
    decreases |a|
  {
    if a != [] {
      ReplayOthers(held, a[1..], session, dhId);
    }
  }

  /** What one session is sent of one device, in order. */
  function At(signals: seq<Signal>, session: int, dhId: string): seq<Signal> {
    if signals == [] then []
    else
      (if signals[0].session == session && signals[0].dhId == dhId then [signals[0]] else [])
      + At(signals[1..], session, dhId)
  }

  lemma {:induction false} AtConcat(a: seq<Signal>, b: seq<Signal>, session: int, dhId: string)
    ensures At(a + b, session, dhId) == At(a, session, dhId) + At(b, session, dhId)
  {
    if a == [] {
      ConcatEmpty(b);
      ConcatEmpty(At(b, session, dhId));
    } else {
      FirstOfConcat(a, b);
      AtConcat(a[1..], b, session, dhId);
      ConcatAssoc(if a[0].session == session && a[0].dhId == dhId then [a[0]] else [], At(a[1..], session, dhId),
                  At(b, session, dhId));
    }
  }

  lemma {:induction false} AtOwn(a: seq<Signal>, session: int, dhId: string)
    requires forall s :: s in a ==> s.dhId == dhId && s.session == session
    ensures At(a, session, dhId) == a
  {
    if a != [] {
      AtOwn(a[1..], session, dhId);
    }
  }

  lemma {:induction false} AtOthers(a: seq<Signal>, session: int, dhId: string)
    requires forall s :: s in a ==> s.dhId != dhId || s.session != session
    ensures At(a, session, dhId) == []
  {
    if a != [] {
      AtOthers(a[1..], session, dhId);
    }
  }

  /** A source goes by what it is sent. */
  lemma {:induction false} ReplayAt(held: set<nat>, a: seq<Signal>, session: int, dhId: string)
    ensures Replay(held, a, session, dhId) == Replay(held, At(a, session, dhId), session, dhId)
    decreases |a|
  {
    if a != [] {
      ReplayAt(Apply(held, a[0], session, dhId), a[1..], session, dhId);
      if a[0].session == session && a[0].dhId == dhId {
        ConsParts(a[0], At(a[1..], session, dhId));
      } else {
        ConcatEmpty(At(a[1..], session, dhId));
      }
    }
  }

  /** What some events of one device make of the keys shown. */
  function KeyAfter(shown: set<nat>, e: RawEvent): set<nat> {
    if e.kind != EV_KEY then shown
    else if e.value == KEY_DOWN_STATE then shown + {e.code}
    else if e.value == KEY_UP_STATE then shown - {e.code}
    else shown
  }

  function KeysAfter(shown: set<nat>, events: seq<RawEvent>): set<nat>
    decreases |events|
  {
    if events == [] then shown else KeysAfter(KeyAfter(shown, events[0]), events[1..])
  }

  lemma {:induction false} ReplayIsKeysAfter(shown: set<nat>, session: int, events: seq<RawEvent>, d: string)
    requires forall e :: e in events ==> e.descriptor == d
    ensures Replay(shown, SignalsOf(session, events), session, d) == KeysAfter(shown, events)
    decreases |events|
  {
    if events != [] {
      ReplayIsKeysAfter(KeyAfter(shown, events[0]), session, events[1..], d);
      ConsParts(SignalOf(session, events[0]), SignalsOf(session, events[1..]));
    }
  }
}
