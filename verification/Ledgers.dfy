/**
 What one session shows of a device, against the device itself: which held keys are missing at the source, and which
 keys are stuck there.
 */
module Ledgers {
  import opened InputEvents
  import opened SeqFacts

  datatype Ledger = Ledger(held: set<nat>, missing: set<nat>, stuck: set<nat>) {
    predicate Ok() { missing <= held && stuck !! held }

    function Shown(): set<nat> { (held - missing) + stuck }

    predicate Exact() { missing == {} && stuck == {} }

    /** A key goes down at the device; without the session being told it is missing there, unless it was stuck. */
    function Down(c: nat, told: bool): (r: Ledger)
      requires Ok()
      ensures r.Ok() && r.held == held + {c} && r.Shown() == if told then Shown() + {c} else Shown()
    {
      if told then Ledger(held + {c}, missing - {c}, stuck - {c})
      else Ledger(held + {c}, if c in Shown() then missing else missing + {c}, stuck - {c})
    }

    /** A key comes up at the device; without the session being told it is stuck there, unless it was missing. */
    function Up(c: nat, told: bool): (r: Ledger)
      requires Ok()
      ensures r.Ok() && r.held == held - {c} && r.Shown() == if told then Shown() - {c} else Shown()
    {
      if told then Ledger(held - {c}, missing - {c}, stuck - {c})
      else Ledger(held - {c}, missing - {c}, if c in Shown() then stuck + {c} else stuck)
    }

    function Change(e: RawEvent, told: bool): (r: Ledger)
      requires Ok()
      ensures r.Ok() && r.held == KeyAfter(held, e) && r.Shown() == if told then KeyAfter(Shown(), e) else Shown()
    {
      if e.kind != EV_KEY then this
      else if e.value == KEY_DOWN_STATE then Down(e.code, told)
      else if e.value == KEY_UP_STATE then Up(e.code, told)
      else this
    }

    /** The session is told that some keys are down. */
    function HearDown(codes: set<nat>): (r: Ledger)
      requires Ok()
      ensures r.Ok() && r.held == held && r.Shown() == Shown() + codes
    {
      Ledger(held, missing - codes, stuck + (codes - held))
    }

    function HearUp(codes: set<nat>): (r: Ledger)
      requires Ok()
      ensures r.Ok() && r.held == held && r.Shown() == Shown() - codes
    {
      Ledger(held, missing + (codes * held), stuck - codes)
    }

    /** The session is told a stretch of events that the device produced earlier. */
    function Hear(events: seq<RawEvent>): (r: Ledger)
      requires Ok()
      ensures r.Ok() && r.held == held && r.Shown() == KeysAfter(Shown(), events)
      decreases |events|
    {
      if events == [] then this
      else
        var e := events[0];
        (if e.kind == EV_KEY && e.value == KEY_DOWN_STATE then HearDown({e.code})
         else if e.kind == EV_KEY && e.value == KEY_UP_STATE then HearUp({e.code})
         else this).Hear(events[1..])
    }
  }

  /** The session shows exactly the held keys just when none is missing and none is stuck. */
  lemma ExactIffShown(l: Ledger)
    requires l.Ok()
    ensures l.Shown() == l.held <==> l.Exact()
  {
    if l.Shown() == l.held {
      assert forall c :: c in l.missing ==> c in l.Shown();
      assert forall c :: c in l.stuck ==> c in l.Shown();
    }
  }

  /** The last thing that some events say of a key. */
  datatype Said = Nothing | Down | Up

  function LastSaid(events: seq<RawEvent>, c: nat): Said {
    if events == [] then Nothing
    else
      var e := events[|events| - 1];
      if e.kind == EV_KEY && e.code == c && e.value == KEY_DOWN_STATE then Said.Down
      else if e.kind == EV_KEY && e.code == c && e.value == KEY_UP_STATE then Said.Up
      else LastSaid(events[..|events| - 1], c)
  }

  lemma {:induction false} KeysAfterConcat(shown: set<nat>, a: seq<RawEvent>, b: seq<RawEvent>)
    ensures KeysAfter(shown, a + b) == KeysAfter(KeysAfter(shown, a), b)
    decreases |a|
  {
    if a == [] {
      assert a + b == b;
    } else {
      FirstOfConcat(a, b);
      KeysAfterConcat(KeyAfter(shown, a[0]), a[1..], b);
    }
  }

  lemma KeysAfterOne(shown: set<nat>, a: seq<RawEvent>, e: RawEvent)
    ensures KeysAfter(shown, a + [e]) == KeyAfter(KeysAfter(shown, a), e)
  {
    KeysAfterConcat(shown, a, [e]);
    ConsParts(e, []);
    ConcatEmpty([e]);
  }

  /** For each key the last word counts, and without a word the key stays as it was. */
  lemma {:induction false} LastWordCounts(shown: set<nat>, events: seq<RawEvent>, c: nat)
    ensures c in KeysAfter(shown, events)
            <==> LastSaid(events, c).Down? || (LastSaid(events, c).Nothing? && c in shown)
  {
    if events != [] {
      var front, e := events[..|events| - 1], events[|events| - 1];
      LastWordCounts(shown, front, c);
      CutJoin(events, |events| - 1);
      assert events == front + [e];
      KeysAfterOne(shown, front, e);
    }
  }
}
