/**
 What the sink sends. Sending is appending to a log; the encoding of a message and the socket below it are not modelled.
 */
module SinkTransport {
  import opened InputEvents
  import opened SeqFacts

  const MSG_BATCH_MAX_SIZE := 20

  /** The three messages that carry input: one simulated key, a batch of simulated events, a read buffer. */
  datatype Message =
    | KeyState(session: int, dhId: string, kind: nat, code: nat, value: int)
    | Batch(session: int, events: seq<RawEvent>)
    | Body(session: int, events: seq<RawEvent>)
  {
    function Signals(): seq<Signal> {
      match this
      case KeyState(s, d, k, c, v) => [Signal(s, d, k, c, v)]
      case Batch(s, events) => SignalsOf(s, events)
      case Body(s, events) => SignalsOf(s, events)
    }
  }

  /** The signals of the log, one by one and in order. */
  function Delivered(log: seq<Message>): seq<Signal> {
    if log == [] then [] else Delivered(log[..|log| - 1]) + log[|log| - 1].Signals()
  }

  lemma DeliveredPush(log: seq<Message>, m: Message)
    ensures Delivered(log + [m]) == Delivered(log) + m.Signals()
  {
    assert (log + [m])[..|log|] == log;
  }

  lemma {:induction false} DeliveredConcat(a: seq<Message>, b: seq<Message>)
    ensures Delivered(a + b) == Delivered(a) + Delivered(b)
  {
    if b == [] {
      assert a + b == a;
    } else {
      var front, m := b[..|b| - 1], b[|b| - 1];
      LastOfConcat(a, b);
      DeliveredConcat(a, front);
      ConcatAssoc(Delivered(a), Delivered(front), m.Signals());
    }
  }

  function Payload(messages: seq<Message>): seq<RawEvent> {
    if messages == [] then []
    else
      var m := messages[|messages| - 1];
      Payload(messages[..|messages| - 1]) + (if m.KeyState? then [] else m.events)
  }

  /** All `messages` are batches for `session` that together carry `events` in order. */
  predicate Carries(messages: seq<Message>, session: int, events: seq<RawEvent>) {
    && (forall i :: 0 <= i < |messages| ==> messages[i].Batch? && messages[i].session == session)
    && Payload(messages) == events
  }

  predicate AllFull(messages: seq<Message>, session: int) {
    forall i :: 0 <= i < |messages| ==>
      messages[i].Batch? && messages[i].session == session && |messages[i].events| == MSG_BATCH_MAX_SIZE
  }

  /** Every batch but the last is full, and the last one is not empty. */
  predicate WellFilled(messages: seq<Message>) {
    forall i :: 0 <= i < |messages| ==>
      && messages[i].Batch?
      && if i < |messages| - 1 then |messages[i].events| == MSG_BATCH_MAX_SIZE
         else 1 <= |messages[i].events| <= MSG_BATCH_MAX_SIZE
  }

  /** Cutting into batches is invisible to the receiver. */
  lemma {:induction false} CarriesDelivers(messages: seq<Message>, session: int, events: seq<RawEvent>)
    requires Carries(messages, session, events)
    ensures Delivered(messages) == SignalsOf(session, events)
  {
    if messages != [] {
      var n, m := |messages| - 1, messages[|messages| - 1];
      CarriesDelivers(messages[..n], session, Payload(messages[..n]));
      SignalsOfConcat(session, Payload(messages[..n]), m.events);
    }
  }

  /** How many batches there are is fixed by the number of events. */
  lemma BatchCount(messages: seq<Message>, session: int, events: seq<RawEvent>)
    requires Carries(messages, session, events) && WellFilled(messages)
    ensures |messages| == (|events| + 19) / 20
  {
    if messages != [] {
      FullBatches(messages[..|messages| - 1]);
    }
  }

  lemma {:induction false} FullBatches(messages: seq<Message>)
    requires forall i :: 0 <= i < |messages| ==> messages[i].Batch? && |messages[i].events| == MSG_BATCH_MAX_SIZE
    ensures |Payload(messages)| == MSG_BATCH_MAX_SIZE * |messages|
  {
    if messages != [] {
      FullBatches(messages[..|messages| - 1]);
    }
  }

  /** One more batch, on the log and on what was sent of it. */
  lemma BatchSent(before: seq<Message>, sent: seq<Message>, session: int, events: seq<RawEvent>)
    requires AllFull(sent, session) && 1 <= |events| <= MSG_BATCH_MAX_SIZE
    ensures var after := sent + [Batch(session, events)];
            && before + sent + [Batch(session, events)] == before + after
            && Payload(after) == Payload(sent) + events && Payload(after) + [] == Payload(after)
            && Carries(after, session, Payload(after)) && WellFilled(after)
            && (|events| == MSG_BATCH_MAX_SIZE ==> AllFull(after, session))
  {
    ConcatAssoc(before, sent, [Batch(session, events)]);
    Snoc(sent, Batch(session, events));
    ConcatEmpty(Payload(sent + [Batch(session, events)]));
  }

  class DistributedInputSinkTransport {
    var log: seq<Message>

    constructor ()
      ensures log == []
    {
      log := [];
    }

    method SendKeyStateNodeMsg(sessionId: int, dhId: string, kind: nat, code: nat, value: int)
      modifies this
      ensures log == if sessionId <= 0 then old(log) else old(log) + [KeyState(sessionId, dhId, kind, code, value)]
    {
      if sessionId <= 0 {
        return;
      }
      log := log + [KeyState(sessionId, dhId, kind, code, value)];
    }

    method SendKeyStateNodeMsgBatch(sessionId: int, events: seq<RawEvent>)
      modifies this
      ensures sessionId <= 0 ==> log == old(log)
      ensures sessionId > 0 ==>
        && |log| >= |old(log)| && log[..|old(log)|] == old(log)
        && Carries(log[|old(log)|..], sessionId, events) && WellFilled(log[|old(log)|..])
      ensures Delivered(log) == Delivered(old(log)) + (if sessionId <= 0 then [] else SignalsOf(sessionId, events))
    {
      if sessionId <= 0 {
        return;
      }
      ghost var sent := SendInBatches(sessionId, events);
      CutConcat(old(log), sent, |old(log)|);
      CarriesDelivers(sent, sessionId, events);
      DeliveredConcat(old(log), sent);
    }

    /** The batching loop, for a valid session. */
    method SendInBatches(sessionId: int, events: seq<RawEvent>) returns (ghost sent: seq<Message>)
      modifies this
      ensures log == old(log) + sent && Carries(sent, sessionId, events) && WellFilled(sent)
    {
      var eventBatch: seq<RawEvent> := [];
      sent := [];
      for i := 0 to |events|
        invariant |eventBatch| < MSG_BATCH_MAX_SIZE && log == old(log) + sent
        invariant AllFull(sent, sessionId) && Payload(sent) + eventBatch == events[..i]
      {
        PrefixStep(events, i);
        ConcatAssoc(Payload(sent), eventBatch, [events[i]]);
        eventBatch := eventBatch + [events[i]];
        if |eventBatch| == MSG_BATCH_MAX_SIZE {
          BatchSent(old(log), sent, sessionId, eventBatch);
          DoSendMsgBatch(sessionId, eventBatch);
          sent := sent + [Batch(sessionId, eventBatch)];
          eventBatch := [];
        }
      }
      assert events[..|events|] == events;
      ConcatEmpty(Payload(sent));
      if eventBatch != [] {
        BatchSent(old(log), sent, sessionId, eventBatch);
        DoSendMsgBatch(sessionId, eventBatch);
        sent := sent + [Batch(sessionId, eventBatch)];
      }
    }

    method DoSendMsgBatch(sessionId: int, events: seq<RawEvent>)
      modifies this
      ensures log == old(log) + [Batch(sessionId, events)]
    {
      log := log + [Batch(sessionId, events)];
    }

    /** ProcessEvent: a read buffer goes to the first session whose switch is on, or nowhere. */
    method ForwardBody(openSession: int, events: seq<RawEvent>)
      modifies this
      ensures log == if openSession > 0 then old(log) + [Body(openSession, events)] else old(log)
    {
      if openSession > 0 {
        log := log + [Body(openSession, events)];
      }
    }
  }
}
