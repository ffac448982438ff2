/**
 Who shares what: the hub's shared dhIds and device flags, the manager's totals and per-session sets, the client's copy
 and the session switches, and what the sharing commands do to them.
 */
module SharingBooks {
  import opened SeqFacts
  import opened SessionSwitch
  import opened StringCodec

  datatype Books = Books(
    shared: set<string>,               // InputHub::sharedDHIds_, the entries that are true
    flagged: set<string>,              // descriptors of the devices with isShare
    sharing: set<string>,              // DistributedInputSinkManager::sharingDhIds_
    bySession: map<int, set<string>>,  // DistributedInputSinkManager::sharingDhIdsMap_
    client: set<string>,               // DistributedInputClient::sharingDhIds_
    switches: SwitchVector)

  const NoBooks := Books({}, {}, {}, map[], {}, [])

  function HeldIn(bySession: map<int, set<string>>, session: int): set<string> {
    if session in bySession then bySession[session] else {}
  }

  function Held(b: Books, session: int): set<string> {
    HeldIn(b.bySession, session)
  }

  /**
   OnStartRemoteInputDhid once the session's switch is on. Only ids of attached devices reach the books of the manager.
   */
  function Start(b: Books, attached: set<string>, session: int, dhIds: set<string>): Books {
    var found := dhIds * attached;
    Books(b.shared + dhIds, b.flagged + found, b.sharing + found,
          b.bySession[session := Held(b, session) + found], b.client + found, Set(b.switches, session, true))
  }

  /** OnStopRemoteInputDhid: a session that holds nothing stops nothing, any other one stops all it names. */
  function Stop(b: Books, session: int, dhIds: set<string>): Books {
    var left := Held(b, session) - dhIds;
    var indeed := if session in b.bySession then dhIds else {};
    var shared := b.shared - indeed;
    Books(shared, b.flagged - indeed, b.sharing - indeed,
          if left == {} then b.bySession - {session} else b.bySession[session := left],
          b.client - indeed, if shared == {} then AllOff(b.switches) else b.switches)
  }

  /** The commands; the relay form of each one does the same under the session towards the sink. */
  datatype Command =
    | Prepare(session: int)
    | Unprepare(session: int)
    | StartDhid(session: int, dhIds: string)
    | StopDhid(session: int, dhIds: string)

  function Ids(dhIds: string): set<string> {
    SetOf(Split(dhIds, INPUT_STRING_SPLIT_POINT))
  }

  function Do(b: Books, attached: set<string>, cmd: Command): Books {
    match cmd
    case Prepare(s) => b.(switches := Add(b.switches, s))
    case Unprepare(s) =>
      var stopped := if b.flagged == {} then b else Stop(b, s, b.flagged);
      stopped.(switches := Remove(stopped.switches, s))
    case StartDhid(s, dhIds) => if s in SessionSwitch.Ids(b.switches) then Start(b, attached, s, Ids(dhIds)) else b
    case StopDhid(s, dhIds) => Stop(b, s, Ids(dhIds))
  }

  /** A session that holds `dhId` and whose switch is on. */
  predicate HoldsOpen(b: Books, session: int, dhId: string) {
    dhId in Held(b, session) && session in OnIds(b.switches)
  }

  predicate CopiesAgree(b: Books) {
    b.flagged == b.shared && b.sharing == b.shared && b.client == b.shared
  }

  ghost predicate Coherent(b: Books, attached: set<string>) {
    && CopiesAgree(b) && b.shared <= attached
    && Meaning(b.switches).Ok() && (forall s :: s in SessionSwitch.Ids(b.switches) ==> s > 0)
    && forall d :: d in b.shared ==> exists s :: HoldsOpen(b, s, d)
  }

  /** Sessions are positive and only ids of attached devices are started; stop commands may name anything. */
  predicate Legal(cmd: Command, attached: set<string>) {
    cmd.session > 0 && (cmd.StartDhid? ==> Ids(cmd.dhIds) <= attached)
  }

  lemma StartKeepsCoherent(b: Books, attached: set<string>, session: int, dhIds: set<string>)
    requires Coherent(b, attached) && session in SessionSwitch.Ids(b.switches) && dhIds <= attached
    ensures Coherent(Start(b, attached, session, dhIds), attached)
  {
    var c := Start(b, attached, session, dhIds);
    CallRefinesMap(b.switches, StartOp(session));
    assert Meaning(c.switches) == ApplyMeant(Meaning(b.switches), StartOp(session));
    assert dhIds * attached == dhIds;
    forall d | d in c.shared ensures exists s :: HoldsOpen(c, s, d) {
      if d in dhIds {
        assert HoldsOpen(c, session, d);
      } else {
        var s :| HoldsOpen(b, s, d);
        assert HoldsOpen(c, s, d);
      }
    }
  }

  lemma StopKeepsCoherent(b: Books, attached: set<string>, session: int, dhIds: set<string>)
    requires Coherent(b, attached)
    ensures Coherent(Stop(b, session, dhIds), attached)
  {
    var c := Stop(b, session, dhIds);
    CallRefinesMap(b.switches, StopAllOp);
    forall d | d in c.shared ensures exists s :: HoldsOpen(c, s, d) {
      var s :| HoldsOpen(b, s, d);
      assert HoldsOpen(c, s, d);
    }
  }

  /** Removing the switch of a session that holds nothing. */
  lemma RemoveKeepsCoherent(b: Books, attached: set<string>, session: int)
    requires Coherent(b, attached) && (b.shared == {} || session !in b.bySession)
    ensures Coherent(b.(switches := Remove(b.switches, session)), attached)
  {
    var c := b.(switches := Remove(b.switches, session));
    CallRefinesMap(b.switches, RemoveOp(session));
    assert Meaning(c.switches) == ApplyMeant(Meaning(b.switches), RemoveOp(session));
    forall s | s in SessionSwitch.Ids(c.switches) ensures s > 0 {
      WithoutIn(SessionSwitch.Ids(b.switches), session, s);
    }
    forall d | d in c.shared ensures exists s :: HoldsOpen(c, s, d) {
      var s :| HoldsOpen(b, s, d);
      assert HoldsOpen(c, s, d);
    }
  }

  lemma CommandKeepsCoherent(b: Books, attached: set<string>, cmd: Command)
    requires Coherent(b, attached) && Legal(cmd, attached)
    ensures Coherent(Do(b, attached, cmd), attached)
  {
    match cmd
    case Prepare(s) =>
      CallRefinesMap(b.switches, AddOp(s));
      var c := Do(b, attached, cmd);
      assert Meaning(c.switches) == ApplyMeant(Meaning(b.switches), AddOp(s));
      forall d | d in c.shared ensures exists s :: HoldsOpen(c, s, d) {
        var s :| HoldsOpen(b, s, d);
        assert HoldsOpen(c, s, d);
      }
    case Unprepare(s) =>
      var stopped := if b.flagged == {} then b else Stop(b, s, b.flagged);
      StopKeepsCoherent(b, attached, s, b.flagged);
      RemoveKeepsCoherent(stopped, attached, s);
    case StartDhid(s, dhIds) =>
      if s in SessionSwitch.Ids(b.switches) {
        StartKeepsCoherent(b, attached, s, Ids(dhIds));
      }
    case StopDhid(s, dhIds) => StopKeepsCoherent(b, attached, s, Ids(dhIds));
  }

  function RunCommands(attached: set<string>, commands: seq<Command>): Books {
    if commands == [] then NoBooks
    else Do(RunCommands(attached, commands[..|commands| - 1]), attached, commands[|commands| - 1])
  }

  /**
   Over every run of commands from any sessions: the four copies of what is shared are one set, every shared id is held
   by a session whose switch is on and so lies in the union of the per-session sets, and while anything is shared there
   is an open session for the forwarding step to send to.
   */
  lemma {:induction false} SharingNeverOrphaned(attached: set<string>, commands: seq<Command>)
    requires forall i :: 0 <= i < |commands| ==> Legal(commands[i], attached)
    ensures var b := RunCommands(attached, commands);
            && CopiesAgree(b)
            && (forall d :: d in b.shared ==> exists s :: HoldsOpen(b, s, d))
            && (b.shared != {} ==> Opened(b.switches) > 0)
    ensures Coherent(RunCommands(attached, commands), attached)
  {
    if commands == [] {
      assert Meaning([]) == Ordered([], {});
    } else {
      SharingNeverOrphaned(attached, commands[..|commands| - 1]);
      CommandKeepsCoherent(RunCommands(attached, commands[..|commands| - 1]), attached, commands[|commands| - 1]);
    }
    CoherentIsOpen(RunCommands(attached, commands), attached);
  }

  lemma CoherentIsOpen(b: Books, attached: set<string>)
    requires Coherent(b, attached)
    ensures b.shared != {} ==> Opened(b.switches) > 0
  {
    if b.shared != {} {
      var d :| d in b.shared;
      var s :| HoldsOpen(b, s, d);
      var k :| 0 <= k < |b.switches| && b.switches[k].on && b.switches[k].sessionId == s;
      OpenedIsEarliest(b.switches);
      var i :| 0 <= i < |b.switches| && b.switches[i].on && b.switches[i].sessionId == Opened(b.switches);
      var ids := SessionSwitch.Ids(b.switches);
      assert |ids| == |b.switches| && ids[i] == Opened(b.switches);
      assert ids[i] in ids;
    }
  }

  /**
   The assumption on start commands is exact: a start keeps the copies equal just when every id it names is attached.
   */
  lemma StartKeepsCopiesIff(b: Books, attached: set<string>, session: int, dhIds: set<string>)
    requires Coherent(b, attached)
    ensures CopiesAgree(Start(b, attached, session, dhIds)) <==> dhIds <= attached
  {
    var c := Start(b, attached, session, dhIds);
    if dhIds <= attached {
      assert dhIds * attached == dhIds;
    } else {
      var d :| d in dhIds && d !in attached;
      assert d in c.shared && d !in c.flagged;
    }
  }

  lemma RunCommandsSnoc(attached: set<string>, commands: seq<Command>, cmd: Command)
    ensures RunCommands(attached, commands + [cmd]) == Do(RunCommands(attached, commands), attached, cmd)
  {
    Snoc(commands, cmd);
  }

  /** Without it, an id can stay shared after its only session is gone, and forwarding finds no session. */
  lemma UnattachedStartIsOrphaned()
    ensures var b := RunCommands({}, [Prepare(1)] + [StartDhid(1, "k")] + [Unprepare(1)]);
            b.shared == {"k"} && Opened(b.switches) == ERR_GET_OPEN_SESSION_FAIL
  {
    RunCommandsSnoc({}, [], Prepare(1));
    assert [] + [Prepare(1)] == [Prepare(1)];
    RunCommandsSnoc({}, [Prepare(1)], StartDhid(1, "k"));
    RunCommandsSnoc({}, [Prepare(1)] + [StartDhid(1, "k")], Unprepare(1));
    var b0 := Do(NoBooks, {}, Prepare(1));
    assert b0.switches == [SwitchState(1, false)];
    assert SessionSwitch.Ids(b0.switches)[0] == 1;
    SplitOne("k", INPUT_STRING_SPLIT_POINT);
    assert Ids("k") == {"k"};
    var b1 := Do(b0, {}, StartDhid(1, "k"));
    assert b1.shared == {"k"} && b1.flagged == {} && |b1.switches| == 1 && b1.switches[0].sessionId == 1;
    var b2 := Do(b1, {}, Unprepare(1));
    assert b2.switches == [];
  }

  // ----- nothing shared, no session on

  /** A start that names no id, while nothing is shared: its session goes on for nothing. */
  predicate StartsNothing(b: Books, cmd: Command) {
    cmd.StartDhid? && cmd.session in SessionSwitch.Ids(b.switches) && Ids(cmd.dhIds) == {} && b.shared == {}
  }

  /** A session is on only while something is shared. */
  predicate Quiet(b: Books) {
    b.shared == {} ==> OnIds(b.switches) == {}
  }

  /**
   The sessions left on by a stop or an unprepare that leaves nothing shared: none, unless nothing was shared before an
   unprepare, which then turns off its own session only.
   */
  lemma {:induction false} LastStopTurnsOff(b: Books, attached: set<string>, cmd: Command)
    requires Coherent(b, attached) && (cmd.StopDhid? || cmd.Unprepare?) && Do(b, attached, cmd).shared == {}
    ensures OnIds(Do(b, attached, cmd).switches)
            == if cmd.StopDhid? || b.shared != {} then {} else OnIds(b.switches) - {cmd.session}
  {
    CallRefinesMap(b.switches, StopAllOp);
    if cmd.Unprepare? {
      var stopped := if b.flagged == {} then b else Stop(b, cmd.session, b.flagged);
      CallRefinesMap(stopped.switches, RemoveOp(cmd.session));
    }
  }

  lemma CommandKeepsQuiet(b: Books, attached: set<string>, cmd: Command)
    requires Coherent(b, attached) && Legal(cmd, attached) && Quiet(b)
    ensures Quiet(Do(b, attached, cmd)) <==> !StartsNothing(b, cmd)
  {
    match cmd
    case Prepare(s) => CallRefinesMap(b.switches, AddOp(s));
    case Unprepare(s) =>
      if Do(b, attached, cmd).shared == {} {
        LastStopTurnsOff(b, attached, cmd);
      }
    case StartDhid(s, dhIds) =>
      if s in SessionSwitch.Ids(b.switches) {
        CallRefinesMap(b.switches, StartOp(s));
        assert s in OnIds(Set(b.switches, s, true));
      }
    case StopDhid(s, dhIds) =>
      if Do(b, attached, cmd).shared == {} {
        LastStopTurnsOff(b, attached, cmd);
      }
  }

  ghost predicate AlwaysQuiet(attached: set<string>, commands: seq<Command>) {
    && Quiet(RunCommands(attached, commands))
    && (commands != [] ==> AlwaysQuiet(attached, commands[..|commands| - 1]))
  }

  ghost predicate StartsNameIds(attached: set<string>, commands: seq<Command>) {
    commands != [] ==>
      var before := commands[..|commands| - 1];
      StartsNameIds(attached, before) && !StartsNothing(RunCommands(attached, before), commands[|commands| - 1])
  }

  lemma AlwaysQuietIsQuiet(attached: set<string>, commands: seq<Command>)
    requires AlwaysQuiet(attached, commands)
    ensures Quiet(RunCommands(attached, commands))
  {
  }

  /**
   Over every run of commands from any sessions: no session is ever on while nothing is shared, exactly if no start
   names no id while nothing is shared.
   */
  lemma {:induction false} QuietIffStartsNameIds(attached: set<string>, commands: seq<Command>)
    requires forall i :: 0 <= i < |commands| ==> Legal(commands[i], attached)
    ensures AlwaysQuiet(attached, commands) <==> StartsNameIds(attached, commands)
  {
    if commands != [] {
      var before, cmd := commands[..|commands| - 1], commands[|commands| - 1];
      QuietIffStartsNameIds(attached, before);
      SharingNeverOrphaned(attached, before);
      if AlwaysQuiet(attached, before) {
        AlwaysQuietIsQuiet(attached, before);
        CommandKeepsQuiet(RunCommands(attached, before), attached, cmd);
      }
    }
  }

  lemma QuietOpens(b: Books, attached: set<string>)
    requires Coherent(b, attached) && Quiet(b)
    ensures b.shared != {} <==> Opened(b.switches) > 0
    ensures b.shared == {} <==> OnIds(b.switches) == {}
    ensures b.shared == {} <==> Opened(b.switches) == ERR_GET_OPEN_SESSION_FAIL
  {
    CoherentIsOpen(b, attached);
    if b.shared != {} {
      var d :| d in b.shared;
      var s :| HoldsOpen(b, s, d);
    } else {
      forall i | 0 <= i < |b.switches| ensures !b.switches[i].on {
        assert b.switches[i].sessionId !in OnIds(b.switches);
      }
      OpenedIsEarliest(b.switches);
    }
  }

  /** Then a session is open exactly while something is shared. */
  lemma {:induction false} OpenIffShared(attached: set<string>, commands: seq<Command>)
    requires forall i :: 0 <= i < |commands| ==> Legal(commands[i], attached)
    requires StartsNameIds(attached, commands)
    ensures var b := RunCommands(attached, commands);
            && (b.shared != {} <==> Opened(b.switches) > 0)
            && (b.shared == {} <==> OnIds(b.switches) == {})
            && (b.shared == {} <==> Opened(b.switches) == ERR_GET_OPEN_SESSION_FAIL)
  {
    SharingNeverOrphaned(attached, commands);
    QuietIffStartsNameIds(attached, commands);
    AlwaysQuietIsQuiet(attached, commands);
    QuietOpens(RunCommands(attached, commands), attached);
  }

  /** A start that names no id leaves its session open for nothing, from any state in which nothing is on. */
  lemma {:induction false} EmptyStartOpens(b: Books, attached: set<string>, session: int)
    requires Coherent(b, attached) && Quiet(b) && b.shared == {} && session in SessionSwitch.Ids(b.switches)
    ensures Do(b, attached, StartDhid(session, "")).shared == {}
    ensures OnIds(Do(b, attached, StartDhid(session, "")).switches) == {session}
  {
    assert Ids("") == {};
    CallRefinesMap(b.switches, StartOp(session));
  }

  // ----- a session without ids stops nothing

  /** No session has an empty entry. */
  ghost predicate NoEmptyEntries(b: Books) {
    forall s :: s in b.bySession ==> b.bySession[s] != {}
  }

  /** Only a start that names no id, of a session without ids, makes an empty entry. */
  lemma EntriesStayFull(b: Books, attached: set<string>, cmd: Command)
    requires NoEmptyEntries(b) && Legal(cmd, attached)
    ensures NoEmptyEntries(Do(b, attached, cmd)) <==>
              !(cmd.StartDhid? && cmd.session in SessionSwitch.Ids(b.switches) && Ids(cmd.dhIds) == {}
                && Held(b, cmd.session) == {})
  {
    if cmd.StartDhid? {
      assert Ids(cmd.dhIds) * attached == Ids(cmd.dhIds);
      var c := Do(b, attached, cmd);
      if cmd.session in SessionSwitch.Ids(b.switches) {
        assert cmd.session in c.bySession;
      }
    }
  }

  /** What a stop takes from the shared ids: all that it names, if its session has any id, and otherwise nothing. */
  lemma StopsOnlyHolders(b: Books, attached: set<string>, session: int, dhIds: string)
    requires NoEmptyEntries(b)
    ensures Do(b, attached, StopDhid(session, dhIds)).shared
            == if Held(b, session) == {} then b.shared else b.shared - Ids(dhIds)
  {
  }

  // ----- which sessions are known

  /** A session is known from a prepare on until an unprepare of it. */
  predicate PreparedSince(commands: seq<Command>, session: int) {
    commands != [] &&
      var cmd := commands[|commands| - 1];
      if cmd.Prepare? && cmd.session == session then true
      else if cmd.Unprepare? && cmd.session == session then false
      else PreparedSince(commands[..|commands| - 1], session)
  }

  lemma KnownAfter(b: Books, attached: set<string>, cmd: Command, session: int)
    requires Coherent(b, attached)
    ensures session in SessionSwitch.Ids(Do(b, attached, cmd).switches) <==>
              if cmd.Prepare? && cmd.session == session then true
              else if cmd.Unprepare? && cmd.session == session then false
              else session in SessionSwitch.Ids(b.switches)
  {
    match cmd
    case Prepare(s) => CallRefinesMap(b.switches, AddOp(s));
    case Unprepare(s) =>
      var stopped := if b.flagged == {} then b else Stop(b, s, b.flagged);
      CallRefinesMap(b.switches, StopAllOp);
      CallRefinesMap(stopped.switches, RemoveOp(s));
      WithoutIn(SessionSwitch.Ids(stopped.switches), s, session);
    case StartDhid(s, dhIds) => CallRefinesMap(b.switches, StartOp(s));
    case StopDhid(s, dhIds) => CallRefinesMap(b.switches, StopAllOp);
  }

  /** Over every run: a start finds its session exactly if that was prepared since it was last unprepared. */
  lemma {:induction false} KnownIffPrepared(attached: set<string>, commands: seq<Command>, session: int)
    requires forall i :: 0 <= i < |commands| ==> Legal(commands[i], attached)
    ensures session in SessionSwitch.Ids(RunCommands(attached, commands).switches) <==> PreparedSince(commands, session)
  {
    if commands != [] {
      var before := commands[..|commands| - 1];
      KnownIffPrepared(attached, before, session);
      SharingNeverOrphaned(attached, before);
      KnownAfter(RunCommands(attached, before), attached, commands[|commands| - 1], session);
    }
  }
}
