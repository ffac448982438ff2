/**
 Where shared devices go. Everything that is shared is sent to one session, the earliest added one that is on; this file
 says when that is the session that holds the device.
 */
module SharingRoutes {
  import opened SessionSwitch
  import opened SharingBooks

  /** Every session whose set has a shared id is the one that shared devices are sent to. */
  ghost predicate Routed(b: Books) {
    forall s, d :: d in b.shared && d in HeldIn(b.bySession, s) ==> s == Opened(b.switches)
  }

  /**
   What a start needs in the books before it: its session becomes the open one, and no other session has an id that is
   shared already or is to be shared now.
   */
  ghost predicate Fits(b: Books, session: int, dhIds: set<string>) {
    var o := Opened(Set(b.switches, session, true));
    && (dhIds != {} ==> o == session)
    && forall s, d :: d in b.shared + dhIds && d in HeldIn(b.bySession, s) ==> s == o
  }

  lemma StartRoutedIff(b: Books, attached: set<string>, session: int, dhIds: set<string>)
    requires dhIds <= attached
    ensures Routed(Start(b, attached, session, dhIds)) <==> Fits(b, session, dhIds)
  {
    var c, o := Start(b, attached, session, dhIds), Opened(Set(b.switches, session, true));
    assert dhIds * attached == dhIds;
    if Routed(c) {
      if dhIds != {} {
        var d :| d in dhIds;
        assert d in HeldIn(c.bySession, session);
      }
      forall s, d | d in b.shared + dhIds && d in HeldIn(b.bySession, s) ensures s == o {
        assert d in HeldIn(c.bySession, s);
      }
    }
    if Fits(b, session, dhIds) {
      forall s, d | d in c.shared && d in HeldIn(c.bySession, s) ensures s == o {
        assert d in HeldIn(b.bySession, s) || (s == session && d in dhIds);
      }
    }
  }

  lemma StopKeepsRouted(b: Books, session: int, dhIds: set<string>)
    requires Routed(b)
    ensures Routed(Stop(b, session, dhIds))
  {
    var c := Stop(b, session, dhIds);
    forall s, d | d in c.shared && d in HeldIn(c.bySession, s) ensures s == Opened(c.switches) {
      assert d in HeldIn(b.bySession, s);
    }
  }

  /** An effective start of `cmd` fits; any other command needs nothing. */
  ghost predicate FitsIn(b: Books, cmd: Command) {
    cmd.StartDhid? && cmd.session in SessionSwitch.Ids(b.switches) ==> Fits(b, cmd.session, SharingBooks.Ids(cmd.dhIds))
  }

  /** Only starts can break the routing, and a start breaks it exactly if it does not fit. */
  lemma CommandRoutedIff(b: Books, attached: set<string>, cmd: Command)
    requires Coherent(b, attached) && Routed(b) && Legal(cmd, attached)
    ensures Routed(Do(b, attached, cmd)) <==> FitsIn(b, cmd)
  {
    match cmd
    case Prepare(s) => OpenedAfterAdd(b.switches, s);
    case Unprepare(s) => UnprepareKeepsRouted(b, attached, s);
    case StartDhid(s, dhIds) =>
      if s in SessionSwitch.Ids(b.switches) {
        StartRoutedIff(b, attached, s, SharingBooks.Ids(dhIds));
      }
    case StopDhid(s, dhIds) => StopKeepsRouted(b, s, SharingBooks.Ids(dhIds));
  }

  lemma UnprepareKeepsRouted(b: Books, attached: set<string>, session: int)
    requires Coherent(b, attached) && Routed(b)
    ensures Routed(Do(b, attached, Unprepare(session)))
  {
    var c := Do(b, attached, Unprepare(session));
    StopKeepsRouted(b, session, b.flagged);
    if c.shared != {} {
      UnprepareWithoutEntry(b, attached, session);
      var d :| d in b.shared;
      var s :| HoldsOpen(b, s, d);
      assert d in HeldIn(b.bySession, s) && s == Opened(b.switches) && s != session;
      OpenedAfterRemove(b.switches, session);
    }
  }

  /** An unprepare that leaves something shared comes from a session without an entry, and removes just its switch. */
  lemma UnprepareWithoutEntry(b: Books, attached: set<string>, session: int)
    requires Coherent(b, attached) && Do(b, attached, Unprepare(session)).shared != {}
    ensures session !in b.bySession
    ensures var c := Do(b, attached, Unprepare(session));
            c.shared == b.shared && c.bySession == b.bySession && c.switches == Remove(b.switches, session)
  {
    assert b.bySession - {session} == b.bySession || session in b.bySession;
    assert b.shared - {} == b.shared;
  }

  // ----- over every run of commands

  ghost predicate AlwaysRouted(attached: set<string>, commands: seq<Command>) {
    && Routed(RunCommands(attached, commands))
    && (commands != [] ==> AlwaysRouted(attached, commands[..|commands| - 1]))
  }

  ghost predicate StartsFit(attached: set<string>, commands: seq<Command>) {
    commands != [] ==>
      var before := commands[..|commands| - 1];
      StartsFit(attached, before) && FitsIn(RunCommands(attached, before), commands[|commands| - 1])
  }

  /** A run keeps every shared device with the session that holds it exactly if every start fits the books it finds. */
  lemma {:induction false} RoutedIffStartsFit(attached: set<string>, commands: seq<Command>)
    requires forall i :: 0 <= i < |commands| ==> Legal(commands[i], attached)
    ensures AlwaysRouted(attached, commands) <==> StartsFit(attached, commands)
  {
    if commands != [] {
      var before, cmd := commands[..|commands| - 1], commands[|commands| - 1];
      RoutedIffStartsFit(attached, before);
      SharingNeverOrphaned(attached, before);
      if AlwaysRouted(attached, before) {
        AlwaysRoutedIsRouted(attached, before);
        CommandRoutedIff(RunCommands(attached, before), attached, cmd);
      }
    }
  }

  lemma AlwaysRoutedIsRouted(attached: set<string>, commands: seq<Command>)
    requires AlwaysRouted(attached, commands)
    ensures Routed(RunCommands(attached, commands))
  {
  }

  /** In a routed state a session holds a shared id exactly if shared devices are sent to it. */
  lemma HolderIsOpened(b: Books, attached: set<string>, session: int, d: string)
    requires Coherent(b, attached) && Routed(b) && d in b.shared
    ensures d in HeldIn(b.bySession, session) <==> session == Opened(b.switches)
  {
    var s :| HoldsOpen(b, s, d);
    assert s == Opened(b.switches);
  }

  /**
   While commands keep the routing, a device that stays shared keeps its session, and a new one goes to its starter.
   */
  lemma RouteOfSharing(b: Books, attached: set<string>, cmd: Command, d: string)
    requires Coherent(b, attached) && Routed(b) && Legal(cmd, attached)
    requires Routed(Do(b, attached, cmd)) && d in Do(b, attached, cmd).shared
    ensures var c := Do(b, attached, cmd);
            if d in b.shared then Opened(c.switches) == Opened(b.switches)
            else
              && cmd.StartDhid? && cmd.session in SessionSwitch.Ids(b.switches) && d in SharingBooks.Ids(cmd.dhIds)
              && Opened(c.switches) == cmd.session
  {
    var c := Do(b, attached, cmd);
    if d in b.shared {
      var s :| HoldsOpen(b, s, d);
      if cmd.Unprepare? {
        UnprepareWithoutEntry(b, attached, cmd.session);
      }
      assert d in HeldIn(c.bySession, s);
    } else {
      assert d in HeldIn(c.bySession, cmd.session);
    }
  }

  /**
   When the session that a shared device is sent to changes: exactly when a session added before the open one starts, or
   when the open one is unprepared while its own set is gone.
   */
  lemma OpenedChangesIff(b: Books, attached: set<string>, cmd: Command, d: string)
    requires Coherent(b, attached) && Legal(cmd, attached)
    requires d in b.shared && d in Do(b, attached, cmd).shared
    ensures Opened(Do(b, attached, cmd).switches) != Opened(b.switches) <==>
              match cmd
              case StartDhid(s, _) =>
                && s in SessionSwitch.Ids(b.switches) && s != Opened(b.switches)
                && !OnBefore(b.switches, IndexOf(b.switches, s))
              case Unprepare(s) => s == Opened(b.switches)
              case _ => false
  {
    match cmd
    case Prepare(s) => OpenedAfterAdd(b.switches, s);
    case StartDhid(s, dhIds) =>
      IndexOfMeans(b.switches, s);
      if s in SessionSwitch.Ids(b.switches) {
        OpenedAfterStart(b.switches, s);
      }
    case StopDhid(s, dhIds) =>
    case Unprepare(s) =>
      UnprepareWithoutEntry(b, attached, s);
      CommandKeepsCoherent(b, attached, cmd);
      if s == Opened(b.switches) {
        OpenedIsNotRemoved(b, attached, s);
      } else {
        OpenedAfterRemove(b.switches, s);
      }
  }

  lemma OpenedIsNotRemoved(b: Books, attached: set<string>, session: int)
    requires Coherent(b, attached) && session > 0
    ensures Opened(Remove(b.switches, session)) != session
  {
    RemoveMeans(b.switches, session);
    OpenedIsKnown(Remove(b.switches, session));
    WithoutIn(SessionSwitch.Ids(b.switches), session, session);
  }

  // ----- the per-session sets against what is shared

  /** No session keeps an id that is not shared any more; then the sets together are exactly what is shared. */
  ghost predicate NoneStale(b: Books) {
    forall s, d :: d in HeldIn(b.bySession, s) ==> d in b.shared
  }

  /** Another session has an id that a stop by `session`, which has an entry, takes from the shared set. */
  ghost predicate TakesFromOthers(b: Books, session: int, dhIds: set<string>) {
    session in b.bySession && exists s, d :: s != session && d in dhIds && d in HeldIn(b.bySession, s)
  }

  lemma StopLeavesStaleIff(b: Books, session: int, dhIds: set<string>)
    requires NoneStale(b)
    ensures NoneStale(Stop(b, session, dhIds)) <==> !TakesFromOthers(b, session, dhIds)
  {
    var c := Stop(b, session, dhIds);
    if s, d :| s != session && d in dhIds && d in HeldIn(b.bySession, s) && session in b.bySession {
      assert d in HeldIn(c.bySession, s) && d !in c.shared;
    }
    if !TakesFromOthers(b, session, dhIds) {
      forall s, d | d in HeldIn(c.bySession, s) ensures d in c.shared {
        assert d in HeldIn(b.bySession, s);
      }
    }
  }

  /** The sets of the sessions cover exactly what is shared until a session stops an id that another one has. */
  lemma CommandLeavesStaleIff(b: Books, attached: set<string>, cmd: Command)
    requires Coherent(b, attached) && NoneStale(b) && Legal(cmd, attached)
    ensures NoneStale(Do(b, attached, cmd)) <==>
              match cmd
              case StopDhid(s, dhIds) => !TakesFromOthers(b, s, SharingBooks.Ids(dhIds))
              case Unprepare(s) => !TakesFromOthers(b, s, b.shared)
              case _ => true
  {
    match cmd
    case Prepare(s) =>
    case Unprepare(s) => StopLeavesStaleIff(b, s, b.flagged);
    case StartDhid(s, dhIds) =>
      var c := Do(b, attached, cmd);
      forall t, d | d in HeldIn(c.bySession, t) ensures d in c.shared {
        assert d in HeldIn(b.bySession, t) || d in SharingBooks.Ids(dhIds) * attached;
      }
    case StopDhid(s, dhIds) => StopLeavesStaleIff(b, s, SharingBooks.Ids(dhIds));
  }

  lemma NoneStaleIsUnion(b: Books, attached: set<string>, d: string)
    requires Coherent(b, attached) && NoneStale(b)
    ensures d in b.shared <==> exists s :: d in HeldIn(b.bySession, s)
  {
    if d in b.shared {
      var s :| HoldsOpen(b, s, d);
    }
  }

  // ----- one borrower, and two

  lemma OneBorrower(attached: set<string>, x: int, d: string)
    requires SharingBooks.Ids(d) == {d} <= attached
    ensures var b := Do(NoBooks, attached, Prepare(x));
            x in SessionSwitch.Ids(b.switches) && b.shared == {}
    ensures var b := Do(Do(NoBooks, attached, Prepare(x)), attached, StartDhid(x, d));
            && x in SessionSwitch.Ids(b.switches) && Opened(b.switches) == x
            && b.shared == {d} && x in b.bySession
  {
    var v, w := [SwitchState(x, false)], [SwitchState(x, true)];
    assert Do(NoBooks, attached, Prepare(x)).switches == v;
    assert SessionSwitch.Ids(v)[0] == x && SessionSwitch.Ids(w)[0] == x;
    assert Set(v, x, true) == w;
  }

  /** Two sessions are prepared, and the first one borrows a device. */
  function OneStarted(attached: set<string>, x: int, y: int, a: string): Books {
    Do(Do(Do(NoBooks, attached, Prepare(x)), attached, Prepare(y)), attached, StartDhid(x, a))
  }

  predicate TwoBorrowers(attached: set<string>, x: int, y: int, a: string, b: string) {
    x > 0 && y > 0 && x != y && a != b && {a, b} <= attached && SharingBooks.Ids(a) == {a} && SharingBooks.Ids(b) == {b}
  }

  lemma OneStartedIs(attached: set<string>, x: int, y: int, a: string)
    requires x != y && SharingBooks.Ids(a) == {a} <= attached
    ensures var c := Do(Do(NoBooks, attached, Prepare(x)), attached, Prepare(y));
            c.switches == [SwitchState(x, false), SwitchState(y, false)] && c.shared == {} && c.bySession == map[]
    ensures var c := OneStarted(attached, x, y, a);
            && c.switches == [SwitchState(x, true), SwitchState(y, false)]
            && c.shared == {a} && c.bySession == map[x := {a}]
            && Opened(c.switches) == x && y in SessionSwitch.Ids(c.switches)
  {
    var v := [SwitchState(x, false), SwitchState(y, false)];
    var c := Do(Do(NoBooks, attached, Prepare(x)), attached, Prepare(y));
    assert c.switches == v;
    assert SessionSwitch.Ids(v)[0] == x;
    assert {a} * attached == {a};
    var w := OneStarted(attached, x, y, a).switches;
    assert w == [SwitchState(x, true), SwitchState(y, false)];
    assert SessionSwitch.Ids(w)[1] == y;
  }

  /** When the second session borrows another device, both devices go to the first one: the start does not fit. */
  lemma SecondBorrowerIsNotServed(attached: set<string>, x: int, y: int, a: string, b: string)
    requires TwoBorrowers(attached, x, y, a, b)
    ensures var before := OneStarted(attached, x, y, a);
            var after := Do(before, attached, StartDhid(y, b));
            && !FitsIn(before, StartDhid(y, b)) && y in SessionSwitch.Ids(before.switches)
            && after.shared == {a, b} && b in Held(after, y) && Opened(after.switches) == x && !Routed(after)
  {
    OneStartedIs(attached, x, y, a);
    var before := OneStarted(attached, x, y, a);
    var after := Do(before, attached, StartDhid(y, b));
    assert SessionSwitch.Ids(before.switches)[1] == y;
    assert Set(before.switches, y, true) == [SwitchState(x, true), SwitchState(y, true)];
    assert {b} * attached == {b};
    assert b in HeldIn(after.bySession, y);
  }
}
