/**
 DistributedInputSinkSwitch: the sessions that were prepared, in the order they were added, each with its switch.
 */
module SessionSwitch {
  import opened SeqFacts

  const ERR_GET_OPEN_SESSION_FAIL := -64003

  datatype SwitchState = SwitchState(sessionId: int, on: bool)

  type SwitchVector = seq<SwitchState>

  function IndexOf(v: SwitchVector, id: int): (i: nat)
    ensures i <= |v| && (i < |v| ==> v[i].sessionId == id)
    ensures forall j :: 0 <= j < i ==> v[j].sessionId != id
  {
    if v == [] || v[0].sessionId == id then 0 else 1 + IndexOf(v[1..], id)
  }

  function Set(v: SwitchVector, id: int, on: bool): SwitchVector {
    var i := IndexOf(v, id);
    if i < |v| then v[i := SwitchState(id, on)] else v
  }

  function Add(v: SwitchVector, id: int): SwitchVector {
    if IndexOf(v, id) < |v| then v else v + [SwitchState(id, false)]
  }

  function Remove(v: SwitchVector, id: int): SwitchVector {
    var i := IndexOf(v, id);
    if i < |v| then v[..i] + v[i + 1..] else v
  }

  function AllOff(v: SwitchVector): SwitchVector {
    seq(|v|, i requires 0 <= i < |v| => v[i].(on := false))
  }

  function Opened(v: SwitchVector): int {
    if v == [] then ERR_GET_OPEN_SESSION_FAIL
    else if v[0].on then v[0].sessionId
    else Opened(v[1..])
  }

  // ----- what the vector means: an insertion-ordered map from session to switch

  datatype Ordered = Ordered(ids: seq<int>, on: set<int>) {
    /** Ids are unique and only known sessions are on. */
    predicate Ok() {
      Distinct(ids) && forall id :: id in on ==> id in ids
    }
  }

  function Ids(v: SwitchVector): seq<int> {
    seq(|v|, i requires 0 <= i < |v| => v[i].sessionId)
  }

  function OnIds(v: SwitchVector): set<int> {
    set i | 0 <= i < |v| && v[i].on :: v[i].sessionId
  }

  function Meaning(v: SwitchVector): Ordered {
    Ordered(Ids(v), OnIds(v))
  }

  function Without(ids: seq<int>, id: int): seq<int> {
    if ids == [] then [] else (if ids[0] == id then [] else [ids[0]]) + Without(ids[1..], id)
  }

  datatype SwitchOp = StartOp(id: int) | StopOp(id: int) | AddOp(id: int) | RemoveOp(id: int) | StopAllOp

  function Apply(v: SwitchVector, op: SwitchOp): SwitchVector {
    match op
    case StartOp(id) => Set(v, id, true)
    case StopOp(id) => Set(v, id, false)
    case AddOp(id) => Add(v, id)
    case RemoveOp(id) => Remove(v, id)
    case StopAllOp => AllOff(v)
  }

  function ApplyMeant(m: Ordered, op: SwitchOp): Ordered {
    match op
    case StartOp(id) => if id in m.ids then m.(on := m.on + {id}) else m
    case StopOp(id) => m.(on := m.on - {id})
    case AddOp(id) => if id in m.ids then m else m.(ids := m.ids + [id])
    case RemoveOp(id) => Ordered(Without(m.ids, id), m.on - {id})
    case StopAllOp => m.(on := {})
  }

  lemma IndexOfMeans(v: SwitchVector, id: int)
    ensures IndexOf(v, id) < |v| <==> id in Ids(v)
  {
    var i := IndexOf(v, id);
    if i < |v| {
      assert Ids(v)[i] == id;
    }
  }

  lemma {:induction false} WithoutAbsent(ids: seq<int>, id: int)
    requires id !in ids
    ensures Without(ids, id) == ids
  {
    if ids != [] {
      WithoutAbsent(ids[1..], id);
    }
  }

  lemma SetMeans(v: SwitchVector, id: int, on: bool)
    requires Meaning(v).Ok()
    ensures Meaning(Set(v, id, on)) == ApplyMeant(Meaning(v), if on then StartOp(id) else StopOp(id))
  {
    IndexOfMeans(v, id);
    var i, w := IndexOf(v, id), Set(v, id, on);
    assert Ids(w) == Ids(v);
    forall x ensures x in OnIds(w) <==> if x == id && i < |v| then on else x in OnIds(v) {
      if x == id && i < |v| {
        forall j | 0 <= j < |w| && j != i ensures w[j].sessionId != id {
          assert Ids(v)[j] != Ids(v)[i] && w[j] == v[j];
        }
        assert w[i] == SwitchState(id, on);
      } else {
        if x in OnIds(v) {
          var j :| 0 <= j < |v| && v[j].on && v[j].sessionId == x;
          assert w[j] == v[j];
        }
        if x in OnIds(w) {
          var j :| 0 <= j < |w| && w[j].on && w[j].sessionId == x;
          assert w[j] == v[j];
        }
      }
    }
  }

  lemma AddMeans(v: SwitchVector, id: int)
    requires Meaning(v).Ok()
    ensures Meaning(Add(v, id)) == ApplyMeant(Meaning(v), AddOp(id))
  {
    IndexOfMeans(v, id);
    if id !in Ids(v) {
      var w := Add(v, id);
      assert Ids(w) == Ids(v) + [id];
      assert forall j :: 0 <= j < |v| ==> w[j] == v[j];
      assert OnIds(w) == OnIds(v);
    }
  }

  lemma RemoveCons(x: SwitchState, rest: SwitchVector, id: int)
    ensures Remove([x] + rest, id) == if x.sessionId == id then rest else [x] + Remove(rest, id)
  {
    var v := [x] + rest;
    ConsParts(x, rest);
    if x.sessionId != id && IndexOf(rest, id) < |rest| {
      var i := IndexOf(rest, id);
      assert v[..i + 1] == [x] + rest[..i] && v[i + 2..] == rest[i + 1..];
      ConcatAssoc([x], rest[..i], rest[i + 1..]);
    }
  }

  lemma IdsCons(x: SwitchState, rest: SwitchVector)
    ensures Ids([x] + rest) == [x.sessionId] + Ids(rest)
  {
  }

  lemma OnIdsCons(x: SwitchState, rest: SwitchVector)
    ensures OnIds([x] + rest) == OnIds(rest) + (if x.on then {x.sessionId} else {})
  {
    var v := [x] + rest;
    assert v[0] == x && forall i :: 0 <= i < |rest| ==> v[i + 1] == rest[i];
    forall id ensures id in OnIds(v) <==> id in OnIds(rest) || (x.on && id == x.sessionId) {
      if id in OnIds(v) {
        var i :| 0 <= i < |v| && v[i].on && v[i].sessionId == id;
        assert i > 0 ==> rest[i - 1] == v[i];
      }
      if id in OnIds(rest) {
        var i :| 0 <= i < |rest| && rest[i].on && rest[i].sessionId == id;
        assert v[i + 1].on;
      }
    }
  }

  lemma DistinctHead(id: int, ids: seq<int>)
    requires Distinct([id] + ids)
    ensures id !in ids && Distinct(ids)
  {
    var all := [id] + ids;
    assert forall i :: 0 <= i < |ids| ==> all[i + 1] == ids[i];
    forall i | 0 <= i < |ids| ensures ids[i] != id {
      assert all[0] != all[i + 1];
    }
  }

  lemma OnIdsKnown(v: SwitchVector, id: int)
    requires id in OnIds(v)
    ensures id in Ids(v)
  {
    var i :| 0 <= i < |v| && v[i].on && v[i].sessionId == id;
    assert Ids(v)[i] == id;
  }

  lemma {:induction false} RemoveMeans(v: SwitchVector, id: int)
    requires Distinct(Ids(v))
    ensures Meaning(Remove(v, id)) == ApplyMeant(Meaning(v), RemoveOp(id))
  {
    if v != [] {
      var x, rest := v[0], v[1..];
      CutJoin(v, 1);
      assert v == [x] + rest;
      IdsCons(x, rest);
      OnIdsCons(x, rest);
      RemoveCons(x, rest, id);
      DistinctHead(x.sessionId, Ids(rest));
      ConsParts(x.sessionId, Ids(rest));
      if x.sessionId == id {
        WithoutAbsent(Ids(rest), id);
        if id in OnIds(rest) {
          OnIdsKnown(rest, id);
        }
      } else {
        RemoveMeans(rest, id);
        IdsCons(x, Remove(rest, id));
        OnIdsCons(x, Remove(rest, id));
      }
    }
  }

  lemma {:induction false} WithoutIn(ids: seq<int>, id: int, x: int)
    ensures x in Without(ids, id) <==> x in ids && x != id
  {
    if ids != [] {
      WithoutIn(ids[1..], id, x);
    }
  }

  lemma {:induction false} WithoutDistinct(ids: seq<int>, id: int)
    requires Distinct(ids)
    ensures Distinct(Without(ids, id))
  {
    if ids != [] {
      WithoutDistinct(ids[1..], id);
      WithoutIn(ids[1..], id, ids[0]);
    }
  }

  predicate Distinct(ids: seq<int>) {
    forall i, j :: 0 <= i < j < |ids| ==> ids[i] != ids[j]
  }

  lemma DistinctPush(ids: seq<int>, id: int)
    requires Distinct(ids) && id !in ids
    ensures Distinct(ids + [id])
  {
    assert forall i :: 0 <= i < |ids| ==> ids[i] in ids;
  }

  lemma MeantOk(m: Ordered, op: SwitchOp)
    requires m.Ok()
    ensures ApplyMeant(m, op).Ok()
  {
    match op
    case StartOp(id) =>
    case StopOp(id) =>
    case AddOp(id) =>
      if id !in m.ids {
        DistinctPush(m.ids, id);
        assert forall x :: x in m.ids ==> x in m.ids + [id];
      }
    case RemoveOp(id) =>
      var w := Without(m.ids, id);
      WithoutDistinct(m.ids, id);
      forall x | x in m.on - {id} ensures x in w {
        WithoutIn(m.ids, id, x);
      }
      assert Distinct(w) && ApplyMeant(m, op) == Ordered(w, m.on - {id});
    case StopAllOp =>
  }

  /** Each call changes only its own session, or all of them for StopAll, and no id appears twice. */
  lemma CallRefinesMap(v: SwitchVector, op: SwitchOp)
    requires Meaning(v).Ok()
    ensures Meaning(Apply(v, op)) == ApplyMeant(Meaning(v), op) && Meaning(Apply(v, op)).Ok()
  {
    MeantOk(Meaning(v), op);
    match op
    case StartOp(id) => SetMeans(v, id, true);
    case StopOp(id) => SetMeans(v, id, false);
    case AddOp(id) => AddMeans(v, id);
    case RemoveOp(id) => RemoveMeans(v, id);
    case StopAllOp =>
      assert Ids(AllOff(v)) == Ids(v);
      assert OnIds(AllOff(v)) == {};
  }

  function Run(ops: seq<SwitchOp>): SwitchVector {
    if ops == [] then [] else Apply(Run(ops[..|ops| - 1]), ops[|ops| - 1])
  }

  function RunMeant(ops: seq<SwitchOp>): Ordered {
    if ops == [] then Ordered([], {}) else ApplyMeant(RunMeant(ops[..|ops| - 1]), ops[|ops| - 1])
  }

  /** Over any run the vector is the insertion-ordered map that the calls describe. */
  lemma {:induction false} RunRefinesMap(ops: seq<SwitchOp>)
    ensures Meaning(Run(ops)) == RunMeant(ops) && RunMeant(ops).Ok()
  {
    if ops == [] {
      assert Ids([]) == [] && OnIds([]) == {};
    } else {
      RunRefinesMap(ops[..|ops| - 1]);
      CallRefinesMap(Run(ops[..|ops| - 1]), ops[|ops| - 1]);
    }
  }

  /** The opened session is the earliest added one that is on; the error stands for none, and only for none. */
  lemma {:induction false} OpenedIsEarliest(v: SwitchVector)
    ensures (exists i :: 0 <= i < |v| && v[i].on) ==>
              exists i :: 0 <= i < |v| && v[i].on && v[i].sessionId == Opened(v) && forall j :: 0 <= j < i ==> !v[j].on
    ensures (forall i :: 0 <= i < |v| ==> !v[i].on) ==> Opened(v) == ERR_GET_OPEN_SESSION_FAIL
  {
    if v != [] && !v[0].on {
      OpenedIsEarliest(v[1..]);
      if i :| 0 <= i < |v| && v[i].on {
        assert v[1..][i - 1].on;
        var k :| 0 <= k < |v[1..]| && v[1..][k].on && v[1..][k].sessionId == Opened(v[1..])
                 && forall j :: 0 <= j < k ==> !v[1..][j].on;
        assert v[k + 1] == v[1..][k];
        assert forall j :: 0 < j < k + 1 ==> v[j] == v[1..][j - 1];
      }
    }
  }

  // ----- when the opened session changes

  predicate OnBefore(v: SwitchVector, n: nat)
    requires n <= |v|
  {
    exists j :: 0 <= j < n && v[j].on
  }

  lemma OnBeforeRest(v: SwitchVector, n: nat)
    requires 0 < n <= |v| && !v[0].on
    ensures OnBefore(v, n) <==> OnBefore(v[1..], n - 1)
  {
    if OnBefore(v, n) {
      var j :| 0 <= j < n && v[j].on;
      assert v[1..][j - 1].on;
    }
    if OnBefore(v[1..], n - 1) {
      var j :| 0 <= j < n - 1 && v[1..][j].on;
      assert v[j + 1].on;
    }
  }

  /** A session that is switched on opens exactly if no session added before it is on. */
  lemma {:induction false} OpenedAfterStart(v: SwitchVector, id: int)
    requires IndexOf(v, id) < |v|
    ensures Opened(Set(v, id, true)) == if OnBefore(v, IndexOf(v, id)) then Opened(v) else id
  {
    if v[0].sessionId != id {
      if v[0].on {
        assert OnBefore(v, IndexOf(v, id));
      } else {
        OpenedAfterStart(v[1..], id);
        OnBeforeRest(v, IndexOf(v, id));
        assert Set(v, id, true)[1..] == Set(v[1..], id, true);
      }
    }
  }

  lemma OpenedCons(x: SwitchState, rest: SwitchVector)
    ensures Opened([x] + rest) == if x.on then x.sessionId else Opened(rest)
  {
    ConsParts(x, rest);
  }

  /** Removing a session keeps any other one open. */
  lemma {:induction false} OpenedAfterRemove(v: SwitchVector, id: int)
    requires Opened(v) != id
    ensures Opened(Remove(v, id)) == Opened(v)
  {
    if v != [] {
      var x, rest := v[0], v[1..];
      assert v == [x] + rest;
      RemoveCons(x, rest, id);
      OpenedCons(x, rest);
      if x.sessionId != id {
        OpenedCons(x, Remove(rest, id));
        if !x.on {
          OpenedAfterRemove(rest, id);
        }
      }
    }
  }

  lemma {:induction false} OpenedAfterAdd(v: SwitchVector, id: int)
    ensures Opened(Add(v, id)) == Opened(v)
  {
    if IndexOf(v, id) == |v| {
      OpenedSnocOff(v, id);
    }
  }

  lemma {:induction false} OpenedSnocOff(v: SwitchVector, id: int)
    ensures Opened(v + [SwitchState(id, false)]) == Opened(v)
  {
    if v == [] {
      ConsParts(SwitchState(id, false), []);
    } else {
      OpenedSnocOff(v[1..], id);
      FirstOfConcat(v, [SwitchState(id, false)]);
    }
  }

  /** The opened session is a known one, unless it is the error. */
  lemma {:induction false} OpenedIsKnown(v: SwitchVector)
    ensures Opened(v) == ERR_GET_OPEN_SESSION_FAIL || Opened(v) in Ids(v)
  {
    if v != [] {
      if v[0].on {
        assert Ids(v)[0] == Opened(v);
      } else {
        OpenedIsKnown(v[1..]);
        assert Ids(v)[1..] == Ids(v[1..]);
      }
    }
  }

  class DistributedInputSinkSwitch {
    var switchVector: SwitchVector

    constructor ()
      ensures switchVector == []
    {
      switchVector := [];
    }

    /** Sets the switch of a known session; false if the session was never added. */
    method StartSwitch(sessionId: int) returns (ok: bool)
      modifies this
      ensures switchVector == Set(old(switchVector), sessionId, true)
      ensures ok == (sessionId in Ids(old(switchVector)))
    {
      IndexOfMeans(switchVector, sessionId);
      ok := SetSwitch(sessionId, true);
    }

    method StopSwitch(sessionId: int)
      modifies this
      ensures switchVector == Set(old(switchVector), sessionId, false)
    {
      var _ := SetSwitch(sessionId, false);
    }

    /** The scan that StartSwitch and StopSwitch share. */
    method SetSwitch(sessionId: int, on: bool) returns (findOld: bool)
      modifies this
      ensures switchVector == Set(old(switchVector), sessionId, on)
      ensures findOld == (IndexOf(old(switchVector), sessionId) < |old(switchVector)|)
    {
      findOld := false;
      var i := 0;
      while i < |switchVector|
        invariant i <= |switchVector| && !findOld && switchVector == old(switchVector)
        invariant forall j :: 0 <= j < i ==> switchVector[j].sessionId != sessionId
      {
        if switchVector[i].sessionId == sessionId {
          assert IndexOf(switchVector, sessionId) == i;
          switchVector := switchVector[i := SwitchState(sessionId, on)];
          findOld := true;
          return;
        }
        i := i + 1;
      }
    }

    method StopAllSwitch()
      modifies this
      ensures switchVector == AllOff(old(switchVector))
    {
      for i := 0 to |switchVector|
        invariant |switchVector| == |old(switchVector)|
        invariant forall j :: 0 <= j < |switchVector| ==>
          switchVector[j] == if j < i then old(switchVector)[j].(on := false) else old(switchVector)[j]
      {
        switchVector := switchVector[i := switchVector[i].(on := false)];
      }
    }

    method AddSession(sessionId: int)
      modifies this
      ensures switchVector == Add(old(switchVector), sessionId)
    {
      for i := 0 to |switchVector|
        invariant switchVector == old(switchVector)
        invariant forall j :: 0 <= j < i ==> switchVector[j].sessionId != sessionId
      {
        if switchVector[i].sessionId == sessionId {
          return;
        }
      }
      switchVector := switchVector + [SwitchState(sessionId, false)];
    }

    method RemoveSession(sessionId: int)
      modifies this
      ensures switchVector == Remove(old(switchVector), sessionId)
    {
      for i := 0 to |switchVector|
        invariant switchVector == old(switchVector)
        invariant forall j :: 0 <= j < i ==> switchVector[j].sessionId != sessionId
      {
        if switchVector[i].sessionId == sessionId {
          assert IndexOf(switchVector, sessionId) == i;
          switchVector := switchVector[..i] + switchVector[i + 1..];
          return;
        }
      }
    }

    method GetSwitchOpenedSession() returns (sessionId: int)
      ensures sessionId == Opened(switchVector)
    {
      for i := 0 to |switchVector|
        invariant Opened(switchVector) == Opened(switchVector[i..])
      {
        if switchVector[i].on {
          return switchVector[i].sessionId;
        }
        assert switchVector[i..][1..] == switchVector[i + 1..];
      }
      return ERR_GET_OPEN_SESSION_FAIL;
    }
  }
}
