/**
 Lists in strings: the dot-joined dhId lists of the sharing commands, and the physical path that a virtual device
 carries from the injector to the node manager.
 */
module StringCodec {
  import opened SeqFacts

  datatype Option<T> = None | Some(value: T)

  const INPUT_STRING_SPLIT_POINT := '.'
  const VIR_NODE_SPLIT_CHAR := '|'
  const VIR_NODE_PHY_LEN := 3
  const INPUT_EVENT_BUFFER_SIZE := 256

  /** string::find: the first `c`, or the length. */
  function Find(s: string, c: char): (i: nat)
    ensures i <= |s| && (i < |s| ==> s[i] == c)
  {
    if s == "" || s[0] == c then 0 else 1 + Find(s[1..], c)
  }

  /** The stretches between separators; there is always one more than there are separators. */
  function SplitOn(s: string, c: char): (pieces: seq<string>)
    ensures pieces != []
    decreases |s|
  {
    var i := Find(s, c);
    if i == |s| then [s] else [s[..i]] + SplitOn(s[i + 1..], c)
  }

  function Join(l: seq<string>, c: char): string {
    if l == [] then ""
    else if |l| == 1 then l[0]
    else l[0] + [c] + Join(l[1..], c)
  }

  /** What SplitStringToVector appends: nothing at all for the empty string. */
  function Split(s: string, c: char): seq<string> {
    if s == "" then [] else SplitOn(s, c)
  }

  predicate Free(l: seq<string>, c: char) {
    forall p :: p in l ==> c !in p
  }

  lemma {:induction false} FindFirst(s: string, c: char)
    ensures forall j :: 0 <= j < Find(s, c) ==> s[j] != c
  {
    if s != "" && s[0] != c {
      FindFirst(s[1..], c);
      assert forall j :: 0 < j <= Find(s[1..], c) ==> s[j] == s[1..][j - 1];
    }
  }

  lemma {:induction false} PiecesFree(s: string, c: char)
    ensures Free(SplitOn(s, c), c)
    decreases |s|
  {
    var i := Find(s, c);
    FindFirst(s, c);
    if i < |s| {
      PiecesFree(s[i + 1..], c);
      assert forall p :: p in SplitOn(s, c) <==> p == s[..i] || p in SplitOn(s[i + 1..], c);
    }
  }

  lemma FindIs(s: string, c: char, i: nat)
    requires i <= |s| && (forall j :: 0 <= j < i ==> s[j] != c) && (i < |s| ==> s[i] == c)
    ensures Find(s, c) == i
  {
    FindFirst(s, c);
  }

  lemma SplitMore(s: string, c: char, i: nat)
    requires Find(s, c) == i < |s|
    ensures SplitOn(s, c) == [s[..i]] + SplitOn(s[i + 1..], c)
  {
  }

  lemma SplitCons(p: string, rest: string, c: char)
    requires c !in p
    ensures SplitOn(p + [c] + rest, c) == [p] + SplitOn(rest, c)
  {
    var s := p + [c] + rest;
    assert s[..|p|] == p && s[|p| + 1..] == rest;
    FindIs(s, c, |p|);
  }

  lemma SplitOne(p: string, c: char)
    requires c !in p
    ensures SplitOn(p, c) == [p]
  {
    assert p[..|p|] == p;
    FindIs(p, c, |p|);
  }

  lemma JoinCons(p: string, l: seq<string>, c: char)
    requires l != []
    ensures Join([p] + l, c) == p + [c] + Join(l, c)
  {
    assert ([p] + l)[1..] == l;
  }

  lemma {:induction false} SplitOfJoin(l: seq<string>, c: char)
    requires l != [] && Free(l, c)
    ensures SplitOn(Join(l, c), c) == l
  {
    if |l| == 1 {
      SplitOne(l[0], c);
    } else {
      SplitOfJoin(l[1..], c);
      SplitCons(l[0], Join(l[1..], c), c);
    }
  }

  /** Joining what was split restores any string. */
  lemma {:induction false} JoinOfSplit(s: string, c: char)
    ensures Join(SplitOn(s, c), c) == s && Join(Split(s, c), c) == s
    decreases |s|
  {
    var i := Find(s, c);
    if i < |s| {
      JoinOfSplit(s[i + 1..], c);
      JoinCons(s[..i], SplitOn(s[i + 1..], c), c);
      CutAt(s, i);
    }
  }

  lemma CutAt(s: string, i: nat)
    requires i < |s|
    ensures s[..i] + [s[i]] + s[i + 1..] == s
  {
  }

  lemma JoinEmpty(l: seq<string>, c: char)
    ensures Join(l, c) == "" <==> l == [] || l == [""]
  {
  }

  /**
   Splitting a joined list gives it back exactly when no element holds the separator and it is not one empty string.
   */
  lemma SplitJoinRoundTrip(l: seq<string>, c: char)
    ensures Split(Join(l, c), c) == l <==> Free(l, c) && l != [""]
  {
    JoinEmpty(l, c);
    PiecesFree(Join(l, c), c);
    if l != [] && Free(l, c) {
      SplitOfJoin(l, c);
    }
  }

  lemma {:induction false} JoinSnoc(l: seq<string>, p: string, c: char)
    requires l != []
    ensures Join(l + [p], c) == Join(l, c) + [c] + p
  {
    if |l| > 1 {
      JoinSnoc(l[1..], p, c);
      FirstOfConcat(l, [p]);
      ConcatAssoc(l[0] + [c], Join(l[1..], c) + [c], p);
      ConcatAssoc(l[0] + [c], Join(l[1..], c), [c]);
    }
  }

  method JointDhIds(dhIds: seq<string>) returns (s: string)
    ensures s == Join(dhIds, INPUT_STRING_SPLIT_POINT)
  {
    if dhIds == [] {
      return "";
    }
    s := dhIds[0];
    assert dhIds[..1] == [dhIds[0]];
    for i := 1 to |dhIds|
      invariant s == Join(dhIds[..i], INPUT_STRING_SPLIT_POINT)
    {
      PrefixStep(dhIds, i);
      JoinSnoc(dhIds[..i], dhIds[i], INPUT_STRING_SPLIT_POINT);
      s := s + [INPUT_STRING_SPLIT_POINT] + dhIds[i];
    }
    assert dhIds[..|dhIds|] == dhIds;
  }

  /** The stretches that end in a separator. */
  function Ended(s: string, c: char): seq<string>
    decreases |s|
  {
    var i := Find(s, c);
    if i == |s| then [] else [s[..i]] + Ended(s[i + 1..], c)
  }

  lemma EndedMore(s: string, c: char, i: nat)
    requires Find(s, c) == i < |s|
    ensures Ended(s, c) == [s[..i]] + Ended(s[i + 1..], c)
  {
  }

  /** With a separator put at its end, a string ends every one of its pieces. */
  lemma {:induction false} EndedIsSplit(t: string, c: char)
    ensures Ended(t + [c], c) == SplitOn(t, c)
    decreases |t|
  {
    var i := Find(t, c);
    FindFirst(t, c);
    FindIs(t + [c], c, i);
    EndedMore(t + [c], c, i);
    assert (t + [c])[..i] == t[..i];
    if i < |t| {
      CutConcat(t, [c], i + 1);
      EndedIsSplit(t[i + 1..], c);
    } else {
      Snoc(t, c);
      assert t[..i] == t && Ended("", c) == [];
    }
  }

  method SplitStringToVector(str: string, split: char, vecStr: seq<string>) returns (vec: seq<string>)
    ensures vec == vecStr + Split(str, split)
  {
    vec := vecStr;
    if str == "" {
      return;
    }
    var strTmp := str + [split];
    ghost var all := vecStr + Ended(strTmp, split);
    EndedIsSplit(str, split);
    var pos := Find(strTmp, split);
    while pos != |strTmp|
      invariant pos == Find(strTmp, split)
      invariant vec + Ended(strTmp, split) == all
      decreases |strTmp|
    {
      var word := strTmp[..pos];
      EndedMore(strTmp, split, pos);
      strTmp := strTmp[pos + 1..];
      ConcatAssoc(vec, [word], Ended(strTmp, split));
      vec := vec + [word];
      pos := Find(strTmp, split);
    }
    ConcatEmpty(vec);
  }

  // ----- the physical path

  function PhysPrefix(deviceName: string, pid: string): string {
    deviceName + pid + "/" + pid
  }

  /** SetPhys. */
  function Phys(deviceName: string, pid: string, netWorkId: string, dhId: string): string {
    PhysPrefix(deviceName, pid) + "|" + netWorkId + "|" + dhId
  }

  /** GetDevDhUniqueIdByFd, on the path string the kernel holds; what does not fit its buffer is cut off. */
  method GetDevDhUniqueId(phys: string) returns (id: Option<(string, string)>)
    ensures id == DecodePhys(phys)
  {
    var buffer := phys[..if |phys| < INPUT_EVENT_BUFFER_SIZE then |phys| else INPUT_EVENT_BUFFER_SIZE - 1];
    var parts := SplitStringToVector(buffer, VIR_NODE_SPLIT_CHAR, []);
    if |parts| != VIR_NODE_PHY_LEN {
      return None;
    }
    var devId, dhId := parts[1], parts[2];
    if devId == "" || dhId == "" {
      return None;
    }
    return Some((devId, dhId));
  }

  function DecodePhys(phys: string): Option<(string, string)> {
    var buffer := phys[..if |phys| < INPUT_EVENT_BUFFER_SIZE then |phys| else INPUT_EVENT_BUFFER_SIZE - 1];
    var parts := Split(buffer, VIR_NODE_SPLIT_CHAR);
    if |parts| == VIR_NODE_PHY_LEN && parts[1] != "" && parts[2] != "" then Some((parts[1], parts[2])) else None
  }

  lemma WrittenIsRead(pre: string, netWorkId: string, dhId: string)
    requires Free([pre, netWorkId, dhId], VIR_NODE_SPLIT_CHAR)
    ensures Split(pre + "|" + netWorkId + "|" + dhId, VIR_NODE_SPLIT_CHAR) == [pre, netWorkId, dhId]
  {
    JoinThree(pre, netWorkId, dhId);
    SplitOfJoin([pre, netWorkId, dhId], VIR_NODE_SPLIT_CHAR);
  }

  lemma ReadIsFree(pre: string, netWorkId: string, dhId: string)
    requires var parts := Split(pre + "|" + netWorkId + "|" + dhId, VIR_NODE_SPLIT_CHAR);
             |parts| == VIR_NODE_PHY_LEN && parts[1] == netWorkId && parts[2] == dhId
    ensures Free([pre, netWorkId, dhId], VIR_NODE_SPLIT_CHAR)
  {
    var s, c := pre + "|" + netWorkId + "|" + dhId, VIR_NODE_SPLIT_CHAR;
    var head := Split(s, c)[0];
    assert Split(s, c) == [head, netWorkId, dhId];
    PiecesFree(s, c);
    JoinOfSplit(s, c);
    JoinThree(head, netWorkId, dhId);
    SamePrefix(head, pre, netWorkId, dhId);
  }

  lemma SamePrefix(a: string, b: string, c: string, d: string)
    requires a + "|" + c + "|" + d == b + "|" + c + "|" + d
    ensures a == b
  {
    var s, t := a + "|" + c + "|" + d, b + "|" + c + "|" + d;
    assert |a| == |s| - 2 - |c| - |d| && |b| == |t| - 2 - |c| - |d|;
    assert s[..|a|] == a && t[..|b|] == b;
  }

  /**
   A path that fits the buffer is read back as the device id and dhId that were written exactly when no part of it holds
   a bar and neither id is empty.
   */
  lemma PhysRoundTrip(deviceName: string, pid: string, netWorkId: string, dhId: string)
    requires |Phys(deviceName, pid, netWorkId, dhId)| < INPUT_EVENT_BUFFER_SIZE
    ensures DecodePhys(Phys(deviceName, pid, netWorkId, dhId)) == Some((netWorkId, dhId)) <==>
              Free([deviceName, pid, netWorkId, dhId], VIR_NODE_SPLIT_CHAR) && netWorkId != "" && dhId != ""
  {
    var c, pre := VIR_NODE_SPLIT_CHAR, PhysPrefix(deviceName, pid);
    var phys := Phys(deviceName, pid, netWorkId, dhId);
    assert phys[..|phys|] == phys;
    assert c in pre <==> c in deviceName || c in pid;
    assert Free([deviceName, pid, netWorkId, dhId], c) <==> Free([pre, netWorkId, dhId], c) by {
      assert forall p :: p in [deviceName, pid, netWorkId, dhId] <==> p in {deviceName, pid, netWorkId, dhId};
      assert forall p :: p in [pre, netWorkId, dhId] <==> p in {pre, netWorkId, dhId};
    }
    if Free([pre, netWorkId, dhId], c) {
      WrittenIsRead(pre, netWorkId, dhId);
    }
    if DecodePhys(phys) == Some((netWorkId, dhId)) {
      SplitParts(pre, netWorkId, dhId);
      ReadIsFree(pre, netWorkId, dhId);
    }
  }

  /**
   A path too long for the buffer, without bars in its parts: its dhId is read back cut to the room that is left, and
   nothing at all is read back if there is no room.
   */
  lemma LongPathIsCut(deviceName: string, pid: string, netWorkId: string, dhId: string)
    requires |Phys(deviceName, pid, netWorkId, dhId)| >= INPUT_EVENT_BUFFER_SIZE
    requires Free([deviceName, pid, netWorkId, dhId], VIR_NODE_SPLIT_CHAR)
    ensures var room := INPUT_EVENT_BUFFER_SIZE - 3 - |PhysPrefix(deviceName, pid)| - |netWorkId|;
            DecodePhys(Phys(deviceName, pid, netWorkId, dhId)) ==
              if room > 0 && netWorkId != "" then Some((netWorkId, dhId[..room])) else None
  {
    var pre, c := PhysPrefix(deviceName, pid), VIR_NODE_SPLIT_CHAR;
    var room := INPUT_EVENT_BUFFER_SIZE - 3 - |pre| - |netWorkId|;
    PartsFree(deviceName, pid, netWorkId, dhId);
    if room >= 0 {
      CutInLast(pre, netWorkId, dhId, room);
      assert Free([pre, netWorkId, dhId[..room]], c) by {
        assert forall p :: p in [pre, netWorkId, dhId[..room]] <==> p in {pre, netWorkId, dhId[..room]};
      }
      WrittenIsRead(pre, netWorkId, dhId[..room]);
      SplitParts(pre, netWorkId, dhId[..room]);
    } else {
      CutBefore(pre, netWorkId, dhId, INPUT_EVENT_BUFFER_SIZE - 1);
    }
  }

  lemma PartsFree(deviceName: string, pid: string, netWorkId: string, dhId: string)
    requires Free([deviceName, pid, netWorkId, dhId], VIR_NODE_SPLIT_CHAR)
    ensures var c := VIR_NODE_SPLIT_CHAR; c !in PhysPrefix(deviceName, pid) && c !in netWorkId && c !in dhId
  {
    assert forall p :: p in [deviceName, pid, netWorkId, dhId] <==> p in {deviceName, pid, netWorkId, dhId};
  }

  lemma CutInLast(pre: string, netWorkId: string, dhId: string, room: nat)
    requires room <= |dhId|
    ensures (pre + "|" + netWorkId + "|" + dhId)[..|pre| + |netWorkId| + 2 + room]
            == pre + "|" + netWorkId + "|" + dhId[..room]
  {
  }

  /** A cut before the second bar leaves at most two parts. */
  lemma CutBefore(pre: string, netWorkId: string, dhId: string, n: nat)
    requires VIR_NODE_SPLIT_CHAR !in pre && VIR_NODE_SPLIT_CHAR !in netWorkId
    requires 0 < n <= |pre| + 1 + |netWorkId|
    ensures |Split((pre + "|" + netWorkId + "|" + dhId)[..n], VIR_NODE_SPLIT_CHAR)| <= 2
  {
    var s, c := pre + "|" + netWorkId + "|" + dhId, VIR_NODE_SPLIT_CHAR;
    if n <= |pre| {
      assert s[..n] == pre[..n];
      SplitOne(pre[..n], c);
    } else {
      var k := n - |pre| - 1;
      assert s[..n] == pre + "|" + netWorkId[..k];
      SplitCons(pre, netWorkId[..k], c);
      SplitOne(netWorkId[..k], c);
    }
  }

  lemma SplitParts(pre: string, netWorkId: string, dhId: string)
    ensures pre + "|" + netWorkId + "|" + dhId != ""
  {
    assert |pre + "|" + netWorkId + "|" + dhId| >= 2;
  }

  lemma JoinThree(a: string, b: string, d: string)
    ensures Join([a, b, d], VIR_NODE_SPLIT_CHAR) == a + "|" + b + "|" + d
  {
    JoinSnoc([a], b, VIR_NODE_SPLIT_CHAR);
    JoinSnoc([a, b], d, VIR_NODE_SPLIT_CHAR);
    assert [a] + [b] == [a, b] && [a, b] + [d] == [a, b, d];
  }
}
