/**
 The white list of key combinations: every ordering and choice of an item's modifier keys is entered in a hash set under
 its decimal text, so that an event is looked up by its own text.
 */
module WhiteListIndex {
  import opened SeqFacts
  import opened Decimal

  type Column = seq<int>
  type Item = seq<Column>      // modifier columns, then the last key, then its action
  type WhiteList = seq<Item>

  datatype BusinessEvent = BusinessEvent(pressedKeys: seq<int>, keyCode: int, keyAction: int)

  function Render(codes: seq<int>): string {
    if codes == [] then "" else Text(codes[0]) + Render(codes[1..])
  }

  function Without(vecs: seq<Column>, i: nat): seq<Column>
    requires i < |vecs|
  {
    vecs[..i] + vecs[i + 1..]
  }

  /** `codes` takes one code each from different columns, in the order of its own. */
  ghost predicate Pick(vecs: seq<Column>, codes: seq<int>)
    decreases |codes|
  {
    codes == [] || exists i :: 0 <= i < |vecs| && PickFrom(vecs, i, codes)
  }

  ghost predicate PickFrom(vecs: seq<Column>, i: nat, codes: seq<int>)
    requires i < |vecs| && codes != []
    decreases |codes|, 0
  {
    codes[0] in vecs[i] && Pick(Without(vecs, i), codes[1..])
  }

  // ----- the reference: an ordering of the columns and one code from each

  predicate Distinct(p: seq<nat>) {
    forall i, j :: 0 <= i < j < |p| ==> p[i] != p[j]
  }

  /** `order` is an ordering of all columns, and `codes` takes one code from each column in that order. */
  predicate Arrangement(vecs: seq<Column>, order: seq<nat>, codes: seq<int>) {
    && |order| == |vecs| == |codes| && Distinct(order)
    && forall i :: 0 <= i < |order| ==> order[i] < |vecs| && codes[i] in vecs[order[i]]
  }

  lemma {:induction false} PickHasOrder(vecs: seq<Column>, codes: seq<int>) returns (order: seq<nat>)
    requires Pick(vecs, codes) && |codes| == |vecs|
    ensures Arrangement(vecs, order, codes)
    decreases |codes|
  {
    if codes == [] {
      order := [];
    } else {
      var i :| 0 <= i < |vecs| && PickFrom(vecs, i, codes);
      var rest := PickHasOrder(Without(vecs, i), codes[1..]);
      var up := seq(|rest|, k requires 0 <= k < |rest| => if rest[k] < i then rest[k] else rest[k] + 1);
      order := [i as nat] + up;
      forall k | 0 < k < |order| ensures order[k] < |vecs| && codes[k] in vecs[order[k]] && order[k] != order[0] {
        assert order[k] == up[k - 1] && codes[1..][k - 1] == codes[k];
        assert Without(vecs, i)[rest[k - 1]] == vecs[order[k]];
      }
      forall a, b | 0 <= a < b < |order| ensures order[a] != order[b] {
        if a > 0 {
          assert rest[a - 1] != rest[b - 1];
        }
      }
    }
  }

  lemma {:induction false} OrderIsPick(vecs: seq<Column>, order: seq<nat>, codes: seq<int>)
    requires Arrangement(vecs, order, codes)
    ensures Pick(vecs, codes)
    decreases |codes|
  {
    if codes != [] {
      var i := order[0];
      var down := seq(|order| - 1, k requires 0 <= k < |order| - 1 =>
                      if order[k + 1] < i then order[k + 1] else order[k + 1] - 1);
      forall k | 0 <= k < |down| ensures down[k] < |vecs| - 1 && codes[1..][k] in Without(vecs, i)[down[k]] {
        assert order[k + 1] != order[0];
        assert codes[1..][k] == codes[k + 1];
        assert Without(vecs, i)[down[k]] == vecs[order[k + 1]];
      }
      forall a, b | 0 <= a < b < |down| ensures down[a] != down[b] {
        assert order[a + 1] != order[b + 1] && order[a + 1] != order[0] && order[b + 1] != order[0];
      }
      OrderIsPick(Without(vecs, i), down, codes[1..]);
      assert PickFrom(vecs, i, codes);
    }
  }

  /** Full picks are exactly the arrangements: one code a column, over every ordering of the columns. */
  lemma {:induction false} PickIsArrangement(vecs: seq<Column>, codes: seq<int>)
    requires |codes| == |vecs|
    ensures Pick(vecs, codes) <==> exists order :: Arrangement(vecs, order, codes)
  {
    if Pick(vecs, codes) {
      var order := PickHasOrder(vecs, codes);
    }
    if order :| Arrangement(vecs, order, codes) {
      OrderIsPick(vecs, order, codes);
    }
  }

  // ----- the enumeration

  /** What the enumeration must insert: the prefix followed by picks that bring its length to the target. */
  ghost predicate Inserted(vecs: seq<Column>, hash: string, len: int, targetLen: int, h: string) {
    exists codes :: Pick(vecs, codes) && len + |codes| == targetLen && h == hash + Render(codes)
  }

  ghost predicate InsertedBelow(vecs: seq<Column>, i: nat, j: nat, hash: string, len: int, targetLen: int, h: string)
    requires i < |vecs| && j < |vecs[i]|
  {
    Inserted(Without(vecs, i), hash + Text(vecs[i][j]), len + 1, targetLen, h)
  }

  ghost predicate InsertedAt(vecs: seq<Column>, i: nat, upTo: nat, hash: string, len: int, targetLen: int, h: string)
    requires i < |vecs| && upTo <= |vecs[i]|
  {
    exists j :: 0 <= j < upTo && InsertedBelow(vecs, i, j, hash, len, targetLen, h)
  }

  ghost predicate InsertedUpTo(vecs: seq<Column>, upTo: nat, hash: string, len: int, targetLen: int, h: string)
    requires upTo <= |vecs|
  {
    exists i :: 0 <= i < upTo && InsertedAt(vecs, i, |vecs[i]|, hash, len, targetLen, h)
  }

  lemma FirstPick(vecs: seq<Column>, codes: seq<int>) returns (i: nat, j: nat)
    requires Pick(vecs, codes) && codes != []
    ensures i < |vecs| && j < |vecs[i]| && vecs[i][j] == codes[0] && Pick(Without(vecs, i), codes[1..])
  {
    var k :| 0 <= k < |vecs| && PickFrom(vecs, k, codes);
    i := k;
    j :| 0 <= j < |vecs[i]| && vecs[i][j] == codes[0];
  }

  lemma InsertedIsBelow(vecs: seq<Column>, hash: string, len: int, targetLen: int, h: string)
    requires Inserted(vecs, hash, len, targetLen, h)
    ensures (len == targetLen && h == hash) || InsertedUpTo(vecs, |vecs|, hash, len, targetLen, h)
  {
    var codes :| Pick(vecs, codes) && len + |codes| == targetLen && h == hash + Render(codes);
    if codes == [] {
      assert hash + "" == hash;
    } else {
      var i, j := FirstPick(vecs, codes);
      ConcatAssoc(hash, Text(codes[0]), Render(codes[1..]));
      assert InsertedBelow(vecs, i, j, hash, len, targetLen, h);
      assert InsertedAt(vecs, i, |vecs[i]|, hash, len, targetLen, h);
    }
  }

  lemma BelowIsInserted(vecs: seq<Column>, i: nat, j: nat, hash: string, len: int, targetLen: int, h: string)
    requires i < |vecs| && j < |vecs[i]| && InsertedBelow(vecs, i, j, hash, len, targetLen, h)
    ensures Inserted(vecs, hash, len, targetLen, h)
  {
    var prefix := hash + Text(vecs[i][j]);
    var rest :| Pick(Without(vecs, i), rest) && len + 1 + |rest| == targetLen && h == prefix + Render(rest);
    var codes := [vecs[i][j]] + rest;
    assert codes[1..] == rest && PickFrom(vecs, i, codes);
    ConcatAssoc(hash, Text(vecs[i][j]), Render(rest));
    assert Pick(vecs, codes);
  }

  lemma InsertedStep(vecs: seq<Column>, hash: string, len: int, targetLen: int, h: string)
    ensures Inserted(vecs, hash, len, targetLen, h)
            <==> (len == targetLen && h == hash) || InsertedUpTo(vecs, |vecs|, hash, len, targetLen, h)
  {
    if Inserted(vecs, hash, len, targetLen, h) {
      InsertedIsBelow(vecs, hash, len, targetLen, h);
    }
    if len == targetLen && h == hash {
      assert Pick(vecs, []) && h == hash + Render([]);
    }
    if InsertedUpTo(vecs, |vecs|, hash, len, targetLen, h) {
      var i :| 0 <= i < |vecs| && InsertedAt(vecs, i, |vecs[i]|, hash, len, targetLen, h);
      var j :| 0 <= j < |vecs[i]| && InsertedBelow(vecs, i, j, hash, len, targetLen, h);
      BelowIsInserted(vecs, i, j, hash, len, targetLen, h);
    }
  }

  lemma InsertedAtStep(vecs: seq<Column>, i: nat, j: nat, hash: string, len: int, targetLen: int, h: string)
    requires i < |vecs| && j < |vecs[i]|
    ensures InsertedAt(vecs, i, j + 1, hash, len, targetLen, h)
            <==> InsertedAt(vecs, i, j, hash, len, targetLen, h) || InsertedBelow(vecs, i, j, hash, len, targetLen, h)
  {
  }

  /** GetAllComb. It inserts exactly the texts of the picks that reach the target length. */
  method GetAllComb(vecs: seq<Column>, hash: string, len: int, targetLen: int, hashSets: set<string>)
    returns (out: set<string>)
    ensures forall h :: h in out <==> h in hashSets || Inserted(vecs, hash, len, targetLen, h)
    decreases |vecs|
  {
    out := hashSets;
    for i := 0 to |vecs|
      invariant forall h :: h in out <==> (h in hashSets || InsertedUpTo(vecs, i, hash, len, targetLen, h))
    {
      ghost var before := out;
      for j := 0 to |vecs[i]|
        invariant forall h :: h in out <==> (h in before || InsertedAt(vecs, i, j, hash, len, targetLen, h))
      {
        out := GetAllComb(Without(vecs, i), hash + Text(vecs[i][j]), len + 1, targetLen, out);
        forall h {
          InsertedAtStep(vecs, i, j, hash, len, targetLen, h);
        }
      }
    }
    if len == targetLen {
      out := out + {hash};
    }
    forall h ensures h in out <==> h in hashSets || Inserted(vecs, hash, len, targetLen, h) {
      InsertedStep(vecs, hash, len, targetLen, h);
    }
  }

  // ----- the index of an item and of a list

  /** An item that is indexed at all: at least a last key and an action, each a single code. */
  predicate WellFormed(item: Item) {
    |item| >= 2 && |item[|item| - 1]| == 1 && |item[|item| - 2]| == 1
  }

  function Modifiers(item: Item): seq<Column>
    requires |item| >= 2
  {
    item[..|item| - 2]
  }

  function Suffix(item: Item): string
    requires WellFormed(item)
  {
    Text(item[|item| - 2][0]) + Text(item[|item| - 1][0])
  }

  ghost predicate InIndex(item: Item, h: string) {
    WellFormed(item) &&
    exists codes :: Pick(Modifiers(item), codes) && |codes| == |Modifiers(item)| && h == Render(codes) + Suffix(item)
  }

  ghost predicate InFirst(list: WhiteList, n: nat, h: string)
    requires n <= |list|
  {
    exists i :: 0 <= i < n && InIndex(list[i], h)
  }

  lemma InFirstStep(list: WhiteList, n: nat, h: string)
    requires n < |list|
    ensures InFirst(list, n + 1, h) <==> InFirst(list, n, h) || InIndex(list[n], h)
  {
  }

  ghost predicate InListIndex(list: WhiteList, h: string) {
    InFirst(list, |list|, h)
  }

  lemma SuffixedIsIndexed(item: Item, c: string)
    requires WellFormed(item) && Inserted(Modifiers(item), "", 0, |Modifiers(item)|, c)
    ensures InIndex(item, c + Text(item[|item| - 2][0]) + Text(item[|item| - 1][0]))
  {
    var codes :| Pick(Modifiers(item), codes) && 0 + |codes| == |Modifiers(item)| && c == "" + Render(codes);
    ConcatEmpty(Render(codes));
    ConcatAssoc(c, Text(item[|item| - 2][0]), Text(item[|item| - 1][0]));
  }

  lemma IndexedIsSuffixed(item: Item, h: string) returns (c: string)
    requires InIndex(item, h)
    ensures Inserted(Modifiers(item), "", 0, |Modifiers(item)|, c)
    ensures h == c + Text(item[|item| - 2][0]) + Text(item[|item| - 1][0])
  {
    var codes :| Pick(Modifiers(item), codes) && |codes| == |Modifiers(item)| && h == Render(codes) + Suffix(item);
    c := Render(codes);
    ConcatEmpty(c);
    ConcatAssoc(c, Text(item[|item| - 2][0]), Text(item[|item| - 1][0]));
  }

  /** GetCombKeysHash. */
  method GetCombKeysHash(combKeys: Item, targetSet: set<string>) returns (out: set<string>)
    ensures forall h :: h in out <==> h in targetSet || InIndex(combKeys, h)
  {
    if |combKeys| < 2 || |combKeys[|combKeys| - 1]| != 1 || |combKeys[|combKeys| - 2]| != 1 {
      return targetSet;
    }
    var cols := Modifiers(combKeys);
    var hashSets := GetAllComb(cols, "", 0, |cols|, {});
    var last, action := Text(combKeys[|combKeys| - 2][0]), Text(combKeys[|combKeys| - 1][0]);
    out := targetSet + set c | c in hashSets :: c + last + action;
    forall h ensures h in out <==> h in targetSet || InIndex(combKeys, h) {
      if h in out && h !in targetSet {
        var c :| c in hashSets && h == c + last + action;
        SuffixedIsIndexed(combKeys, c);
      }
      if InIndex(combKeys, h) {
        var c := IndexedIsSuffixed(combKeys, h);
        assert c in hashSets;
      }
    }
  }

  function EventHash(ev: BusinessEvent): string {
    Render(ev.pressedKeys) + Text(ev.keyCode) + Text(ev.keyAction)
  }

  lemma {:induction false} RenderPush(codes: seq<int>, code: int)
    ensures Render(codes + [code]) == Render(codes) + Text(code)
  {
    if codes == [] {
      assert Render([code][1..]) == "";
    } else {
      RenderPush(codes[1..], code);
      FirstOfConcat(codes, [code]);
      ConcatAssoc(Text(codes[0]), Render(codes[1..]), Text(code));
    }
  }

  method GetBusinessEventHash(event: BusinessEvent) returns (hash: string)
    ensures hash == EventHash(event)
  {
    hash := "";
    for i := 0 to |event.pressedKeys|
      invariant hash == Render(event.pressedKeys[..i])
    {
      PrefixStep(event.pressedKeys, i);
      RenderPush(event.pressedKeys[..i], event.pressedKeys[i]);
      hash := hash + Text(event.pressedKeys[i]);
    }
    assert event.pressedKeys[..|event.pressedKeys|] == event.pressedKeys;
    hash := hash + Text(event.keyCode);
    hash := hash + Text(event.keyAction);
  }

  // ----- over any run of sync and clear calls

  datatype ListOp = Sync(deviceId: string, list: WhiteList) | Clear(deviceId: string) | ClearAll

  function Lists(ops: seq<ListOp>): map<string, WhiteList> {
    if ops == [] then map[]
    else
      var lists := Lists(ops[..|ops| - 1]);
      match ops[|ops| - 1]
      case Sync(d, list) => lists[d := list]
      case Clear(d) => lists - {d}
      case ClearAll => map[]
  }

  ghost predicate Hits(op: ListOp, d: string, h: string) {
    op.Sync? && op.deviceId == d && InListIndex(op.list, h)
  }

  /** The hashes of a device after a run: each sync adds the index of its list, and nothing takes any away. */
  ghost predicate HashedAfter(ops: seq<ListOp>, d: string, h: string) {
    ops != [] && (HashedAfter(ops[..|ops| - 1], d, h) || Hits(ops[|ops| - 1], d, h))
  }

  lemma HashedAfterPush(ops: seq<ListOp>, op: ListOp, d: string, h: string)
    ensures HashedAfter(ops + [op], d, h) <==> HashedAfter(ops, d, h) || Hits(op, d, h)
  {
    Snoc(ops, op);
  }

  lemma {:induction false} HitStays(ops: seq<ListOp>, k: nat, d: string, h: string)
    requires k < |ops| && Hits(ops[k], d, h)
    ensures HashedAfter(ops, d, h)
  {
    if k < |ops| - 1 {
      HitStays(ops[..|ops| - 1], k, d, h);
    }
  }

  lemma {:induction false} HashedHasHit(ops: seq<ListOp>, d: string, h: string) returns (k: nat)
    requires HashedAfter(ops, d, h)
    ensures k < |ops| && Hits(ops[k], d, h)
  {
    k := |ops| - 1;
    if !Hits(ops[k], d, h) {
      k := HashedHasHit(ops[..k], d, h);
    }
  }

  /** The hash set is the index of every list the device was ever synced with. */
  lemma {:induction false} HashesAreOfAllSyncs(ops: seq<ListOp>, d: string, h: string)
    ensures HashedAfter(ops, d, h) <==> exists k :: 0 <= k < |ops| && Hits(ops[k], d, h)
  {
    if HashedAfter(ops, d, h) {
      var k := HashedHasHit(ops, d, h);
    }
    if k :| 0 <= k < |ops| && Hits(ops[k], d, h) {
      HitStays(ops, k, d, h);
    }
  }

  /** So it covers the list that the device has now. */
  lemma {:induction false} CurrentListIsHashed(ops: seq<ListOp>, d: string, h: string)
    requires d in Lists(ops) && InListIndex(Lists(ops)[d], h)
    ensures HashedAfter(ops, d, h)
  {
    var last := ops[|ops| - 1];
    if !(last.Sync? && last.deviceId == d) {
      CurrentListIsHashed(ops[..|ops| - 1], d, h);
    }
  }

  /** A device that was synced at most once and not cleared is filtered by exactly the list it has. */
  lemma {:induction false} OneSyncIndexIsCurrent(ops: seq<ListOp>, d: string, h: string)
    requires forall k :: 0 <= k < |ops| ==> !ops[k].ClearAll? && !(ops[k].Clear? && ops[k].deviceId == d)
    requires forall j, k :: 0 <= j < k < |ops| && ops[j].Sync? && ops[k].Sync? ==>
        ops[j].deviceId != d || ops[k].deviceId != d
    ensures HashedAfter(ops, d, h) <==> d in Lists(ops) && InListIndex(Lists(ops)[d], h)
    ensures d in Lists(ops) <==> exists k :: 0 <= k < |ops| && ops[k].Sync? && ops[k].deviceId == d
  {
    if ops != [] {
      var rest, n := ops[..|ops| - 1], |ops| - 1;
      assert forall k :: 0 <= k < |rest| ==> rest[k] == ops[k];
      OneSyncIndexIsCurrent(rest, d, h);
      if k :| 0 <= k < |ops| && ops[k].Sync? && ops[k].deviceId == d {
        assert k < n ==> rest[k] == ops[k];
      }
    }
  }

  predicate Hashed(hashes: map<string, set<string>>, d: string, h: string) {
    d in hashes && h in hashes[d]
  }

  function HashesAt(hashes: map<string, set<string>>, d: string): set<string> {
    if d in hashes then hashes[d] else {}
  }

  /** The hash map is what a run makes of it. */
  ghost predicate HashesOf(hashes: map<string, set<string>>, ops: seq<ListOp>) {
    forall d, h :: Hashed(hashes, d, h) <==> HashedAfter(ops, d, h)
  }

  lemma SyncExtends(before: map<string, set<string>>, after: map<string, set<string>>, ops: seq<ListOp>, d0: string,
                    list: WhiteList)
    requires HashesOf(before, ops)
    requires after == before || after == before[d0 := HashesAt(after, d0)]
    requires forall h :: h in HashesAt(after, d0) <==> (h in HashesAt(before, d0) || InListIndex(list, h))
    ensures HashesOf(after, ops + [Sync(d0, list)])
  {
    forall d, h ensures Hashed(after, d, h) <==> HashedAfter(ops + [Sync(d0, list)], d, h) {
      HashedAfterPush(ops, Sync(d0, list), d, h);
      assert Hashed(before, d, h) <==> HashedAfter(ops, d, h);
      assert d == d0 ==> (h in HashesAt(after, d0) <==> h in HashesAt(before, d0) || InListIndex(list, h));
    }
  }

  lemma ClearKeepsHashes(hashes: map<string, set<string>>, ops: seq<ListOp>, op: ListOp)
    requires HashesOf(hashes, ops) && !op.Sync?
    ensures HashesOf(hashes, ops + [op])
  {
    forall d, h ensures Hashed(hashes, d, h) <==> HashedAfter(ops + [op], d, h) {
      HashedAfterPush(ops, op, d, h);
      assert Hashed(hashes, d, h) <==> HashedAfter(ops, d, h);
    }
  }

  class WhiteListUtil {
    var mapDeviceWhiteList: map<string, WhiteList>
    var combKeysHashMap: map<string, set<string>>
    ghost var history: seq<ListOp>

    /** The two maps are what the calls so far make of them. */
    ghost predicate Valid()
      reads this
    {
      mapDeviceWhiteList == Lists(history) && HashesOf(combKeysHashMap, history)
    }

    constructor ()
      ensures Valid() && history == []
    {
      mapDeviceWhiteList := map[];
      combKeysHashMap := map[];
      history := [];
    }

    method SyncWhiteList(deviceId: string, vecWhiteList: WhiteList)
      requires Valid()
      modifies this
      ensures Valid() && history == old(history) + [Sync(deviceId, vecWhiteList)]
    {
      mapDeviceWhiteList := mapDeviceWhiteList[deviceId := vecWhiteList];
      ghost var was := HashesAt(combKeysHashMap, deviceId);
      assert combKeysHashMap == old(combKeysHashMap);
      for i := 0 to |vecWhiteList|
        invariant mapDeviceWhiteList == old(mapDeviceWhiteList)[deviceId := vecWhiteList] && history == old(history)
        invariant i == 0 ==> combKeysHashMap == old(combKeysHashMap)
        invariant i > 0 ==> combKeysHashMap == old(combKeysHashMap)[deviceId := HashesAt(combKeysHashMap, deviceId)]
        invariant forall h :: h in HashesAt(combKeysHashMap, deviceId) <==> (h in was || InFirst(vecWhiteList, i, h))
      {
        var hashes := GetCombKeysHash(vecWhiteList[i], HashesAt(combKeysHashMap, deviceId));
        combKeysHashMap := combKeysHashMap[deviceId := hashes];
        forall h ensures h in hashes <==> (h in was || InFirst(vecWhiteList, i + 1, h)) {
          InFirstStep(vecWhiteList, i, h);
        }
      }
      SyncExtends(old(combKeysHashMap), combKeysHashMap, history, deviceId, vecWhiteList);
      Snoc(history, Sync(deviceId, vecWhiteList));
      history := history + [Sync(deviceId, vecWhiteList)];
    }

    /** The list of the device goes; its hashes stay. */
    method ClearWhiteList(deviceId: string)
      requires Valid()
      modifies this
      ensures Valid() && history == old(history) + [Clear(deviceId)] && combKeysHashMap == old(combKeysHashMap)
    {
      mapDeviceWhiteList := mapDeviceWhiteList - {deviceId};
      ClearKeepsHashes(combKeysHashMap, history, Clear(deviceId));
      Snoc(history, Clear(deviceId));
      history := history + [Clear(deviceId)];
    }

    /** ClearWhiteList of all devices. */
    method ClearAllWhiteLists()
      requires Valid()
      modifies this
      ensures Valid() && history == old(history) + [ClearAll] && combKeysHashMap == old(combKeysHashMap)
    {
      mapDeviceWhiteList := map[];
      ClearKeepsHashes(combKeysHashMap, history, ClearAll);
      Snoc(history, ClearAll);
      history := history + [ClearAll];
    }

    method IsNeedFilterOut(deviceId: string, event: BusinessEvent) returns (filtered: bool)
      requires Valid()
      ensures filtered <==> HashedAfter(history, deviceId, EventHash(event))
    {
      assert Hashed(combKeysHashMap, deviceId, EventHash(event)) <==> HashedAfter(history, deviceId, EventHash(event));
      if deviceId !in combKeysHashMap {
        return false;
      }
      var hash := GetBusinessEventHash(event);
      return hash in combKeysHashMap[deviceId];
    }
  }

  // ----- the lookup against direct matching

  /**
   The rule the index stands for: one pressed key from each modifier column in any order, then last key and action.
   */
  ghost predicate Matches(item: Item, ev: BusinessEvent) {
    && WellFormed(item) && item[|item| - 2][0] == ev.keyCode && item[|item| - 1][0] == ev.keyAction
    && exists order :: Arrangement(Modifiers(item), order, ev.pressedKeys)
  }

  lemma MatchedIsIndexed(item: Item, ev: BusinessEvent)
    requires Matches(item, ev)
    ensures InIndex(item, EventHash(ev))
  {
    var order :| Arrangement(Modifiers(item), order, ev.pressedKeys);
    OrderIsPick(Modifiers(item), order, ev.pressedKeys);
    ConcatAssoc(Render(ev.pressedKeys), Text(ev.keyCode), Text(ev.keyAction));
  }

  predicate AllWide(codes: seq<int>, w: nat) {
    forall i :: 0 <= i < |codes| ==> |Text(codes[i])| == w
  }

  /** Every key code has `w` digits and the action `v`. */
  predicate UniformItem(item: Item, w: nat, v: nat) {
    WellFormed(item) ==>
      && (forall i :: 0 <= i < |item| - 1 ==> AllWide(item[i], w))
      && |Text(item[|item| - 1][0])| == v
  }

  predicate UniformEvent(ev: BusinessEvent, w: nat, v: nat) {
    AllWide(ev.pressedKeys, w) && |Text(ev.keyCode)| == w && |Text(ev.keyAction)| == v
  }

  lemma {:induction false} RenderInjective(a: seq<int>, b: seq<int>, w: nat)
    requires AllWide(a, w) && AllWide(b, w) && w > 0 && Render(a) == Render(b)
    ensures a == b
  {
    if a != [] && b != [] {
      var x, y := Text(a[0]) + Render(a[1..]), Text(b[0]) + Render(b[1..]);
      assert x[..w] == Text(a[0]) && y[..w] == Text(b[0]) && x[w..] == Render(a[1..]) && y[w..] == Render(b[1..]);
      TextInjective(a[0], b[0]);
      RenderInjective(a[1..], b[1..], w);
      assert a == [a[0]] + a[1..] && b == [b[0]] + b[1..];
    }
  }

  lemma {:induction false} PickIsWide(vecs: seq<Column>, codes: seq<int>, w: nat)
    requires Pick(vecs, codes) && forall i :: 0 <= i < |vecs| ==> AllWide(vecs[i], w)
    ensures AllWide(codes, w)
    decreases |codes|
  {
    if codes != [] {
      var i :| 0 <= i < |vecs| && PickFrom(vecs, i, codes);
      PickIsWide(Without(vecs, i), codes[1..], w);
      assert forall k :: 0 < k < |codes| ==> codes[k] == codes[1..][k - 1];
    }
  }

  lemma EqualParts(a: string, b: string, c: string, a': string, b': string, c': string)
    requires a + b + c == a' + b' + c' && |b| == |b'| && |c| == |c'|
    ensures a == a' && b == b' && c == c'
  {
    var s, s' := a + b + c, a' + b' + c';
    assert s[..|a|] == a && s'[..|a|] == a';
    assert s[|a|..|a| + |b|] == b && s'[|a|..|a| + |b|] == b';
    assert s[|a| + |b|..] == c && s'[|a| + |b|..] == c';
  }

  /** With codes of one width and actions of another, an indexed event matches. */
  lemma {:induction false} IndexedMatches(item: Item, ev: BusinessEvent, w: nat, v: nat)
    requires InIndex(item, EventHash(ev)) && UniformItem(item, w, v) && UniformEvent(ev, w, v)
    ensures Matches(item, ev)
  {
    var cols := Modifiers(item);
    var codes :| Pick(cols, codes) && |codes| == |cols| && EventHash(ev) == Render(codes) + Suffix(item);
    var key, action := item[|item| - 2][0], item[|item| - 1][0];
    PickIsWide(cols, codes, w);
    ConcatAssoc(Render(codes), Text(key), Text(action));
    assert |Text(key)| == w;
    EqualParts(Render(codes), Text(key), Text(action), Render(ev.pressedKeys), Text(ev.keyCode), Text(ev.keyAction));
    TextInjective(key, ev.keyCode);
    TextInjective(action, ev.keyAction);
    RenderInjective(codes, ev.pressedKeys, w);
    var order := PickHasOrder(cols, codes);
  }

  /**
   After any run, an event that matches an item the device was ever synced with is filtered; and if key codes have one
   width and actions another, only such events are.
   */
  lemma {:induction false} FilterIsMatching(ops: seq<ListOp>, d: string, ev: BusinessEvent, w: nat, v: nat)
    ensures EverMatched(ops, d, ev) ==> HashedAfter(ops, d, EventHash(ev))
    ensures UniformRun(ops, d, w, v) && UniformEvent(ev, w, v) ==>
              (HashedAfter(ops, d, EventHash(ev)) <==> EverMatched(ops, d, ev))
  {
    var h := EventHash(ev);
    HashesAreOfAllSyncs(ops, d, h);
    if k, i :| 0 <= k < |ops| && MatchedBy(ops[k], i, d, ev) {
      MatchedIsIndexed(ops[k].list[i], ev);
      assert Hits(ops[k], d, h);
    }
    if UniformRun(ops, d, w, v) && UniformEvent(ev, w, v) && HashedAfter(ops, d, h) {
      var k :| 0 <= k < |ops| && Hits(ops[k], d, h);
      var i :| 0 <= i < |ops[k].list| && InIndex(ops[k].list[i], h);
      IndexedMatches(ops[k].list[i], ev, w, v);
      assert MatchedBy(ops[k], i, d, ev);
    }
  }

  ghost predicate EverMatched(ops: seq<ListOp>, d: string, ev: BusinessEvent) {
    exists k, i :: 0 <= k < |ops| && MatchedBy(ops[k], i, d, ev)
  }

  ghost predicate MatchedBy(op: ListOp, i: int, d: string, ev: BusinessEvent) {
    op.Sync? && op.deviceId == d && 0 <= i < |op.list| && Matches(op.list[i], ev)
  }

  predicate UniformRun(ops: seq<ListOp>, d: string, w: nat, v: nat) {
    forall k, i :: 0 <= k < |ops| && ops[k].Sync? && ops[k].deviceId == d && 0 <= i < |ops[k].list| ==>
      UniformItem(ops[k].list[i], w, v)
  }

  /** Clearing does not help: an event that a list filtered is filtered when the device has no list any more. */
  lemma ClearedListStillFilters(d: string, list: WhiteList, i: nat, ev: BusinessEvent)
    requires i < |list| && Matches(list[i], ev)
    ensures var ops := [Sync(d, list), Clear(d)];
            d !in Lists(ops) && HashedAfter(ops, d, EventHash(ev))
  {
    var ops := [Sync(d, list), Clear(d)];
    assert ops[..1] == [Sync(d, list)];
    MatchedIsIndexed(list[i], ev);
    HitStays(ops, 0, d, EventHash(ev));
  }

  lemma OneAndTwoDigits(a: nat, b: nat)
    requires a < 10 && b < 10 && a > 0
    ensures Text(a) == [Digit(a)] && Text(10 * a + b) == [Digit(a), Digit(b)]
  {
    assert Digits(a) == [Digit(a)];
  }

  lemma RenderOne(code: int)
    ensures Render([code]) == Text(code)
  {
    assert Render([code][1..]) == "";
    ConcatEmpty(Text(code));
  }

  lemma CollidingTexts()
    ensures Render([1]) + (Text(23) + Text(1)) == Render([12]) + Text(3) + Text(1)
  {
    OneAndTwoDigits(1, 2);
    OneAndTwoDigits(2, 3);
    OneAndTwoDigits(3, 0);
    RenderOne(1);
    RenderOne(12);
  }

  /** The widths matter: 1 then 23 is indexed under the text of 12 then 3. */
  lemma TextsOfDifferentWidthsCollide()
    ensures var item, ev := [[1], [23], [1]], BusinessEvent([12], 3, 1);
            InIndex(item, EventHash(ev)) && !Matches(item, ev)
  {
    var item: Item := [[1], [23], [1]];
    assert Modifiers(item) == [[1]] && item[1][0] == 23 && item[2][0] == 1;
    assert Arrangement([[1]], [0], [1]);
    OrderIsPick([[1]], [0], [1]);
    CollidingTexts();
  }
}
