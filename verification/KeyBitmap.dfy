/** Key bitmaps as the kernel reports them: one bit a key, in words of 64 bits. */
module KeyBitmap {
  import opened InputEvents
  import opened SeqFacts
  import opened WordMasks

  const LONG_BITS := 64
  const KEY_CNT := KEY_MAX + 1
  const NLONGS_KEY_CNT := (KEY_CNT + LONG_BITS - 1) / LONG_BITS

  type Bitmap = seq<bv64>

  predicate InRange(words: Bitmap, bit: nat) {
    bit / LONG_BITS < |words|
  }

  predicate BitIsSet(words: Bitmap, bit: nat)
    requires InRange(words, bit)
  {
    Meets(words[bit / LONG_BITS], OneAt(bit % LONG_BITS))
  }

  /** The bitmap as a predicate on keys, and the number of keys it has a bit for. */
  function Bits(words: Bitmap): nat -> bool {
    (k: nat) => InRange(words, k) && BitIsSet(words, k)
  }

  function Limit(words: Bitmap): nat {
    |words| * LONG_BITS
  }

  lemma InRangeIsBelowLimit(words: Bitmap, k: nat)
    ensures InRange(words, k) <==> k < Limit(words)
  {
  }

  /** The length check of a scan: the key has no word. */
  method IsLengthExceeds(words: Bitmap, key: nat) returns (exceeds: bool)
    ensures exceeds == (key >= Limit(words))
  {
    InRangeIsBelowLimit(words, key);
    exceeds := |words| < key / LONG_BITS + 1;
  }

  /** The bit test, on a key that has a word. */
  method TestBit(words: Bitmap, key: nat) returns (isSet: bool)
    requires key < Limit(words)
    ensures isSet == Bits(words)(key)
  {
    InRangeIsBelowLimit(words, key);
    isSet := BitIsSet(words, key);
  }

  function Range(lo: nat, hi: nat): (r: seq<nat>)
    requires lo <= hi
    ensures |r| == hi - lo && forall i :: 0 <= i < |r| ==> r[i] == lo + i
  {
    seq(hi - lo, i => lo + i)
  }

  /** The set keys among those asked for, in the order asked; a key beyond the limit ends the scan. */
  function Saved(bits: nat -> bool, limit: nat, keys: seq<nat>): seq<nat> {
    if keys == [] || keys[0] >= limit then []
    else (if bits(keys[0]) then [keys[0]] else []) + Saved(bits, limit, keys[1..])
  }

  predicate AllBelow(keys: seq<nat>, limit: nat) {
    forall i :: 0 <= i < |keys| ==> keys[i] < limit
  }

  lemma {:induction false} SavedConcat(bits: nat -> bool, limit: nat, a: seq<nat>, b: seq<nat>)
    requires AllBelow(a, limit)
    ensures Saved(bits, limit, a + b) == Saved(bits, limit, a) + Saved(bits, limit, b)
  {
    if a == [] {
      assert a + b == b;
    } else {
      FirstOfConcat(a, b);
      SavedConcat(bits, limit, a[1..], b);
      ConcatAssoc(if bits(a[0]) then [a[0]] else [], Saved(bits, limit, a[1..]), Saved(bits, limit, b));
    }
  }

  predicate Ascending(keys: seq<nat>) {
    forall i, j :: 0 <= i < j < |keys| ==> keys[i] < keys[j]
  }

  /** Asked for in ascending order, exactly the set keys below the limit are saved, in that order. */
  lemma {:induction false} AscendingSaved(bits: nat -> bool, limit: nat, keys: seq<nat>)
    requires Ascending(keys)
    ensures var s := Saved(bits, limit, keys);
            Ascending(s) && forall k :: k in s <==> k in keys && k < limit && bits(k)
  {
    if keys != [] {
      var first, rest := keys[0], keys[1..];
      assert forall k :: k in keys <==> k == first || k in rest;
      assert forall k :: k in rest ==> first < k;
      AscendingSaved(bits, limit, rest);
      AscendingCons(first, Saved(bits, limit, rest));
    }
  }

  lemma AscendingCons(first: nat, rest: seq<nat>)
    requires Ascending(rest)
    ensures (forall k :: k in rest ==> first < k) ==> Ascending([first] + rest)
  {
    assert forall i :: 0 <= i < |rest| ==> rest[i] in rest;
  }

  lemma RangeStep(lo: nat, hi: nat)
    requires lo < hi
    ensures Range(lo, hi) == [lo] + Range(lo + 1, hi) && Range(lo, hi)[1..] == Range(lo + 1, hi)
    ensures Range(lo, hi) == Range(lo, hi - 1) + [hi - 1]
  {
  }

  /** Asking for a range saves exactly its set bits below the limit, in ascending order. */
  lemma RangeSavesSetBits(bits: nat -> bool, limit: nat, lo: nat, hi: nat)
    requires lo <= hi
    ensures var s := Saved(bits, limit, Range(lo, hi));
            Ascending(s) && forall k :: k in s <==> lo <= k < hi && k < limit && bits(k)
  {
    AscendingSaved(bits, limit, Range(lo, hi));
    forall k ensures k in Range(lo, hi) <==> lo <= k < hi {
      if lo <= k < hi {
        assert Range(lo, hi)[k - lo] == k;
      }
    }
  }

  // ----- releasing what a virtual device holds

  function Release(code: nat): seq<InputEvent> {
    [InputEvent(0, EV_KEY, code, KEY_UP_STATE), InputEvent(0, EV_SYN, 0, KEY_UP_STATE)]
  }

  function Releases(codes: seq<nat>): seq<InputEvent> {
    if codes == [] then [] else Releases(codes[..|codes| - 1]) + Release(codes[|codes| - 1])
  }

  /**
   The two loops of ResetVirtualDevicePressedKeys for one device: collect the pressed keys, then write each one up.
   */
  method ResetPressedKeys(words: Bitmap) returns (written: seq<InputEvent>)
    requires |words| == NLONGS_KEY_CNT
    ensures written == Releases(Saved(Bits(words), Limit(words), Range(0, KEY_MAX)))
  {
    var pressedKeys: seq<nat> := [];
    ghost var bits, limit := Bits(words), Limit(words);
    for keyIndex := 0 to KEY_MAX
      invariant pressedKeys == Saved(bits, limit, Range(0, keyIndex))
    {
      RangeStep(0, keyIndex + 1);
      SavedConcat(bits, limit, Range(0, keyIndex), [keyIndex]);
      assert [keyIndex][1..] == [];
      var pressed := TestBit(words, keyIndex);
      if pressed {
        pressedKeys := pressedKeys + [keyIndex];
      }
    }
    written := ReleaseAll(pressedKeys);
  }

  method ReleaseAll(pressedKeys: seq<nat>) returns (written: seq<InputEvent>)
    ensures written == Releases(pressedKeys)
  {
    written := [];
    for i := 0 to |pressedKeys|
      invariant written == Releases(pressedKeys[..i])
    {
      PrefixStep(pressedKeys, i);
      written := written + Release(pressedKeys[i]);
    }
    assert pressedKeys[..|pressedKeys|] == pressedKeys;
  }

  function Written(held: set<nat>, e: InputEvent): set<nat> {
    if e.kind == EV_KEY && e.value == KEY_UP_STATE then held - {e.code} else held
  }

  function AfterWrites(held: set<nat>, written: seq<InputEvent>): set<nat> {
    if written == [] then held else Written(AfterWrites(held, written[..|written| - 1]), written[|written| - 1])
  }

  lemma {:induction false} ReleasesRelease(held: set<nat>, codes: seq<nat>)
    ensures AfterWrites(held, Releases(codes)) == set k | k in held && k !in codes
  {
    if codes != [] {
      var front, c := codes[..|codes| - 1], codes[|codes| - 1];
      ReleasesRelease(held, front);
      var w := Releases(front);
      assert (w + Release(c))[..|w| + 1] == w + [Release(c)[0]];
      Snoc(w, Release(c)[0]);
      assert codes == front + [c];
    }
  }

  function PressedBelow(bits: nat -> bool, limit: nat): set<nat> {
    set k | 0 <= k < limit && bits(k)
  }

  /** After the reset of a device no key below KEY_MAX is held; the key KEY_MAX itself is left as it was. */
  lemma ResetLeavesOnlyLast(words: Bitmap)
    requires |words| == NLONGS_KEY_CNT
    ensures AfterWrites(PressedBelow(Bits(words), Limit(words)),
                        Releases(Saved(Bits(words), Limit(words), Range(0, KEY_MAX))))
            == PressedBelow(Bits(words), Limit(words)) * {KEY_MAX}
  {
    ResetLeaves(Bits(words), Limit(words));
  }

  lemma ResetLeaves(bits: nat -> bool, limit: nat)
    requires limit == KEY_MAX + 1
    ensures AfterWrites(PressedBelow(bits, limit), Releases(Saved(bits, limit, Range(0, KEY_MAX))))
            == PressedBelow(bits, limit) * {KEY_MAX}
  {
    RangeSavesSetBits(bits, limit, 0, KEY_MAX);
    ReleasesRelease(PressedBelow(bits, limit), Saved(bits, limit, Range(0, KEY_MAX)));
  }

  // ----- which bit belongs to a key, without the shift of the bit test

  lemma BitIsMask(words: Bitmap, k: nat)
    requires k < Limit(words)
    ensures k / 64 < |words|
    ensures Bits(words)(k) <==> Meets(words[k / 64], Mask(k % 64))
  {
    InRangeIsBelowLimit(words, k);
    MaskIsShift(k % 64);
  }

  lemma SamePlace(k: nat, j: nat)
    ensures k == j <==> k / 64 == j / 64 && k % 64 == j % 64
  {
  }

  /** The bitmap with one more key: its mask or-ed into its word. */
  function WithKey(words: Bitmap, k: nat): Bitmap
    requires k < Limit(words)
  {
    words[k / 64 := words[k / 64] | Mask(k % 64)]
  }

  /** In any bitmap, or-ing the mask of a key into the word of the key sets that key and no other. */
  lemma {:induction false} WithKeyAdds(words: Bitmap, k: nat, j: nat)
    requires k < Limit(words)
    ensures Bits(WithKey(words, k))(j) <==> Bits(words)(j) || j == k
  {
    SamePlace(k, j);
    if j < Limit(words) {
      BitIsMask(words, j);
      BitIsMask(WithKey(words, k), j);
      MeetsOr(words[k / 64], Mask(k % 64), Mask(j % 64));
      MasksApart(k % 64, j % 64);
    }
  }

  /** The bitmap of `n` words that reports some keys: all words zero, and the mask of each key or-ed in. */
  function BitmapOf(keys: seq<nat>, n: nat): (r: Bitmap)
    ensures |r| == n
  {
    if keys == [] then seq(n, _ => 0)
    else
      var before, k := BitmapOf(keys[..|keys| - 1], n), keys[|keys| - 1];
      if k < Limit(before) then WithKey(before, k) else before
  }

  lemma BlankHasNone(n: nat, j: nat)
    ensures !Bits(BitmapOf([], n))(j)
  {
    var words := BitmapOf([], n);
    if j < Limit(words) {
      BitIsMask(words, j);
      assert words[j / 64] == 0;
    }
  }

  /** Its set keys are exactly those that it was built from and has a word for. */
  lemma {:induction false} BitmapHasKeys(keys: seq<nat>, n: nat, j: nat)
    ensures Bits(BitmapOf(keys, n))(j) <==> j in keys && j < n * 64
  {
    if keys == [] {
      BlankHasNone(n, j);
    } else {
      var front, k := keys[..|keys| - 1], keys[|keys| - 1];
      BitmapHasKeys(front, n, j);
      assert j in keys <==> j in front || j == k;
      if k < n * 64 {
        WithKeyAdds(BitmapOf(front, n), k, j);
      }
    }
  }

  lemma {:induction false} ReleasesAre(codes: seq<nat>, i: nat)
    requires i < |codes|
    ensures |Releases(codes)| == 2 * |codes|
    ensures Releases(codes)[2 * i] == InputEvent(0, EV_KEY, codes[i], KEY_UP_STATE)
    ensures Releases(codes)[2 * i + 1].kind == EV_SYN && Releases(codes)[2 * i + 1].code == SYN_REPORT
  {
    var front := codes[..|codes| - 1];
    if i < |front| {
      ReleasesAre(front, i);
    } else if front != [] {
      ReleasesAre(front, 0);
    }
  }

  /** What the reset of a device that holds `keys` writes: the release and SYN of each one but KEY_MAX, ascending. */
  lemma {:induction false} ResetOfKeys(keys: seq<nat>)
    requires forall k :: k in keys ==> k <= KEY_MAX
    ensures var words := BitmapOf(keys, NLONGS_KEY_CNT);
            var s := Saved(Bits(words), Limit(words), Range(0, KEY_MAX));
            && Ascending(s) && (forall k :: k in s <==> k in keys && k != KEY_MAX)
            && AfterWrites(SetOf(keys), Releases(s)) == SetOf(keys) * {KEY_MAX}
  {
    var words := BitmapOf(keys, NLONGS_KEY_CNT);
    var s := Saved(Bits(words), Limit(words), Range(0, KEY_MAX));
    RangeSavesSetBits(Bits(words), Limit(words), 0, KEY_MAX);
    forall k: nat ensures Bits(words)(k) <==> k in keys {
      BitmapHasKeys(keys, NLONGS_KEY_CNT, k);
    }
    ReleasesRelease(SetOf(keys), s);
  }
}
