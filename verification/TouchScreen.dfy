/**
 Touchscreen projection: from the layout of a projected window to the transform of touch coordinates, and the scan that
 applies it to a read buffer in place. Arithmetic is exact; wrap-around at 32 bits is not modelled.
 */
module TouchScreen {
  import opened InputEvents
  import opened SeqFacts

  // ----- the transform

  datatype SinkScreen = SinkScreen(showWidth: nat, showHeight: nat, phyWidth: nat, phyHeight: nat,
                                   winShowX: nat, winShowY: nat, projShowWidth: nat, projShowHeight: nat,
                                   sourcePhyWidth: nat, sourcePhyHeight: nat, sourcePhyId: string)

  datatype Transform = Transform(winPhyX: nat, winPhyY: nat, projPhyWidth: nat, projPhyHeight: nat,
                                 coeffWidth: real, coeffHeight: real)

  datatype SinkScreenInfo = SinkScreenInfo(screen: SinkScreen, transform: Transform)

  /** static_cast of a quotient of naturals. */
  function Quotient(a: nat, b: nat): nat
    requires b > 0
  {
    QuotientFloor(a, b);
    (a as real / b as real).Floor
  }

  lemma QuotientFloor(a: nat, b: nat)
    requires b > 0
    ensures (a as real / b as real).Floor == a / b
  {
    var q, r := a / b, a % b;
    assert a as real == q as real * b as real + r as real;
    assert a as real / b as real == q as real + r as real / b as real;
    assert 0.0 <= r as real / b as real < 1.0;
  }

  /** The window offset: the cast stands around the quotient alone, before it is scaled. */
  function Offset(show: nat, range: nat, phy: nat): nat
    requires range > 0
  {
    Quotient(show, range) * phy
  }

  /** The projected extent: here the cast stands around the scaled quotient. */
  function Extent(show: nat, range: nat, phy: nat): int
    requires range > 0
  {
    ((show as real / range as real) * phy as real).Floor
  }

  /** CalculateTransformInfo: the transform is written only on success. */
  method CalculateTransformInfo(info: SinkScreenInfo) returns (ok: bool, out: SinkScreenInfo)
    ensures out.screen == info.screen && (!ok ==> out == info)
    ensures ok <==> Computable(info.screen)
    ensures ok ==> out.transform == TransformOf(info.screen)
  {
    var s := info.screen;
    if s.showHeight == 0 || s.showWidth == 0 {
      return false, info;
    }
    var width, height := Extent(s.projShowWidth, s.showWidth, s.phyWidth),
        Extent(s.projShowHeight, s.showHeight, s.phyHeight);
    if width == 0 || height == 0 {
      return false, info;
    }
    ExtentIsNat(s.projShowWidth, s.showWidth, s.phyWidth);
    ExtentIsNat(s.projShowHeight, s.showHeight, s.phyHeight);
    var t := Transform(Offset(s.winShowX, s.showWidth, s.phyWidth), Offset(s.winShowY, s.showHeight, s.phyHeight),
                       width, height,
                       s.sourcePhyWidth as real / width as real, s.sourcePhyHeight as real / height as real);
    return true, info.(transform := t);
  }

  predicate Computable(s: SinkScreen) {
    && s.showHeight != 0 && s.showWidth != 0
    && Extent(s.projShowWidth, s.showWidth, s.phyWidth) != 0
    && Extent(s.projShowHeight, s.showHeight, s.phyHeight) != 0
  }

  function TransformOf(s: SinkScreen): Transform
    requires Computable(s)
  {
    ExtentIsNat(s.projShowWidth, s.showWidth, s.phyWidth);
    ExtentIsNat(s.projShowHeight, s.showHeight, s.phyHeight);
    var width, height := Extent(s.projShowWidth, s.showWidth, s.phyWidth),
        Extent(s.projShowHeight, s.showHeight, s.phyHeight);
    Transform(Offset(s.winShowX, s.showWidth, s.phyWidth), Offset(s.winShowY, s.showHeight, s.phyHeight), width, height,
              s.sourcePhyWidth as real / width as real, s.sourcePhyHeight as real / height as real)
  }

  lemma ExtentIsNat(show: nat, range: nat, phy: nat)
    requires range > 0
    ensures Extent(show, range, phy) >= 0
  {
    assert show as real / range as real >= 0.0;
    assert (show as real / range as real) * phy as real >= 0.0;
  }

  predicate Accepts(t: Transform, x: nat, y: nat) {
    t.winPhyX <= x <= t.winPhyX + t.projPhyWidth && t.winPhyY <= y <= t.winPhyY + t.projPhyHeight
  }

  function Scale(k: int, coeff: real): int {
    (k as real * coeff).Floor
  }

  function MapAxis(value: nat, window: nat, coeff: real): int {
    Scale(value - window, coeff)
  }

  function MapX(t: Transform, x: nat): int {
    MapAxis(x, t.winPhyX, t.coeffWidth)
  }

  function MapY(t: Transform, y: nat): int {
    MapAxis(y, t.winPhyY, t.coeffHeight)
  }

  lemma ProductMono(a: real, b: real, c: real)
    requires 0.0 <= a <= b && 0.0 <= c
    ensures 0.0 <= a * c <= b * c
  {
  }

  lemma QuotientTimes(t: nat, r: nat)
    requires r > 0
    ensures t as real / r as real >= 0.0 && r as real * (t as real / r as real) == t as real
  {
  }

  lemma FloorMono(a: real, b: real)
    requires a <= b
    ensures a.Floor <= b.Floor
  {
  }

  lemma Scaled(k: nat, k': nat, range: nat, target: nat)
    requires range > 0 && k <= k' <= range
    ensures var c := target as real / range as real; 0 <= Scale(k, c) <= Scale(k', c) <= target
  {
    var c := target as real / range as real;
    QuotientTimes(target, range);
    ProductMono(k as real, k' as real, c);
    ProductMono(k' as real, range as real, c);
    FloorMono(0.0, k as real * c);
    FloorMono(k as real * c, k' as real * c);
    FloorMono(k' as real * c, target as real);
  }

  lemma AxisBound(window: nat, range: nat, target: nat, v: nat, v': nat)
    requires range > 0 && window <= v <= window + range && window <= v' <= window + range
    ensures var c := target as real / range as real;
            0 <= MapAxis(v, window, c) <= target && (v <= v' ==> MapAxis(v, window, c) <= MapAxis(v', window, c))
  {
    Scaled(v - window, v - window, range, target);
    if v <= v' {
      Scaled(v - window, v' - window, range, target);
    }
  }

  /** A computed transform takes every accepted point into the source's screen, and keeps the order on each axis. */
  lemma {:induction false} AcceptedPointsStayOnScreen(s: SinkScreen, x: nat, y: nat, x': nat, y': nat)
    requires Computable(s) && Accepts(TransformOf(s), x, y) && Accepts(TransformOf(s), x', y')
    ensures var t := TransformOf(s);
            && 0 <= MapX(t, x) <= s.sourcePhyWidth && 0 <= MapY(t, y) <= s.sourcePhyHeight
            && (x <= x' ==> MapX(t, x) <= MapX(t, x')) && (y <= y' ==> MapY(t, y) <= MapY(t, y'))
  {
    var t := TransformOf(s);
    AxisBound(t.winPhyX, t.projPhyWidth, s.sourcePhyWidth, x, x');
    AxisBound(t.winPhyY, t.projPhyHeight, s.sourcePhyHeight, y, y');
  }

  // ----- where a point lands, over naturals

  /** `n` is `k` scaled from `range` to `target`, without the fraction. */
  predicate Lands(n: int, k: int, range: nat, target: nat) {
    n * range <= k * target < (n + 1) * range
  }

  lemma LandsOnce(n: int, n': int, k: int, range: nat, target: nat)
    requires range > 0 && Lands(n, k, range, target) && Lands(n', k, range, target)
    ensures n == n'
  {
    if n < n' {
      MulMonotone(range, n + 1, n');
    } else if n' < n {
      MulMonotone(range, n' + 1, n);
    }
  }

  lemma TimesMono(a: real, b: real, c: real)
    requires 0.0 < c
    ensures a <= b ==> a * c <= b * c
    ensures a < b ==> a * c < b * c
  {
  }

  lemma ProductIsReal(a: int, b: int)
    ensures (a * b) as real == a as real * b as real
  {
  }

  lemma FloorBracket(q: real, n: int, range: nat, product: int)
    requires range > 0 && n as real <= q < (n + 1) as real && q * range as real == product as real
    ensures n * range <= product < (n + 1) * range
  {
    TimesMono(n as real, q, range as real);
    TimesMono(q, (n + 1) as real, range as real);
    ProductIsReal(n, range);
    ProductIsReal(n + 1, range);
  }

  lemma FloorLands(q: real, k: nat, range: nat, target: nat)
    requires range > 0 && q * range as real == k as real * target as real
    ensures Lands(q.Floor, k, range, target)
  {
    ProductIsReal(k, target);
    FloorBracket(q, q.Floor, range, k * target);
  }

  lemma ProductAssoc(a: real, b: real, c: real)
    ensures (a * b) * c == a * (b * c)
  {
  }

  lemma ScaledTimes(q: real, k: real, c: real, range: real, target: real)
    requires q == k * c && c * range == target
    ensures q * range == k * target
  {
    ProductAssoc(k, c, range);
  }

  lemma ScaledBy(k: nat, c: real, range: nat, target: nat)
    requires range > 0 && c * range as real == target as real
    ensures Lands(Scale(k, c), k, range, target)
  {
    var q := k as real * c;
    ScaledTimes(q, k as real, c, range as real, target as real);
    FloorLands(q, k, range, target);
  }

  lemma ScaleLands(k: nat, range: nat, target: nat)
    requires range > 0
    ensures Lands(Scale(k, target as real / range as real), k, range, target)
  {
    QuotientTimes(target, range);
    ScaledBy(k, target as real / range as real, range, target);
  }

  lemma ExtentLands(show: nat, range: nat, phy: nat)
    requires range > 0
    ensures Lands(Extent(show, range, phy), show, range, phy)
  {
    ScaleLands(phy, range, show);
    ScaleSwaps(show, range, phy);
    assert phy * show == show * phy;
  }

  lemma ScaleSwaps(show: nat, range: nat, phy: nat)
    requires range > 0
    ensures Extent(show, range, phy) == Scale(phy, show as real / range as real)
  {
  }

  /** What the numbers of a computed transform are, as quotients of those of the screen. */
  lemma {:induction false} TransformIs(s: SinkScreen)
    requires Computable(s)
    ensures var t := TransformOf(s);
            && t.winPhyX == s.winShowX / s.showWidth * s.phyWidth
            && t.winPhyY == s.winShowY / s.showHeight * s.phyHeight
            && Lands(t.projPhyWidth, s.projShowWidth, s.showWidth, s.phyWidth)
            && Lands(t.projPhyHeight, s.projShowHeight, s.showHeight, s.phyHeight)
  {
    QuotientFloor(s.winShowX, s.showWidth);
    QuotientFloor(s.winShowY, s.showHeight);
    ExtentLands(s.projShowWidth, s.showWidth, s.phyWidth);
    ExtentLands(s.projShowHeight, s.showHeight, s.phyHeight);
  }

  /** A transform can be computed exactly if the screen has extents and the window is one physical unit at least. */
  lemma {:induction false} ComputableIff(s: SinkScreen)
    ensures Computable(s) <==>
              && s.showWidth != 0 && s.showHeight != 0
              && s.showWidth <= s.projShowWidth * s.phyWidth && s.showHeight <= s.projShowHeight * s.phyHeight
  {
    if s.showWidth != 0 && s.showHeight != 0 {
      ExtentLands(s.projShowWidth, s.showWidth, s.phyWidth);
      ExtentLands(s.projShowHeight, s.showHeight, s.phyHeight);
      LandsFromOne(Extent(s.projShowWidth, s.showWidth, s.phyWidth), s.projShowWidth, s.showWidth, s.phyWidth);
      LandsFromOne(Extent(s.projShowHeight, s.showHeight, s.phyHeight), s.projShowHeight, s.showHeight, s.phyHeight);
    }
  }

  lemma LandsFromOne(n: int, k: nat, range: nat, target: nat)
    requires range > 0 && Lands(n, k, range, target)
    ensures n != 0 <==> range <= k * target
  {
    if n < 0 {
      MulMonotone(range, n + 1, 0);
    } else if n > 0 {
      MulMonotone(range, 1, n);
    }
  }

  /** An accepted point lands on the source's screen where it lies in the window, on each axis, without the fraction. */
  lemma {:induction false} PointLands(s: SinkScreen, x: nat, y: nat)
    requires Computable(s) && Accepts(TransformOf(s), x, y)
    ensures var t := TransformOf(s);
            && Lands(MapX(t, x), x - t.winPhyX, t.projPhyWidth, s.sourcePhyWidth)
            && Lands(MapY(t, y), y - t.winPhyY, t.projPhyHeight, s.sourcePhyHeight)
  {
    var t := TransformOf(s);
    ScaleLands(x - t.winPhyX, t.projPhyWidth, s.sourcePhyWidth);
    ScaleLands(y - t.winPhyY, t.projPhyHeight, s.sourcePhyHeight);
  }

  lemma EdgesOf(window: nat, range: nat, target: nat)
    requires range > 0
    ensures var c := target as real / range as real;
            MapAxis(window, window, c) == 0 && MapAxis(window + range, window, c) == target
  {
    var c := target as real / range as real;
    ScaleLands(0, range, target);
    ScaleLands(range, range, target);
    assert Lands(0, 0, range, target) && Lands(target, range, range, target);
    LandsOnce(Scale(0, c), 0, 0, range, target);
    LandsOnce(Scale(range, c), target, range, range, target);
  }

  /** The window is accepted up to its edges, and they go to the edges of the source's screen. */
  lemma {:induction false} EdgesLand(s: SinkScreen)
    requires Computable(s)
    ensures var t := TransformOf(s);
            var right, bottom := t.winPhyX + t.projPhyWidth, t.winPhyY + t.projPhyHeight;
            && (forall x: nat, y: nat :: Accepts(t, x, y) <==> t.winPhyX <= x <= right && t.winPhyY <= y <= bottom)
            && MapX(t, t.winPhyX) == 0 && MapX(t, right) == s.sourcePhyWidth
            && MapY(t, t.winPhyY) == 0 && MapY(t, bottom) == s.sourcePhyHeight
  {
    var t := TransformOf(s);
    EdgesOf(t.winPhyX, t.projPhyWidth, s.sourcePhyWidth);
    EdgesOf(t.winPhyY, t.projPhyHeight, s.sourcePhyHeight);
  }

  /**
   The window offset is the physical position of the window exactly when the part of it below one screen width scales
   to less than one unit; for a window inside the screen the offset is always zero.
   */
  lemma {:induction false} OffsetIsPositionIff(show: nat, range: nat, phy: nat)
    requires range > 0
    ensures Offset(show, range, phy) == (show * phy) / range <==> (show % range) * phy < range
    ensures show < range ==> Offset(show, range, phy) == 0
  {
    QuotientFloor(show, range);
    var q, r := show / range, show % range;
    assert show * phy == range * (q * phy) + r * phy;
    DivByParts(range, q * phy, r * phy);
  }

  lemma {:induction false} DivByParts(range: nat, whole: nat, part: nat)
    requires range > 0
    ensures (range * whole + part) / range == whole + part / range
    ensures part / range == 0 <==> part < range
  {
    var q, r := part / range, part % range;
    assert range * whole + part == range * (whole + q) + r;
    DivUnique(range * whole + part, range, whole + q, r);
  }

  lemma {:induction false} DivUnique(n: nat, d: nat, q: nat, r: nat)
    requires d > 0 && r < d && n == d * q + r
    ensures n / d == q
  {
    var k := n / d - q;
    assert d * (q + k) + n % d == d * q + r;
    assert d * (q + k) == d * q + d * k;
    if k >= 1 {
      MulMonotone(d, 1, k);
    } else if k <= -1 {
      MulMonotone(d, k, -1);
    }
  }

  lemma MulMonotone(d: nat, a: int, b: int)
    requires a <= b
    ensures d * a <= d * b
  {
  }

  // ----- collecting the frames of a buffer

  predicate IsAbsX(e: InputEvent) {
    e.kind == EV_ABS && (e.code == ABS_X || e.code == ABS_MT_POSITION_X)
  }

  /** The later scan of a frame compares codes only. */
  predicate CodedX(e: InputEvent) { e.code == ABS_X || e.code == ABS_MT_POSITION_X }

  predicate CodedY(e: InputEvent) { e.code == ABS_Y || e.code == ABS_MT_POSITION_Y }

  type Pair = (nat, nat)

  /** The last X event before `n`, or -1; and the last EV_SYN event before `n`, or -1. */
  function LastX(s: seq<InputEvent>, n: nat): (i: int)
    requires n <= |s|
    ensures -1 <= i < n && (i >= 0 ==> IsAbsX(s[i]))
    ensures forall j :: i < j < n ==> !IsAbsX(s[j])
  {
    if n == 0 then -1 else if IsAbsX(s[n - 1]) then n - 1 else LastX(s, n - 1)
  }

  function LastSyn(s: seq<InputEvent>, n: nat): (i: int)
    requires n <= |s|
    ensures -1 <= i < n && (i >= 0 ==> s[i].kind == EV_SYN)
    ensures forall j :: i < j < n ==> s[j].kind != EV_SYN
  {
    if n == 0 then -1 else if s[n - 1].kind == EV_SYN then n - 1 else LastSyn(s, n - 1)
  }

  /** After `n` events the scan stands behind a SYN that follows the last X. */
  predicate Behind(s: seq<InputEvent>, n: nat)
    requires n <= |s|
  {
    LastX(s, n) >= 0 && LastSyn(s, n) > LastX(s, n)
  }

  function Pairs(s: seq<InputEvent>, n: nat): seq<Pair>
    requires n <= |s|
  {
    if n == 0 then []
    else Pairs(s, n - 1) + (if Behind(s, n) then [(LastX(s, n) as nat, LastSyn(s, n) as nat)] else [])
  }

  /** The collected pairs are exactly the stretches from an X event to a SYN event without another X event between. */
  lemma {:induction false} PairsExact(s: seq<InputEvent>, n: nat, p: Pair)
    requires n <= |s|
    ensures p in Pairs(s, n) <==>
              && p.0 < p.1 < n && IsAbsX(s[p.0]) && s[p.1].kind == EV_SYN
              && forall j :: p.0 < j < p.1 ==> !IsAbsX(s[j])
  {
    if n > 0 {
      PairsExact(s, n - 1, p);
      if p.0 < p.1 == n - 1 && IsAbsX(s[p.0]) && s[p.1].kind == EV_SYN && forall j :: p.0 < j < p.1 ==> !IsAbsX(s[j]) {
        assert LastX(s, n) == p.0 && LastSyn(s, n) == p.1;
      }
    }
  }

  /** They are collected in the order of their ends. */
  lemma {:induction false} PairsAscend(s: seq<InputEvent>, n: nat)
    requires n <= |s|
    ensures forall i, j :: 0 <= i < j < |Pairs(s, n)| ==> Pairs(s, n)[i].1 <= Pairs(s, n)[j].1
    ensures forall i :: 0 <= i < |Pairs(s, n)| ==> Pairs(s, n)[i].1 <= LastSyn(s, n)
  {
    if n > 0 {
      PairsAscend(s, n - 1);
    }
  }

  predicate NoRepeats(pairs: seq<Pair>) {
    forall i, j :: 0 <= i < j < |pairs| ==> pairs[i] != pairs[j]
  }

  lemma {:induction false} LastPair(s: seq<InputEvent>, n: nat)
    requires n <= |s| && Behind(s, n)
    ensures Pairs(s, n) != [] && Pairs(s, n)[|Pairs(s, n)| - 1] == (LastX(s, n) as nat, LastSyn(s, n) as nat)
  {
  }

  lemma NoRepeatsSnoc(pairs: seq<Pair>, p: Pair)
    ensures NoRepeats(pairs + [p]) <==> NoRepeats(pairs) && p !in pairs
  {
    var all := pairs + [p];
    if NoRepeats(all) {
      assert forall i :: 0 <= i < |pairs| ==> all[i] == pairs[i];
      assert all[|pairs|] == p;
    }
  }

  /** The event right behind a collected frame starts no frame and ends none. */
  predicate Stray(s: seq<InputEvent>, i: nat)
    requires i < |s|
  {
    Behind(s, i) && !IsAbsX(s[i]) && s[i].kind != EV_SYN
  }

  lemma RepeatStep(s: seq<InputEvent>, i: nat)
    requires i < |s|
    ensures NoRepeats(Pairs(s, i + 1)) <==> NoRepeats(Pairs(s, i)) && !Stray(s, i)
  {
    var before := Pairs(s, i);
    if Behind(s, i + 1) {
      var p := (LastX(s, i + 1) as nat, LastSyn(s, i + 1) as nat);
      NoRepeatsSnoc(before, p);
      PairsExact(s, i, p);
      if s[i].kind != EV_SYN {
        LastPair(s, i);
      }
    } else {
      ConcatEmpty(before);
    }
  }

  /** A pair is collected twice exactly when some event right behind a collected frame starts no frame and ends none. */
  lemma {:induction false} PairsRepeatIff(s: seq<InputEvent>, n: nat)
    requires n <= |s|
    ensures NoRepeats(Pairs(s, n)) <==> forall i :: 0 <= i < n ==> !Stray(s, i)
  {
    if n > 0 {
      PairsRepeatIff(s, n - 1);
      RepeatStep(s, n - 1);
    }
  }

  // ----- one pass over a pair

  datatype Frame = Frame(events: seq<InputEvent>, flags: seq<bool>, touchId: string)

  /** static_cast to 32 unsigned bits. */
  function Unsigned(v: int): (r: nat)
    ensures r < 0x1_0000_0000 && (r - v) % 0x1_0000_0000 == 0
  {
    v % 0x1_0000_0000
  }

  function LastCodedX(s: seq<InputEvent>, from: nat, n: nat): (i: int)
    requires from <= n <= |s|
    ensures i == -1 || (from <= i < n && CodedX(s[i]))
    ensures forall j :: from <= j < n && j > i ==> !CodedX(s[j])
    decreases n
  {
    if n == from then -1 else if CodedX(s[n - 1]) then n - 1 else LastCodedX(s, from, n - 1)
  }

  function LastCodedY(s: seq<InputEvent>, from: nat, n: nat): (i: int)
    requires from <= n <= |s|
    ensures i == -1 || (from <= i < n && CodedY(s[i]))
    ensures forall j :: from <= j < n && j > i ==> !CodedY(s[j])
    decreases n
  {
    if n == from then -1 else if CodedY(s[n - 1]) then n - 1 else LastCodedY(s, from, n - 1)
  }

  /** The first screen whose window accepts the point, or the number of screens. */
  function ScreenAt(screens: seq<SinkScreenInfo>, x: nat, y: nat): (i: nat)
    ensures i <= |screens|
    ensures i < |screens| ==> Accepts(screens[i].transform, x, y)
    ensures forall j :: 0 <= j < i ==> !Accepts(screens[j].transform, x, y)
  {
    if screens == [] || Accepts(screens[0].transform, x, y) then 0 else 1 + ScreenAt(screens[1..], x, y)
  }

  function Flagged(flags: seq<bool>, p: Pair): seq<bool>
    requires p.0 <= p.1 < |flags|
  {
    seq(|flags|, i requires 0 <= i < |flags| => flags[i] || p.0 <= i <= p.1)
  }

  function Pass(f: Frame, p: Pair, screens: seq<SinkScreenInfo>): (r: Frame)
    requires p.0 <= p.1 < |f.events| && p.1 < |f.flags|
    ensures |r.events| == |f.events| && |r.flags| == |f.flags|
  {
    var xi, yi := LastCodedX(f.events, p.0, p.1 + 1), LastCodedY(f.events, p.0, p.1 + 1);
    if xi < 0 || yi < 0 then f.(flags := Flagged(f.flags, p))
    else
      var x, y := Unsigned(f.events[xi].value), Unsigned(f.events[yi].value);
      var i := ScreenAt(screens, x, y);
      if i == |screens| then f.(flags := Flagged(f.flags, p))
      else
        var t := screens[i].transform;
        Frame(f.events[xi := f.events[xi].(value := MapX(t, x))][yi := f.events[yi].(value := MapY(t, y))],
              f.flags, screens[i].screen.sourcePhyId)
  }

  predicate Within(pairs: seq<Pair>, n: nat) {
    forall p :: p in pairs ==> p.0 <= p.1 < n
  }

  function Passes(f: Frame, pairs: seq<Pair>, screens: seq<SinkScreenInfo>): (r: Frame)
    requires Within(pairs, |f.events|) && Within(pairs, |f.flags|)
    ensures |r.events| == |f.events| && |r.flags| == |f.flags|
  {
    if pairs == [] then f else Pass(Passes(f, pairs[..|pairs| - 1], screens), pairs[|pairs| - 1], screens)
  }

  predicate Inside(pairs: seq<Pair>, i: int) {
    exists p :: p in pairs && p.0 <= i <= p.1
  }

  /** Only values of coordinate-coded events inside collected pairs change, and only those pairs are flagged. */
  lemma {:induction false} OnlyPairsTouched(f: Frame, pairs: seq<Pair>, screens: seq<SinkScreenInfo>, i: nat)
    requires Within(pairs, |f.events|) && Within(pairs, |f.flags|)
    ensures var r := Passes(f, pairs, screens);
            && (i < |f.events| ==>
                  && r.events[i].(value := 0) == f.events[i].(value := 0)
                  && (r.events[i] != f.events[i] ==> Inside(pairs, i) && (CodedX(f.events[i]) || CodedY(f.events[i]))))
            && (i < |f.flags| ==> (f.flags[i] ==> r.flags[i]) && (r.flags[i] != f.flags[i] ==> Inside(pairs, i)))
  {
    if pairs != [] {
      var front, p := pairs[..|pairs| - 1], pairs[|pairs| - 1];
      OnlyPairsTouched(f, front, screens, i);
      assert Inside(front, i) ==> Inside(pairs, i) by {
        assert forall q :: q in front ==> q in pairs;
      }
      assert p in pairs;
    }
  }

  /**
   In a frame closed by a SYN_REPORT, whose code is that of ABS_X, no X event is ever rewritten: the SYN is taken for
   it, and its value, not that of an X event, decides whether a screen accepts the frame.
   */
  lemma SynTakesX(f: Frame, p: Pair, screens: seq<SinkScreenInfo>)
    requires p.0 <= p.1 < |f.events| && p.1 < |f.flags|
    requires f.events[p.1].kind == EV_SYN && f.events[p.1].code == SYN_REPORT
    ensures forall i :: 0 <= i < |f.events| && IsAbsX(f.events[i]) ==> Pass(f, p, screens).events[i] == f.events[i]
    ensures Pass(f, p, screens).events != f.events ==>
              var y := LastCodedY(f.events, p.0, p.1 + 1);
              y >= 0 && ScreenAt(screens, Unsigned(f.events[p.1].value), Unsigned(f.events[y].value)) < |screens|
  {
    assert LastCodedX(f.events, p.0, p.1 + 1) == p.1;
  }

  // ----- which frames are taken, and which are flagged

  /** The last event of the pair that is coded X, and the last one that is coded Y. */
  predicate LastXAt(s: seq<InputEvent>, p: Pair, i: nat)
    requires p.1 < |s|
  {
    p.0 <= i <= p.1 && CodedX(s[i]) && forall j :: i < j <= p.1 ==> !CodedX(s[j])
  }

  predicate LastYAt(s: seq<InputEvent>, p: Pair, i: nat)
    requires p.1 < |s|
  {
    p.0 <= i <= p.1 && CodedY(s[i]) && forall j :: i < j <= p.1 ==> !CodedY(s[j])
  }

  predicate AcceptedAt(s: seq<InputEvent>, xi: nat, yi: nat, info: SinkScreenInfo)
    requires xi < |s| && yi < |s|
  {
    Accepts(info.transform, Unsigned(s[xi].value), Unsigned(s[yi].value))
  }

  /** The pair has both coordinates, and some screen accepts the last ones. */
  ghost predicate Taken(s: seq<InputEvent>, p: Pair, screens: seq<SinkScreenInfo>)
    requires p.1 < |s|
  {
    exists xi: nat, yi: nat, info ::
      LastXAt(s, p, xi) && LastYAt(s, p, yi) && info in screens && AcceptedAt(s, xi, yi, info)
  }

  lemma LastCodedIs(s: seq<InputEvent>, p: Pair)
    requires p.0 <= p.1 < |s|
    ensures forall i: nat :: LastXAt(s, p, i) <==> LastCodedX(s, p.0, p.1 + 1) == i
    ensures forall i: nat :: LastYAt(s, p, i) <==> LastCodedY(s, p.0, p.1 + 1) == i
  {
    var x, y := LastCodedX(s, p.0, p.1 + 1), LastCodedY(s, p.0, p.1 + 1);
    forall i: nat | LastXAt(s, p, i) ensures x == i {
    }
    forall i: nat | LastYAt(s, p, i) ensures y == i {
    }
  }

  /** The scan of a pair comes to the same. */
  lemma TakenIs(s: seq<InputEvent>, p: Pair, screens: seq<SinkScreenInfo>)
    requires p.0 <= p.1 < |s|
    ensures var x, y := LastCodedX(s, p.0, p.1 + 1), LastCodedY(s, p.0, p.1 + 1);
            Taken(s, p, screens)
            <==> x >= 0 && y >= 0 && ScreenAt(screens, Unsigned(s[x].value), Unsigned(s[y].value)) < |screens|
  {
    var x, y := LastCodedX(s, p.0, p.1 + 1), LastCodedY(s, p.0, p.1 + 1);
    LastCodedIs(s, p);
    if x >= 0 && y >= 0 {
      var k := ScreenAt(screens, Unsigned(s[x].value), Unsigned(s[y].value));
      if k < |screens| {
        assert LastXAt(s, p, x) && LastYAt(s, p, y) && screens[k] in screens && AcceptedAt(s, x, y, screens[k]);
      }
    }
  }

  lemma PassFlags(f: Frame, p: Pair, screens: seq<SinkScreenInfo>, i: nat)
    requires p.0 <= p.1 < |f.events| && p.1 < |f.flags| && i < |f.flags|
    ensures Pass(f, p, screens).flags[i] <==> f.flags[i] || (p.0 <= i <= p.1 && !Taken(f.events, p, screens))
  {
    TakenIs(f.events, p, screens);
  }

  /** Some pair around `i` is not taken as the passes over the pairs before it leave the buffer. */
  ghost predicate Dropped(f: Frame, pairs: seq<Pair>, screens: seq<SinkScreenInfo>, i: nat)
    requires Within(pairs, |f.events|) && Within(pairs, |f.flags|)
  {
    pairs != [] &&
      var front, p := pairs[..|pairs| - 1], pairs[|pairs| - 1];
      || Dropped(f, front, screens, i)
      || (p in pairs && p.0 <= i <= p.1 && !Taken(Passes(f, front, screens).events, p, screens))
  }

  /** An event ends up flagged exactly if it was, or if a pair around it is not taken when its turn comes. */
  lemma {:induction false} FlaggedIff(f: Frame, pairs: seq<Pair>, screens: seq<SinkScreenInfo>, i: nat)
    requires Within(pairs, |f.events|) && Within(pairs, |f.flags|) && i < |f.flags|
    ensures Passes(f, pairs, screens).flags[i] <==> f.flags[i] || Dropped(f, pairs, screens, i)
  {
    if pairs != [] {
      var n := |pairs| - 1;
      assert pairs[n] in pairs;
      FlaggedIff(f, pairs[..n], screens, i);
      PassFlags(Passes(f, pairs[..n], screens), pairs[n], screens, i);
    }
  }

  /** A pair that is taken: its last coordinates land on the first screen that accepts them, the rest stays. */
  lemma {:induction false} TakenLands(f: Frame, p: Pair, screens: seq<SinkScreenInfo>, xi: nat, yi: nat, k: nat)
    requires p.0 <= p.1 < |f.events| && p.1 < |f.flags| && k < |screens|
    requires LastXAt(f.events, p, xi) && LastYAt(f.events, p, yi) && AcceptedAt(f.events, xi, yi, screens[k])
    requires forall m :: 0 <= m < k ==> !AcceptedAt(f.events, xi, yi, screens[m])
    requires Computable(screens[k].screen) && screens[k].transform == TransformOf(screens[k].screen)
    ensures var r, s, t := Pass(f, p, screens), screens[k].screen, screens[k].transform;
            && r.flags == f.flags && r.touchId == s.sourcePhyId
            && (forall i :: 0 <= i < |f.events| && i != xi && i != yi ==> r.events[i] == f.events[i])
            && r.events[xi].(value := 0) == f.events[xi].(value := 0)
            && r.events[yi].(value := 0) == f.events[yi].(value := 0)
            && Lands(r.events[xi].value, Unsigned(f.events[xi].value) - t.winPhyX, t.projPhyWidth, s.sourcePhyWidth)
            && Lands(r.events[yi].value, Unsigned(f.events[yi].value) - t.winPhyY, t.projPhyHeight, s.sourcePhyHeight)
  {
    LastCodedIs(f.events, p);
    var x, y := Unsigned(f.events[xi].value), Unsigned(f.events[yi].value);
    assert ScreenAt(screens, x, y) == k;
    PointLands(screens[k].screen, x, y);
  }

  // ----- the buffer, in place

  method CollectPairs(buffer: array<InputEvent>, count: nat) returns (pairs: seq<Pair>)
    requires count <= buffer.Length
    ensures pairs == Pairs(buffer[..], count)
  {
    pairs := [];
    var firstIndex, lastIndex := -1, -1;
    ghost var s := buffer[..];
    for i := 0 to count
      invariant firstIndex == LastX(s, i) && lastIndex == LastSyn(s, i) && pairs == Pairs(s, i)
    {
      var iev := buffer[i];
      assert iev == s[i];
      if iev.kind == EV_ABS && (iev.code == ABS_X || iev.code == ABS_MT_POSITION_X) {
        firstIndex := i;
      } else if iev.kind == EV_SYN {
        lastIndex := i;
      }
      if firstIndex >= 0 && lastIndex > firstIndex {
        pairs := pairs + [(firstIndex as nat, lastIndex as nat)];
      }
    }
  }

  method ScanPair(buffer: array<InputEvent>, p: Pair) returns (xi: int, yi: int)
    requires p.0 <= p.1 < buffer.Length
    ensures xi == LastCodedX(buffer[..], p.0, p.1 + 1) && yi == LastCodedY(buffer[..], p.0, p.1 + 1)
  {
    xi, yi := -1, -1;
    for j := p.0 to p.1 + 1
      invariant xi == LastCodedX(buffer[..], p.0, j) && yi == LastCodedY(buffer[..], p.0, j)
    {
      assert buffer[..][j] == buffer[j];
      if CodedX(buffer[j]) {
        xi := j;
      }
      if CodedY(buffer[j]) {
        yi := j;
      }
    }
  }

  method FlagPair(flags: array<bool>, p: Pair)
    requires p.0 <= p.1 < flags.Length
    modifies flags
    ensures flags[..] == Flagged(old(flags[..]), p)
  {
    for j := p.0 to p.1 + 1
      invariant forall i :: 0 <= i < flags.Length ==> flags[i] == (old(flags[i]) || p.0 <= i < j)
    {
      flags[j] := true;
    }
  }

  /**
   CheckTouchPointRegion. The source walks its screens in the order of a hash map; here the order is that of the list.
   */
  method CheckTouchPointRegion(buffer: array<InputEvent>, screens: seq<SinkScreenInfo>, xi: nat, yi: nat,
                               touchId: string)
    returns (found: bool, touchId': string)
    requires xi < buffer.Length && yi < buffer.Length && xi != yi
    modifies buffer
    ensures var x, y := Unsigned(old(buffer[xi]).value), Unsigned(old(buffer[yi]).value);
            var i := ScreenAt(screens, x, y);
            && found == (i < |screens|)
            && touchId' == (if found then screens[i].screen.sourcePhyId else touchId)
            && buffer[..] ==
               if !found then old(buffer[..])
               else
                 old(buffer[..])[xi := old(buffer[xi]).(value := MapX(screens[i].transform, x))]
                                [yi := old(buffer[yi]).(value := MapY(screens[i].transform, y))]
  {
    var x, y := Unsigned(buffer[xi].value), Unsigned(buffer[yi].value);
    for i := 0 to |screens|
      invariant buffer[..] == old(buffer[..])
      invariant forall j :: 0 <= j < i ==> !Accepts(screens[j].transform, x, y)
    {
      var t := screens[i].transform;
      if Accepts(t, x, y) {
        assert ScreenAt(screens, x, y) == i;
        buffer[xi] := buffer[xi].(value := MapX(t, x));
        buffer[yi] := buffer[yi].(value := MapY(t, y));
        return true, screens[i].screen.sourcePhyId;
      }
    }
    return false, touchId;
  }

  method PassInPlace(buffer: array<InputEvent>, flags: array<bool>, p: Pair, screens: seq<SinkScreenInfo>,
                     touchId: string)
    returns (touchId': string)
    requires p.0 <= p.1 < buffer.Length && p.1 < flags.Length
    modifies buffer, flags
    ensures Frame(buffer[..], flags[..], touchId') == Pass(Frame(old(buffer[..]), old(flags[..]), touchId), p, screens)
  {
    touchId' := touchId;
    var xi, yi := ScanPair(buffer, p);
    if xi < 0 || yi < 0 {
      FlagPair(flags, p);
      return;
    }
    var found;
    found, touchId' := CheckTouchPointRegion(buffer, screens, xi, yi, touchId);
    if !found {
      FlagPair(flags, p);
    }
  }

  method HandleTouchScreenEvent(buffer: array<InputEvent>, count: nat, flags: array<bool>, screens: seq<SinkScreenInfo>,
                                touchId: string) returns (touchId': string)
    requires count <= buffer.Length && count <= flags.Length
    modifies buffer, flags
    ensures Within(Pairs(old(buffer[..]), count), count)
    ensures Frame(buffer[..], flags[..], touchId')
            == Passes(Frame(old(buffer[..]), old(flags[..]), touchId), Pairs(old(buffer[..]), count), screens)
  {
    var pairs := CollectPairs(buffer, count);
    forall p | p in pairs ensures p.0 <= p.1 < count {
      PairsExact(buffer[..], count, p);
    }
    touchId' := touchId;
    ghost var start := Frame(buffer[..], flags[..], touchId);
    for k := 0 to |pairs|
      invariant Frame(buffer[..], flags[..], touchId') == Passes(start, pairs[..k], screens)
    {
      PrefixStep(pairs, k);
      var p := pairs[k];
      assert p in pairs;
      touchId' := PassInPlace(buffer, flags, p, screens, touchId');
    }
    assert pairs[..|pairs|] == pairs;
  }
}
