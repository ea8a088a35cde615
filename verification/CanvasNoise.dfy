/** The companion's canvas noise: eight pixels are perturbed before an image is handed out
    and put back afterwards; which pixels is derived from a label and the size, and cached. */
module CanvasNoise {
  import opened Basics

  // ----- Offsets -----

  function HashFrom(h: bv32, s: string): bv32
    decreases |s|
  {
    if s == [] then h else HashFrom((h ^ ((s[0] as int % 0x1_0000_0000) as bv32)) * 16777619, s[1..])
  }

  function Scramble(h: bv32): bv32 {
    var a := (h ^ (h >> 16)) * 2246822519;
    var b := (a ^ (a >> 13)) * 3266489917;
    b ^ (b >> 16)
  }

  function NoiseFor(seed: bv32, tag: string, modulo: nat): (r: nat)
    ensures modulo == 0 ==> r == 0
    ensures 0 < modulo ==> r < modulo
  {
    if modulo == 0 then 0 else (Scramble(seed ^ HashFrom(2166136261, tag)) as int) % modulo
  }

  function Digit(n: nat): char
    requires n < 10
  {
    (('0' as int) + n) as char
  }

  function Decimal(n: nat): string {
    if n < 10 then [Digit(n)] else Decimal(n / 10) + [Digit(n % 10)]
  }

  datatype Point = Point(x: nat, y: nat, red: nat, green: nat, blue: nat)

  const POINTS := 8

  function PointFor(seed: bv32, tag: string, w: nat, h: nat, i: nat): Point {
    var base := tag + ":" + Decimal(i);
    Point(NoiseFor(seed, base + ":x:" + Decimal(w), w),
          NoiseFor(seed, base + ":y:" + Decimal(h), h),
          1 + NoiseFor(seed, base + ":r", 7),
          1 + NoiseFor(seed, base + ":g", 7),
          1 + NoiseFor(seed, base + ":b", 7))
  }

  function PlanFor(seed: bv32, tag: string, w: nat, h: nat): (plan: seq<Point>)
    ensures |plan| == POINTS
    ensures forall i | 0 <= i < POINTS :: plan[i] == PointFor(seed, tag, w, h, i)
  {
    seq(POINTS, i requires 0 <= i < POINTS => PointFor(seed, tag, w, h, i))
  }

  // ----- The plan cache -----

  function Key(tag: string, w: nat, h: nat): string {
    tag + ":" + Decimal(w) + "x" + Decimal(h)
  }

  lemma {:induction false} DecimalIsDigits(n: nat)
    ensures Decimal(n) != [] && forall c | c in Decimal(n) :: '0' <= c <= '9'
    decreases n
  {
    if 10 <= n {
      DecimalIsDigits(n / 10);
    }
  }

  lemma {:induction false} DecimalIsInjective(a: nat, b: nat)
    requires Decimal(a) == Decimal(b)
    ensures a == b
    decreases a
  {
    var s, t := Decimal(a), Decimal(b);
    assert s[|s| - 1] == Digit(a % 10) && t[|t| - 1] == Digit(b % 10);
    DecimalIsDigits(a / 10);
    DecimalIsDigits(b / 10);
    if 10 <= a && 10 <= b {
      assert s[..|s| - 1] == Decimal(a / 10) && t[..|t| - 1] == Decimal(b / 10);
      DecimalIsInjective(a / 10, b / 10);
    }
  }

  lemma LastOccurrence(s: string, a: string, b: string, c: char, i: nat)
    requires s == a + [c] + b && c !in b && i < |s| && s[i] == c
    ensures i <= |a|
  {
  }

  /** A text splits in one way at the last occurrence of a character. */
  lemma SplitIsUnique(a: string, b: string, a': string, b': string, c: char)
    requires c !in b && c !in b' && a + [c] + b == a' + [c] + b'
    ensures a == a' && b == b'
  {
    var s, s' := a + [c] + b, a' + [c] + b';
    assert s[|a|] == c && s'[|a'|] == c;
    LastOccurrence(s, a, b, c, |a'|);
    LastOccurrence(s', a', b', c, |a|);
    assert s[..|a|] == a && s[|a| + 1..] == b;
    assert s'[..|a'|] == a' && s'[|a'| + 1..] == b';
  }

  /** No two requests share a cache key. */
  lemma KeyIsInjective(tag: string, w: nat, h: nat, tag': string, w': nat, h': nat)
    requires Key(tag, w, h) == Key(tag', w', h')
    ensures tag == tag' && w == w' && h == h'
  {
    DecimalIsDigits(w);
    DecimalIsDigits(h);
    DecimalIsDigits(w');
    DecimalIsDigits(h');
    var size, size' := Decimal(w) + ['x'] + Decimal(h), Decimal(w') + ['x'] + Decimal(h');
    assert Key(tag, w, h) == tag + [':'] + size && Key(tag', w', h') == tag' + [':'] + size';
    SplitIsUnique(tag, size, tag', size', ':');
    SplitIsUnique(Decimal(w), Decimal(h), Decimal(w'), Decimal(h'), 'x');
    DecimalIsInjective(w, w');
    DecimalIsInjective(h, h');
  }

  class PointPlans {
    const seed: bv32
    var plans: map<string, seq<Point>>

    ghost predicate Valid()
      reads this
    {
      && |plans| <= 65
      && forall tag, w, h :: Key(tag, w, h) in plans ==> plans[Key(tag, w, h)] == PlanFor(seed, tag, w, h)
    }

    constructor (seed: bv32)
      ensures Valid() && this.seed == seed
    {
      this.seed, plans := seed, map[];
    }

    /** The plan for a label and size: always what deriving it afresh would give. */
    method PointPlan(tag: string, w: nat, h: nat) returns (points: seq<Point>)
      requires Valid()
      modifies this
      ensures Valid() && points == PlanFor(seed, tag, w, h)
    {
      var key := Key(tag, w, h);
      if key in plans {
        return plans[key];
      }
      points := DerivePlan(seed, tag, w, h);
      if |plans| > 64 {
        plans := map[];
      }
      KeyNamesOneShape(tag, w, h);
      plans := plans[key := points];
    }
  }

  lemma KeyNamesOneShape(tag: string, w: nat, h: nat)
    ensures forall tag', w', h' :: Key(tag', w', h') == Key(tag, w, h) ==> tag' == tag && w' == w && h' == h
  {
    forall tag', w', h' | Key(tag', w', h') == Key(tag, w, h)
      ensures tag' == tag && w' == w && h' == h
    {
      KeyIsInjective(tag', w', h', tag, w, h);
    }
  }

  method CollectPoints(point: nat -> Point) returns (points: seq<Point>)
    ensures points == seq(POINTS, (i: nat) requires i < POINTS => point(i))
  {
    points := [];
    for i := 0 to POINTS
      invariant |points| == i
      invariant forall j | 0 <= j < i :: points[j] == point(j)
    {
      points := points + [point(i)];
    }
  }

  method DerivePlan(seed: bv32, tag: string, w: nat, h: nat) returns (points: seq<Point>)
    ensures points == PlanFor(seed, tag, w, h)
  {
    points := CollectPoints((i: nat) => PointFor(seed, tag, w, h, i));
  }

  // ----- Noise and its removal -----

  type Level = n: nat | n < 256

  datatype Pixel = Pixel(red: Level, green: Level, blue: Level, alpha: Level)

  /** A point at its place in row order. */
  datatype Spot = Spot(at: nat, red: nat, green: nat, blue: nat)

  function SpotOf(point: Point, w: nat): Spot {
    Spot(point.y * w + point.x, point.red, point.green, point.blue)
  }

  function Spots(points: seq<Point>, w: nat): (spots: seq<Spot>)
    ensures |spots| == |points|
    ensures forall i | 0 <= i < |points| :: spots[i] == SpotOf(points[i], w)
  {
    seq(|points|, i requires 0 <= i < |points| => SpotOf(points[i], w))
  }

  predicate Inside(spots: seq<Spot>, size: nat) {
    forall i | 0 <= i < |spots| :: spots[i].at < size
  }

  lemma RowOrder(x: nat, y: nat, w: nat, h: nat)
    requires x < w && y < h
    ensures y * w + x < h * w
  {
    assert h * w == (h - y - 1) * w + (y + 1) * w;
    assert (y + 1) * w == y * w + w;
    assert 0 <= (h - y - 1) * w;
  }

  lemma PlanIsInside(seed: bv32, tag: string, w: nat, h: nat)
    requires 0 < w && 0 < h
    ensures Inside(Spots(PlanFor(seed, tag, w, h), w), h * w)
  {
    var points := PlanFor(seed, tag, w, h);
    forall i | 0 <= i < |points|
      ensures Spots(points, w)[i].at < h * w
    {
      RowOrder(points[i].x, points[i].y, w, h);
    }
  }

  function Perturb(p: Pixel, spot: Spot): Pixel {
    Pixel((p.red + spot.red) % 256, (p.green + spot.green) % 256, (p.blue + spot.blue) % 256, 255)
  }

  /** The pixels after the first `k` spots have been perturbed, one after the other. */
  function Noised(pixels: seq<Pixel>, spots: seq<Spot>, k: nat): (r: seq<Pixel>)
    requires k <= |spots| && Inside(spots, |pixels|)
    ensures |r| == |pixels|
  {
    if k == 0 then pixels
    else
      var before, at := Noised(pixels, spots, k - 1), spots[k - 1].at;
      before[at := Perturb(before[at], spots[k - 1])]
  }

  /** What was read at each of the first `k` spots just before it was perturbed. */
  function Saved(pixels: seq<Pixel>, spots: seq<Spot>, k: nat): (r: seq<(nat, Pixel)>)
    requires k <= |spots| && Inside(spots, |pixels|)
    ensures |r| == k
  {
    if k == 0 then []
    else
      var at := spots[k - 1].at;
      Saved(pixels, spots, k - 1) + [(at, Noised(pixels, spots, k - 1)[at])]
  }

  lemma {:induction false} SavedAt(pixels: seq<Pixel>, spots: seq<Spot>, k: nat, i: nat)
    requires i < k <= |spots| && Inside(spots, |pixels|)
    ensures Saved(pixels, spots, k)[i] == (spots[i].at, Noised(pixels, spots, i)[spots[i].at])
    decreases k
  {
    if i < k - 1 {
      SavedAt(pixels, spots, k - 1, i);
    }
  }

  /** The pixels after putting back the saved ones from the last down to number `i`, where
      putting back those in `stuck` throws and is passed over. */
  function Undone(pixels: seq<Pixel>, saved: seq<(nat, Pixel)>, stuck: set<nat>, i: nat): (r: seq<Pixel>)
    requires i <= |saved| && forall j | 0 <= j < |saved| :: saved[j].0 < |pixels|
    ensures |r| == |pixels|
    decreases |saved| - i
  {
    if i == |saved| then pixels
    else
      var later := Undone(pixels, saved, stuck, i + 1);
      if i in stuck then later else later[saved[i].0 := saved[i].1]
  }

  /** The first saved pixel, from number `i` on, that is put back at a place. */
  function FirstBack(saved: seq<(nat, Pixel)>, stuck: set<nat>, at: nat, i: nat): (k: nat)
    requires i <= |saved|
    ensures i <= k <= |saved|
    ensures k < |saved| ==> saved[k].0 == at && k !in stuck
    ensures forall j | i <= j < k :: saved[j].0 == at ==> j in stuck
    decreases |saved| - i
  {
    if i == |saved| || (saved[i].0 == at && i !in stuck) then i else FirstBack(saved, stuck, at, i + 1)
  }

  lemma {:induction false} UndoneAt(pixels: seq<Pixel>, saved: seq<(nat, Pixel)>, stuck: set<nat>, i: nat, at: nat)
    requires i <= |saved| && (forall j | 0 <= j < |saved| :: saved[j].0 < |pixels|) && at < |pixels|
    ensures var k := FirstBack(saved, stuck, at, i);
            Undone(pixels, saved, stuck, i)[at] == if k == |saved| then pixels[at] else saved[k].1
    decreases |saved| - i
  {
    if i < |saved| {
      UndoneAt(pixels, saved, stuck, i + 1, at);
    }
  }

  /** At most eight spots, each of which adds one to seven levels of every colour. */
  predicate Faint(spots: seq<Spot>) {
    && |spots| <= 8
    && forall i | 0 <= i < |spots| :: 1 <= spots[i].red <= 7 && 1 <= spots[i].green <= 7 && 1 <= spots[i].blue <= 7
  }

  predicate Touched(spots: seq<Spot>, k: nat, at: nat)
    requires k <= |spots|
  {
    exists i | 0 <= i < k :: spots[i].at == at
  }

  datatype Colour = Red | Green | Blue

  function LevelOf(p: Pixel, c: Colour): Level {
    match c case Red => p.red case Green => p.green case Blue => p.blue
  }

  function ShareOf(spot: Spot, c: Colour): nat {
    match c case Red => spot.red case Green => spot.green case Blue => spot.blue
  }

  /** How much of a colour the first `k` spots add at a place. */
  function AddedAt(spots: seq<Spot>, k: nat, at: nat, c: Colour): nat
    requires k <= |spots|
  {
    if k == 0 then 0 else AddedAt(spots, k - 1, at, c) + (if spots[k - 1].at == at then ShareOf(spots[k - 1], c) else 0)
  }

  lemma RemaindersAdd(a: nat, b: nat)
    ensures (a % 256 + b) % 256 == (a + b) % 256
  {
  }

  lemma {:induction false} NoiseAdds(pixels: seq<Pixel>, spots: seq<Spot>, k: nat, at: nat, c: Colour)
    requires k <= |spots| && Inside(spots, |pixels|) && at < |pixels|
    ensures LevelOf(Noised(pixels, spots, k)[at], c) == (LevelOf(pixels[at], c) + AddedAt(spots, k, at, c)) % 256
    decreases k
  {
    if k != 0 {
      NoiseAdds(pixels, spots, k - 1, at, c);
      RemaindersAdd(LevelOf(pixels[at], c) + AddedAt(spots, k - 1, at, c), ShareOf(spots[k - 1], c));
    }
  }

  lemma {:induction false} NoiseIsOpaque(pixels: seq<Pixel>, spots: seq<Spot>, k: nat, at: nat)
    requires k <= |spots| && Inside(spots, |pixels|) && at < |pixels| && Touched(spots, k, at)
    ensures Noised(pixels, spots, k)[at].alpha == 255
    decreases k
  {
    if spots[k - 1].at != at {
      NoiseIsOpaque(pixels, spots, k - 1, at);
    }
  }

  /** A place with the noise on it: if a spot is there, every colour has all that the spots of the
      place add to it, modulo 256, and full opacity; otherwise it is as it was. */
  predicate ShowsNoiseAt(before: Pixel, shown: Pixel, spots: seq<Spot>, at: nat) {
    if exists i | 0 <= i < |spots| :: spots[i].at == at then
      && shown.red == (before.red + AddedAt(spots, |spots|, at, Red)) % 256
      && shown.green == (before.green + AddedAt(spots, |spots|, at, Green)) % 256
      && shown.blue == (before.blue + AddedAt(spots, |spots|, at, Blue)) % 256
      && shown.alpha == 255
    else shown == before
  }

  predicate ShowsNoise(before: seq<Pixel>, shown: seq<Pixel>, spots: seq<Spot>) {
    |shown| == |before| && forall at | 0 <= at < |before| :: ShowsNoiseAt(before[at], shown[at], spots, at)
  }

  lemma PlaceShowsNoise(before: seq<Pixel>, spots: seq<Spot>, n: nat, at: nat)
    requires Inside(spots, |before|) && at < |before| && n == |spots|
    ensures ShowsNoiseAt(before[at], Noised(before, spots, n)[at], spots, at)
  {
    NoiseAdds(before, spots, n, at, Red);
    NoiseAdds(before, spots, n, at, Green);
    NoiseAdds(before, spots, n, at, Blue);
    if Touched(spots, n, at) {
      NoiseIsOpaque(before, spots, n, at);
    } else {
      UntouchedStays(before, spots, n, at);
    }
  }

  lemma NoisedShowsNoise(before: seq<Pixel>, spots: seq<Spot>)
    requires Inside(spots, |before|)
    ensures ShowsNoise(before, Noised(before, spots, |spots|), spots)
  {
    var n := |spots|;
    forall at | 0 <= at < |before|
      ensures ShowsNoiseAt(before[at], Noised(before, spots, n)[at], spots, at)
    {
      PlaceShowsNoise(before, spots, n, at);
    }
  }

  lemma {:induction false} RedIsBounded(spots: seq<Spot>, k: nat, at: nat)
    requires k <= |spots| && forall i | 0 <= i < |spots| :: 1 <= spots[i].red <= 7
    ensures AddedAt(spots, k, at, Red) <= 7 * k && (Touched(spots, k, at) ==> 1 <= AddedAt(spots, k, at, Red))
    decreases k
  {
    if k != 0 {
      RedIsBounded(spots, k - 1, at);
    }
  }

  lemma {:induction false} UntouchedStays(pixels: seq<Pixel>, spots: seq<Spot>, k: nat, at: nat)
    requires k <= |spots| && Inside(spots, |pixels|) && at < |pixels| && !Touched(spots, k, at)
    ensures Noised(pixels, spots, k)[at] == pixels[at]
    decreases k
  {
    if k != 0 {
      assert spots[k - 1].at != at;
      UntouchedStays(pixels, spots, k - 1, at);
    }
  }

  /** Faint noise shows at every place it touches: the additions never come round to 256. */
  lemma TouchedIsChanged(pixels: seq<Pixel>, spots: seq<Spot>, k: nat, at: nat)
    requires k <= |spots| && Inside(spots, |pixels|) && Faint(spots) && at < |pixels|
    ensures Noised(pixels, spots, k)[at] == pixels[at] <==> !Touched(spots, k, at)
  {
    NoiseAdds(pixels, spots, k, at, Red);
    RedIsBounded(spots, k, at);
    if !Touched(spots, k, at) {
      UntouchedStays(pixels, spots, k, at);
    }
  }

  /** The first time the noise touches a place. */
  predicate FirstTouch(spots: seq<Spot>, i: nat)
    requires i < |spots|
  {
    !Touched(spots, i, spots[i].at)
  }

  /** At every touched place, what was saved there first can be put back. */
  predicate Heals(spots: seq<Spot>, written: nat, stuck: set<nat>)
    requires written <= |spots|
  {
    forall i | 0 <= i < written && FirstTouch(spots, i) :: i !in stuck
  }

  /** What stands at a place after restoring is what stood there before some spot. */
  lemma PlaceAfterRestoring(before: seq<Pixel>, spots: seq<Spot>, written: nat, saved: nat, stuck: set<nat>, at: nat)
    returns (limit: nat)
    requires written <= saved <= written + 1 && saved <= |spots| && Inside(spots, |before|) && at < |before|
    ensures forall j | 0 <= j < saved :: Saved(before, spots, saved)[j].0 == spots[j].at < |before|
    ensures var k := FirstBack(Saved(before, spots, saved), stuck, at, 0);
            limit == (if k == saved then written else k) <= written
    ensures Undone(Noised(before, spots, written), Saved(before, spots, saved), stuck, 0)[at]
         == Noised(before, spots, limit)[at]
  {
    var originals := Saved(before, spots, saved);
    forall j | 0 <= j < saved
      ensures originals[j] == (spots[j].at, Noised(before, spots, j)[spots[j].at])
    {
      SavedAt(before, spots, saved, j);
    }
    UndoneAt(Noised(before, spots, written), originals, stuck, 0, at);
    var k := FirstBack(originals, stuck, at, 0);
    limit := if k == saved then written else k;
  }

  /** A place is touched before that spot exactly when its first saved pixel is stuck. */
  lemma FirstBackMeaning(spots: seq<Spot>, originals: seq<(nat, Pixel)>, written: nat, stuck: set<nat>, at: nat)
    requires written <= |originals| <= written + 1 && |originals| <= |spots|
    requires forall j | 0 <= j < |originals| :: originals[j].0 == spots[j].at
    ensures var k := FirstBack(originals, stuck, at, 0);
            var limit := if k == |originals| then written else k;
            limit <= written &&
            (!Touched(spots, limit, at) <==>
               forall i | 0 <= i < written && spots[i].at == at && FirstTouch(spots, i) :: i !in stuck)
  {
    var k := FirstBack(originals, stuck, at, 0);
    var limit := if k == |originals| then written else k;
    if Touched(spots, limit, at) {
      var i := EarliestTouch(spots, limit, at);
      assert originals[i].0 == at && i in stuck;
    } else if k < |originals| {
      assert spots[k].at == at;
    }
  }

  /** One place of the canvas after restoring, with `saved` pixels saved and all of them, or
      all but the last, overwritten. */
  lemma PlaceHealsExactlyWhen(before: seq<Pixel>, spots: seq<Spot>, written: nat, saved: nat, stuck: set<nat>, at: nat)
    requires written <= saved <= written + 1 && saved <= |spots| && Inside(spots, |before|) && Faint(spots) && at < |before|
    ensures forall j | 0 <= j < saved :: Saved(before, spots, saved)[j].0 < |before|
    ensures Undone(Noised(before, spots, written), Saved(before, spots, saved), stuck, 0)[at] == before[at] <==>
              forall i | 0 <= i < written && spots[i].at == at && FirstTouch(spots, i) :: i !in stuck
  {
    var limit := PlaceAfterRestoring(before, spots, written, saved, stuck, at);
    FirstBackMeaning(spots, Saved(before, spots, saved), written, stuck, at);
    TouchedIsChanged(before, spots, limit, at);
  }

  lemma {:induction false} EarliestTouch(spots: seq<Spot>, k: nat, at: nat) returns (i: nat)
    requires k <= |spots| && Touched(spots, k, at)
    ensures i < k && spots[i].at == at && FirstTouch(spots, i)
    decreases k
  {
    i :| 0 <= i < k && spots[i].at == at;
    if Touched(spots, i, at) {
      i := EarliestTouch(spots, i, at);
    }
  }

  /** Restoring gives back the whole picture exactly when, at every touched place, putting
      back the pixel saved there first succeeded. */
  lemma RestoringHealsExactlyWhen(before: seq<Pixel>, spots: seq<Spot>, written: nat, saved: nat, stuck: set<nat>)
    requires written <= saved <= written + 1 && saved <= |spots| && Inside(spots, |before|) && Faint(spots)
    ensures var originals := Saved(before, spots, saved);
            && (forall j | 0 <= j < |originals| :: originals[j].0 < |before|)
            && (Undone(Noised(before, spots, written), originals, stuck, 0) == before <==> Heals(spots, written, stuck))
  {
    SavedInside(before, spots, saved);
    var r := Undone(Noised(before, spots, written), Saved(before, spots, saved), stuck, 0);
    forall at | 0 <= at < |before|
      ensures r[at] == before[at] <==>
                forall i | 0 <= i < written && spots[i].at == at && FirstTouch(spots, i) :: i !in stuck
    {
      PlaceHealsExactlyWhen(before, spots, written, saved, stuck, at);
    }
    if !Heals(spots, written, stuck) {
      var i :| 0 <= i < written && FirstTouch(spots, i) && i in stuck;
      assert r[spots[i].at] != before[spots[i].at];
    }
  }

  lemma SavedInside(before: seq<Pixel>, spots: seq<Spot>, saved: nat)
    requires saved <= |spots| && Inside(spots, |before|)
    ensures forall j | 0 <= j < saved :: Saved(before, spots, saved)[j].0 < |before|
  {
    forall j | 0 <= j < saved
      ensures Saved(before, spots, saved)[j].0 < |before|
    {
      SavedAt(before, spots, saved, j);
    }
  }

  /** Where an application goes wrong: before reading, between reading and writing, or nowhere. */
  datatype Mishap = NoMishap | ReadThrows(at: nat) | WriteThrows(at: nat)

  /** How many of the points are overwritten, and how many are saved, before a mishap. */
  function Written(mishap: Mishap, points: nat): nat {
    if mishap.NoMishap? || points <= mishap.at then points else mishap.at
  }

  function SavedBy(mishap: Mishap, points: nat): nat {
    if mishap.WriteThrows? && mishap.at < points then mishap.at + 1 else Written(mishap, points)
  }

  /** What is left of a picture after noise and restoration, with `stuck` the pixels whose
      restoration throws. */
  function Leftover(before: seq<Pixel>, spots: seq<Spot>, mishap: Mishap, stuck: set<nat>): (r: seq<Pixel>)
    requires Inside(spots, |before|)
    ensures |r| == |before|
  {
    SavedInside(before, spots, SavedBy(mishap, |spots|));
    Undone(Noised(before, spots, Written(mishap, |spots|)), Saved(before, spots, SavedBy(mishap, |spots|)), stuck, 0)
  }

  lemma LeftoverIsCleanExactlyWhen(before: seq<Pixel>, spots: seq<Spot>, mishap: Mishap, stuck: set<nat>)
    requires Inside(spots, |before|) && Faint(spots)
    ensures Leftover(before, spots, mishap, stuck) == before <==> Heals(spots, Written(mishap, |spots|), stuck)
  {
    RestoringHealsExactlyWhen(before, spots, Written(mishap, |spots|), SavedBy(mishap, |spots|), stuck);
  }

  class Canvas {
    const width: nat
    const pixels: array<Pixel>

    constructor (width: nat, pixels: array<Pixel>)
      ensures this.width == width && this.pixels == pixels
    {
      this.width, this.pixels := width, pixels;
    }

    /** Put saved pixels back, last one first, passing over those for which that throws. */
    method Restore(originals: seq<(nat, Pixel)>, stuck: set<nat>)
      requires forall j | 0 <= j < |originals| :: originals[j].0 < pixels.Length
      modifies pixels
      ensures pixels[..] == Undone(old(pixels[..]), originals, stuck, 0)
    {
      var i := |originals|;
      while 0 < i
        invariant 0 <= i <= |originals|
        invariant pixels[..] == Undone(old(pixels[..]), originals, stuck, i)
      {
        i := i - 1;
        if i !in stuck {
          ghost var now := pixels[..];
          pixels[originals[i].0] := originals[i].1;
          assert pixels[..] == now[originals[i].0 := originals[i].1];
        }
      }
    }

    /** Perturb every point, or put back what can be put back if some native call throws. */
    method ApplyNoise(points: seq<Point>, mishap: Mishap, stuck: set<nat>) returns (originals: Option<seq<(nat, Pixel)>>)
      requires Inside(Spots(points, width), pixels.Length)
      modifies pixels
      ensures originals.Some? <==> Written(mishap, |points|) == SavedBy(mishap, |points|) == |points|
      ensures originals.Some? ==>
                && originals.value == Saved(old(pixels[..]), Spots(points, width), |points|)
                && pixels[..] == Noised(old(pixels[..]), Spots(points, width), |points|)
      ensures originals.None? ==> pixels[..] == Leftover(old(pixels[..]), Spots(points, width), mishap, stuck)
    {
      ghost var before, spots := pixels[..], Spots(points, width);
      var saved := [];
      for i := 0 to |points|
        invariant pixels[..] == Noised(before, spots, i)
        invariant saved == Saved(before, spots, i)
        invariant i <= Written(mishap, |points|)
      {
        var spot := SpotOf(points[i], width);
        assert spot == spots[i];
        SavedInside(before, spots, i);
        SavedInside(before, spots, i + 1);
        if mishap == ReadThrows(i) {
          Restore(saved, stuck);
          return None;
        }
        var original := pixels[spot.at];
        saved := saved + [(spot.at, original)];
        if mishap == WriteThrows(i) {
          Restore(saved, stuck);
          return None;
        }
        ghost var now := pixels[..];
        pixels[spot.at] := Perturb(original, spot);
        assert pixels[..] == now[spot.at := Perturb(original, spot)];
      }
      return Some(saved);
    }

    /** Hand out the picture and put the canvas back. It is left as it was exactly when, at
        every place the noise touched, the pixel saved there first could be put back; so it
        always is when no restoration throws, however often the points repeat. */
    method PerturbCanvas(points: seq<Point>, mishap: Mishap, stuck: set<nat>) returns (shown: seq<Pixel>)
      requires Inside(Spots(points, width), pixels.Length) && Faint(Spots(points, width))
      modifies pixels
      ensures pixels[..] == Leftover(old(pixels[..]), Spots(points, width), mishap, stuck)
      ensures pixels[..] == old(pixels[..]) <==> Heals(Spots(points, width), Written(mishap, |points|), stuck)
      ensures Written(mishap, |points|) == SavedBy(mishap, |points|) == |points| ==>
                shown == Noised(old(pixels[..]), Spots(points, width), |points|)
      ensures !(Written(mishap, |points|) == SavedBy(mishap, |points|) == |points|) ==> shown == pixels[..]
    {
      ghost var before, spots := pixels[..], Spots(points, width);
      var originals := ApplyNoise(points, mishap, stuck);
      shown := pixels[..];
      if originals.Some? {
        SavedInside(before, spots, |points|);
        Restore(originals.value, stuck);
      }
      LeftoverIsCleanExactlyWhen(before, spots, mishap, stuck);
    }
  }

  lemma PlanIsFaint(seed: bv32, tag: string, w: nat, h: nat)
    ensures Faint(Spots(PlanFor(seed, tag, w, h), w))
  {
  }

  /** Handing out a picture, whatever the cache holds and wherever a native call throws: the
      canvas is left as it was exactly when what was saved first at each touched place can be
      put back, and without a mishap the noise of a fresh derivation is shown. */
  method EncodePicture(canvas: Canvas, height: nat, plans: PointPlans, tag: string, mishap: Mishap, stuck: set<nat>)
    returns (shown: seq<Pixel>)
    requires plans.Valid() && canvas.pixels.Length == height * canvas.width
    modifies plans, canvas.pixels
    ensures plans.Valid()
    ensures canvas.width == 0 || height == 0 ==> shown == canvas.pixels[..] == old(canvas.pixels[..])
    ensures 0 < canvas.width && 0 < height ==>
              var spots := Spots(PlanFor(plans.seed, tag, canvas.width, height), canvas.width);
              && Inside(spots, height * canvas.width)
              && (canvas.pixels[..] == old(canvas.pixels[..]) <==> Heals(spots, Written(mishap, POINTS), stuck))
              && (if Written(mishap, 8) == SavedBy(mishap, 8) == 8 then ShowsNoise(old(canvas.pixels[..]), shown, spots)
                  else shown == canvas.pixels[..])
  {
    if canvas.width == 0 || height == 0 {
      return canvas.pixels[..];
    }
    var points := plans.PointPlan(tag, canvas.width, height);
    PlanIsInside(plans.seed, tag, canvas.width, height);
    PlanIsFaint(plans.seed, tag, canvas.width, height);
    NoisedShowsNoise(canvas.pixels[..], Spots(points, canvas.width));
    shown := canvas.PerturbCanvas(points, mishap, stuck);
  }

  /** One spot whose restoration throws stays on the canvas. */
  lemma StuckPixelStays()
    ensures var spot := Spot(0, 1, 1, 1); var black := Pixel(0, 0, 0, 255);
            Leftover([black], [spot], NoMishap, {0}) == [Pixel(1, 1, 1, 255)] != [black]
  {
    var spot := Spot(0, 1, 1, 1);
    var black := Pixel(0, 0, 0, 255);
    assert Noised([black], [spot], 1) == [Perturb(black, spot)];
    var saved := Saved([black], [spot], 1);
    assert saved == [(0, black)];
    assert Undone([Perturb(black, spot)], saved, {0}, 1) == [Perturb(black, spot)];
  }

  /** Restoring first to last would not do: a repeated spot would keep its first perturbation. */
  lemma OrderOfRestoringMatters()
    ensures var spot := Spot(0, 1, 1, 1); var black := Pixel(0, 0, 0, 255);
            var saved := Saved([black], [spot, spot], 2);
            && saved == [(0, black), (0, Perturb(black, spot))]
            && [black][saved[0].0 := saved[0].1][saved[1].0 := saved[1].1] != [black]
  {
  }
}
