/**
 * The alert flasher: once the countdown reaches zero, a 200 ms timer fires
 * repeatedly; each firing paints the key with a colour derived from the
 * configured alert colour and the current stage, then advances the stage
 * modulo the number of stages. Stage k halves every colour channel k times,
 * except that the last stage is shown as stage 1 so the cycle does not end
 * on its darkest colour.
 */
module AlertFlash {
  import opened Basics
  import opened Colors

  /** Number of stages in one flash cycle. */
  const TOTAL_ALERT_STAGES: int := 4

  /** Number of times the channels are halved at a stage: the last stage counts as stage 1. */
  function Halvings(stage: int, totalStages: int): nat {
    var s := if stage == totalStages - 1 then 1 else stage;
    if s < 0 then 0 else s
  }

  /** Reference definition of a stage colour: integer division of each channel by 2^k. */
  function StageColor(c: Rgba, stage: int, totalStages: int): Rgba {
    var p := Pow2(Halvings(stage, totalStages));
    DivisionShrinks(c.r, p);
    DivisionShrinks(c.g, p);
    DivisionShrinks(c.b, p);
    Rgba(c.a, c.r / p, c.g / p, c.b / p)
  }

  lemma DivisionShrinks(x: nat, p: nat)
    requires p >= 1
    ensures 0 <= x / p <= x
  {
    if x / p > x {
      MulAtLeast(x / p, p);
    }
  }

  /**
   * The flasher's colour computation: the channels are halved `stage` times
   * in real arithmetic (the source halves doubles, which is exact) and then
   * truncated; alpha is copied.
   */
  method GenerateStageColor(initial: Rgba, stage: int, totalStages: int) returns (color: Rgba)
    ensures color == StageColor(initial, stage, totalStages)
  {
    var a := initial.a;
    var r: real := initial.r as real;
    var g: real := initial.g as real;
    var b: real := initial.b as real;
    var s := stage;
    if s == totalStages - 1 {
      s := 1;
    }
    var idx := 0;
    while idx < s
      invariant 0 <= idx <= Halvings(stage, totalStages)
      invariant r == (initial.r as real) / (Pow2(idx) as real)
      invariant g == (initial.g as real) / (Pow2(idx) as real)
      invariant b == (initial.b as real) / (Pow2(idx) as real)
    {
      HalveQuotient(initial.r as real, Pow2(idx));
      HalveQuotient(initial.g as real, Pow2(idx));
      HalveQuotient(initial.b as real, Pow2(idx));
      r := r / 2.0;
      g := g / 2.0;
      b := b / 2.0;
      idx := idx + 1;
    }
    var p := Pow2(idx);
    FloorOfQuotient(initial.r, p);
    FloorOfQuotient(initial.g, p);
    FloorOfQuotient(initial.b, p);
    DivisionShrinks(initial.r, p);
    DivisionShrinks(initial.g, p);
    DivisionShrinks(initial.b, p);
    color := Rgba(a, r.Floor, g.Floor, b.Floor);
  }

  /** Halving one more time is integer division of the previous result by 2. */
  lemma HalveAgain(x: nat, k: nat)
    ensures x / Pow2(k + 1) == (x / Pow2(k)) / 2
  {
    var p := Pow2(k);
    var q, m := x / p, x % p;
    var h, e := q / 2, q % 2;
    assert x == (2 * h + e) * p + m;
    assert x == h * (2 * p) + (e * p + m);
    assert 0 <= e * p + m < 2 * p;
    DivUnique(x, 2 * p, h, e * p + m);
  }

  /** A channel halved k times with integer division. */
  function Halved(x: nat, k: nat): nat {
    if k == 0 then x else Halved(x, k - 1) / 2
  }

  /** Repeated integer halving is division by a power of two. */
  lemma {:induction false} HalvedIsDivision(x: nat, k: nat)
    ensures Halved(x, k) == x / Pow2(k)
  {
    if k > 0 {
      HalvedIsDivision(x, k - 1);
      HalveAgain(x, k - 1);
    }
  }

  /** More halvings never give a brighter channel. */
  lemma {:induction false} HalvingMonotone(x: nat, s: nat, t: nat)
    requires s <= t
    ensures x / Pow2(t) <= x / Pow2(s)
  {
    HalvedMonotone(x, s, t);
    HalvedIsDivision(x, s);
    HalvedIsDivision(x, t);
  }

  lemma {:induction false} HalvedMonotone(x: nat, s: nat, t: nat)
    requires s <= t
    ensures Halved(x, t) <= Halved(x, s)
    decreases t - s
  {
    if s < t {
      HalvedMonotone(x, s, t - 1);
    }
  }

  /**
   * Within one cycle of the flasher: stage 0 shows the configured colour,
   * stages 0, 1, 2 get darker channel by channel with alpha kept, and the last
   * stage repeats stage 1.
   */
  lemma StageColorCycle(c: Rgba)
    ensures StageColor(c, 0, TOTAL_ALERT_STAGES) == c
    ensures StageColor(c, 3, TOTAL_ALERT_STAGES) == StageColor(c, 1, TOTAL_ALERT_STAGES)
    ensures forall s :: 0 <= s < TOTAL_ALERT_STAGES ==> StageColor(c, s, TOTAL_ALERT_STAGES).a == c.a
    ensures StageColor(c, 2, TOTAL_ALERT_STAGES).r <= StageColor(c, 1, TOTAL_ALERT_STAGES).r <= c.r
    ensures StageColor(c, 2, TOTAL_ALERT_STAGES).g <= StageColor(c, 1, TOTAL_ALERT_STAGES).g <= c.g
    ensures StageColor(c, 2, TOTAL_ALERT_STAGES).b <= StageColor(c, 1, TOTAL_ALERT_STAGES).b <= c.b
  {
    HalvingMonotone(c.r, 1, 2);
    HalvingMonotone(c.g, 1, 2);
    HalvingMonotone(c.b, 1, 2);
  }

  /** Every stage darkens each channel relative to the configured colour and keeps alpha. */
  lemma StageColorNeverBrighter(c: Rgba, stage: int, totalStages: int)
    ensures StageColor(c, stage, totalStages).a == c.a
    ensures StageColor(c, stage, totalStages).r <= c.r
    ensures StageColor(c, stage, totalStages).g <= c.g
    ensures StageColor(c, stage, totalStages).b <= c.b
  {
    var k := Halvings(stage, totalStages);
    HalvingMonotone(c.r, 0, k);
    HalvingMonotone(c.g, 0, k);
    HalvingMonotone(c.b, 0, k);
  }

  /** The stage after one firing of the flasher. */
  function NextStage(stage: int): (next: int)
    requires 0 <= stage < TOTAL_ALERT_STAGES
    ensures 0 <= next < TOTAL_ALERT_STAGES
    ensures next == 0 <==> stage == TOTAL_ALERT_STAGES - 1
  {
    (stage + 1) % TOTAL_ALERT_STAGES
  }

  /** The stage after n firings of the flasher. */
  function StageAfter(stage: int, n: nat): (s: int)
    requires 0 <= stage < TOTAL_ALERT_STAGES
    ensures 0 <= s < TOTAL_ALERT_STAGES
  {
    if n == 0 then stage else NextStage(StageAfter(stage, n - 1))
  }

  /** After n firings the stage has advanced by n, modulo the number of stages. */
  lemma {:induction false} StageAfterIsMod(stage: int, n: nat)
    requires 0 <= stage < TOTAL_ALERT_STAGES
    ensures StageAfter(stage, n) == (stage + n) % TOTAL_ALERT_STAGES
  {
    if n > 0 {
      StageAfterIsMod(stage, n - 1);
      var k := (stage + n - 1) / TOTAL_ALERT_STAGES;
      var prev := StageAfter(stage, n - 1);
      if prev == TOTAL_ALERT_STAGES - 1 {
        DivUnique(stage + n, TOTAL_ALERT_STAGES, k + 1, 0);
      } else {
        DivUnique(stage + n, TOTAL_ALERT_STAGES, k, prev + 1);
      }
    }
  }

  /** The flash pattern repeats every TOTAL_ALERT_STAGES firings. */
  lemma StageAfterPeriodic(stage: int, n: nat)
    requires 0 <= stage < TOTAL_ALERT_STAGES
    ensures StageAfter(stage, n + TOTAL_ALERT_STAGES) == StageAfter(stage, n)
  {
    StageAfterIsMod(stage, n);
    StageAfterIsMod(stage, n + TOTAL_ALERT_STAGES);
  }
}
