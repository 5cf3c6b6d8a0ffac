/**
 * Hourglass mode: instead of digits the key shows a bar whose filled part is
 * proportional to the time remaining. The bar's colour is the configured
 * hourglass colour, unless that colour is black, in which case it goes from
 * green (more than half left) to yellow (more than a fifth left) to red.
 *
 * The source computes remaining/total as a double. `GetHourglassColor` keeps
 * that shape over exact reals; `HourglassColor` and `FillTop` are the integer
 * forms (cross-multiplied thresholds, integer division) that the controller
 * uses, each proved equal to the real-valued rule.
 */
module Hourglass {
  import opened Basics
  import opened Colors

  /** The colour rule exactly as the source states it on the remaining fraction. */
  function GetHourglassColor(initial: Rgba, remainingPercentage: real): (c: Rgba)
    ensures !IsBlack(initial) ==> c == initial
    ensures IsBlack(initial) ==> (c == Green <==> remainingPercentage > 0.5)
    ensures IsBlack(initial) ==> (c == Red <==> remainingPercentage <= 0.20)
    ensures IsBlack(initial) ==> (c == Yellow <==> 0.20 < remainingPercentage <= 0.5)
  {
    if !IsBlack(initial) then initial
    else if remainingPercentage > 0.5 then Green
    else if remainingPercentage > 0.20 then Yellow
    else Red
  }

  /**
   * The colour rule on whole seconds. For a positive total it agrees with the
   * rule on the fraction remaining/total; for a zero total with time left the
   * fraction is +infinity in the source, which passes both thresholds.
   */
  function HourglassColor(initial: Rgba, remaining: nat, total: nat): (c: Rgba)
    ensures !IsBlack(initial) ==> c == initial
    ensures total > 0 ==> c == GetHourglassColor(initial, (remaining as real) / (total as real))
    ensures total == 0 && remaining > 0 ==> c == GetHourglassColor(initial, 1.0)
  {
    ThresholdByCrossMultiplying(remaining, total, 2);
    ThresholdByCrossMultiplying(remaining, total, 5);
    if !IsBlack(initial) then initial
    else if 2 * remaining > total then Green
    else if 5 * remaining > total then Yellow
    else Red
  }

  /** remaining/total > 1/k exactly when k * remaining > total. */
  lemma ThresholdByCrossMultiplying(remaining: nat, total: nat, k: nat)
    requires k > 0
    ensures total > 0 ==> ((remaining as real) / (total as real) > 1.0 / (k as real) <==> k * remaining > total)
  {
    if total == 0 {
      return;
    }
    var R, T, K := remaining as real, total as real, k as real;
    var f := R / T;
    ScaleComparison(f, 1.0 / K, K);
    assert K * (1.0 / K) == 1.0;
    ScaleComparison(K * f, 1.0, T);
    assert K * f * T == K * R;
    assert (k * remaining) as real == K * R;
  }

  /** Multiplying both sides by a positive number keeps a strict comparison. */
  lemma ScaleComparison(x: real, y: real, c: real)
    requires c > 0.0
    ensures x > y <==> x * c > y * c
  {
  }

  /** How alarming a colour of the black-configured rule is: green 0, yellow 1, red 2. */
  function Urgency(c: Rgba): nat {
    if c == Green then 0 else if c == Yellow then 1 else 2
  }

  /** With the black configuration, less time left never gives a calmer colour. */
  lemma HourglassColorMonotone(initial: Rgba, r1: nat, r2: nat, total: nat)
    requires IsBlack(initial) && r1 <= r2
    ensures Urgency(HourglassColor(initial, r1, total)) >= Urgency(HourglassColor(initial, r2, total))
  {
  }

  /**
   * Top row of the filled region on a key `height` pixels high: the source
   * truncates height * remaining/total with a cast.
   */
  function FillTop(height: nat, remaining: nat, total: nat): (top: int)
    requires total > 0
    ensures top == height - ((height as real) * ((remaining as real) / (total as real))).Floor
  {
    assert (height as real) * ((remaining as real) / (total as real))
        == ((height * remaining) as real) / (total as real);
    FloorOfQuotient(height * remaining, total);
    height - (height * remaining) / total
  }

  /** While time is left and not above the interval, the fill starts on the key. */
  lemma FillTopBounds(height: nat, remaining: nat, total: nat)
    requires 0 < remaining && total > 0
    ensures remaining <= total ==> 0 <= FillTop(height, remaining, total) <= height
    ensures remaining == total ==> FillTop(height, remaining, total) == 0
  {
    if remaining > total {
      return;
    }
    MulLeq(height, remaining, total);
    DivMonotone(height * remaining, height * total, total);
    DivUnique(height * total, total, height, 0);
  }

  /** More time left never gives a lower fill (a larger top row). */
  lemma FillTopMonotone(height: nat, r1: nat, r2: nat, total: nat)
    requires r1 <= r2 && total > 0
    ensures FillTop(height, r2, total) <= FillTop(height, r1, total)
  {
    MulLeq(height, r1, r2);
    DivMonotone(height * r1, height * r2, total);
  }

  lemma MulLeq(h: nat, a: nat, b: nat)
    requires a <= b
    ensures h * a <= h * b
  {
  }

  lemma DivMonotone(a: nat, b: nat, d: nat)
    requires a <= b && d > 0
    ensures a / d <= b / d
  {
    if a / d > b / d {
      MulAtLeast(a / d - b / d, d);
    }
  }

  /** What one hourglass frame paints: a colour from a top row down (unknown when the total is zero). */
  datatype HourglassImage = HourglassImage(color: Rgba, top: Option<int>)

  /**
   * The hourglass frame for the current tick: nothing when no time is left,
   * otherwise the colour from the rule and the fill start.
   */
  function HourglassFrame(height: nat, remaining: int, total: nat, configured: Rgba): (frame: Option<HourglassImage>)
    ensures frame.None? <==> remaining <= 0
    ensures frame.Some? ==> frame.value.color == HourglassColor(configured, remaining, total)
    ensures frame.Some? ==> (frame.value.top.Some? <==> total > 0)
    ensures frame.Some? && total > 0 ==> frame.value.top == Some(FillTop(height, remaining, total))
    ensures frame.Some? && remaining <= total ==> frame.value.top.Some? && 0 <= frame.value.top.value <= height
  {
    if remaining <= 0 then None
    else if total == 0 then Some(HourglassImage(HourglassColor(configured, remaining, total), None))
    else
      FillTopBounds(height, remaining, total);
      Some(HourglassImage(HourglassColor(configured, remaining, total), Some(FillTop(height, remaining, total))))
  }

  /** Forty seconds left of a hundred on a 100-pixel key: yellow from row 60 down. */
  lemma HourglassFortyPercent()
    ensures HourglassFrame(100, 40, 100, Rgba(255, 0, 0, 0)) == Some(HourglassImage(Yellow, Some(60)))
  {
    DivUnique(100 * 40, 100, 40, 0);
  }
}
