/** The arithmetic of one brightness ramp, with the integer division of C. */
module Ramp {
  import opened Decimals

  predicate Percent(x: int) {
    0 <= x <= 100
  }

  /** x lies between a and b, whichever of them is the larger. */
  predicate Between(a: int, x: int, b: int) {
    a <= x <= b || b <= x <= a
  }

  /** The interpolated brightness before it is clamped and narrowed. */
  function Interpolated(start: int, target: int, elapsed: int, duration: int): int
    requires duration > 0
  {
    start + TruncDiv((target - start) * elapsed, duration)
  }

  function Clamped(x: int): (r: int)
    ensures Percent(r)
  {
    if x < 0 then 0 else if x > 100 then 100 else x
  }

  /** The brightness a tick computes, and whether the ramp is over. */
  function RampAt(start: int, target: int, elapsed: int, duration: int): (int, bool)
    requires duration > 0
  {
    if elapsed >= duration then (target, true)
    else (Clamped(Interpolated(start, target, elapsed, duration)), false)
  }

  lemma {:induction false} QuotientGrows(a: nat, b: nat, unit: nat)
    requires a <= b && unit > 0
    ensures a / unit <= b / unit
  {
    var q, p := a / unit, b / unit;
    assert a == q * unit + a % unit && b == p * unit + b % unit;
    if q > p {
      TimesGrows(q, p, unit);
    }
  }

  /** The part of a distance covered so far grows with time and never exceeds the distance. */
  lemma {:induction false} CoveredGrows(distance: nat, earlier: nat, later: nat, duration: nat)
    requires earlier <= later <= duration && duration > 0
    ensures 0 <= distance * earlier / duration <= distance * later / duration <= distance
  {
    assert 0 <= distance * earlier <= distance * later <= distance * duration by {
      assert distance * (later - earlier) >= 0;
      assert distance * (duration - later) >= 0;
      assert distance * earlier >= 0;
    }
    QuotientGrows(distance * earlier, distance * later, duration);
    QuotientBelow(distance * later, distance, duration);
    QuotientBelow(distance * earlier, distance, duration);
  }

  /** v is the fraction elapsed / duration of the way from start to target, cut off to a whole percent. */
  ghost predicate OnTheWay(start: int, target: int, elapsed: int, duration: int, v: int) {
    && Between(start, v, target)
    && Abs(v - start) * duration <= Abs(target - start) * elapsed < Abs(v - start) * duration + duration
  }

  lemma ProductSize(a: int, b: nat)
    ensures Abs(a * b) == Abs(a) * b
    ensures (a >= 0 ==> a * b >= 0) && (a <= 0 ==> a * b <= 0)
  {
    if a < 0 {
      assert a * b == -(Abs(a) * b);
    }
  }

  lemma InterpolatedIs(start: int, target: int, elapsed: int, duration: int)
    requires 0 <= elapsed <= duration && duration > 0
    ensures OnTheWay(start, target, elapsed, duration, Interpolated(start, target, elapsed, duration))
  {
    InterpolationAdvances(start, target, elapsed, elapsed, duration);
    ProductSize(target - start, elapsed);
    TruncDivIs((target - start) * elapsed, duration);
  }

  /** Before the end the interpolation moves from start toward target, never turns back and never overshoots. */
  lemma {:induction false} InterpolationAdvances(start: int, target: int, earlier: int, later: int, duration: int)
    requires 0 <= earlier <= later <= duration && duration > 0
    ensures Between(start, Interpolated(start, target, earlier, duration), target)
    ensures Between(start, Interpolated(start, target, later, duration), target)
    ensures Between(Interpolated(start, target, earlier, duration),
                    Interpolated(start, target, later, duration), target)
  {
    var distance := Abs(target - start);
    CoveredGrows(distance, earlier, later, duration);
    if target < start {
      assert -((target - start) * earlier) == distance * earlier;
      assert -((target - start) * later) == distance * later;
      assert (target - start) * earlier <= 0 && (target - start) * later <= 0;
    }
  }

  /** A tick's value is start plus the elapsed share of the distance, cut off toward start; the clamp never
      changes it, a later tick is at least as close to the target, and once the time is up it is the target. */
  lemma {:induction false} RampAdvances(start: int, target: int, earlier: int, later: int, duration: int)
    requires Percent(start) && Percent(target)
    requires 0 <= earlier <= later && duration > 0
    ensures var was, now := RampAt(start, target, earlier, duration).0, RampAt(start, target, later, duration).0;
            && Between(start, was, target)
            && Between(was, now, target)
            && Percent(was) && Percent(now)
    ensures later < duration ==>
              var (now, finished) := RampAt(start, target, later, duration);
              !finished && OnTheWay(start, target, later, duration, now)
    ensures later >= duration ==> RampAt(start, target, later, duration) == (target, true)
  {
    if later < duration {
      InterpolationAdvances(start, target, earlier, later, duration);
      InterpolatedIs(start, target, later, duration);
    } else if earlier < duration {
      InterpolationAdvances(start, target, earlier, earlier, duration);
    }
  }
}
