/** The building blocks of the finite-difference sensitivities of
    Autocall_pricer.py: the opaque valuation they bump, the bumped
    argument, the guarded division, and the shifted schedule of `theta`. */
module FiniteDifference {
  import opened PyRuntime

  /** A valuation `model(spot, vol, rate, div)`. The first argument is the
      fixing schedule the instance holds when the valuation runs: `pricer`
      reads it from `self`, which `theta` overwrites in between. */
  type Valuation = (seq<real>, real, real, real, real) -> Result<real>

  /** A bumped argument: `x * (1 + bump / 100)` for a bump in percent,
      `x + bump` otherwise. */
  function Bumped(x: real, bump: real, isPercent: bool): (r: real)
    ensures isPercent ==> r - x == x * bump / 100.0
    ensures !isPercent ==> r - x == bump
  {
    if isPercent then x * (1.0 + bump / 100.0) else x + bump
  }

  /** The argument bumped the other way: `x * (1 - bump / 100)` or `x - bump`. */
  function BumpedDown(x: real, bump: real, isPercent: bool): (r: real)
    ensures x - r == Bumped(x, bump, isPercent) - x
  {
    if isPercent then x * (1.0 - bump / 100.0) else x - bump
  }

  /** Float division, which raises `ZeroDivisionError` for a zero divisor. */
  function Divide(num: real, den: real): (r: Result<real>)
    ensures r.Ok? <==> den != 0.0
    ensures r.Err? ==> r.error == ZeroDivisionError
    ensures r.Ok? ==> r.value * den == num
  {
    if den == 0.0 then Err(ZeroDivisionError) else Ok(num / den)
  }

  /** `x ** 2`. */
  function Squared(x: real): real {
    x * x
  }

  /** A square is positive exactly when its root is not zero. */
  lemma SquaredPositive(x: real)
    ensures x != 0.0 <==> 0.0 < Squared(x)
    ensures x == 0.0 <==> Squared(x) == 0.0
  {
    if x < 0.0 {
      calc {
        Squared(x);
        (-x) * (-x);
      >  { PositiveProduct(-x, -x); }
        0.0;
      }
    } else if x > 0.0 {
      calc {
        Squared(x);
        x * x;
      >  { PositiveProduct(x, x); }
        0.0;
      }
    }
  }

  lemma PositiveProduct(a: real, b: real)
    requires 0.0 < a && 0.0 < b
    ensures 0.0 < a * b
  {
  }

  /** The schedule `theta` prices on: every fixing time moved `bump`
      earlier, keeping only the times still in the future, in order. */
  function Shifted(t: seq<real>, bump: real): (r: seq<real>)
    ensures |r| <= |t|
    ensures forall k :: 0 <= k < |r| ==> 0.0 < r[k]
  {
    if |t| == 0 then []
    else
      var kept := Shifted(t[..|t| - 1], bump);
      var moved := t[|t| - 1] - bump;
      if moved > 0.0 then kept + [moved] else kept
  }

  /** A time is in the shifted schedule exactly when it is positive and
      moving it back by the bump gives a time of the original schedule. */
  lemma {:induction false} ShiftedMembers(t: seq<real>, bump: real, x: real)
    ensures x in Shifted(t, bump) <==> 0.0 < x && x + bump in t
  {
    if |t| > 0 {
      ShiftedMembers(t[..|t| - 1], bump, x);
      assert t == t[..|t| - 1] + [t[|t| - 1]];
    }
  }

  /** When no time expires, every time is kept, moved by the bump. */
  lemma {:induction false} ShiftedAllLive(t: seq<real>, bump: real)
    requires forall k :: 0 <= k < |t| ==> bump < t[k]
    ensures |Shifted(t, bump)| == |t|
    ensures forall k :: 0 <= k < |t| ==> Shifted(t, bump)[k] == t[k] - bump
  {
    if |t| > 0 {
      ShiftedAllLive(t[..|t| - 1], bump);
    }
  }

  /** When every time expires, the shifted schedule is empty. */
  lemma {:induction false} ShiftedAllExpired(t: seq<real>, bump: real)
    requires forall k :: 0 <= k < |t| ==> t[k] <= bump
    ensures Shifted(t, bump) == []
  {
    if |t| > 0 {
      ShiftedAllExpired(t[..|t| - 1], bump);
    }
  }

  /** The shifted schedule is strictly increasing when the original is; its
      last time is the original's last time moved by the bump. */
  lemma {:induction false} ShiftedIncreasing(t: seq<real>, bump: real)
    requires forall j, k :: 0 <= j < k < |t| ==> t[j] < t[k]
    ensures var r := Shifted(t, bump);
            && (forall j, k :: 0 <= j < k < |r| ==> r[j] < r[k])
            && (|r| > 0 ==> r[|r| - 1] == t[|t| - 1] - bump)
  {
    if |t| > 0 {
      var init := t[..|t| - 1];
      ShiftedIncreasing(init, bump);
      var kept := Shifted(init, bump);
      if |kept| > 0 {
        // kept's last time comes from init's last time, which is below t's last
        assert kept[|kept| - 1] == init[|init| - 1] - bump;
        assert init[|init| - 1] < t[|t| - 1];
      }
    }
  }
  /** A product of two non-zero reals is not zero. */
  lemma NonZeroProduct(x: real, y: real)
    requires x != 0.0 && y != 0.0
    ensures x * y != 0.0
  {
  }

  /** With a non-zero bump, the bumped argument moves, unless a percentage
      bump is applied to zero. */
  lemma BumpMoves(x: real, bump: real, isPercent: bool)
    requires bump != 0.0 && (isPercent ==> x != 0.0)
    ensures Bumped(x, bump, isPercent) != x
  {
    if isPercent {
      NonZeroProduct(x, bump);
    }
  }

  /** A secant slope of the affine `a + b * x` is `b`. */
  lemma SecantOfAffine(q: real, x0: real, x1: real, a: real, b: real)
    requires x0 != x1
    requires q * (x1 - x0) == (a + b * x1) - (a + b * x0)
    ensures q == b
  {
    assert (a + b * x1) - (a + b * x0) == b * (x1 - x0);
    Cancel(q, b, x1 - x0);
  }

  /** A secant slope through two values of the linear `b * x` is `b`. */
  lemma SecantOfLinear(q: real, x0: real, x1: real, y0: real, y1: real, b: real)
    requires x0 != x1 && y0 == b * x0 && y1 == b * x1
    requires q * (x1 - x0) == y1 - y0
    ensures q == b
  {
    SecantOfAffine(q, x0, x1, 0.0, b);
  }

  /** A non-zero factor cancels. */
  lemma Cancel(x: real, y: real, d: real)
    requires d != 0.0 && x * d == y * d
    ensures x == y
  {
    assert (x - y) * d == 0.0;
    if x != y {
      NonZeroProduct(x - y, d);
    }
  }
}
