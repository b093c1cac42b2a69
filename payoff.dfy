/** The per-path payoff rule of `pricer` in Autocall_pricer.py: the walk
    over the fixings of one path with its three comparisons (call level,
    barrier, last fixing), and a closed-form reading of what it pays. */
module Payoff {
  import opened PyRuntime

  /** The terms of the note that `pricer` reads from the instance. */
  datatype Contract = Contract(coupon: real, principal: real, callLevel: real, barrier: real,
                               strike: real, schedule: seq<real>)

  /** Whether, and at which fixing, a path was called. */
  datatype Call = NoCall | CalledAt(index: nat)

  /** The locals of the fixing loop (`payoff`, `missed_coupon`,
      `ds_principal`) and the two events it records: the call, counted in
      `stat_call[j]`, and the knock-in, counted in `n_KI`. */
  datatype PathState = PathState(payoff: real, missedCoupon: int, dsPrincipal: real,
                                 call: Call, knockedIn: bool)

  /** What one path contributes to the Monte Carlo average and to the counters. */
  datatype PathOutcome = PathOutcome(net: real, call: Call, knockedIn: bool)

  /** The cash flows of a path without the unread `missed_coupon`. */
  datatype Legs = Legs(payoff: real, dsPrincipal: real, call: Call, knockedIn: bool)

  function Last(t: seq<real>): real
    requires |t| > 0
  {
    t[|t| - 1]
  }

  /** The discount factor `exp(-rate * t)`. */
  function Discount(m: Maths, rate: real, t: real): real {
    m.exp(-rate * t)
  }

  /** With `exp` positive, every discount factor is positive. */
  lemma DiscountPositive(m: Maths, rate: real, t: real)
    ensures PositiveExp(m) ==> 0.0 < Discount(m, rate, t)
  {
  }

  /** The coupon paid at a fixing with discount factor `df` on path `i`:
      the source multiplies by the path index, not by `missed_coupon`. */
  function CouponPaid(df: real, c: Contract, i: nat): real
  {
    df * c.principal * c.coupon * (i as real)
  }

  /** The redemption on a call, added without discounting. */
  function CallRedemption(c: Contract, i: nat): real
  {
    c.principal * (1.0 + c.coupon * (i as real))
  }

  /** The terminal participation on a knock-in. */
  function KnockInLoss(c: Contract, s: real): real
    requires c.strike != 0.0
  {
    (s - c.strike) / c.strike * c.principal
  }

  /** The cash flows of one fixing: path 0 earns no coupon and redeems the
      bare principal; with non-negative terms a coupon is never negative
      and a redemption never below the principal; a knock-in loss is the
      fixing's share of the principal less the principal, never a gain at
      or below a positive strike. */
  lemma CashFlows(df: real, c: Contract, i: nat, s: real)
    ensures i == 0 ==> CouponPaid(df, c, i) == 0.0 && CallRedemption(c, i) == c.principal
    ensures 0.0 <= df && 0.0 <= c.principal && 0.0 <= c.coupon ==>
              0.0 <= CouponPaid(df, c, i) && c.principal <= CallRedemption(c, i)
    ensures c.strike != 0.0 ==> KnockInLoss(c, s) + c.principal == s / c.strike * c.principal
    ensures 0.0 < c.strike && 0.0 <= c.principal && s <= c.strike ==> KnockInLoss(c, s) <= 0.0
  {
    if 0.0 <= df && 0.0 <= c.principal && 0.0 <= c.coupon {
      assert 0.0 <= df * c.principal;
      assert 0.0 <= df * c.principal * c.coupon;
    }
    if 0.0 < c.strike && 0.0 <= c.principal && s <= c.strike {
      assert (s - c.strike) / c.strike <= 0.0;
    }
  }

  /** The state before the first fixing: nothing paid, the principal
      discounted from maturity. */
  function InitialState(c: Contract, rate: real, m: Maths): PathState
    requires |c.schedule| > 0
  {
    PathState(0.0, 1, Discount(m, rate, Last(c.schedule)) * c.principal, NoCall, false)
  }

  /** The fixing loop of path `i` from fixing `j` on, in state `s`. A
      knock-in with a zero strike divides by zero. */
  function Walk(c: Contract, fix: seq<real>, rate: real, i: nat, m: Maths, j: nat, s: PathState): Result<PathState>
    requires |fix| == |c.schedule|
    decreases |fix| - j
  {
    if j >= |fix| then Ok(s)
    else
      var df := Discount(m, rate, c.schedule[j]);
      if fix[j] < c.callLevel then
        if fix[j] >= c.barrier then
          Walk(c, fix, rate, i, m, j + 1, s.(payoff := CouponPaid(df, c, i) + s.payoff, missedCoupon := 1))
        else if j < |fix| - 1 then
          Walk(c, fix, rate, i, m, j + 1, s.(missedCoupon := s.missedCoupon + 1))
        else if c.strike == 0.0 then
          Err(ZeroDivisionError)
        else
          Walk(c, fix, rate, i, m, j + 1, s.(payoff := s.payoff + KnockInLoss(c, fix[j]), knockedIn := true))
      else
        Ok(s.(call := CalledAt(j), payoff := CallRedemption(c, i) + s.payoff,
              dsPrincipal := Discount(m, rate, c.schedule[j]) * c.principal))
  }

  /** What the fixing loop can end in, from a state with no event yet: the
      only exception is the knock-in's division by a zero strike at the last
      fixing; a call happens at a fixing at or above the call level; a
      knock-in leaves the path uncalled, with the last fixing below the
      barrier. */
  lemma {:induction false} WalkEvents(c: Contract, fix: seq<real>, rate: real, i: nat, m: Maths, j: nat, s: PathState)
    requires |fix| == |c.schedule|
    ensures var r := Walk(c, fix, rate, i, m, j, s);
            && (r.Err? ==> && r.error == ZeroDivisionError && c.strike == 0.0 && j < |fix|
                           && Last(fix) < c.callLevel && Last(fix) < c.barrier)
            && (r.Ok? && s.call == NoCall && r.value.call.CalledAt? ==>
                  j <= r.value.call.index < |fix| && c.callLevel <= fix[r.value.call.index])
            && (r.Ok? && s.call == NoCall && !s.knockedIn && r.value.knockedIn ==>
                  r.value.call == NoCall && j < |fix| && Last(fix) < c.barrier)
    decreases |fix| - j
  {
    if j < |fix| {
      var df := Discount(m, rate, c.schedule[j]);
      if fix[j] < c.callLevel {
        if fix[j] >= c.barrier {
          WalkEvents(c, fix, rate, i, m, j + 1, s.(payoff := CouponPaid(df, c, i) + s.payoff, missedCoupon := 1));
        } else if j < |fix| - 1 {
          WalkEvents(c, fix, rate, i, m, j + 1, s.(missedCoupon := s.missedCoupon + 1));
        } else if c.strike != 0.0 {
          WalkEvents(c, fix, rate, i, m, j + 1, s.(payoff := s.payoff + KnockInLoss(c, fix[j]), knockedIn := true));
        }
      }
    }
  }

  /** The net payoff of a path: its legs plus the discounted principal,
      less the principal. */
  function Settle(c: Contract, s: PathState): PathOutcome {
    PathOutcome(s.payoff + s.dsPrincipal - c.principal, s.call, s.knockedIn)
  }

  function LegsOf(r: Result<PathState>): Result<Legs> {
    match r
    case Ok(s) => Ok(Legs(s.payoff, s.dsPrincipal, s.call, s.knockedIn))
    case Err(e) => Err(e)
  }

  /** The first index from `from` on whose fixing is at or above `level`, or `|fix|`. */
  function FirstAtOrAbove(fix: seq<real>, level: real, from: nat): (k: nat)
    requires from <= |fix|
    ensures from <= k <= |fix|
    ensures forall j :: from <= j < k ==> fix[j] < level
    ensures k < |fix| ==> level <= fix[k]
    decreases |fix| - from
  {
    if from == |fix| || level <= fix[from] then from else FirstAtOrAbove(fix, level, from + 1)
  }

  /** The coupons of path `i` at the fixings `from` .. `stop - 1` that lie
      at or above the barrier and below the call level. */
  function Coupons(c: Contract, fix: seq<real>, rate: real, i: nat, m: Maths, from: nat, stop: nat): real
    requires from <= stop <= |fix| == |c.schedule|
    decreases stop - from
  {
    if from == stop then 0.0
    else
      (if c.barrier <= fix[from] < c.callLevel then CouponPaid(Discount(m, rate, c.schedule[from]), c, i) else 0.0)
      + Coupons(c, fix, rate, i, m, from + 1, stop)
  }

  /** What path `i` pays, read off the path directly: called at the first
      fixing at or above the call level, with the coupons before it and the
      principal discounted from that fixing; otherwise all coupons, a
      knock-in if the last fixing is under the barrier, and the principal
      discounted from maturity. */
  function Reference(c: Contract, fix: seq<real>, rate: real, i: nat, m: Maths): Result<Legs>
    requires 0 < |fix| == |c.schedule|
  {
    var n := |fix|;
    var stop := FirstAtOrAbove(fix, c.callLevel, 0);
    if stop < n then
      Ok(Legs(CallRedemption(c, i) + Coupons(c, fix, rate, i, m, 0, stop),
              Discount(m, rate, c.schedule[stop]) * c.principal, CalledAt(stop), false))
    else if fix[n - 1] < c.barrier then
      if c.strike == 0.0 then Err(ZeroDivisionError)
      else Ok(Legs(Coupons(c, fix, rate, i, m, 0, n) + KnockInLoss(c, fix[n - 1]),
                   Discount(m, rate, Last(c.schedule)) * c.principal, NoCall, true))
    else
      Ok(Legs(Coupons(c, fix, rate, i, m, 0, n), Discount(m, rate, Last(c.schedule)) * c.principal, NoCall, false))
  }

  lemma CouponsStep(c: Contract, fix: seq<real>, rate: real, i: nat, m: Maths, from: nat, stop: nat)
    requires from < stop <= |fix| == |c.schedule|
    ensures Coupons(c, fix, rate, i, m, from, stop)
            == (if c.barrier <= fix[from] < c.callLevel then CouponPaid(Discount(m, rate, c.schedule[from]), c, i) else 0.0)
               + Coupons(c, fix, rate, i, m, from + 1, stop)
  {
  }

  /** The walk from fixing `j` on, before any event, in closed form. */
  lemma WalkFrom(c: Contract, fix: seq<real>, rate: real, i: nat, m: Maths, j: nat, s: PathState)
    requires 0 < |fix| == |c.schedule| && j <= |fix|
    requires s.call == NoCall && !s.knockedIn
    ensures var n := |fix|;
            var stop := FirstAtOrAbove(fix, c.callLevel, j);
            var r := Walk(c, fix, rate, i, m, j, s);
            if j == n then r == Ok(s)
            else if stop < n then
              && r.Ok? && r.value.call == CalledAt(stop) && !r.value.knockedIn
              && r.value.payoff == CallRedemption(c, i) + (s.payoff + Coupons(c, fix, rate, i, m, j, stop))
              && r.value.dsPrincipal == Discount(m, rate, c.schedule[stop]) * c.principal
            else if fix[n - 1] < c.barrier && c.strike == 0.0 then
              r == Err(ZeroDivisionError)
            else
              && r.Ok? && r.value.call == NoCall && r.value.knockedIn == (fix[n - 1] < c.barrier)
              && r.value.payoff == s.payoff + Coupons(c, fix, rate, i, m, j, n)
                                   + (if fix[n - 1] < c.barrier then KnockInLoss(c, fix[n - 1]) else 0.0)
              && r.value.dsPrincipal == s.dsPrincipal
  {
    if j < |fix| {
      if FirstAtOrAbove(fix, c.callLevel, j) < |fix| {
        WalkFromCalled(c, fix, rate, i, m, j, s);
      } else {
        WalkFromUncalled(c, fix, rate, i, m, j, s);
      }
    }
  }

  /** The walk from fixing `j` on, when some fixing from `j` on reaches the
      call level: the path is called at the first such fixing. */
  lemma {:induction false} WalkFromCalled(c: Contract, fix: seq<real>, rate: real, i: nat, m: Maths, j: nat, s: PathState)
    requires 0 < |fix| == |c.schedule| && j <= |fix|
    requires s.call == NoCall && !s.knockedIn
    requires FirstAtOrAbove(fix, c.callLevel, j) < |fix|
    ensures var stop := FirstAtOrAbove(fix, c.callLevel, j);
            var r := Walk(c, fix, rate, i, m, j, s);
            && r.Ok? && r.value.call == CalledAt(stop) && !r.value.knockedIn
            && r.value.payoff == CallRedemption(c, i) + (s.payoff + Coupons(c, fix, rate, i, m, j, stop))
            && r.value.dsPrincipal == Discount(m, rate, c.schedule[stop]) * c.principal
    decreases |fix| - j
  {
    var stop := FirstAtOrAbove(fix, c.callLevel, j);
    if fix[j] < c.callLevel {
      var df := Discount(m, rate, c.schedule[j]);
      assert stop == FirstAtOrAbove(fix, c.callLevel, j + 1);
      CouponsStep(c, fix, rate, i, m, j, stop);
      var s' := if fix[j] >= c.barrier then s.(payoff := CouponPaid(df, c, i) + s.payoff, missedCoupon := 1)
                else s.(missedCoupon := s.missedCoupon + 1);
      // a fixing below the barrier before the call is never the last one
      assert fix[j] < c.barrier ==> j < |fix| - 1;
      assert Walk(c, fix, rate, i, m, j, s) == Walk(c, fix, rate, i, m, j + 1, s');
      WalkFromCalled(c, fix, rate, i, m, j + 1, s');
    } else {
      assert stop == j;
      assert Coupons(c, fix, rate, i, m, j, j) == 0.0;
    }
  }

  /** The walk from fixing `j < |fix|` on, when no fixing from `j` on
      reaches the call level: every coupon is paid, and the path knocks in
      when its last fixing is below the barrier. */
  lemma {:induction false} WalkFromUncalled(c: Contract, fix: seq<real>, rate: real, i: nat, m: Maths, j: nat, s: PathState)
    requires 0 < |fix| == |c.schedule| && j < |fix|
    requires s.call == NoCall && !s.knockedIn
    requires FirstAtOrAbove(fix, c.callLevel, j) == |fix|
    ensures var n := |fix|;
            var r := Walk(c, fix, rate, i, m, j, s);
            if fix[n - 1] < c.barrier && c.strike == 0.0 then
              r == Err(ZeroDivisionError)
            else
              && r.Ok? && r.value.call == NoCall && r.value.knockedIn == (fix[n - 1] < c.barrier)
              && r.value.payoff == s.payoff + Coupons(c, fix, rate, i, m, j, n)
                                   + (if fix[n - 1] < c.barrier then KnockInLoss(c, fix[n - 1]) else 0.0)
              && r.value.dsPrincipal == s.dsPrincipal
    decreases |fix| - j
  {
    var n := |fix|;
    var df := Discount(m, rate, c.schedule[j]);
    assert fix[j] < c.callLevel;
    CouponsStep(c, fix, rate, i, m, j, n);
    if j + 1 < n {
      assert FirstAtOrAbove(fix, c.callLevel, j + 1) == n;
      if fix[j] >= c.barrier {
        var s' := s.(payoff := CouponPaid(df, c, i) + s.payoff, missedCoupon := 1);
        assert Walk(c, fix, rate, i, m, j, s) == Walk(c, fix, rate, i, m, j + 1, s');
        WalkFromUncalled(c, fix, rate, i, m, j + 1, s');
      } else {
        var s' := s.(missedCoupon := s.missedCoupon + 1);
        assert Walk(c, fix, rate, i, m, j, s) == Walk(c, fix, rate, i, m, j + 1, s');
        WalkFromUncalled(c, fix, rate, i, m, j + 1, s');
      }
    } else {
      assert Coupons(c, fix, rate, i, m, j + 1, n) == 0.0;
    }
  }

  lemma ReferenceWhenCalled(c: Contract, fix: seq<real>, rate: real, i: nat, m: Maths)
    requires 0 < |fix| == |c.schedule|
    requires FirstAtOrAbove(fix, c.callLevel, 0) < |fix|
    ensures var stop := FirstAtOrAbove(fix, c.callLevel, 0);
            Reference(c, fix, rate, i, m).Ok? && Reference(c, fix, rate, i, m).value
            == (Legs(CallRedemption(c, i) + Coupons(c, fix, rate, i, m, 0, stop),
                       Discount(m, rate, c.schedule[stop]) * c.principal, CalledAt(stop), false))
  {
  }

  /** The fixing loop computes exactly the closed-form cash flows; in
      particular `missed_coupon` has no effect on them. */
  lemma WalkMatchesReference(c: Contract, fix: seq<real>, rate: real, i: nat, m: Maths)
    requires 0 < |fix| == |c.schedule|
    ensures LegsOf(Walk(c, fix, rate, i, m, 0, InitialState(c, rate, m))) == Reference(c, fix, rate, i, m)
  {
    var s := InitialState(c, rate, m);
    WalkFrom(c, fix, rate, i, m, 0, s);
    var r := Walk(c, fix, rate, i, m, 0, s);
    var n := |fix|;
    var stop := FirstAtOrAbove(fix, c.callLevel, 0);
    if stop < n {
      var legs := Legs(CallRedemption(c, i) + Coupons(c, fix, rate, i, m, 0, stop),
                       Discount(m, rate, c.schedule[stop]) * c.principal, CalledAt(stop), false);
      ReferenceWhenCalled(c, fix, rate, i, m);
      assert LegsOf(r).Ok? && LegsOf(r).value == legs;
      assert Reference(c, fix, rate, i, m).Ok? && Reference(c, fix, rate, i, m).value == legs;
      assert LegsOf(r) == Reference(c, fix, rate, i, m);
    } else if fix[n - 1] < c.barrier && c.strike != 0.0 {
      var legs := Legs(Coupons(c, fix, rate, i, m, 0, n) + KnockInLoss(c, fix[n - 1]),
                       Discount(m, rate, Last(c.schedule)) * c.principal, NoCall, true);
      assert r.Ok? && r.value.payoff == legs.payoff && r.value.dsPrincipal == legs.dsPrincipal;
      assert LegsOf(r).Ok? && LegsOf(r).value == legs;
      assert Reference(c, fix, rate, i, m).Ok? && Reference(c, fix, rate, i, m).value == legs;
    } else if c.barrier <= fix[n - 1] {
      var legs := Legs(Coupons(c, fix, rate, i, m, 0, n), Discount(m, rate, Last(c.schedule)) * c.principal, NoCall, false);
      assert r.Ok? && r.value.payoff == legs.payoff && r.value.dsPrincipal == legs.dsPrincipal;
      assert LegsOf(r).Ok? && LegsOf(r).value == legs;
      assert Reference(c, fix, rate, i, m).Ok? && Reference(c, fix, rate, i, m).value == legs;
    } else {
      assert r == Err(ZeroDivisionError) && Reference(c, fix, rate, i, m) == Err(ZeroDivisionError);
    }
  }

  /** The first hit is `j` when no fixing from `from` up to `j` hits and `j` does. */
  lemma {:induction false} FirstAtOrAboveIs(fix: seq<real>, level: real, from: nat, j: nat)
    requires from <= j < |fix| && level <= fix[j]
    requires forall k :: from <= k < j ==> fix[k] < level
    ensures FirstAtOrAbove(fix, level, from) == j
    decreases j - from
  {
    if from < j {
      FirstAtOrAboveIs(fix, level, from + 1, j);
    }
  }

  /** A path is called at fixing `j` exactly when `j` is the first fixing
      at or above the call level; no later fixing is looked at. */
  lemma CallIsFirstHit(c: Contract, fix: seq<real>, rate: real, i: nat, m: Maths, j: nat)
    requires 0 < |fix| == |c.schedule|
    ensures var r := Walk(c, fix, rate, i, m, 0, InitialState(c, rate, m));
            (r.Ok? && r.value.call == CalledAt(j))
            <==> (j < |fix| && c.callLevel <= fix[j] && forall k :: 0 <= k < j ==> fix[k] < c.callLevel)
  {
    WalkMatchesReference(c, fix, rate, i, m);
    if j < |fix| && c.callLevel <= fix[j] && forall k :: 0 <= k < j ==> fix[k] < c.callLevel {
      FirstAtOrAboveIs(fix, c.callLevel, 0, j);
    }
  }

  /** A path knocks in exactly when it is never called and its last fixing
      is under the barrier; with a zero strike that case divides by zero
      instead. A knocked-in path is never a called one. */
  lemma KnockInCondition(c: Contract, fix: seq<real>, rate: real, i: nat, m: Maths)
    requires 0 < |fix| == |c.schedule|
    ensures var r := Walk(c, fix, rate, i, m, 0, InitialState(c, rate, m));
            var uncalled := forall k :: 0 <= k < |fix| ==> fix[k] < c.callLevel;
            && (r.Err? <==> uncalled && fix[|fix| - 1] < c.barrier && c.strike == 0.0)
            && (r.Err? ==> r.error == ZeroDivisionError)
            && (r.Ok? ==> (r.value.knockedIn <==> uncalled && fix[|fix| - 1] < c.barrier))
            && (r.Ok? && r.value.knockedIn ==> r.value.call == NoCall)
  {
    WalkMatchesReference(c, fix, rate, i, m);
    var stop := FirstAtOrAbove(fix, c.callLevel, 0);
    if stop < |fix| {
      assert !(c.callLevel > fix[stop]);
    }
  }

  /** Every coupon of path 0 is zero, since coupons scale with the path index. */
  lemma {:induction false} CouponsOfPathZero(c: Contract, fix: seq<real>, rate: real, m: Maths, from: nat, stop: nat)
    requires from <= stop <= |fix| == |c.schedule|
    ensures Coupons(c, fix, rate, 0, m, from, stop) == 0.0
    decreases stop - from
  {
    if from < stop {
      CouponsOfPathZero(c, fix, rate, m, from + 1, stop);
    }
  }

  /** Path 0 earns no coupon: a call pays the bare principal, otherwise the
      only leg is the knock-in loss, if any. */
  lemma PathZeroEarnsNoCoupon(c: Contract, fix: seq<real>, rate: real, m: Maths)
    requires 0 < |fix| == |c.schedule|
    ensures var r := Walk(c, fix, rate, 0, m, 0, InitialState(c, rate, m));
            && (r.Ok? && r.value.call.CalledAt? ==> r.value.payoff == c.principal)
            && (r.Ok? && r.value.knockedIn ==> c.strike != 0.0 && r.value.payoff == KnockInLoss(c, fix[|fix| - 1]))
            && (r.Ok? && r.value.call == NoCall && !r.value.knockedIn ==> r.value.payoff == 0.0)
  {
    WalkMatchesReference(c, fix, rate, 0, m);
    CouponsOfPathZero(c, fix, rate, m, 0, FirstAtOrAbove(fix, c.callLevel, 0));
    CouponsOfPathZero(c, fix, rate, m, 0, |fix|);
  }
}
