/** The class `Autocall_CCBN` of Autocall_pricer.py: an autocallable
    contingent coupon barrier note with its Monte Carlo pricer and its
    finite-difference sensitivities. */
module Autocall {
  import opened PyRuntime
  import opened Fixings
  import opened Payoff
  import opened MonteCarlo
  import opened FiniteDifference

  /** The spot floor `gamma`, `vega`, `theta` and `vanna` use, where
      `delta`, `volga` and `rho` use the instance's `spotMinimum`. */
  const FixedSpotFloor: real := 0.0001

  /** The fixing loop of `pricer` for path `i` on the fixings `sFix`: the
      walk of `Walk`, with the call counted in `statCall` and the knock-in
      in `nKI`. */
  method FixingLoop(c: Contract, sFix: seq<real>, rate: real, i: nat, m: Maths, statCall0: seq<nat>, nKI0: nat)
    returns (r: Result<PathState>, statCall: seq<nat>, nKI: nat)
    requires 0 < |sFix| == |c.schedule| == |statCall0|
    ensures r == Walk(c, sFix, rate, i, m, 0, InitialState(c, rate, m))
    ensures r.Ok? ==> nKI == nKI0 + if r.value.knockedIn then 1 else 0
    ensures r.Ok? && r.value.call.CalledAt? ==>
              r.value.call.index < |statCall0| && statCall == statCall0[r.value.call.index := statCall0[r.value.call.index] + 1]
    ensures r.Ok? && r.value.call == NoCall ==> statCall == statCall0
  {
    var nFix := |c.schedule|;
    var tFix := c.schedule;
    var k, cl, cpn, b, n := c.strike, c.callLevel, c.coupon, c.barrier, c.principal;
    statCall, nKI := statCall0, nKI0;
    var payoff := 0.0;
    var missedCoupon := 1;
    var dsPrincipal := Discount(m, rate, tFix[nFix - 1]) * n;
    var call := NoCall;
    var knockedIn := false;
    ghost var w := Walk(c, sFix, rate, i, m, 0, InitialState(c, rate, m));
    assert PathState(payoff, missedCoupon, dsPrincipal, call, knockedIn) == InitialState(c, rate, m);
    var j := 0;
    while j < nFix
      invariant 0 <= j <= nFix
      invariant call == NoCall && (knockedIn ==> j == nFix)
      invariant Walk(c, sFix, rate, i, m, j, PathState(payoff, missedCoupon, dsPrincipal, call, knockedIn)) == w
      invariant statCall == statCall0 && nKI == nKI0 + (if knockedIn then 1 else 0)
    {
      var df := Discount(m, rate, tFix[j]);
      if sFix[j] < cl {
        if sFix[j] >= b {
          ghost var st := PathState(payoff, missedCoupon, dsPrincipal, call, knockedIn);
          assert Walk(c, sFix, rate, i, m, j, st) == Walk(c, sFix, rate, i, m, j + 1, st.(payoff := CouponPaid(df, c, i) + st.payoff, missedCoupon := 1));
          payoff := df * n * cpn * (i as real) + payoff;
          missedCoupon := 1;
          assert PathState(payoff, missedCoupon, dsPrincipal, call, knockedIn) == st.(payoff := CouponPaid(df, c, i) + st.payoff, missedCoupon := 1);
        } else if sFix[j] < b {
          if j < nFix - 1 {
            missedCoupon := missedCoupon + 1;
          } else {
            if k == 0.0 {
              assert w == Err(ZeroDivisionError);
              return Err(ZeroDivisionError), statCall, nKI;
            }
            ghost var st := PathState(payoff, missedCoupon, dsPrincipal, call, knockedIn);
            assert Walk(c, sFix, rate, i, m, j, st)
                   == Walk(c, sFix, rate, i, m, j + 1, st.(payoff := st.payoff + KnockInLoss(c, sFix[j]), knockedIn := true));
            assert KnockInLoss(c, sFix[j]) == (sFix[j] - k) / k * n;
            payoff := payoff + (sFix[j] - k) / k * n;
            assert payoff == st.payoff + KnockInLoss(c, sFix[j]);
            nKI := nKI + 1;
            knockedIn := true;
            assert Walk(c, sFix, rate, i, m, j + 1, PathState(payoff, missedCoupon, dsPrincipal, call, knockedIn)) == w;
          }
        }
      } else if sFix[j] >= cl {
        ghost var st := PathState(payoff, missedCoupon, dsPrincipal, call, knockedIn);
        assert Walk(c, sFix, rate, i, m, j, st).Ok?;
        assert Walk(c, sFix, rate, i, m, j, st).value == st.(call := CalledAt(j), payoff := CallRedemption(c, i) + st.payoff,
              dsPrincipal := Discount(m, rate, c.schedule[j]) * c.principal);
        statCall := statCall[j := statCall[j] + 1];
        payoff := n * (1.0 + cpn * (i as real)) + payoff;
        dsPrincipal := Discount(m, rate, tFix[j]) * n;
        call := CalledAt(j);
        assert w.Ok? && w.value == PathState(payoff, missedCoupon, dsPrincipal, call, knockedIn);
        break;
      }
      j := j + 1;
    }
    r := Ok(PathState(payoff, missedCoupon, dsPrincipal, call, knockedIn));
  }

  class AutocallCcbn {
    // the terms of the note
    var coupon: real
    var principal: real
    var callLevel: real
    var barrier: real
    var strike: real
    var fixingSchedule: seq<real>
    // the settings of the pricer and of the sensitivities
    var nPathsMc: int
    var nStepsMc: int
    var rndSeed: Option<int>
    var deltaBump: real
    var deltaBumpIsPercent: bool
    var gammaBump: real
    var gammaBumpIsPercent: bool
    var vegaBump: real
    var vegaBumpIsPercent: bool
    var thetaBump: real
    var vannaDvega: bool
    var rhoBump: real
    var spotMinimum: real

    /** `__init__`: the terms as given, the settings at their defaults. */
    constructor (coupon: real, principal: real, callLevel: real, barrier: real, strike: real, fixingSchedule: seq<real>)
      ensures this.coupon == coupon && this.principal == principal && this.callLevel == callLevel
      ensures this.barrier == barrier && this.strike == strike && this.fixingSchedule == fixingSchedule
      ensures nPathsMc == 10000 && nStepsMc == 300 && rndSeed == Some(10000)
      ensures deltaBump == 10.0 && deltaBumpIsPercent && gammaBump == 10.0 && gammaBumpIsPercent
      ensures vegaBump == 0.1 && !vegaBumpIsPercent && thetaBump == 1.0 / 365.0 && !vannaDvega
      ensures rhoBump == 0.1 && spotMinimum == 0.00001
    {
      this.coupon := coupon;
      this.principal := principal;
      this.callLevel := callLevel;
      this.barrier := barrier;
      this.strike := strike;
      this.fixingSchedule := fixingSchedule;
      nPathsMc := 10000;
      nStepsMc := 300;
      rndSeed := Some(10000);
      deltaBump := 10.0;
      deltaBumpIsPercent := true;
      gammaBump := 10.0;
      gammaBumpIsPercent := true;
      vegaBump := 0.1;
      vegaBumpIsPercent := false;
      thetaBump := 1.0 / 365.0;
      vannaDvega := false;
      rhoBump := 0.1;
      spotMinimum := 0.00001;
    }

    /** The terms `pricer` reads. */
    function Terms(): Contract
      reads this
    {
      Contract(coupon, principal, callLevel, barrier, strike, fixingSchedule)
    }

    /** `gen_fixings`: one fixing per schedule entry, drawing one variate of
        the global generator per fixing, or `ValueError` from `math.sqrt` at
        the first negative gap. */
    method GenFixings(spot: real, vol: real, r: real, div: real, rng: Random, m: Maths) returns (res: Result<seq<real>>)
      modifies rng
      ensures var g := GeneratedFixings(spot, spotMinimum, vol, r, div, fixingSchedule, m, old(rng.stream), old(rng.pos));
              res == g.result && rng.pos == g.pos
      ensures rng.stream == old(rng.stream)
    {
      var s := spot;
      if s <= 0.0 {
        s := spotMinimum;
      }
      var sFix: seq<real> := [];
      var tFix := fixingSchedule;
      ghost var z, p0 := rng.stream, rng.pos;
      var index := 0;
      while index < |tFix|
        invariant 0 <= index <= |tFix|
        invariant forall k :: 0 <= k < index ==> 0.0 <= Gap(tFix, k)
        invariant sFix == FixingsUpTo(s, vol, r, div, tFix, m, z, p0, index)
        invariant rng.pos == p0 + index
        invariant rng.stream == z
      {
        var t: real;
        var base: real;
        if index == 0 {
          t := tFix[index];
          base := s;
        } else {
          t := tFix[index] - tFix[index - 1];
          base := sFix[index - 1];
        }
        assert t == Gap(tFix, index);
        if t < 0.0 {
          FirstNegativeGapIs(tFix, 0, index);
          return Err(ValueError);
        }
        var sigma := m.sqrt(t);
        var draw := rng.NextGauss(0.0, sigma);
        var fix := Compound(base, r, div, vol, t, draw, m);
        FixingsStep(s, vol, r, div, tFix, m, z, p0, index, base, sFix, fix);
        sFix := sFix + [fix];
        index := index + 1;
      }
      assert index == |tFix|;
      return Ok(sFix);
    }

    /** One pass of the path loop of `pricer`: the fixings of path `i`, the
        walk over them, and the counters updated by the path's call and
        knock-in. It is path `i` of `Paths`, read where the generator is. */
    method SimulatePath(c: Contract, i: nat, spot: real, vol: real, rate: real, div: real, rng: Random, m: Maths,
                        ghost outs: seq<PathOutcome>, statCall0: seq<nat>, nKI0: nat)
      returns (r: Result<PathOutcome>, statCall: seq<nat>, nKI: nat)
      requires c == Terms() && |c.schedule| > 0
      requires statCall0 == CallCounts(outs, |c.schedule|) && nKI0 == KnockIns(outs)
      modifies rng
      ensures var p := PathRun(c, spotMinimum, Market(spot, vol, rate, div), m, old(rng.stream), old(rng.pos), i);
              r == p.result && rng.pos == p.pos
      ensures rng.stream == old(rng.stream)
      ensures r.Ok? ==> statCall == CallCounts(outs + [r.value], |c.schedule|) && nKI == KnockIns(outs + [r.value])
    {
      ghost var mk := Market(spot, vol, rate, div);
      ghost var start := rng.pos;
      var gen := GenFixings(spot, vol, rate, div, rng, m);
      if gen.Err? {
        assert PathRun(c, spotMinimum, mk, m, rng.stream, start, i) == Run(Err(gen.error), rng.pos);
        return Err(gen.error), statCall0, nKI0;
      }
      var sFix := gen.value;
      var walked;
      walked, statCall, nKI := FixingLoop(c, sFix, rate, i, m, statCall0, nKI0);
      if walked.Err? {
        assert PathRun(c, spotMinimum, mk, m, rng.stream, start, i) == Run(Err(walked.error), rng.pos);
        return Err(walked.error), statCall, nKI;
      }
      var payoff := walked.value.payoff + walked.value.dsPrincipal - c.principal;
      var o := PathOutcome(payoff, walked.value.call, walked.value.knockedIn);
      assert o == Settle(c, walked.value);
      assert PathRun(c, spotMinimum, mk, m, rng.stream, start, i) == Run(Ok(o), rng.pos);
      CountersNext(outs, o, |c.schedule|);
      match o.call {
        case NoCall =>
          assert CallCounts(outs + [o], |c.schedule|) == statCall;
        case CalledAt(j) =>
          assert CallCounts(outs + [o], |c.schedule|) == statCall;
      }
      return Ok(o), statCall, nKI;
    }

    /** The path loop of `pricer`: `nPaths` passes of `SimulatePath`, stopped
        by the first exception; on completion the payoffs and counters of
        `Paths`. */
    method PathLoop(c: Contract, nPaths: int, spot: real, vol: real, rate: real, div: real, rng: Random, m: Maths)
      returns (r: Result<seq<real>>, statCall: seq<nat>, nKI: nat)
      requires c == Terms() && |c.schedule| > 0
      modifies rng
      ensures var ps := Paths(c, spotMinimum, Market(spot, vol, rate, div), m, old(rng.stream), old(rng.pos),
                              if nPaths < 0 then 0 else nPaths);
              && rng.pos == ps.pos
              && (ps.result.Err? ==> r == Err(ps.result.error))
              && (ps.result.Ok? ==> r.Ok? && r.value == Nets(ps.result.value)
                                    && statCall == CallCounts(ps.result.value, |c.schedule|)
                                    && nKI == KnockIns(ps.result.value))
      ensures rng.stream == old(rng.stream)
    {
      ghost var mk := Market(spot, vol, rate, div);
      ghost var z := rng.stream;
      ghost var p0 := rng.pos;
      ghost var nn: nat := if nPaths < 0 then 0 else nPaths;
      var nFix := |c.schedule|;
      nKI := 0;
      statCall := seq(nFix, _ => 0);
      var payoffByPath: seq<real> := [];
      ghost var outs: seq<PathOutcome> := [];
      var i := 0;
      while i < nPaths
        invariant 0 <= i <= nn
        invariant Paths(c, spotMinimum, mk, m, z, p0, i) == Run(Ok(outs), rng.pos)
        invariant rng.stream == z
        invariant payoffByPath == Nets(outs)
        invariant statCall == CallCounts(outs, nFix) && nKI == KnockIns(outs)
      {
        var path;
        PathsExtend(c, spotMinimum, mk, m, z, p0, i, outs, rng.pos);
        path, statCall, nKI := SimulatePath(c, i, spot, vol, rate, div, rng, m, outs, statCall, nKI);
        if path.Err? {
          PathsErrorSticky(c, spotMinimum, mk, m, z, p0, i + 1, nn);
          return Err(path.error), statCall, nKI;
        }
        CountersNext(outs, path.value, nFix);
        payoffByPath := payoffByPath + [path.value.net];
        outs := outs + [path.value];
        i := i + 1;
      }
      assert i == nn;
      return Ok(payoffByPath), statCall, nKI;
    }

    /** `pricer`: reseeds the global generator when a seed is set, then
        prices `nPathsMc` paths; the price and the counters are those of
        `Price` on the stream the generator then yields. No field of the
        instance changes. */
    method Pricer(spot: real, vol: real, rate: real, div: real, rng: Random, m: Maths) returns (r: Result<Priced>)
      modifies rng
      ensures var z := if rndSeed.Some? then rng.fromSeed(rndSeed.value) else old(rng.stream);
              var p0 := if rndSeed.Some? then 0 else old(rng.pos);
              var run := Price(Terms(), nPathsMc, spotMinimum, Market(spot, vol, rate, div), m, z, p0);
              r == run.result && rng.pos == run.pos && rng.stream == z
    {
      var nPaths := nPathsMc;
      var rndseed := rndSeed;
      if rndseed.Some? {
        rng.Seed(rndseed.value);
      }
      ghost var z := rng.stream;
      ghost var p0 := rng.pos;
      ghost var mk := Market(spot, vol, rate, div);
      assert z == (if rndSeed.Some? then rng.fromSeed(rndSeed.value) else old(rng.stream));
      assert p0 == (if rndSeed.Some? then 0 else old(rng.pos));
      if |fixingSchedule| == 0 {
        assert Price(Terms(), nPathsMc, spotMinimum, mk, m, z, p0) == Run(Err(IndexError), p0);
        return Err(IndexError);
      }
      var bigT := fixingSchedule[|fixingSchedule| - 1];
      var c := Contract(coupon, principal, callLevel, barrier, strike, fixingSchedule);
      assert c == Terms() && bigT == Last(c.schedule);
      var payoffByPath, statCall, nKI := PathLoop(c, nPaths, spot, vol, rate, div, rng, m);
      ghost var ps := Paths(c, spotMinimum, mk, m, z, p0, if nPaths < 0 then 0 else nPaths);
      if payoffByPath.Err? {
        assert Price(c, nPaths, spotMinimum, mk, m, z, p0) == Run(Err(payoffByPath.error), rng.pos);
        return Err(payoffByPath.error);
      }
      if |payoffByPath.value| == 0 {
        assert Price(c, nPaths, spotMinimum, mk, m, z, p0) == Run(Err(StatisticsError), rng.pos);
        return Err(StatisticsError);
      }
      var price := Mean(payoffByPath.value);
      assert Price(c, nPaths, spotMinimum, mk, m, z, p0) == Run(Ok(Priced(price, statCall, nKI)), rng.pos);
      return Ok(Priced(price, statCall, nKI));
    }

    /** `self.pricer` as the valuation the sensitivities bump, for a seeded
        instance: every call reseeds, so the valuation is a function of its
        arguments. On an empty schedule it raises `IndexError`. */
    function PricerValuation(m: Maths, fromSeed: int -> (nat -> real)): (v: Valuation)
      reads this
      requires rndSeed.Some?
      ensures forall s, vol, rate, div :: v([], s, vol, rate, div) == Err(IndexError)
    {
      var cpn, n, cl, b, k := coupon, principal, callLevel, barrier, strike;
      var nPaths, floor, z := nPathsMc, spotMinimum, fromSeed(rndSeed.value);
      (t: seq<real>, s: real, vol: real, rate: real, div: real) =>
        var run := Price(Contract(cpn, n, cl, b, k, t), nPaths, floor, Market(s, vol, rate, div), m, z, 0);
        if run.result.Ok? then Ok(run.result.value.price) else Err(run.result.error)
    }

    /** `delta`: the forward difference of the valuation in spot, bumped by
        `deltaBump` (in percent or absolute) from the spot floored at
        `spotMinimum`. */
    function Delta(spot: real, vol: real, rate: real, div: real, model: Valuation): (r: Result<real>)
      reads this
      ensures var s := Floored(spot, spotMinimum);
              var up := Bumped(s, deltaBump, deltaBumpIsPercent);
              var base := model(fixingSchedule, s, vol, rate, div);
              var bumped := model(fixingSchedule, up, vol, rate, div);
              && (r.Ok? <==> base.Ok? && bumped.Ok? && up != s)
              && (r.Ok? ==> r.value * (up - s) == bumped.value - base.value)
    {
      var s := Floored(spot, spotMinimum);
      var price :- model(fixingSchedule, s, vol, rate, div);
      var spotUp := Bumped(s, deltaBump, deltaBumpIsPercent);
      var priceUp :- model(fixingSchedule, spotUp, vol, rate, div);
      Divide(priceUp - price, spotUp - s)
    }

    /** `gamma`: the central second difference in spot, bumped up and down
        by `gammaBump` from the spot floored at 0.0001. */
    function Gamma(spot: real, vol: real, rate: real, div: real, model: Valuation): (r: Result<real>)
      reads this
      ensures var s := Floored(spot, FixedSpotFloor);
              var up := Bumped(s, gammaBump, gammaBumpIsPercent);
              var down := BumpedDown(s, gammaBump, gammaBumpIsPercent);
              var base := model(fixingSchedule, s, vol, rate, div);
              var pu := model(fixingSchedule, up, vol, rate, div);
              var pd := model(fixingSchedule, down, vol, rate, div);
              && (r.Ok? <==> base.Ok? && pu.Ok? && pd.Ok? && Squared(up - s) != 0.0)
              && (r.Ok? ==> r.value * Squared(up - s) == pu.value + pd.value - 2.0 * base.value)
    {
      var s := Floored(spot, FixedSpotFloor);
      var price :- model(fixingSchedule, s, vol, rate, div);
      var spotUp := Bumped(s, gammaBump, gammaBumpIsPercent);
      var spotDown := BumpedDown(s, gammaBump, gammaBumpIsPercent);
      var priceUp :- model(fixingSchedule, spotUp, vol, rate, div);
      var priceDown :- model(fixingSchedule, spotDown, vol, rate, div);
      Divide(priceUp + priceDown - 2.0 * price, Squared(spotUp - s))
    }

    /** `vega`: the forward difference in volatility, bumped by `vegaBump`,
        at the spot floored at 0.0001. */
    function Vega(spot: real, vol: real, rate: real, div: real, model: Valuation): (r: Result<real>)
      reads this
      ensures var s := Floored(spot, FixedSpotFloor);
              var up := Bumped(vol, vegaBump, vegaBumpIsPercent);
              var base := model(fixingSchedule, s, vol, rate, div);
              var bumped := model(fixingSchedule, s, up, rate, div);
              && (r.Ok? <==> base.Ok? && bumped.Ok? && up != vol)
              && (r.Ok? ==> r.value * (up - vol) == bumped.value - base.value)
    {
      var s := Floored(spot, FixedSpotFloor);
      var price :- model(fixingSchedule, s, vol, rate, div);
      var volUp := Bumped(vol, vegaBump, vegaBumpIsPercent);
      var priceUp :- model(fixingSchedule, s, volUp, rate, div);
      Divide(priceUp - price, volUp - vol)
    }

    /** What `theta` returns when the instance holds `schedule`: the
        difference between the valuation on the shifted schedule and on
        `schedule`, per unit of `thetaBump`, divided by 365. */
    function ThetaValue(schedule: seq<real>, spot: real, vol: real, rate: real, div: real, model: Valuation): (r: Result<real>)
      reads this
      ensures var s := Floored(spot, FixedSpotFloor);
              var base := model(schedule, s, vol, rate, div);
              var shifted := model(Shifted(schedule, thetaBump), s, vol, rate, div);
              && (r.Ok? <==> base.Ok? && shifted.Ok? && thetaBump != 0.0)
              && (r.Ok? ==> r.value * 365.0 * thetaBump == shifted.value - base.value)
    {
      var s := Floored(spot, FixedSpotFloor);
      var price :- model(schedule, s, vol, rate, div);
      var priceShift :- model(Shifted(schedule, thetaBump), s, vol, rate, div);
      var q :- Divide(priceShift - price, thetaBump);
      Ok(q * 1.0 / 365.0)
    }

    /** `theta`: prices on the schedule, writes the shifted schedule into
        the field, prices again and restores the field. An exception of the
        second valuation or of the division leaves the shifted schedule in
        the field. */
    method Theta(spot: real, vol: real, rate: real, div: real, model: Valuation) returns (r: Result<real>)
      modifies this`fixingSchedule
      ensures r == ThetaValue(old(fixingSchedule), spot, vol, rate, div, model)
      ensures fixingSchedule == if r.Ok? || model(old(fixingSchedule), Floored(spot, FixedSpotFloor), vol, rate, div).Err?
                                then old(fixingSchedule)
                                else Shifted(old(fixingSchedule), thetaBump)
    {
      var s := spot;
      if s <= 0.0 {
        s := FixedSpotFloor;
      }
      var price := model(fixingSchedule, s, vol, rate, div);
      if price.Err? {
        return Err(price.error);
      }
      var bumpValue := thetaBump;
      var oldFixingTime := fixingSchedule;
      var newFixingTime: seq<real> := [];
      var k := 0;
      while k < |oldFixingTime|
        invariant 0 <= k <= |oldFixingTime|
        invariant newFixingTime == Shifted(oldFixingTime[..k], bumpValue)
      {
        var newTime := oldFixingTime[k] - bumpValue;
        if newTime > 0.0 {
          newFixingTime := newFixingTime + [newTime];
        }
        assert oldFixingTime[..k + 1][..k] == oldFixingTime[..k];
        k := k + 1;
      }
      assert oldFixingTime[..k] == oldFixingTime;
      fixingSchedule := newFixingTime;
      var priceShift := model(fixingSchedule, s, vol, rate, div);
      if priceShift.Err? {
        return Err(priceShift.error);
      }
      var q := Divide(priceShift.value - price.value, bumpValue);
      if q.Err? {
        return Err(q.error);
      }
      var thetaFd := q.value * 1.0 / 365.0;
      fixingSchedule := oldFixingTime;
      return Ok(thetaFd);
    }

    /** `theta` as evidently intended: the schedule is restored on every
        exit, as a `try`/`finally` around the second valuation would do. */
    method ThetaRestoring(spot: real, vol: real, rate: real, div: real, model: Valuation) returns (r: Result<real>)
      modifies this`fixingSchedule
      ensures r == ThetaValue(old(fixingSchedule), spot, vol, rate, div, model)
      ensures fixingSchedule == old(fixingSchedule)
    {
      var saved := fixingSchedule;
      r := Theta(spot, vol, rate, div, model);
      fixingSchedule := saved;
    }

    /** The `vanna` of a spot already floored, without `vannaDvega`: the
        difference of the deltas at `vol` and at the bumped volatility, per
        unit of volatility. */
    function VannaOfDeltas(s: real, vol: real, rate: real, div: real, model: Valuation): (r: Result<real>)
      reads this
      ensures var volUp := Bumped(vol, vegaBump, vegaBumpIsPercent);
              var d := Delta(s, vol, rate, div, model);
              var dUp := Delta(s, volUp, rate, div, model);
              && (r.Ok? <==> d.Ok? && dUp.Ok? && volUp != vol)
              && (r.Ok? ==> r.value * (volUp - vol) == dUp.value - d.value)
    {
      var delta :- Delta(s, vol, rate, div, model);
      var volUp := Bumped(vol, vegaBump, vegaBumpIsPercent);
      var deltaUp :- Delta(s, volUp, rate, div, model);
      Divide(deltaUp - delta, volUp - vol)
    }

    /** The `vanna` of a spot already floored, with `vannaDvega`, as written:
        the spot is bumped, but both vegas are taken at the unbumped spot, so
        whatever it returns is zero. */
    function VannaOfVegas(s: real, vol: real, rate: real, div: real, model: Valuation): (r: Result<real>)
      reads this
      ensures var spotUp := Bumped(s, deltaBump, deltaBumpIsPercent);
              && (r.Ok? <==> Vega(s, vol, rate, div, model).Ok? && spotUp != s)
              && (r.Ok? ==> r.value == 0.0)
    {
      var vega :- Vega(s, vol, rate, div, model);
      var spotUp := Bumped(s, deltaBump, deltaBumpIsPercent);
      // the second vega is the first call again, so it succeeds as well
      var vegaUp := Vega(s, vol, rate, div, model);
      Divide(vegaUp.value - vega, spotUp - s)
    }

    /** `vanna`: the difference of deltas in volatility, or, with
        `vannaDvega`, the difference of vegas in spot, at the spot floored at
        0.0001. The latter computes both vegas at the unbumped spot (see
        `VannaCorrected`). */
    function Vanna(spot: real, vol: real, rate: real, div: real, model: Valuation): (r: Result<real>)
      reads this
      ensures var s := Floored(spot, FixedSpotFloor);
              && (!vannaDvega ==> r == VannaOfDeltas(s, vol, rate, div, model))
              && (vannaDvega ==> r == VannaOfVegas(s, vol, rate, div, model))
    {
      var s := Floored(spot, FixedSpotFloor);
      if !vannaDvega then VannaOfDeltas(s, vol, rate, div, model) else VannaOfVegas(s, vol, rate, div, model)
    }

    /** `vanna` as evidently intended: with `vannaDvega`, the second vega is
        taken at the bumped spot. */
    function VannaCorrected(spot: real, vol: real, rate: real, div: real, model: Valuation): (r: Result<real>)
      reads this
      ensures !vannaDvega ==> r == Vanna(spot, vol, rate, div, model)
      ensures var s := Floored(spot, FixedSpotFloor);
              var spotUp := Bumped(s, deltaBump, deltaBumpIsPercent);
              var v := Vega(s, vol, rate, div, model);
              var vUp := Vega(spotUp, vol, rate, div, model);
              vannaDvega ==> (r.Ok? <==> v.Ok? && vUp.Ok? && spotUp != s)
                             && (r.Ok? ==> r.value * (spotUp - s) == vUp.value - v.value)
    {
      var s := Floored(spot, FixedSpotFloor);
      if !vannaDvega then Vanna(spot, vol, rate, div, model)
      else
        var vega :- Vega(s, vol, rate, div, model);
        var spotUp := Bumped(s, deltaBump, deltaBumpIsPercent);
        var vegaUp :- Vega(spotUp, vol, rate, div, model);
        Divide(vegaUp - vega, spotUp - s)
    }

    /** `volga`: the difference of vegas in volatility, at the spot floored
        at `spotMinimum`. */
    function Volga(spot: real, vol: real, rate: real, div: real, model: Valuation): (r: Result<real>)
      reads this
      ensures var s := Floored(spot, spotMinimum);
              var volUp := Bumped(vol, vegaBump, vegaBumpIsPercent);
              var v := Vega(s, vol, rate, div, model);
              var vUp := Vega(s, volUp, rate, div, model);
              && (r.Ok? <==> v.Ok? && vUp.Ok? && volUp != vol)
              && (r.Ok? ==> r.value * (volUp - vol) == vUp.value - v.value)
    {
      var s := Floored(spot, spotMinimum);
      var vega :- Vega(s, vol, rate, div, model);
      var volUp := Bumped(vol, vegaBump, vegaBumpIsPercent);
      var vegaUp :- Vega(s, volUp, rate, div, model);
      Divide(vegaUp - vega, volUp - vol)
    }

    /** `rho`: the forward difference in the rate, bumped by `rhoBump`,
        divided by a further 100. */
    function Rho(spot: real, vol: real, rate: real, div: real, model: Valuation): (r: Result<real>)
      reads this
      ensures var s := Floored(spot, spotMinimum);
              var base := model(fixingSchedule, s, vol, rate, div);
              var bumped := model(fixingSchedule, s, vol, rate + rhoBump, div);
              && (r.Ok? <==> base.Ok? && bumped.Ok? && rhoBump != 0.0)
              && (r.Ok? ==> r.value * 100.0 * rhoBump == bumped.value - base.value)
    {
      var s := Floored(spot, spotMinimum);
      var price :- model(fixingSchedule, s, vol, rate, div);
      var rateUp := rate + rhoBump;
      var priceUp :- model(fixingSchedule, s, vol, rateUp, div);
      var q :- Divide(priceUp - price, rateUp - rate);
      Ok(q / 100.0)
    }
  }
}
