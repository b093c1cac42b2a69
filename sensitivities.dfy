/** What the finite-difference sensitivities of `Autocall_CCBN` compute on
    valuations whose shape is known: each recovers the derivative it
    approximates exactly when the valuation is affine (or, for the second
    order ones, quadratic) in the bumped argument. */
module Sensitivities {
  import opened PyRuntime
  import opened FiniteDifference
  import opened Fixings
  import opened Autocall

  /** The valuation is `a + b * spot` on schedule `t`. */
  ghost predicate AffineInSpot(model: Valuation, t: seq<real>, vol: real, rate: real, div: real, a: real, b: real) {
    forall x :: model(t, x, vol, rate, div).Ok? && model(t, x, vol, rate, div).value == a + b * x
  }

  /** The valuation is `a + b * spot + q * spot ** 2` on schedule `t`. */
  ghost predicate QuadraticInSpot(model: Valuation, t: seq<real>, vol: real, rate: real, div: real, a: real, b: real, q: real) {
    forall x :: model(t, x, vol, rate, div).Ok? && model(t, x, vol, rate, div).value == a + b * x + q * Squared(x)
  }

  /** The valuation is `a + b * vol` at spot `s` on schedule `t`. */
  ghost predicate AffineInVol(model: Valuation, t: seq<real>, s: real, rate: real, div: real, a: real, b: real) {
    forall v :: model(t, s, v, rate, div).Ok? && model(t, s, v, rate, div).value == a + b * v
  }

  /** The valuation is `a + b * vol + q * vol ** 2` at spot `s` on schedule `t`. */
  ghost predicate QuadraticInVol(model: Valuation, t: seq<real>, s: real, rate: real, div: real, a: real, b: real, q: real) {
    forall v :: model(t, s, v, rate, div).Ok? && model(t, s, v, rate, div).value == a + b * v + q * Squared(v)
  }

  /** The valuation is `a + b * rate` at spot `s` on schedule `t`. */
  ghost predicate AffineInRate(model: Valuation, t: seq<real>, s: real, vol: real, div: real, a: real, b: real) {
    forall r :: model(t, s, vol, r, div).Ok? && model(t, s, vol, r, div).value == a + b * r
  }

  /** The valuation is `a + b * spot * vol` on schedule `t`: its cross
      derivative in spot and volatility is `b` everywhere. */
  ghost predicate BilinearInSpotVol(model: Valuation, t: seq<real>, rate: real, div: real, a: real, b: real) {
    forall x, v :: model(t, x, v, rate, div).Ok? && model(t, x, v, rate, div).value == a + b * (x * v)
  }

  /** The valuation is `a + b * T` at spot `s` on every non-empty schedule
      whose last fixing time (the maturity) is `T`. */
  ghost predicate LinearInMaturity(model: Valuation, s: real, vol: real, rate: real, div: real, a: real, b: real) {
    forall t: seq<real> :: |t| > 0 ==> model(t, s, vol, rate, div).Ok? && model(t, s, vol, rate, div).value == a + b * t[|t| - 1]
  }

  /** The central second difference of a quadratic is twice its leading
      coefficient times the squared step. */
  lemma SecondDifferenceOfQuadratic(a: real, b: real, q: real, s: real, h: real)
    ensures (a + b * (s + h) + q * Squared(s + h)) + (a + b * (s - h) + q * Squared(s - h)) - 2.0 * (a + b * s + q * Squared(s))
            == (2.0 * q) * Squared(h)
  {
    assert Squared(s + h) == s * s + 2.0 * s * h + h * h;
    assert Squared(s - h) == s * s - 2.0 * s * h + h * h;
    assert Squared(s + h) + Squared(s - h) - 2.0 * Squared(s) == 2.0 * Squared(h);
  }

  /** The forward difference of a quadratic over a step `h`. */
  lemma ForwardDifferenceOfQuadratic(a: real, b: real, q: real, v: real, h: real)
    ensures (a + b * (v + h) + q * Squared(v + h)) - (a + b * v + q * Squared(v)) == (b + q * (2.0 * v + h)) * h
  {
    assert Squared(v + h) == v * v + 2.0 * v * h + h * h;
    assert q * (2.0 * v * h + h * h) == q * (2.0 * v + h) * h;
  }

  /** `delta` of a valuation affine in spot is its slope. */
  lemma DeltaOfAffine(o: AutocallCcbn, spot: real, vol: real, rate: real, div: real, model: Valuation, a: real, b: real)
    requires o.deltaBump != 0.0 && (o.deltaBumpIsPercent ==> Floored(spot, o.spotMinimum) != 0.0)
    requires AffineInSpot(model, o.fixingSchedule, vol, rate, div, a, b)
    ensures var d := o.Delta(spot, vol, rate, div, model); d.Ok? && d.value == b
  {
    var s := Floored(spot, o.spotMinimum);
    var up := Bumped(s, o.deltaBump, o.deltaBumpIsPercent);
    BumpMoves(s, o.deltaBump, o.deltaBumpIsPercent);
    assert model(o.fixingSchedule, s, vol, rate, div).value == a + b * s;
    assert model(o.fixingSchedule, up, vol, rate, div).value == a + b * up;
    var d := o.Delta(spot, vol, rate, div, model);
    SecantOfAffine(d.value, s, up, a, b);
  }

  /** `gamma` of a valuation quadratic in spot is twice its leading
      coefficient, for a bump in percent as well as an absolute one. */
  lemma GammaOfQuadratic(o: AutocallCcbn, spot: real, vol: real, rate: real, div: real, model: Valuation,
                         a: real, b: real, q: real)
    requires o.gammaBump != 0.0
    requires QuadraticInSpot(model, o.fixingSchedule, vol, rate, div, a, b, q)
    ensures var g := o.Gamma(spot, vol, rate, div, model); g.Ok? && g.value == 2.0 * q
  {
    var s := Floored(spot, FixedSpotFloor);
    var up := Bumped(s, o.gammaBump, o.gammaBumpIsPercent);
    var down := BumpedDown(s, o.gammaBump, o.gammaBumpIsPercent);
    BumpMoves(s, o.gammaBump, o.gammaBumpIsPercent);
    SquaredPositive(up - s);
    var g := o.Gamma(spot, vol, rate, div, model);
    assert g.Ok?;
    SecondDifferenceOfModel(model, o.fixingSchedule, vol, rate, div, a, b, q, s, up, down, g.value);
  }

  /** A second difference quotient of a valuation quadratic in spot, over a
      symmetric pair of spots, is twice the leading coefficient. */
  lemma SecondDifferenceOfModel(model: Valuation, t: seq<real>, vol: real, rate: real, div: real,
                                a: real, b: real, q: real, s: real, up: real, down: real, g: real)
    requires QuadraticInSpot(model, t, vol, rate, div, a, b, q)
    requires up != s && up - s == s - down
    requires g * Squared(up - s)
             == model(t, up, vol, rate, div).value + model(t, down, vol, rate, div).value - 2.0 * model(t, s, vol, rate, div).value
    ensures g == 2.0 * q
  {
    var p0 := model(t, s, vol, rate, div).value;
    var pu := model(t, up, vol, rate, div).value;
    var pd := model(t, down, vol, rate, div).value;
    SecondDifferenceQuotient(g, a, b, q, s, up, down, pu, pd, p0);
  }

  /** A second difference quotient of the quadratic over a symmetric pair
      of points: the arithmetic of `GammaOfQuadratic`. */
  lemma SecondDifferenceQuotient(g: real, a: real, b: real, q: real, s: real, up: real, down: real,
                                 pu: real, pd: real, p0: real)
    requires up != s && up - s == s - down
    requires pu == a + b * up + q * Squared(up)
    requires pd == a + b * down + q * Squared(down)
    requires p0 == a + b * s + q * Squared(s)
    requires g * Squared(up - s) == pu + pd - 2.0 * p0
    ensures g == 2.0 * q
  {
    var h := up - s;
    assert up == s + h && down == s - h;
    SquaredPositive(h);
    SecondDifferenceOfQuadratic(a, b, q, s, h);
    Cancel(g, 2.0 * q, Squared(h));
  }

  /** `vega` of a valuation affine in volatility is its slope. */
  lemma VegaOfAffine(o: AutocallCcbn, spot: real, vol: real, rate: real, div: real, model: Valuation, a: real, b: real)
    requires o.vegaBump != 0.0 && (o.vegaBumpIsPercent ==> vol != 0.0)
    requires AffineInVol(model, o.fixingSchedule, Floored(spot, FixedSpotFloor), rate, div, a, b)
    ensures var v := o.Vega(spot, vol, rate, div, model); v.Ok? && v.value == b
  {
    var s := Floored(spot, FixedSpotFloor);
    var up := Bumped(vol, o.vegaBump, o.vegaBumpIsPercent);
    BumpMoves(vol, o.vegaBump, o.vegaBumpIsPercent);
    assert model(o.fixingSchedule, s, vol, rate, div).value == a + b * vol;
    assert model(o.fixingSchedule, s, up, rate, div).value == a + b * up;
    var v := o.Vega(spot, vol, rate, div, model);
    SecantOfAffine(v.value, vol, up, a, b);
  }

  /** `vega` of a valuation quadratic in volatility, under an absolute
      bump `h`: the slope of the chord from `vol` to `vol + h`. */
  lemma VegaOfQuadratic(o: AutocallCcbn, spot: real, vol: real, rate: real, div: real, model: Valuation,
                        a: real, b: real, q: real)
    requires o.vegaBump != 0.0 && !o.vegaBumpIsPercent
    requires QuadraticInVol(model, o.fixingSchedule, Floored(spot, FixedSpotFloor), rate, div, a, b, q)
    ensures var v := o.Vega(spot, vol, rate, div, model); v.Ok? && v.value == b + q * (2.0 * vol + o.vegaBump)
  {
    var s := Floored(spot, FixedSpotFloor);
    var h := o.vegaBump;
    assert model(o.fixingSchedule, s, vol, rate, div).value == a + b * vol + q * Squared(vol);
    assert model(o.fixingSchedule, s, vol + h, rate, div).value == a + b * (vol + h) + q * Squared(vol + h);
    ForwardDifferenceOfQuadratic(a, b, q, vol, h);
    var v := o.Vega(spot, vol, rate, div, model);
    Cancel(v.value, b + q * (2.0 * vol + h), h);
  }

  /** `volga` of a valuation quadratic in volatility, under an absolute
      bump, is twice its leading coefficient. */
  lemma VolgaOfQuadratic(o: AutocallCcbn, spot: real, vol: real, rate: real, div: real, model: Valuation,
                         a: real, b: real, q: real)
    requires o.vegaBump != 0.0 && !o.vegaBumpIsPercent
    requires QuadraticInVol(model, o.fixingSchedule, Floored(Floored(spot, o.spotMinimum), FixedSpotFloor), rate, div, a, b, q)
    ensures var v := o.Volga(spot, vol, rate, div, model); v.Ok? && v.value == 2.0 * q
  {
    var s := Floored(spot, o.spotMinimum);
    VegaDefinedOfQuadratic(o, s, vol, rate, div, model, a, b, q);
    VegaDefinedOfQuadratic(o, s, Bumped(vol, o.vegaBump, o.vegaBumpIsPercent), rate, div, model, a, b, q);
    var v := o.Volga(spot, vol, rate, div, model);
    VolgaOfModel(o, s, vol, rate, div, model, a, b, q, v.value);
  }

  /** `vega` of a valuation quadratic in volatility, absolute bump, is defined. */
  lemma VegaDefinedOfQuadratic(o: AutocallCcbn, spot: real, vol: real, rate: real, div: real, model: Valuation,
                               a: real, b: real, q: real)
    requires o.vegaBump != 0.0 && !o.vegaBumpIsPercent
    requires QuadraticInVol(model, o.fixingSchedule, Floored(spot, FixedSpotFloor), rate, div, a, b, q)
    ensures o.Vega(spot, vol, rate, div, model).Ok?
  {
    VegaOfQuadratic(o, spot, vol, rate, div, model, a, b, q);
  }

  /** The secant in volatility of the vegas of a valuation quadratic in
      volatility, absolute bump, is twice its leading coefficient. */
  lemma VolgaOfModel(o: AutocallCcbn, s: real, vol: real, rate: real, div: real, model: Valuation,
                     a: real, b: real, q: real, g: real)
    requires o.vegaBump != 0.0 && !o.vegaBumpIsPercent
    requires QuadraticInVol(model, o.fixingSchedule, Floored(s, FixedSpotFloor), rate, div, a, b, q)
    requires o.Vega(s, vol, rate, div, model).Ok?
    requires o.Vega(s, Bumped(vol, o.vegaBump, o.vegaBumpIsPercent), rate, div, model).Ok?
    requires g * (Bumped(vol, o.vegaBump, o.vegaBumpIsPercent) - vol)
             == o.Vega(s, Bumped(vol, o.vegaBump, o.vegaBumpIsPercent), rate, div, model).value
                - o.Vega(s, vol, rate, div, model).value
    ensures g == 2.0 * q
  {
    var h := o.vegaBump;
    assert Bumped(vol, h, false) == vol + h;
    VegaOfQuadratic(o, s, vol, rate, div, model, a, b, q);
    VegaOfQuadratic(o, s, vol + h, rate, div, model, a, b, q);
    ChordSlopesDiffer(g, b, q, vol, h, o.Vega(s, vol, rate, div, model).value,
                      o.Vega(s, vol + h, rate, div, model).value);
  }

  /** The slopes of the chords of a quadratic from `vol` and from `vol + h`
      differ by `2 * q * h`: the arithmetic of `VolgaOfQuadratic`. */
  lemma ChordSlopesDiffer(g: real, b: real, q: real, vol: real, h: real, v0: real, v1: real)
    requires h != 0.0
    requires v0 == b + q * (2.0 * vol + h) && v1 == b + q * (2.0 * (vol + h) + h)
    requires g * ((vol + h) - vol) == v1 - v0
    ensures g == 2.0 * q
  {
    assert v1 - v0 == (2.0 * q) * h;
    Cancel(g, 2.0 * q, h);
  }

  /** `rho` of a valuation affine in the rate is its slope, in units of
      one percentage point. */
  lemma RhoOfAffine(o: AutocallCcbn, spot: real, vol: real, rate: real, div: real, model: Valuation, a: real, b: real)
    requires o.rhoBump != 0.0
    requires AffineInRate(model, o.fixingSchedule, Floored(spot, o.spotMinimum), vol, div, a, b)
    ensures var r := o.Rho(spot, vol, rate, div, model); r.Ok? && r.value == b / 100.0
  {
    var s := Floored(spot, o.spotMinimum);
    assert model(o.fixingSchedule, s, vol, rate, div).value == a + b * rate;
    assert model(o.fixingSchedule, s, vol, rate + o.rhoBump, div).value == a + b * (rate + o.rhoBump);
    var r := o.Rho(spot, vol, rate, div, model);
    SecantOfAffine(r.value * 100.0, rate, rate + o.rhoBump, a, b);
  }

  /** `theta` of a valuation linear in the maturity, on a schedule none of
      whose times expires under the bump, is minus the slope per day. */
  lemma ThetaOfLinearMaturity(o: AutocallCcbn, schedule: seq<real>, spot: real, vol: real, rate: real, div: real,
                              model: Valuation, a: real, b: real)
    requires |schedule| > 0 && o.thetaBump != 0.0
    requires forall k :: 0 <= k < |schedule| ==> o.thetaBump < schedule[k]
    requires LinearInMaturity(model, Floored(spot, FixedSpotFloor), vol, rate, div, a, b)
    ensures var r := o.ThetaValue(schedule, spot, vol, rate, div, model); r.Ok? && r.value == -b / 365.0
  {
    var s := Floored(spot, FixedSpotFloor);
    var shifted := Shifted(schedule, o.thetaBump);
    ShiftedAllLive(schedule, o.thetaBump);
    var r := o.ThetaValue(schedule, spot, vol, rate, div, model);
    assert r.Ok?;
    ThetaOfModel(model, schedule, shifted, s, vol, rate, div, a, b, o.thetaBump, r.value);
  }

  /** The shift quotient of a valuation linear in the maturity, for a
      schedule and its shift by `bump`. */
  lemma ThetaOfModel(model: Valuation, schedule: seq<real>, shifted: seq<real>, s: real, vol: real, rate: real,
                     div: real, a: real, b: real, bump: real, q: real)
    requires LinearInMaturity(model, s, vol, rate, div, a, b)
    requires |schedule| > 0 && |shifted| > 0 && bump != 0.0
    requires shifted[|shifted| - 1] == schedule[|schedule| - 1] - bump
    requires q * 365.0 * bump == model(shifted, s, vol, rate, div).value - model(schedule, s, vol, rate, div).value
    ensures q == -b / 365.0
  {
    var last := schedule[|schedule| - 1];
    var p0 := model(schedule, s, vol, rate, div).value;
    var p1 := model(shifted, s, vol, rate, div).value;
    assert p0 == a + b * last;
    assert p1 == a + b * (last - bump);
    ShiftQuotient(q, a, b, last, bump, p0, p1);
  }

  /** The arithmetic of `ThetaOfLinearMaturity`. */
  lemma ShiftQuotient(q: real, a: real, b: real, last: real, bump: real, p0: real, p1: real)
    requires bump != 0.0
    requires p0 == a + b * last && p1 == a + b * (last - bump)
    requires q * 365.0 * bump == p1 - p0
    ensures q == -b / 365.0
  {
    assert p1 - p0 == (-b) * bump;
    Cancel(q * 365.0, -b, bump);
  }

  /** On a schedule whose every time is at most the theta bump (a note one
      day from maturity), the instance's own seeded pricer finds no fixing
      left after the shift and `theta` raises `IndexError` once the first
      valuation has succeeded. */
  lemma ThetaOnExpiredSchedule(o: AutocallCcbn, m: Maths, fromSeed: int -> (nat -> real),
                               spot: real, vol: real, rate: real, div: real)
    requires o.rndSeed.Some?
    requires forall k :: 0 <= k < |o.fixingSchedule| ==> o.fixingSchedule[k] <= o.thetaBump
    ensures var v := o.PricerValuation(m, fromSeed);
            var base := v(o.fixingSchedule, Floored(spot, FixedSpotFloor), vol, rate, div);
            var r := o.ThetaValue(o.fixingSchedule, spot, vol, rate, div, v);
            && Shifted(o.fixingSchedule, o.thetaBump) == []
            && r.Err?
            && (base.Ok? ==> r.error == IndexError)
  {
    ShiftedAllExpired(o.fixingSchedule, o.thetaBump);
  }

  /** `delta` of a bilinear valuation at volatility `v` is `b * v`. */
  lemma DeltaOfBilinear(o: AutocallCcbn, s: real, v: real, rate: real, div: real, model: Valuation, a: real, b: real)
    requires 0.0 < s && o.deltaBump != 0.0
    requires BilinearInSpotVol(model, o.fixingSchedule, rate, div, a, b)
    ensures var d := o.Delta(s, v, rate, div, model); d.Ok? && d.value == b * v
  {
    var up := Bumped(s, o.deltaBump, o.deltaBumpIsPercent);
    BumpMoves(s, o.deltaBump, o.deltaBumpIsPercent);
    assert model(o.fixingSchedule, s, v, rate, div).value == a + (b * v) * s;
    assert model(o.fixingSchedule, up, v, rate, div).value == a + (b * v) * up;
    var d := o.Delta(s, v, rate, div, model);
    SecantOfAffine(d.value, s, up, a, b * v);
  }

  /** `vega` of a bilinear valuation at spot `s` is `b * s`. */
  lemma VegaOfBilinear(o: AutocallCcbn, s: real, vol: real, rate: real, div: real, model: Valuation, a: real, b: real)
    requires 0.0 < s && o.vegaBump != 0.0 && (o.vegaBumpIsPercent ==> vol != 0.0)
    requires BilinearInSpotVol(model, o.fixingSchedule, rate, div, a, b)
    ensures var g := o.Vega(s, vol, rate, div, model); g.Ok? && g.value == b * s
  {
    var up := Bumped(vol, o.vegaBump, o.vegaBumpIsPercent);
    BumpMoves(vol, o.vegaBump, o.vegaBumpIsPercent);
    assert model(o.fixingSchedule, s, vol, rate, div).value == a + (b * s) * vol;
    assert model(o.fixingSchedule, s, up, rate, div).value == a + (b * s) * up;
    var g := o.Vega(s, vol, rate, div, model);
    SecantOfAffine(g.value, vol, up, a, b * s);
  }

  /** Without `vannaDvega`, `vanna` of a bilinear valuation is its cross
      derivative `b`. */
  lemma VannaOfBilinear(o: AutocallCcbn, spot: real, vol: real, rate: real, div: real, model: Valuation, a: real, b: real)
    requires !o.vannaDvega
    requires o.deltaBump != 0.0 && o.vegaBump != 0.0 && (o.vegaBumpIsPercent ==> vol != 0.0)
    requires BilinearInSpotVol(model, o.fixingSchedule, rate, div, a, b)
    ensures var r := o.Vanna(spot, vol, rate, div, model); r.Ok? && r.value == b
  {
    var s := Floored(spot, FixedSpotFloor);
    var volUp := Bumped(vol, o.vegaBump, o.vegaBumpIsPercent);
    BumpMoves(vol, o.vegaBump, o.vegaBumpIsPercent);
    DeltaOfBilinear(o, s, vol, rate, div, model, a, b);
    DeltaOfBilinear(o, s, volUp, rate, div, model, a, b);
    var r := o.Vanna(spot, vol, rate, div, model);
    SecantOfAffine(r.value, vol, volUp, 0.0, b);
  }

  /** With `vannaDvega`, `vanna` as written is zero for a bilinear
      valuation whatever its cross derivative `b`: both vegas are taken at
      the same spot. */
  lemma VannaDvegaVanishes(o: AutocallCcbn, spot: real, vol: real, rate: real, div: real, model: Valuation, a: real, b: real)
    requires o.vannaDvega
    requires o.deltaBump != 0.0 && o.vegaBump != 0.0 && (o.vegaBumpIsPercent ==> vol != 0.0)
    requires BilinearInSpotVol(model, o.fixingSchedule, rate, div, a, b)
    ensures var r := o.Vanna(spot, vol, rate, div, model); r.Ok? && r.value == 0.0
  {
    var s := Floored(spot, FixedSpotFloor);
    BumpMoves(s, o.deltaBump, o.deltaBumpIsPercent);
    VegaOfBilinear(o, s, vol, rate, div, model, a, b);
  }

  /** With `vannaDvega`, the corrected `vanna` of a bilinear valuation is
      its cross derivative `b`, as without it. */
  lemma VannaCorrectedOfBilinear(o: AutocallCcbn, spot: real, vol: real, rate: real, div: real, model: Valuation,
                                 a: real, b: real)
    requires o.vannaDvega
    requires 0.0 < o.deltaBump && o.vegaBump != 0.0 && (o.vegaBumpIsPercent ==> vol != 0.0)
    requires BilinearInSpotVol(model, o.fixingSchedule, rate, div, a, b)
    ensures var r := o.VannaCorrected(spot, vol, rate, div, model); r.Ok? && r.value == b
  {
    var s := Floored(spot, FixedSpotFloor);
    var spotUp := Bumped(s, o.deltaBump, o.deltaBumpIsPercent);
    SpotBumpedUp(s, o.deltaBump, o.deltaBumpIsPercent);
    VegaOfBilinear(o, s, vol, rate, div, model, a, b);
    VegaOfBilinear(o, spotUp, vol, rate, div, model, a, b);
    VannaCorrectedSecant(o, spot, vol, rate, div, model);
    var r := o.VannaCorrected(spot, vol, rate, div, model);
    SecantOfLinear(r.value, s, spotUp, o.Vega(s, vol, rate, div, model).value,
                   o.Vega(spotUp, vol, rate, div, model).value, b);
  }

  /** A positive spot bumped up by a positive bump stays positive and moves. */
  lemma SpotBumpedUp(s: real, bump: real, isPercent: bool)
    requires 0.0 < s && 0.0 < bump
    ensures 0.0 < Bumped(s, bump, isPercent) && Bumped(s, bump, isPercent) != s
  {
    BumpMoves(s, bump, isPercent);
    if isPercent {
      PositiveProduct(s, bump);
    }
  }

  /** The corrected `vanna` with `vannaDvega` is the secant in spot of the two vegas. */
  lemma VannaCorrectedSecant(o: AutocallCcbn, spot: real, vol: real, rate: real, div: real, model: Valuation)
    requires o.vannaDvega
    ensures var s := Floored(spot, FixedSpotFloor);
            var spotUp := Bumped(s, o.deltaBump, o.deltaBumpIsPercent);
            var v := o.Vega(s, vol, rate, div, model);
            var vUp := o.Vega(spotUp, vol, rate, div, model);
            var r := o.VannaCorrected(spot, vol, rate, div, model);
            && (r.Ok? <==> v.Ok? && vUp.Ok? && spotUp != s)
            && (r.Ok? ==> r.value * (spotUp - s) == vUp.value - v.value)
  {
  }
}
