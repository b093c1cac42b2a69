# Autocallable note pricer: a Dafny model

This project models the pricing core of an autocallable contingent-coupon
barrier note, together with the skeleton of a C++ Monte Carlo engine.

**The Python class `Autocall_CCBN`** (`Autocall_pricer.py`) stores:

- the terms of the note: coupon, principal, call level, barrier, strike and
  fixing schedule;
- the settings of its Monte Carlo pricer and of its finite-difference
  sensitivities.

It works in three steps:

- `gen_fixings` simulates one lognormal path sampled at the fixing times,
  drawing one Gaussian variate per fixing from the global generator.
- `pricer` reseeds the generator and walks the fixings of each path:
  - below the call level but at or above the barrier, a coupon is paid;
  - below the barrier, the coupon is missed, and at the last fixing the note
    knocks in;
  - at or above the call level, the note is called and the walk stops.

  The price is the mean net payoff over the paths. The call and knock-in
  counters are what its debug report prints.
- `delta`, `gamma`, `vega`, `theta`, `vanna`, `volga` and `rho` bump one
  argument of a valuation and take difference quotients.

**The C++ part** (`C++/Monte_carlo_pricer/Model.cpp`, `PathSimulator.cpp`)
contains:

- the diffusion models `Model`, `BlackScholesModel` and
  `DupireLocalVolatility`;
- a path simulator that pushes one step of `nextStep` per later time point.

The modules follow the program's structure:

- `PyRuntime`: Python's exceptions as a `Result`, the global `random`
  generator as a class with a position in an abstract stream of standard
  normals, and `math.exp` / `math.sqrt` as parameters.
- `Fixings`: `gen_fixings` as a function of the stream. Its loop is in
  `Autocall.AutocallCcbn.GenFixings`.
- `Payoff`: the per-path walk over the fixings, the state machine of the
  inner loop of `pricer`. A closed-form reference says what a path pays.
- `MonteCarlo`: the paths one after another, the counters, the mean and the
  debug percentages.
- `FiniteDifference`: bumps, guarded division and the theta shift of the
  schedule.
- `Autocall`: the class `AutocallCcbn` with the fields of `__init__`. Its
  methods (`GenFixings`, `Pricer`, `Theta`) carry the loops of the source
  and are proved against the functions above. The sensitivities that only
  compute are functions that read the instance.
- `Sensitivities`: what each sensitivity returns on valuations of known
  shape, such as affine, quadratic or bilinear ones.
- `Models`, `PathSimulation`: the two C++ files.

A valuation is `(schedule, spot, vol, rate, div) -> Result<real>`. The
schedule is the field the instance holds at the moment of the call, so the
temporary overwrite in `theta` is visible. For an instance with a seed,
`pricer` reseeds on every call (`Autocall_pricer.py:68-69`), so it is such a
function (`PricerValuation`). Without a seed, each valuation inside a
sensitivity reads fresh variates of the one global generator, and the
source's sensitivity is then not a function of its arguments; the model of
the sensitivities covers the deterministic, seeded case only (see
"## Left out").

Two readings of the code that a reader may expect otherwise:

- The comment at `Autocall_pricer.py:97` ("pay nothing but i increase as
  we will the missed coupon") hints at a memory coupon that pays missed
  coupons back once the barrier is met again. The code counts
  `missed_coupon` up at `:97` and resets it at `:94`, but never reads it.
  The coupons at `:93` and the redemption at `:103` multiply by the path
  index `i`. The model multiplies by `i`, as the code does.
  `Payoff.WalkMatchesReference` proves that `missed_coupon` has no effect
  on the cash flows, and `Payoff.PathZeroEarnsNoCoupon` that path 0 earns
  no coupon at all.
- `theta` writes the shifted schedule into the instance at `:205` and
  writes the original back at `:208`, which happens only on a normal
  return from the second valuation and the division (see Findings).

Other behaviour of the code, kept as written:

- The call redemption `N * (1 + coupon * i)` is added undiscounted.
- The spot floor is `_spot_minimum` (`10e-6`, that is 0.00001) in
  `gen_fixings`, `delta`, `volga` and `rho`, and the literal 0.0001 in
  `gamma`, `vega`, `theta` and `vanna`.
- `pricer` reads `fixing_schedule[-1]` before the path loop. An empty
  schedule therefore raises `IndexError` even for zero paths. Zero paths on
  a non-empty schedule raise `StatisticsError` from `statistics.mean`.
- A knock-in with strike 0 raises `ZeroDivisionError`. A negative gap in the
  schedule raises `ValueError` from `math.sqrt`, after the variates of the
  earlier fixings have been drawn.
- `BlackScholesModel::operator=` has no return statement. The model's
  `Assign` returns nothing.

## Model

| member | source | states |
|---|---|---|
| PyRuntime.Random.Seed | Autocall_pricer.py:68-69 | after `random.seed(s)` the generator reads the stream of that seed from its start |
| PyRuntime.Gauss | Autocall_pricer.py:54 | `random.gauss(mu, sigma)` from a standard normal variate `z` is `mu` when `sigma` or `z` is zero |
| PyRuntime.Random.NextGauss | Autocall_pricer.py:54 | `random.gauss(mu, sigma)` is `mu + z * sigma` for the next standard normal `z` of the stream, and it advances the stream by one |
| Fixings.Floored | Autocall_pricer.py:46-47 | a positive spot is kept and a non-positive one becomes the floor; the result is positive when the spot or the floor is |
| Fixings.Compound | Autocall_pricer.py:54 | definition: the step `base * exp((r - div - vol**2 / 2) * t + vol * draw)` of lines 54 and 58; its properties are `Fixings.CompoundSign` |
| Fixings.CompoundSign | Autocall_pricer.py:54 | with `exp` positive, a step keeps a positive base positive; a zero base stays zero |
| Fixings.Gap | Autocall_pricer.py:52-56 | definition: the time step `t` of `gen_fixings`, `t[0]` for the first fixing and `t[k] - t[k-1]` after it; its properties are `Fixings.FirstNegativeGap` and `Fixings.OrderedScheduleGenerates` |
| Fixings.FirstNegativeGap | Autocall_pricer.py:50-58 | the first fixing whose time gap (`t[0]`, then `t[k] - t[k-1]`) is negative: all earlier gaps are non-negative and that one is negative, or there is none |
| Fixings.FixingsUpTo | Autocall_pricer.py:50-59 | the first `n` fixings of a path: exactly `n` values |
| Fixings.GeneratedFixings | Autocall_pricer.py:42-60 | a successful `gen_fixings` yields one fixing per schedule entry |
| Fixings.FixingsPrefix | Autocall_pricer.py:50-59 | computing fewer fixings gives a prefix of the same path |
| Fixings.FixingAt | Autocall_pricer.py:51-58 | fixing 0 compounds the spot over `t[0]`; fixing `k` compounds fixing `k-1` over the gap, driven by variate `pos + k` with standard deviation `sqrt(gap)` |
| Fixings.FixingsPositive | Autocall_pricer.py:54-58 | with a positive start and a positive `exp`, every fixing is positive |
| Fixings.GeneratedFixingsShape | Autocall_pricer.py:42-60 | `gen_fixings` succeeds iff every gap is non-negative; otherwise it raises `ValueError` after drawing fewer than `len(t)` variates; on success it draws exactly `len(t)` variates and yields `len(t)` positive fixings |
| Fixings.OrderedScheduleGenerates | Autocall_pricer.py:50-58 | a schedule that starts at a non-negative time and never decreases always generates |
| Payoff.Discount | Autocall_pricer.py:90 | definition: the discount factor `exp(-rate * t)` of lines 87, 90 and 104; positivity in `Payoff.DiscountPositive` |
| Payoff.DiscountPositive | Autocall_pricer.py:90 | with `exp` positive, every discount factor is positive |
| Payoff.CouponPaid | Autocall_pricer.py:93 | definition: the discounted coupon `df * N * coupon * i`, by the path index; its properties are `Payoff.CashFlows` |
| Payoff.CallRedemption | Autocall_pricer.py:103 | definition: the undiscounted redemption `N * (1 + coupon * i)`; its properties are `Payoff.CashFlows` |
| Payoff.KnockInLoss | Autocall_pricer.py:99 | definition: `(s - K) / K * N`, for a non-zero strike; its properties are `Payoff.CashFlows` |
| Payoff.CashFlows | Autocall_pricer.py:92-103 | path 0 earns no coupon and redeems the bare principal; with non-negative terms a coupon is never negative and a redemption never below the principal; a knock-in loss plus the principal is `s / K * N`, and never a gain at or below a positive strike |
| Payoff.InitialState | Autocall_pricer.py:84-87 | definition: nothing paid, `missed_coupon = 1`, the principal discounted from maturity, no event |
| Payoff.Walk | Autocall_pricer.py:89-105 | definition: the fixing loop as a state machine, one fixing per step, with the three comparisons and the `break` on a call; its properties are `Payoff.WalkEvents`, `Payoff.WalkFrom` and `Autocall.FixingLoop` |
| Payoff.WalkEvents | Autocall_pricer.py:89-105 | from an event-free state, the only exception is the division by a zero strike at a last fixing below the call level and the barrier; a call happens at a fixing at or above the call level; a knock-in leaves the path uncalled with the last fixing below the barrier |
| Payoff.Settle | Autocall_pricer.py:107 | definition: the net payoff `payoff + ds_principal - N`, with the call and knock-in events of the path |
| Payoff.FirstAtOrAbove | Autocall_pricer.py:91-105 | the first fixing at or above a level: all before it lie below, and it reaches the level (or there is none) |
| Payoff.WalkFrom | Autocall_pricer.py:89-105 | from any event-free state, the fixing loop either calls at the first fixing at or above the call level, with the coupons before it and an undiscounted redemption, or runs to the end, knocking in iff the last fixing is below the barrier |
| Payoff.WalkMatchesReference | Autocall_pricer.py:84-107 | the fixing loop's cash flows equal the closed-form reference (call at the first hit, coupons where barrier <= fixing < call level, knock-in loss), so `missed_coupon` never affects them |
| Payoff.CallIsFirstHit | Autocall_pricer.py:91-105 | a path is called at `j` iff fixing `j` is the first at or above the call level |
| Payoff.KnockInCondition | Autocall_pricer.py:91-100 | the loop fails iff the path is uncalled, ends below the barrier and the strike is 0, and then with `ZeroDivisionError`; it knocks in iff uncalled and the last fixing is below the barrier; a knocked-in path is never called |
| Payoff.CouponsOfPathZero | Autocall_pricer.py:93 | every coupon of path 0 is zero |
| Payoff.PathZeroEarnsNoCoupon | Autocall_pricer.py:93-103 | path 0 pays the bare principal when called, only the knock-in loss when knocked in, nothing otherwise |
| MonteCarlo.PathRun | Autocall_pricer.py:83-108 | one path draws at most one variate per fixing, and exactly one per fixing when it completes |
| MonteCarlo.Paths | Autocall_pricer.py:82-108 | a completed run of `n` paths has `n` outcomes and never moves the generator back |
| MonteCarlo.Nets | Autocall_pricer.py:107-108 | `payoff_by_path` holds each path's net payoff, in path order |
| MonteCarlo.CallCounts | Autocall_pricer.py:79-102 | `stat_call` has one counter per fixing |
| MonteCarlo.KnockIns | Autocall_pricer.py:78-100 | `n_KI` never exceeds the number of paths |
| MonteCarlo.Mean | Autocall_pricer.py:110 | the mean times the number of payoffs is their sum |
| MonteCarlo.Price | Autocall_pricer.py:62-110 | a priced run has one call counter per fixing |
| MonteCarlo.Percentage | Autocall_pricer.py:114-115 | `count / n_paths * 100` times `n_paths` is `count * 100`, for a positive `n_paths` |
| MonteCarlo.Percentages | Autocall_pricer.py:117-118 | the call counters as percentages: one entry per counter, each `Percentage` of its own counter |
| MonteCarlo.DebugReport | Autocall_pricer.py:112-122 | each call percentage, the no-call percentage and the knock-in percentage are the counts over `n_paths` times 100 |
| MonteCarlo.CountersNext | Autocall_pricer.py:100-108 | one more path appends its net payoff, adds one to the counter of its call fixing, if any, and adds one to `n_KI` if it knocked in |
| MonteCarlo.PathRunWellFormed | Autocall_pricer.py:89-105 | a completed path is called, if at all, at a fixing of the schedule, and is never both called and knocked in |
| MonteCarlo.PathsNext | Autocall_pricer.py:82-108 | the run of `n + 1` paths is the run of `n` followed by path `n` on the next variates, or its exception |
| MonteCarlo.PathsErrorSticky | Autocall_pricer.py:82-83 | the first exception ends the path loop: longer runs fail the same way at the same position |
| MonteCarlo.PathsPosition | Autocall_pricer.py:82-83 | a completed run of `n` paths has drawn `n * len(schedule)` variates |
| MonteCarlo.PathsPrefix | Autocall_pricer.py:82-108 | the first `k` paths of a completed run are the run of `k` paths |
| MonteCarlo.PathsIndexed | Autocall_pricer.py:82-108 | path `k` of a completed run is path `k` read at variate `pos + k * len(schedule)` |
| MonteCarlo.PathsWellFormed | Autocall_pricer.py:82-108 | every path of a completed run is well formed |
| MonteCarlo.PathsComplete | Autocall_pricer.py:82-108 | with no negative gap and a non-zero strike, every run of paths completes |
| MonteCarlo.PathsNeedGaps | Autocall_pricer.py:50-58 | a completed run of at least one path implies no negative gap |
| MonteCarlo.PathsCause | Autocall_pricer.py:53-99 | a failed run raises `ValueError` only for a negative gap, `ZeroDivisionError` only for strike 0, and nothing else |
| MonteCarlo.PathsFailOnNegativeGap | Autocall_pricer.py:53-58 | with a negative gap, path 0's `gen_fixings` raises `ValueError` and so does every run of at least one path |
| MonteCarlo.PathsValueErrorExactly | Autocall_pricer.py:53-58 | a run of paths raises `ValueError` iff it has a path and the schedule a negative gap; a `ZeroDivisionError` comes from a schedule with no negative gap |
| MonteCarlo.PriceOutcome | Autocall_pricer.py:62-110 | `pricer` raises `IndexError` iff the schedule is empty, `StatisticsError` iff the schedule is non-empty and there are no paths, `ValueError` iff the schedule is non-empty, there is a path and some gap is negative, `ZeroDivisionError` only for strike 0 on a schedule without a negative gap; a price implies a non-empty schedule, at least one path and no negative gap, and these with a non-zero strike guarantee one |
| MonteCarlo.CountsBound | Autocall_pricer.py:100-102 | over well-formed paths, calls plus knock-ins never exceed the number of paths |
| MonteCarlo.PricedCounts | Autocall_pricer.py:114 | in a priced run, `sum(stat_call) + n_KI <= n_paths`, so `path_no_call` is non-negative |
| MonteCarlo.ReportBounds | Autocall_pricer.py:114-119 | every debug percentage of a priced run lies in [0, 100], and the knock-in percentage never exceeds the no-call percentage |
| MonteCarlo.MeanWithin | Autocall_pricer.py:110 | a mean of values within [lo, hi] lies within [lo, hi] |
| MonteCarlo.PriceWithin | Autocall_pricer.py:107-110 | the price lies between the least and the greatest net payoff of the paths |
| FiniteDifference.Bumped | Autocall_pricer.py:136-141 | a percent bump moves `x` by `x * bump / 100`, an absolute one by `bump` |
| FiniteDifference.BumpedDown | Autocall_pricer.py:157-162 | the down bump moves by the same amount in the other direction |
| FiniteDifference.Divide | Autocall_pricer.py:143 | float division succeeds iff the divisor is non-zero, otherwise raises `ZeroDivisionError`; quotient times divisor is the dividend |
| FiniteDifference.Squared | Autocall_pricer.py:166 | definition: the squared spot move `(spot_up - spot) ** 2`; positivity in `FiniteDifference.SquaredPositive` |
| FiniteDifference.SquaredPositive | Autocall_pricer.py:166 | `(up - s) ** 2` is positive iff `up != s`, and zero iff `up == s` |
| FiniteDifference.Shifted | Autocall_pricer.py:198-203 | the shifted schedule is no longer than the original, and all its times are positive |
| FiniteDifference.ShiftedMembers | Autocall_pricer.py:200-203 | `x` is in the shifted schedule iff `x > 0` and `x + bump` is in the original |
| FiniteDifference.ShiftedAllLive | Autocall_pricer.py:200-203 | when every time exceeds the bump, the shift drops nothing and moves each time by the bump |
| FiniteDifference.ShiftedAllExpired | Autocall_pricer.py:200-203 | when every time is at most the bump, the shifted schedule is empty |
| FiniteDifference.ShiftedIncreasing | Autocall_pricer.py:200-203 | shifting keeps a strictly increasing schedule strictly increasing, and a non-empty result ends at the original maturity minus the bump |
| FiniteDifference.BumpMoves | Autocall_pricer.py:136-141 | a non-zero bump moves a non-zero argument, and an absolute bump moves any argument |
| Autocall.FixingLoop | Autocall_pricer.py:84-105 | the inner loop of `pricer` for path `i` computes `Payoff.Walk`, counting the call at its fixing and the knock-in in `n_KI` |
| Autocall.AutocallCcbn.constructor | Autocall_pricer.py:17-40 | the terms as given, and the defaults of every setting (10000 paths, 300 steps, seed 10000, bumps 10 % / 10 % / 0.1 / 1/365 / 0.1, `vanna_dvega` off, floor 0.00001) |
| Autocall.AutocallCcbn.GenFixings | Autocall_pricer.py:42-60 | the loop of `gen_fixings` yields `Fixings.GeneratedFixings` on the generator's stream at its position, and moves the position as far |
| Autocall.AutocallCcbn.SimulatePath | Autocall_pricer.py:83-108 | one pass of the path loop is path `i` of `MonteCarlo.PathRun`, with the counters updated by its outcome |
| Autocall.AutocallCcbn.PathLoop | Autocall_pricer.py:82-108 | the path loop yields the payoffs and counters of `MonteCarlo.Paths`, or its first exception |
| Autocall.AutocallCcbn.Pricer | Autocall_pricer.py:62-110 | `pricer` reseeds when a seed is set and returns `MonteCarlo.Price` of the instance's terms on that stream, leaving the generator where the run ends |
| Autocall.AutocallCcbn.PricerValuation | Autocall_pricer.py:62-70 | the pricer of a seeded instance as a valuation raises `IndexError` on an empty schedule |
| Autocall.AutocallCcbn.Delta | Autocall_pricer.py:127-145 | `delta` succeeds iff both valuations succeed and the bump moves the floored spot; then delta times the spot step is the price difference |
| Autocall.AutocallCcbn.Gamma | Autocall_pricer.py:147-168 | `gamma` succeeds iff the three valuations succeed and `(up - s) ** 2 != 0`; then gamma times it is `p_up + p_down - 2 p` |
| Autocall.AutocallCcbn.Vega | Autocall_pricer.py:170-187 | `vega` succeeds iff both valuations succeed and the volatility moves; then vega times the volatility step is the price difference |
| Autocall.AutocallCcbn.ThetaValue | Autocall_pricer.py:189-210 | `theta` on a schedule succeeds iff both valuations succeed and the bump is non-zero; then `theta * 365 * bump` is the shifted price minus the base price |
| Autocall.AutocallCcbn.Theta | Autocall_pricer.py:189-210 | `theta` as written returns `ThetaValue` of the original schedule; the field is restored when it returns normally or the first valuation fails, and otherwise keeps the shifted schedule |
| Autocall.AutocallCcbn.ThetaRestoring | Autocall_pricer.py:189-210 | `theta` with the schedule restored on every exit: same result, field unchanged |
| Autocall.AutocallCcbn.VannaOfDeltas | Autocall_pricer.py:218-228 | without `vanna_dvega`, vanna succeeds iff both deltas succeed and the volatility moves; then vanna times the volatility step is the delta difference |
| Autocall.AutocallCcbn.VannaOfVegas | Autocall_pricer.py:229-239 | with `vanna_dvega` as written, vanna succeeds iff the vega succeeds and the spot moves, and then it is always 0 |
| Autocall.AutocallCcbn.Vanna | Autocall_pricer.py:212-241 | `vanna` floors the spot at 0.0001 and takes the delta branch or the vega branch by `vanna_dvega` |
| Autocall.AutocallCcbn.VannaCorrected | Autocall_pricer.py:229-239 | the vega branch with the second vega at the bumped spot: succeeds iff both vegas succeed and the spot moves; then vanna times the spot step is the vega difference; the delta branch is unchanged |
| Autocall.AutocallCcbn.Volga | Autocall_pricer.py:243-260 | `volga` succeeds iff both vegas succeed and the volatility moves; then volga times the volatility step is the vega difference |
| Autocall.AutocallCcbn.Rho | Autocall_pricer.py:262-270 | `rho` succeeds iff both valuations succeed and the bump is non-zero; then `rho * 100 * bump` is the price difference |
| Sensitivities.DeltaOfAffine | Autocall_pricer.py:127-145 | `delta` of a valuation affine in spot is its slope |
| Sensitivities.GammaOfQuadratic | Autocall_pricer.py:147-168 | `gamma` of a valuation quadratic in spot is twice its leading coefficient, for percent and absolute bumps alike |
| Sensitivities.VegaOfAffine | Autocall_pricer.py:170-187 | `vega` of a valuation affine in volatility is its slope |
| Sensitivities.VegaOfQuadratic | Autocall_pricer.py:170-187 | `vega` of a valuation quadratic in volatility, absolute bump `h`, is `b + q (2 vol + h)` |
| Sensitivities.VolgaOfQuadratic | Autocall_pricer.py:243-260 | `volga` of a valuation quadratic in volatility, absolute bump, is twice its leading coefficient |
| Sensitivities.RhoOfAffine | Autocall_pricer.py:262-270 | `rho` of a valuation affine in the rate is its slope per 100 |
| Sensitivities.ThetaOfLinearMaturity | Autocall_pricer.py:189-210 | `theta` of a valuation linear in the maturity, on a schedule that the shift leaves whole, is minus the slope over 365 |
| Sensitivities.ThetaOnExpiredSchedule | Autocall_pricer.py:70 | for a seeded instance whose times are all within one theta bump, the shifted schedule is empty, `theta` fails, and if the base price succeeded it fails with `IndexError` |
| Sensitivities.DeltaOfBilinear | Autocall_pricer.py:127-145 | `delta` of `a + b * spot * vol` at positive spot is `b * vol` |
| Sensitivities.VegaOfBilinear | Autocall_pricer.py:170-187 | `vega` of `a + b * spot * vol` at positive spot is `b * spot` |
| Sensitivities.VannaOfBilinear | Autocall_pricer.py:218-228 | without `vanna_dvega`, `vanna` of `a + b * spot * vol` is the cross derivative `b` |
| Sensitivities.VannaDvegaVanishes | Autocall_pricer.py:229-239 | with `vanna_dvega`, `vanna` as written of `a + b * spot * vol` is 0 whatever `b` |
| Sensitivities.VannaCorrectedOfBilinear | Autocall_pricer.py:229-239 | with `vanna_dvega` and a positive delta bump, the corrected `vanna` of `a + b * spot * vol` is `b` |
| Models.Model.constructor | C++/Monte_carlo_pricer/Model.cpp:3-6 | the model holds the given initial value |
| Models.Model.Assign | C++/Monte_carlo_pricer/Model.cpp:8-15 | assignment copies the source's initial value (self-assignment changes nothing) and returns this object |
| Models.BlackScholesModel.constructor | C++/Monte_carlo_pricer/Model.cpp:17-20 | a fresh `Model` part with the initial value, plus the drift and the volatility |
| Models.BlackScholesModel.Assign | C++/Monte_carlo_pricer/Model.cpp:22-30 | assignment copies the initial value, drift and volatility, and leaves a distinct source unchanged |
| Models.BlackScholesModel.Clone | C++/Monte_carlo_pricer/Model.cpp:42-45 | a fresh model with the same initial value, drift and volatility |
| Models.BlackScholesModel.DriftTerm | C++/Monte_carlo_pricer/Model.cpp:32-35 | definition: `drift * assetPrice`; its properties are `Models.BlackScholesTermsProportional` |
| Models.BlackScholesModel.DiffusionTerm | C++/Monte_carlo_pricer/Model.cpp:37-40 | definition: `volatility * assetPrice`; its properties are `Models.BlackScholesTermsProportional` |
| Models.BlackScholesTermsProportional | C++/Monte_carlo_pricer/Model.cpp:32-40 | both terms are proportional to the price (additive in it) and do not depend on time |
| Models.DupireLocalVolatility.Clone | C++/Monte_carlo_pricer/Model.cpp:58-61 | a fresh model with the same initial value |
| Models.DupireLocalVolatility.DriftTerm | C++/Monte_carlo_pricer/Model.cpp:47-51 | definition: the stub returning zero |
| Models.DupireLocalVolatility.LocalVolatility | C++/Monte_carlo_pricer/Model.cpp:63-67 | definition: the stub returning zero |
| Models.DupireLocalVolatility.DiffusionTerm | C++/Monte_carlo_pricer/Model.cpp:53-56 | definition: the local volatility times the price |
| Models.DupireTermsVanish | C++/Monte_carlo_pricer/Model.cpp:47-67 | with the stubs, the Dupire drift and diffusion are zero at every time and price |
| PathSimulation.StepCount | C++/Monte_carlo_pricer/PathSimulator.cpp:18 | the loop bound `size() - 1` in `size_t` is `size - 1` for a non-empty grid and wraps to 2^64 - 1 for an empty one |
| PathSimulation.EmptyGridWraps | C++/Monte_carlo_pricer/PathSimulator.cpp:18 | for an empty grid the bound as written is 0xFFFF_FFFF_FFFF_FFFF |
| PathSimulation.PathSimulator.constructor | C++/Monte_carlo_pricer/PathSimulator.cpp:3-8 | the simulator holds the grid and a fresh clone of the model, and the sanity check never rejects it |
| PathSimulation.PathSimulator.SanityCheck | C++/Monte_carlo_pricer/PathSimulator.cpp:24-28 | the sanity check accepts every grid |
| PathSimulation.PathSimulator.Path | C++/Monte_carlo_pricer/PathSimulator.cpp:10-22 | a path starts at the model's initial value and has one value per time point, each later value `nextStep(j - 1, previous)`; an empty grid gives the initial value alone |
| PathSimulation.EulerNextStep | C++/Monte_carlo_pricer/PathSimulator.cpp:30-36 | definition: the stub step returning zero |
| PathSimulation.EulerPath | C++/Monte_carlo_pricer/PathSimulator.cpp:30-36 | with the Euler stub, every value after the initial one is zero |

## Left out

- `spot_ladder`, `main_autocall` and the SPY backtesting scripts: plotting and drivers outside the pricing core.
- The `print` calls of `pricer`'s debug branch: `MonteCarlo.DebugReport` computes the numbers they print, and nothing is printed.
- `_nsteps_mc`: stored by `__init__` but never read.
- Floating point: all arithmetic is on exact reals, so rounding and overflow of `float` are not modelled.
- `math.exp` and `math.sqrt` are parameters (`PyRuntime.Maths`) with no properties beyond a positive `exp` where a lemma needs it; `math.sqrt` of a negative gap raising `ValueError` is modelled.
- The Mersenne Twister behind `random`: the generator is an abstract stream of standard normals, one stream per seed, read one value per `gauss` call.
- C++ random-number members, destructors and the ownership of the cloned model (`_modelPtr` is never freed); the exception thrown by the constructor on a failed sanity check cannot occur, since the check always passes.
- C++ virtual dispatch: the derived models are separate classes holding their `Model` part as `base`, and the simulator's pure virtual `nextStep` (`C++/Monte_carlo_pricer/PathSimulator.h:21`) is the function parameter of `PathSimulation.PathSimulator.Path`.
- PathSimulation.PathSimulator.constructor: takes a `BlackScholesModel`, the only model with a constructor, where the C++ one takes any `Model`.
- Models.DupireLocalVolatility: the C++ class declares no constructor; the model gives it one that sets the `Model` part, so that it can be cloned.
- Models.BlackScholesModel.Assign: returns nothing, since the C++ operator runs off its end without a `return` (undefined behaviour in C++).
- PathSimulation.PathSimulator.Path: the bound as written wraps for an empty grid (see Findings); `Path` takes no step there.
- Autocall.AutocallCcbn.PricerValuation: its contract only names the empty-schedule `IndexError`; on other schedules it is `MonteCarlo.Price` by definition.
- Fixings.FixingsUpTo: its contract only gives the length; the recurrence is `Fixings.FixingAt`.
- Autocall.AutocallCcbn.Delta: modelled over deterministic valuations only, such as the seeded `pricer`. With `_rnd_seed = None` the reseed at `Autocall_pricer.py:68-69` is skipped, every valuation inside a sensitivity draws new variates, and the two valuations of a difference are not the same function; that case is not modelled.
- Autocall.AutocallCcbn.Gamma: over deterministic valuations only, as for `Delta`.
- Autocall.AutocallCcbn.Vega: over deterministic valuations only, as for `Delta`.
- Autocall.AutocallCcbn.ThetaValue: over deterministic valuations only, as for `Delta`.
- Autocall.AutocallCcbn.Theta: over deterministic valuations only, as for `Delta`.
- Autocall.AutocallCcbn.Vanna: over deterministic valuations only, as for `Delta`.
- Autocall.AutocallCcbn.VannaOfVegas: over deterministic valuations only, as for `Delta`.
- Autocall.AutocallCcbn.Volga: over deterministic valuations only, as for `Delta`.
- Autocall.AutocallCcbn.Rho: over deterministic valuations only, as for `Delta`.
- MonteCarlo.DebugReport: requires at least one path, which holds whenever the debug branch is reached, because `pricer` with no paths has already raised `StatisticsError`.

## Findings

| source | as written | input that shows it | evidently intended | confidence | as-written member | corrected member |
|---|---|---|---|---|---|---|
| Autocall_pricer.py:238 | with `vanna_dvega`, the second vega is `self.vega(spot, ...)` at the unbumped spot, so for a seeded (deterministic) valuation the numerator is always 0 | a seeded instance with `vanna_dvega = True` on a valuation `a + b * spot * vol` with `b != 0`: vanna is 0 instead of `b` | `vega_up = self.vega(spot_up, ...)` | high; not executed | Autocall.AutocallCcbn.VannaOfVegas, Sensitivities.VannaDvegaVanishes | Autocall.AutocallCcbn.VannaCorrected, Sensitivities.VannaCorrectedOfBilinear |
| Autocall_pricer.py:205-208 | `self._fixing_schedule` is overwritten with the shifted schedule, and is restored only if the second valuation and the division return normally | a seeded instance with the defaults and `fixing_schedule = [0.001]`: the shifted schedule is `[]`, the second `pricer` raises `IndexError`, and the instance keeps `[]` | restore the schedule on every exit (`try`/`finally`) | medium; not executed | Autocall.AutocallCcbn.Theta, Sensitivities.ThetaOnExpiredSchedule | Autocall.AutocallCcbn.ThetaRestoring |
| C++/Monte_carlo_pricer/PathSimulator.cpp:18 | loop bound `_timePoints.size() - 1` in `size_t` | an empty time grid: the bound wraps to 2^64 - 1, so `path()` keeps pushing values (each read of `path[timeIdx]` is in bounds) until growing the vector fails | no step for an empty grid | medium; not executed | PathSimulation.StepCount, PathSimulation.EmptyGridWraps | PathSimulation.PathSimulator.Path |
