/** The Monte Carlo layer of `pricer` in Autocall_pricer.py: `n_paths`
    paths drawn one after the other from the same stream of variates, the
    counters `stat_call` and `n_KI`, the mean of the net payoffs, and the
    percentages the debug report prints. */
module MonteCarlo {
  import opened PyRuntime
  import opened Fixings
  import opened Payoff

  /** The market arguments of `pricer(spot, vol, rate, div)`. */
  datatype Market = Market(spot: real, vol: real, rate: real, div: real)

  /** What `pricer` computes: the price, and the counters its debug report
      is made of. */
  datatype Priced = Priced(price: real, statCall: seq<nat>, nKI: nat)

  /** The percentages of the debug report. */
  datatype Report = Report(callPercent: seq<real>, noCallPercent: real, knockInPercent: real)

  /** Path `i`, reading its variates from `pos` on: its fixings, its walk,
      and its net payoff. */
  function PathRun(c: Contract, spotMinimum: real, mk: Market, m: Maths, z: nat -> real, pos: nat, i: nat): (r: Run<PathOutcome>)
    requires |c.schedule| > 0
    ensures pos <= r.pos <= pos + |c.schedule|
    ensures r.result.Ok? ==> r.pos == pos + |c.schedule|
  {
    var g := GeneratedFixings(mk.spot, spotMinimum, mk.vol, mk.rate, mk.div, c.schedule, m, z, pos);
    match g.result
    case Err(e) => Run(Err(e), g.pos)
    case Ok(fix) =>
      match Walk(c, fix, mk.rate, i, m, 0, InitialState(c, mk.rate, m))
      case Err(e) => Run(Err(e), g.pos)
      case Ok(s) => Run(Ok(Settle(c, s)), g.pos)
  }

  /** The first `n` paths, drawn one after the other; the first exception
      ends the loop. */
  function Paths(c: Contract, spotMinimum: real, mk: Market, m: Maths, z: nat -> real, pos: nat, n: nat): (r: Run<seq<PathOutcome>>)
    requires |c.schedule| > 0
    ensures pos <= r.pos
    ensures r.result.Ok? ==> |r.result.value| == n
    decreases n
  {
    if n == 0 then Run(Ok([]), pos)
    else
      var prev := Paths(c, spotMinimum, mk, m, z, pos, n - 1);
      if prev.result.Err? then prev
      else
        var p := PathRun(c, spotMinimum, mk, m, z, prev.pos, n - 1);
        if p.result.Err? then Run(Err(p.result.error), p.pos)
        else Run(Ok(prev.result.value + [p.result.value]), p.pos)
  }

  /** `payoff_by_path`. */
  function Nets(outs: seq<PathOutcome>): (r: seq<real>)
    ensures |r| == |outs|
    ensures forall k :: 0 <= k < |outs| ==> r[k] == outs[k].net
  {
    if |outs| == 0 then [] else Nets(outs[..|outs| - 1]) + [outs[|outs| - 1].net]
  }

  /** `stat_call`: per fixing, the number of paths called there. */
  function CallCounts(outs: seq<PathOutcome>, nFix: nat): (counts: seq<nat>)
    ensures |counts| == nFix
  {
    if |outs| == 0 then seq(nFix, _ => 0)
    else
      var prev := CallCounts(outs[..|outs| - 1], nFix);
      match outs[|outs| - 1].call
      case CalledAt(k) => if k < nFix then prev[k := prev[k] + 1] else prev
      case NoCall => prev
  }

  /** The counters after one more path. */
  lemma CountersNext(outs: seq<PathOutcome>, o: PathOutcome, nFix: nat)
    ensures Nets(outs + [o]) == Nets(outs) + [o.net]
    ensures CallCounts(outs + [o], nFix)
            == match o.call
               case CalledAt(k) => if k < nFix then CallCounts(outs, nFix)[k := CallCounts(outs, nFix)[k] + 1]
                                   else CallCounts(outs, nFix)
               case NoCall => CallCounts(outs, nFix)
    ensures KnockIns(outs + [o]) == KnockIns(outs) + if o.knockedIn then 1 else 0
  {
    assert (outs + [o])[..|outs|] == outs;
  }

  /** `n_KI`: the number of paths that knocked in. */
  function KnockIns(outs: seq<PathOutcome>): (n: nat)
    ensures n <= |outs|
  {
    if |outs| == 0 then 0
    else KnockIns(outs[..|outs| - 1]) + (if outs[|outs| - 1].knockedIn then 1 else 0)
  }

  function Sum(xs: seq<real>): real {
    if |xs| == 0 then 0.0 else Sum(xs[..|xs| - 1]) + xs[|xs| - 1]
  }

  function SumNat(xs: seq<nat>): nat {
    if |xs| == 0 then 0 else SumNat(xs[..|xs| - 1]) + xs[|xs| - 1]
  }

  /** `statistics.mean`, on exact reals. */
  function Mean(xs: seq<real>): (r: real)
    requires |xs| > 0
    ensures r * (|xs| as real) == Sum(xs)
  {
    Sum(xs) / (|xs| as real)
  }

  /** One call of `pricer`, drawing from `z` at `pos` (after the reseeding,
      if any), with the position reached: `IndexError` for an empty
      schedule, the first exception of a path, or `StatisticsError` when
      there is no path to average. `range` of a negative count is empty. */
  function Price(c: Contract, nPaths: int, spotMinimum: real, mk: Market, m: Maths, z: nat -> real, pos: nat): (r: Run<Priced>)
    ensures r.result.Ok? ==> |r.result.value.statCall| == |c.schedule|
  {
    if |c.schedule| == 0 then Run(Err(IndexError), pos)
    else
      var n := if nPaths < 0 then 0 else nPaths;
      var ps := Paths(c, spotMinimum, mk, m, z, pos, n);
      if ps.result.Err? then Run(Err(ps.result.error), ps.pos)
      else if n == 0 then Run(Err(StatisticsError), ps.pos)
      else
        var outs := ps.result.value;
        Run(Ok(Priced(Mean(Nets(outs)), CallCounts(outs, |c.schedule|), KnockIns(outs))), ps.pos)
  }

  /** The debug report: each call count, the uncalled paths and the knocked-in
      paths as percentages of `n_paths`. It is only reached once the mean
      exists, so `n_paths` is positive there. */
  function DebugReport(p: Priced, nPaths: int): (r: Report)
    requires nPaths > 0
    ensures |r.callPercent| == |p.statCall|
    ensures forall k :: 0 <= k < |p.statCall| ==> r.callPercent[k] * (nPaths as real) == p.statCall[k] as real * 100.0
    ensures r.knockInPercent * (nPaths as real) == p.nKI as real * 100.0
    ensures r.noCallPercent * (nPaths as real) == (nPaths - SumNat(p.statCall)) as real * 100.0
  {
    Report(Percentages(p.statCall, nPaths), Percentage(nPaths - SumNat(p.statCall), nPaths), Percentage(p.nKI, nPaths))
  }

  /** Each of `counts` as a percentage of `n`. */
  function Percentages(counts: seq<nat>, n: int): (r: seq<real>)
    requires n > 0
    ensures |r| == |counts|
    ensures forall k :: 0 <= k < |counts| ==> r[k] == Percentage(counts[k], n)
  {
    seq(|counts|, k requires 0 <= k < |counts| => Percentage(counts[k], n))
  }

  /** `count / n * 100`, a count as a percentage of `n`. */
  function Percentage(count: int, n: int): (r: real)
    requires n > 0
    ensures r * (n as real) == count as real * 100.0
  {
    count as real / (n as real) * 100.0
  }

  /** What every path outcome satisfies: a call lies on the schedule, and a
      knocked-in path is not a called one. */
  predicate WellFormed(o: PathOutcome, nFix: nat) {
    && (o.call.CalledAt? ==> o.call.index < nFix)
    && (o.knockedIn ==> o.call == NoCall)
  }

  /** Every path that completes is well formed. */
  lemma PathRunWellFormed(c: Contract, spotMinimum: real, mk: Market, m: Maths, z: nat -> real, pos: nat, i: nat)
    requires |c.schedule| > 0
    ensures var r := PathRun(c, spotMinimum, mk, m, z, pos, i);
            r.result.Ok? ==> WellFormed(r.result.value, |c.schedule|)
  {
    var g := GeneratedFixings(mk.spot, spotMinimum, mk.vol, mk.rate, mk.div, c.schedule, m, z, pos);
    if g.result.Ok? {
      var fix := g.result.value;
      KnockInCondition(c, fix, mk.rate, i, m);
      var w := Walk(c, fix, mk.rate, i, m, 0, InitialState(c, mk.rate, m));
      if w.Ok? && w.value.call.CalledAt? {
        CallIsFirstHit(c, fix, mk.rate, i, m, w.value.call.index);
      }
    }
  }

  /** One more path: the run of `n + 1` paths extends the run of `n` by the
      path drawn where that run ended. */
  lemma PathsNext(c: Contract, spotMinimum: real, mk: Market, m: Maths, z: nat -> real, pos: nat, n: nat,
                  outs: seq<PathOutcome>, start: nat, fix: seq<real>, w: Result<PathState>)
    requires |c.schedule| > 0
    requires Paths(c, spotMinimum, mk, m, z, pos, n) == Run(Ok(outs), start)
    requires GeneratedFixings(mk.spot, spotMinimum, mk.vol, mk.rate, mk.div, c.schedule, m, z, start)
             == Run(Ok(fix), start + |c.schedule|)
    requires w == Walk(c, fix, mk.rate, n, m, 0, InitialState(c, mk.rate, m))
    ensures Paths(c, spotMinimum, mk, m, z, pos, n + 1)
            == if w.Err? then Run(Err(w.error), start + |c.schedule|)
               else Run(Ok(outs + [Settle(c, w.value)]), start + |c.schedule|)
  {
  }

  /** One more path, read where the run of `n` paths ended: the run of
      `n + 1` paths fails with its exception or appends its outcome. */
  lemma PathsExtend(c: Contract, spotMinimum: real, mk: Market, m: Maths, z: nat -> real, pos: nat, n: nat,
                    outs: seq<PathOutcome>, start: nat)
    requires |c.schedule| > 0
    requires Paths(c, spotMinimum, mk, m, z, pos, n) == Run(Ok(outs), start)
    ensures var p := PathRun(c, spotMinimum, mk, m, z, start, n);
            Paths(c, spotMinimum, mk, m, z, pos, n + 1)
            == if p.result.Err? then Run(Err(p.result.error), p.pos) else Run(Ok(outs + [p.result.value]), p.pos)
  {
  }

  /** Once a path fails, every longer run of paths fails the same way, at
      the same position: nothing after the exception is drawn. */
  lemma {:induction false} PathsErrorSticky(c: Contract, spotMinimum: real, mk: Market, m: Maths, z: nat -> real, pos: nat, k: nat, n: nat)
    requires |c.schedule| > 0 && k <= n
    requires Paths(c, spotMinimum, mk, m, z, pos, k).result.Err?
    ensures Paths(c, spotMinimum, mk, m, z, pos, n) == Paths(c, spotMinimum, mk, m, z, pos, k)
    decreases n
  {
    if k < n {
      PathsErrorSticky(c, spotMinimum, mk, m, z, pos, k, n - 1);
    }
  }

  /** A completed run of `n` paths has used `n * |schedule|` variates. */
  lemma {:induction false} PathsPosition(c: Contract, spotMinimum: real, mk: Market, m: Maths, z: nat -> real, pos: nat, n: nat)
    requires |c.schedule| > 0
    ensures var r := Paths(c, spotMinimum, mk, m, z, pos, n);
            r.result.Ok? ==> r.pos == pos + n * |c.schedule|
    decreases n
  {
    if n > 0 {
      PathsPosition(c, spotMinimum, mk, m, z, pos, n - 1);
      var len := |c.schedule|;
      assert (n - 1) * len + len == n * len;
    }
  }

  /** The first `k` paths of a completed run are the run of `k` paths. */
  lemma {:induction false} PathsPrefix(c: Contract, spotMinimum: real, mk: Market, m: Maths, z: nat -> real, pos: nat, k: nat, n: nat)
    requires |c.schedule| > 0 && k <= n
    requires Paths(c, spotMinimum, mk, m, z, pos, n).result.Ok?
    ensures Paths(c, spotMinimum, mk, m, z, pos, k).result.Ok?
    ensures Paths(c, spotMinimum, mk, m, z, pos, k).result.value == Paths(c, spotMinimum, mk, m, z, pos, n).result.value[..k]
    decreases n
  {
    if k < n {
      PathsPrefix(c, spotMinimum, mk, m, z, pos, k, n - 1);
      var prev := Paths(c, spotMinimum, mk, m, z, pos, n - 1).result.value;
      assert Paths(c, spotMinimum, mk, m, z, pos, n).result.value[..k] == prev[..k];
    }
  }

  /** In a completed run, path `k` is the `k`-th path the stream gives: path
      index `k`, starting at variate `pos + k * |schedule|`. */
  lemma PathsIndexed(c: Contract, spotMinimum: real, mk: Market, m: Maths, z: nat -> real, pos: nat, n: nat, k: nat)
    requires |c.schedule| > 0 && k < n
    requires Paths(c, spotMinimum, mk, m, z, pos, n).result.Ok?
    ensures var p := PathRun(c, spotMinimum, mk, m, z, pos + k * |c.schedule|, k);
            p.result.Ok? && Paths(c, spotMinimum, mk, m, z, pos, n).result.value[k] == p.result.value
  {
    var all := Paths(c, spotMinimum, mk, m, z, pos, n).result.value;
    PathsPrefix(c, spotMinimum, mk, m, z, pos, k + 1, n);
    var upTo := Paths(c, spotMinimum, mk, m, z, pos, k + 1);
    var before := Paths(c, spotMinimum, mk, m, z, pos, k);
    PathsPrefix(c, spotMinimum, mk, m, z, pos, k, n);
    PathsPosition(c, spotMinimum, mk, m, z, pos, k);
    var p := PathRun(c, spotMinimum, mk, m, z, before.pos, k);
    assert p.result.Ok? && upTo.result.value == before.result.value + [p.result.value];
    assert all[k] == upTo.result.value[k];
  }

  /** Every path of a completed run is well formed. */
  lemma {:induction false} PathsWellFormed(c: Contract, spotMinimum: real, mk: Market, m: Maths, z: nat -> real, pos: nat, n: nat)
    requires |c.schedule| > 0
    ensures var r := Paths(c, spotMinimum, mk, m, z, pos, n);
            r.result.Ok? ==> forall k :: 0 <= k < n ==> WellFormed(r.result.value[k], |c.schedule|)
    decreases n
  {
    if n > 0 {
      PathsWellFormed(c, spotMinimum, mk, m, z, pos, n - 1);
      var prev := Paths(c, spotMinimum, mk, m, z, pos, n - 1);
      var r := Paths(c, spotMinimum, mk, m, z, pos, n);
      if prev.result.Ok? && r.result.Ok? {
        PathRunWellFormed(c, spotMinimum, mk, m, z, prev.pos, n - 1);
        var p := PathRun(c, spotMinimum, mk, m, z, prev.pos, n - 1);
        assert p.result.Ok? && r.result.value == prev.result.value + [p.result.value];
        forall k | 0 <= k < n
          ensures WellFormed(r.result.value[k], |c.schedule|)
        {
          if k < n - 1 {
            assert r.result.value[k] == prev.result.value[k];
          }
        }
      }
    }
  }

  /** The paths fail only for a schedule with a negative gap or a zero
      strike: with neither, every run of paths completes. */
  lemma {:induction false} PathsComplete(c: Contract, spotMinimum: real, mk: Market, m: Maths, z: nat -> real, pos: nat, n: nat)
    requires |c.schedule| > 0 && c.strike != 0.0
    requires forall k :: 0 <= k < |c.schedule| ==> 0.0 <= Gap(c.schedule, k)
    ensures Paths(c, spotMinimum, mk, m, z, pos, n).result.Ok?
    decreases n
  {
    if n > 0 {
      PathsComplete(c, spotMinimum, mk, m, z, pos, n - 1);
      var prev := Paths(c, spotMinimum, mk, m, z, pos, n - 1);
      var g := GeneratedFixings(mk.spot, spotMinimum, mk.vol, mk.rate, mk.div, c.schedule, m, z, prev.pos);
      assert g.result.Ok?;
      KnockInCondition(c, g.result.value, mk.rate, n - 1, m);
    }
  }

  /** A run of at least one path completes only on a schedule without a
      negative gap. */
  lemma PathsNeedGaps(c: Contract, spotMinimum: real, mk: Market, m: Maths, z: nat -> real, pos: nat, n: nat)
    requires |c.schedule| > 0 && n > 0
    requires Paths(c, spotMinimum, mk, m, z, pos, n).result.Ok?
    ensures forall k :: 0 <= k < |c.schedule| ==> 0.0 <= Gap(c.schedule, k)
  {
    var prev := Paths(c, spotMinimum, mk, m, z, pos, n - 1);
    assert PathRun(c, spotMinimum, mk, m, z, prev.pos, n - 1).result.Ok?;
    assert FirstNegativeGap(c.schedule, 0) == |c.schedule|;
  }

  /** `pricer` returns a price exactly when the schedule is non-empty, there
      is at least one path, no gap is negative and no path divides by a zero
      strike; in particular it always does for a positive strike, a
      non-decreasing schedule of non-negative times and a positive path count.
      Each exception is the one the source raises for its cause. */
  lemma PriceOutcome(c: Contract, nPaths: int, spotMinimum: real, mk: Market, m: Maths, z: nat -> real, pos: nat)
    ensures var r := Price(c, nPaths, spotMinimum, mk, m, z, pos);
            && (r.result == Err(IndexError) <==> |c.schedule| == 0)
            && (r.result == Err(StatisticsError) <==> 0 < |c.schedule| && nPaths <= 0)
            && (r.result == Err(ValueError) <==>
                  0 < |c.schedule| && 0 < nPaths && exists k :: 0 <= k < |c.schedule| && Gap(c.schedule, k) < 0.0)
            && (r.result == Err(ZeroDivisionError) ==>
                  c.strike == 0.0 && forall k :: 0 <= k < |c.schedule| ==> 0.0 <= Gap(c.schedule, k))
            && (r.result.Ok? ==> 0 < |c.schedule| && 0 < nPaths && forall k :: 0 <= k < |c.schedule| ==> 0.0 <= Gap(c.schedule, k))
            && (0 < |c.schedule| && 0 < nPaths && c.strike != 0.0 && (forall k :: 0 <= k < |c.schedule| ==> 0.0 <= Gap(c.schedule, k))
                ==> r.result.Ok?)
  {
    if |c.schedule| > 0 && nPaths > 0 {
      var ps := Paths(c, spotMinimum, mk, m, z, pos, nPaths);
      PathsCause(c, spotMinimum, mk, m, z, pos, nPaths);
      PathsValueErrorExactly(c, spotMinimum, mk, m, z, pos, nPaths);
      if ps.result.Ok? {
        PathsNeedGaps(c, spotMinimum, mk, m, z, pos, nPaths);
      }
      if c.strike != 0.0 && forall k :: 0 <= k < |c.schedule| ==> 0.0 <= Gap(c.schedule, k) {
        PathsComplete(c, spotMinimum, mk, m, z, pos, nPaths);
      }
    } else if |c.schedule| > 0 {
      assert Paths(c, spotMinimum, mk, m, z, pos, 0).result.Ok?;
    }
  }

  /** On a schedule with a negative gap, the `gen_fixings` of path 0 raises
      `ValueError` before any walk, and that ends every run of paths. */
  lemma PathsFailOnNegativeGap(c: Contract, spotMinimum: real, mk: Market, m: Maths, z: nat -> real, pos: nat, n: nat)
    requires |c.schedule| > 0 && n > 0
    requires exists k :: 0 <= k < |c.schedule| && Gap(c.schedule, k) < 0.0
    ensures Paths(c, spotMinimum, mk, m, z, pos, n).result == Err(ValueError)
  {
    var k :| 0 <= k < |c.schedule| && Gap(c.schedule, k) < 0.0;
    assert FirstNegativeGap(c.schedule, 0) < |c.schedule|;
    assert Paths(c, spotMinimum, mk, m, z, pos, 0) == Run(Ok([]), pos);
    assert PathRun(c, spotMinimum, mk, m, z, pos, 0).result == Err(ValueError);
    PathsErrorSticky(c, spotMinimum, mk, m, z, pos, 1, n);
  }

  /** The exception of a failed run of paths is a `ValueError` from a
      negative gap or a `ZeroDivisionError` from a zero strike. */
  lemma {:induction false} PathsCause(c: Contract, spotMinimum: real, mk: Market, m: Maths, z: nat -> real, pos: nat, n: nat)
    requires |c.schedule| > 0
    ensures var r := Paths(c, spotMinimum, mk, m, z, pos, n);
            && (r.result == Err(ValueError) ==> exists k :: 0 <= k < |c.schedule| && Gap(c.schedule, k) < 0.0)
            && (r.result == Err(ZeroDivisionError) ==> c.strike == 0.0)
            && (r.result.Err? ==> r.result.error == ValueError || r.result.error == ZeroDivisionError)
    decreases n
  {
    if n > 0 {
      PathsCause(c, spotMinimum, mk, m, z, pos, n - 1);
      var prev := Paths(c, spotMinimum, mk, m, z, pos, n - 1);
      if prev.result.Ok? {
        var g := GeneratedFixings(mk.spot, spotMinimum, mk.vol, mk.rate, mk.div, c.schedule, m, z, prev.pos);
        if g.result.Ok? {
          KnockInCondition(c, g.result.value, mk.rate, n - 1, m);
        } else {
          var k := FirstNegativeGap(c.schedule, 0);
          assert Gap(c.schedule, k) < 0.0;
        }
      }
    }
  }

  /** A run of paths raises `ValueError` exactly when it has at least one
      path and the schedule a negative gap; a `ZeroDivisionError` therefore
      comes from a schedule without one. */
  lemma PathsValueErrorExactly(c: Contract, spotMinimum: real, mk: Market, m: Maths, z: nat -> real, pos: nat, n: nat)
    requires |c.schedule| > 0
    ensures var r := Paths(c, spotMinimum, mk, m, z, pos, n);
            && (r.result == Err(ValueError) <==> 0 < n && exists k :: 0 <= k < |c.schedule| && Gap(c.schedule, k) < 0.0)
            && (r.result == Err(ZeroDivisionError) ==> forall k :: 0 <= k < |c.schedule| ==> 0.0 <= Gap(c.schedule, k))
  {
    PathsCause(c, spotMinimum, mk, m, z, pos, n);
    if n > 0 && exists k :: 0 <= k < |c.schedule| && Gap(c.schedule, k) < 0.0 {
      PathsFailOnNegativeGap(c, spotMinimum, mk, m, z, pos, n);
    }
  }

  /** Each completed path adds at most one to the call counts and the
      knock-in count together. */
  lemma {:induction false} CountsBound(outs: seq<PathOutcome>, nFix: nat)
    requires forall k :: 0 <= k < |outs| ==> WellFormed(outs[k], nFix)
    ensures SumNat(CallCounts(outs, nFix)) + KnockIns(outs) <= |outs|
  {
    if |outs| == 0 {
      ZeroCounts(nFix);
    } else {
      var init := outs[..|outs| - 1];
      CountsBound(init, nFix);
      var o := outs[|outs| - 1];
      assert WellFormed(o, nFix);
      if o.call.CalledAt? {
        SumNatBump(CallCounts(init, nFix), o.call.index);
      }
    }
  }

  /** No path has been counted before the first. */
  lemma {:induction false} ZeroCounts(nFix: nat)
    ensures SumNat(seq(nFix, _ => 0)) == 0
  {
    if nFix > 0 {
      ZeroCounts(nFix - 1);
      assert seq(nFix, _ => 0)[..nFix - 1] == seq(nFix - 1, _ => 0);
    }
  }

  /** Counting one more path at fixing `k` adds one to the total. */
  lemma {:induction false} SumNatBump(xs: seq<nat>, k: nat)
    requires k < |xs|
    ensures SumNat(xs[k := xs[k] + 1]) == SumNat(xs) + 1
  {
    var ys := xs[k := xs[k] + 1];
    if k < |xs| - 1 {
      SumNatBump(xs[..|xs| - 1], k);
      assert ys[..|ys| - 1] == xs[..|xs| - 1][k := xs[k] + 1];
    } else {
      assert ys[..|ys| - 1] == xs[..|xs| - 1];
    }
  }

  /** No single count exceeds the total. */
  lemma {:induction false} CountBelowSum(xs: seq<nat>, k: nat)
    requires k < |xs|
    ensures xs[k] <= SumNat(xs)
  {
    if k < |xs| - 1 {
      CountBelowSum(xs[..|xs| - 1], k);
    }
  }

  /** The counters of a priced run: no more calls and knock-ins together than
      paths, so the uncalled count `n_paths - sum(stat_call)` is at least the
      knock-in count. */
  lemma PricedCounts(c: Contract, nPaths: int, spotMinimum: real, mk: Market, m: Maths, z: nat -> real, pos: nat)
    ensures var r := Price(c, nPaths, spotMinimum, mk, m, z, pos);
            r.result.Ok? ==> SumNat(r.result.value.statCall) + r.result.value.nKI <= nPaths
  {
    var r := Price(c, nPaths, spotMinimum, mk, m, z, pos);
    if r.result.Ok? {
      assert |c.schedule| > 0 && nPaths > 0;
      var ps := Paths(c, spotMinimum, mk, m, z, pos, nPaths);
      assert ps.result.Ok?;
      var outs := ps.result.value;
      assert r.result.value.statCall == CallCounts(outs, |c.schedule|);
      assert r.result.value.nKI == KnockIns(outs);
      PathsWellFormed(c, spotMinimum, mk, m, z, pos, nPaths);
      CountsBound(outs, |c.schedule|);
    }
  }

  /** The percentages of the debug report of a priced run lie between 0 and
      100, and the knock-in share is at most the uncalled share. */
  lemma ReportBounds(c: Contract, nPaths: int, spotMinimum: real, mk: Market, m: Maths, z: nat -> real, pos: nat)
    ensures var r := Price(c, nPaths, spotMinimum, mk, m, z, pos);
            r.result.Ok? ==>
              && nPaths > 0
              && var rep := DebugReport(r.result.value, nPaths);
              && (forall k :: 0 <= k < |rep.callPercent| ==> 0.0 <= rep.callPercent[k] <= 100.0)
              && 0.0 <= rep.knockInPercent <= rep.noCallPercent <= 100.0
  {
    var r := Price(c, nPaths, spotMinimum, mk, m, z, pos);
    if r.result.Ok? {
      PricedCounts(c, nPaths, spotMinimum, mk, m, z, pos);
      var p := r.result.value;
      var rep := DebugReport(p, nPaths);
      var n := nPaths as real;
      forall k | 0 <= k < |rep.callPercent|
        ensures 0.0 <= rep.callPercent[k] <= 100.0
      {
        CountBelowSum(p.statCall, k);
        Percent(p.statCall[k], nPaths);
      }
      Percent(p.nKI, nPaths);
      Percent(nPaths - SumNat(p.statCall), nPaths);
      assert (p.nKI as real) <= (nPaths - SumNat(p.statCall)) as real;
      PercentMonotone(p.nKI, nPaths - SumNat(p.statCall), nPaths);
    }
  }

  /** A count out of `n` as a percentage lies between 0 and 100. */
  lemma Percent(count: int, n: int)
    requires 0 <= count <= n && 0 < n
    ensures 0.0 <= Percentage(count, n) <= 100.0
  {
    assert count as real / (n as real) <= 1.0;
  }

  /** A larger count is a larger percentage. */
  lemma PercentMonotone(a: int, b: int, n: int)
    requires a <= b && 0 < n
    ensures Percentage(a, n) <= Percentage(b, n)
  {
    assert a as real / (n as real) <= b as real / (n as real);
  }

  /** A sum of values within `[lo, hi]` lies within `|xs|` times the bounds. */
  lemma {:induction false} SumWithin(xs: seq<real>, lo: real, hi: real)
    requires forall k :: 0 <= k < |xs| ==> lo <= xs[k] <= hi
    ensures (|xs| as real) * lo <= Sum(xs) <= (|xs| as real) * hi
  {
    if |xs| > 0 {
      SumWithin(xs[..|xs| - 1], lo, hi);
    }
  }

  /** A mean of values within `[lo, hi]` lies within `[lo, hi]`. */
  lemma MeanWithin(xs: seq<real>, lo: real, hi: real)
    requires |xs| > 0
    requires forall k :: 0 <= k < |xs| ==> lo <= xs[k] <= hi
    ensures lo <= Mean(xs) <= hi
  {
    SumWithin(xs, lo, hi);
    var n := |xs| as real;
    var r := Mean(xs);
    assert n * lo <= r * n <= n * hi;
  }

  /** The price lies between the least and the greatest net payoff. */
  lemma PriceWithin(c: Contract, nPaths: int, spotMinimum: real, mk: Market, m: Maths, z: nat -> real, pos: nat, lo: real, hi: real)
    requires |c.schedule| > 0
    requires var ps := Paths(c, spotMinimum, mk, m, z, pos, if nPaths < 0 then 0 else nPaths);
             ps.result.Ok?
             && forall k :: 0 <= k < |ps.result.value| ==> lo <= ps.result.value[k].net <= hi
    ensures var r := Price(c, nPaths, spotMinimum, mk, m, z, pos);
            r.result.Ok? ==> lo <= r.result.value.price <= hi
  {
    var r := Price(c, nPaths, spotMinimum, mk, m, z, pos);
    if r.result.Ok? {
      var outs := Paths(c, spotMinimum, mk, m, z, pos, nPaths).result.value;
      var xs := Nets(outs);
      assert r.result.value.price == Mean(xs);
      MeanWithin(xs, lo, hi);
    }
  }
}
