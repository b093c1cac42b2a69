/** The fixing generator `gen_fixings` of Autocall_pricer.py: one simulated
    path of the underlying, one fixing per entry of the fixing schedule,
    each compounding a lognormal step off the previous one. */
module Fixings {
  import opened PyRuntime

  /** The time fixing `k` compounds over: `t[0]` for the first fixing, the
      gap to the previous fixing time for every later one. */
  function Gap(t: seq<real>, k: nat): real
    requires k < |t|
  {
    if k == 0 then t[0] else t[k] - t[k - 1]
  }

  /** The first index from `from` on whose gap is negative (where
      `math.sqrt` raises), or `|t|` when there is none. */
  function FirstNegativeGap(t: seq<real>, from: nat): (k: nat)
    requires from <= |t|
    ensures from <= k <= |t|
    ensures forall j :: from <= j < k ==> 0.0 <= Gap(t, j)
    ensures k < |t| ==> Gap(t, k) < 0.0
    decreases |t| - from
  {
    if from == |t| || Gap(t, from) < 0.0 then from else FirstNegativeGap(t, from + 1)
  }

  /** The first negative gap from `from` on is `k` when the gaps before it
      are not negative and `k`'s is. */
  lemma {:induction false} FirstNegativeGapIs(t: seq<real>, from: nat, k: nat)
    requires from <= k < |t| && Gap(t, k) < 0.0
    requires forall j :: from <= j < k ==> 0.0 <= Gap(t, j)
    ensures FirstNegativeGap(t, from) == k
    decreases k - from
  {
    if from < k {
      FirstNegativeGapIs(t, from + 1, k);
    }
  }

  /** The spot the path starts from: a non-positive spot is replaced by the floor. */
  function Floored(spot: real, floor: real): (r: real)
    ensures 0.0 < spot ==> r == spot
    ensures spot <= 0.0 ==> r == floor
    ensures 0.0 < spot || 0.0 < floor ==> 0.0 < r
  {
    if spot <= 0.0 then floor else spot
  }

  /** One lognormal step of length `dt` off `base`, driven by the Gaussian draw `draw`. */
  function Compound(base: real, r: real, div: real, vol: real, dt: real, draw: real, m: Maths): real
  {
    base * m.exp((r - div - 0.5 * (vol * vol)) * dt + vol * draw)
  }

  /** A step keeps a positive base positive and a zero base zero. */
  lemma CompoundSign(base: real, r: real, div: real, vol: real, dt: real, draw: real, m: Maths)
    ensures PositiveExp(m) && 0.0 < base ==> 0.0 < Compound(base, r, div, vol, dt, draw, m)
    ensures base == 0.0 ==> Compound(base, r, div, vol, dt, draw, m) == 0.0
  {
    if PositiveExp(m) && 0.0 < base {
      assert 0.0 < m.exp((r - div - 0.5 * (vol * vol)) * dt + vol * draw);
    }
  }

  /** The first `n` fixings of a path that starts at `spot` and reads its
      standard normal variates from `z` at `pos`, `pos + 1`, ... */
  function FixingsUpTo(spot: real, vol: real, r: real, div: real, t: seq<real>, m: Maths,
                       z: nat -> real, pos: nat, n: nat): (f: seq<real>)
    requires n <= |t|
    ensures |f| == n
    decreases n
  {
    if n == 0 then []
    else
      var prev := FixingsUpTo(spot, vol, r, div, t, m, z, pos, n - 1);
      var dt := Gap(t, n - 1);
      var base := if n == 1 then spot else prev[n - 2];
      prev + [Compound(base, r, div, vol, dt, Gauss(0.0, m.sqrt(dt), z(pos + n - 1)), m)]
  }

  /** One more fixing: compounded off the spot for the first, off the
      previous fixing otherwise, with the next variate. */
  lemma FixingsStep(spot: real, vol: real, r: real, div: real, t: seq<real>, m: Maths,
                    z: nat -> real, pos: nat, n: nat, base: real, prefix: seq<real>, fix: real)
    requires n < |t|
    requires prefix == FixingsUpTo(spot, vol, r, div, t, m, z, pos, n)
    requires base == if n == 0 then spot else prefix[n - 1]
    requires fix == Compound(base, r, div, vol, Gap(t, n), Gauss(0.0, m.sqrt(Gap(t, n)), z(pos + n)), m)
    ensures prefix + [fix] == FixingsUpTo(spot, vol, r, div, t, m, z, pos, n + 1)
  {
  }

  /** What one call of `gen_fixings` yields, and how far it moves the
      generator: all `|t|` fixings, or `ValueError` at the first negative
      gap after the variates of the fixings before it were drawn. */
  function GeneratedFixings(spot: real, spotMinimum: real, vol: real, r: real, div: real,
                            t: seq<real>, m: Maths, z: nat -> real, pos: nat): (g: Run<seq<real>>)
    ensures g.result.Ok? ==> |g.result.value| == |t|
  {
    var k := FirstNegativeGap(t, 0);
    if k < |t| then Run(Err(ValueError), pos + k)
    else Run(Ok(FixingsUpTo(Floored(spot, spotMinimum), vol, r, div, t, m, z, pos, |t|)), pos + |t|)
  }

  /** `gen_fixings` raises at the first negative gap `k`, after `k` draws. */
  lemma GeneratedFixingsFail(spot: real, spotMinimum: real, vol: real, r: real, div: real,
                             t: seq<real>, m: Maths, z: nat -> real, pos: nat, k: nat)
    requires k < |t| && Gap(t, k) < 0.0
    requires forall j :: 0 <= j < k ==> 0.0 <= Gap(t, j)
    ensures GeneratedFixings(spot, spotMinimum, vol, r, div, t, m, z, pos) == Run(Err(ValueError), pos + k)
  {
    FirstNegativeGapIs(t, 0, k);
  }

  /** With no negative gap, `gen_fixings` returns every fixing after `|t|` draws. */
  lemma GeneratedFixingsSucceed(spot: real, spotMinimum: real, vol: real, r: real, div: real,
                                t: seq<real>, m: Maths, z: nat -> real, pos: nat)
    requires forall j :: 0 <= j < |t| ==> 0.0 <= Gap(t, j)
    ensures GeneratedFixings(spot, spotMinimum, vol, r, div, t, m, z, pos)
            == Run(Ok(FixingsUpTo(Floored(spot, spotMinimum), vol, r, div, t, m, z, pos, |t|)), pos + |t|)
  {
    var k := FirstNegativeGap(t, 0);
    if k < |t| {
      assert Gap(t, k) < 0.0;
    }
  }

  /** Computing fewer fixings gives a prefix of the same path. */
  lemma {:induction false} FixingsPrefix(spot: real, vol: real, r: real, div: real, t: seq<real>, m: Maths,
                                         z: nat -> real, pos: nat, n: nat, k: nat)
    requires k <= n <= |t|
    ensures FixingsUpTo(spot, vol, r, div, t, m, z, pos, n)[..k] == FixingsUpTo(spot, vol, r, div, t, m, z, pos, k)
    decreases n
  {
    if k < n {
      var prev := FixingsUpTo(spot, vol, r, div, t, m, z, pos, n - 1);
      FixingsPrefix(spot, vol, r, div, t, m, z, pos, n - 1, k);
      assert FixingsUpTo(spot, vol, r, div, t, m, z, pos, n)[..k] == prev[..k];
    }
  }

  /** Fixing `k` compounds off the spot when `k == 0` and off fixing `k - 1`
      otherwise, over the gap of fixing `k`, with the `k`-th variate. */
  lemma FixingAt(spot: real, vol: real, r: real, div: real, t: seq<real>, m: Maths,
                 z: nat -> real, pos: nat, n: nat, k: nat)
    requires k < n <= |t|
    ensures var f := FixingsUpTo(spot, vol, r, div, t, m, z, pos, n);
            f[k] == Compound(if k == 0 then spot else f[k - 1], r, div, vol, Gap(t, k),
                             Gauss(0.0, m.sqrt(Gap(t, k)), z(pos + k)), m)
  {
    var f := FixingsUpTo(spot, vol, r, div, t, m, z, pos, n);
    var g := FixingsUpTo(spot, vol, r, div, t, m, z, pos, k + 1);
    FixingsPrefix(spot, vol, r, div, t, m, z, pos, n, k + 1);
    assert f[k] == g[k] && (k > 0 ==> f[k - 1] == g[k - 1]);
  }

  /** With a positive start and a positive `exp`, every fixing is positive. */
  lemma {:induction false} FixingsPositive(spot: real, vol: real, r: real, div: real, t: seq<real>, m: Maths,
                                           z: nat -> real, pos: nat, n: nat)
    requires n <= |t|
    requires 0.0 < spot && PositiveExp(m)
    ensures forall k :: 0 <= k < n ==> 0.0 < FixingsUpTo(spot, vol, r, div, t, m, z, pos, n)[k]
    decreases n
  {
    if n > 0 {
      FixingsPositive(spot, vol, r, div, t, m, z, pos, n - 1);
      var prev := FixingsUpTo(spot, vol, r, div, t, m, z, pos, n - 1);
      var dt := Gap(t, n - 1);
      var base := if n == 1 then spot else prev[n - 2];
      var e := m.exp((r - div - 0.5 * (vol * vol)) * dt + vol * Gauss(0.0, m.sqrt(dt), z(pos + n - 1)));
      assert 0.0 < base && 0.0 < e;
      assert 0.0 < base * e;
    }
  }

  /** `gen_fixings` fails exactly when some gap of the schedule is negative;
      otherwise it returns one fixing per schedule entry, each positive when
      the floor is, having drawn one variate per fixing. */
  lemma GeneratedFixingsShape(spot: real, spotMinimum: real, vol: real, r: real, div: real,
                              t: seq<real>, m: Maths, z: nat -> real, pos: nat)
    requires PositiveExp(m) && 0.0 < spotMinimum
    ensures var g := GeneratedFixings(spot, spotMinimum, vol, r, div, t, m, z, pos);
            && (g.result.Ok? <==> forall k :: 0 <= k < |t| ==> 0.0 <= Gap(t, k))
            && (g.result.Err? ==> g.result.error == ValueError && pos <= g.pos < pos + |t|)
            && (g.result.Ok? ==> g.pos == pos + |t| && |g.result.value| == |t|
                                 && forall k :: 0 <= k < |t| ==> 0.0 < g.result.value[k])
  {
    var g := GeneratedFixings(spot, spotMinimum, vol, r, div, t, m, z, pos);
    if g.result.Ok? {
      FixingsPositive(Floored(spot, spotMinimum), vol, r, div, t, m, z, pos, |t|);
    } else {
      var k := FirstNegativeGap(t, 0);
      assert Gap(t, k) < 0.0;
    }
  }

  /** A schedule that starts at a non-negative time and never decreases
      (the strictly increasing schedules the note is defined with) never
      makes `gen_fixings` fail. */
  lemma OrderedScheduleGenerates(spot: real, spotMinimum: real, vol: real, r: real, div: real,
                                 t: seq<real>, m: Maths, z: nat -> real, pos: nat)
    requires |t| > 0 ==> 0.0 <= t[0]
    requires forall k :: 0 < k < |t| ==> t[k - 1] <= t[k]
    ensures GeneratedFixings(spot, spotMinimum, vol, r, div, t, m, z, pos).result.Ok?
  {
    forall k | 0 <= k < |t|
      ensures 0.0 <= Gap(t, k)
    {
      if k > 0 {
        assert t[k - 1] <= t[k];
      }
    }
  }
}
