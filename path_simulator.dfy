/** The path simulator of C++/Monte_carlo_pricer/PathSimulator.cpp: a time
    grid and a private copy of a model; a path starts at the model's
    initial value and takes one step of the derived simulator's `nextStep`
    per later time point. */
module PathSimulation {
  import opened Models

  /** `size_t`, the type of `_timePoints.size()`: arithmetic modulo 2^64. */
  const SizeModulus: nat := 0x1_0000_0000_0000_0000

  /** The loop bound of `path()` as written: `_timePoints.size() - 1`
      computed in `size_t`, which wraps around for an empty grid. */
  function StepCount(size: nat): (r: nat)
    requires size < SizeModulus
    ensures r < SizeModulus
    ensures 0 < size ==> r == size - 1
    ensures size == 0 ==> r == SizeModulus - 1
  {
    (size - 1) % SizeModulus
  }

  /** For an empty grid the loop of `path()` as written would push 2^64 - 1
      steps after the initial value instead of none: the vector it builds
      could never hold that many values. */
  lemma EmptyGridWraps()
    ensures StepCount(0) == 0xFFFF_FFFF_FFFF_FFFF
  {
  }

  /** A simulator: the time grid `{t_0, ..., t_M}` and the model it owns. */
  class PathSimulator {
    var timePoints: seq<real>
    const modelPtr: BlackScholesModel

    /** The grid and a clone of the model; the sanity check (a stub) never
        rejects the grid, so the constructor never throws. */
    constructor (timePoints: seq<real>, model: BlackScholesModel)
      ensures this.timePoints == timePoints
      ensures fresh(modelPtr) && fresh(modelPtr.base)
      ensures modelPtr.base.initialValue == model.base.initialValue
      ensures modelPtr.drift == model.drift && modelPtr.volatility == model.volatility
    {
      var copy := model.Clone();
      this.timePoints := timePoints;
      modelPtr := copy;
      new;
      assert SanityCheck();
    }

    /** `sanityCheck`: not implemented yet; it accepts every grid. */
    function SanityCheck(): (ok: bool)
      reads this
      ensures ok
    {
      true
    }

    /** `path()` with `nextStep` the override of the derived simulator: the
        initial value, then one step per later time point, each step taking
        the time index and the previous value. The grid's one-per-point
        length is kept; an empty grid takes no step (see `StepCount` for the
        bound as written). Nothing of the simulator changes. */
    method Path(nextStep: (nat, real) -> real) returns (path: seq<real>)
      ensures |timePoints| > 0 ==> |path| == |timePoints|
      ensures |timePoints| == 0 ==> |path| == 1
      ensures path[0] == modelPtr.base.initialValue
      ensures forall j :: 0 < j < |path| ==> path[j] == nextStep(j - 1, path[j - 1])
    {
      path := [modelPtr.base.initialValue];
      var steps := if |timePoints| == 0 then 0 else |timePoints| - 1;
      var timeIdx := 0;
      while timeIdx < steps
        invariant 0 <= timeIdx <= steps
        invariant |path| == timeIdx + 1
        invariant path[0] == modelPtr.base.initialValue
        invariant forall j :: 0 < j < |path| ==> path[j] == nextStep(j - 1, path[j - 1])
      {
        path := path + [nextStep(timeIdx, path[timeIdx])];
        timeIdx := timeIdx + 1;
      }
    }
  }

  /** `EulerPathSimulator::nextStep`: not implemented yet; every step
      returns zero. */
  function EulerNextStep(timeIdx: nat, assetPrice: real): real {
    0.0
  }

  /** The path of an Euler simulator: the initial value, then zeros. */
  method EulerPath(sim: PathSimulator) returns (path: seq<real>)
    ensures |sim.timePoints| > 0 ==> |path| == |sim.timePoints|
    ensures |sim.timePoints| == 0 ==> |path| == 1
    ensures path[0] == sim.modelPtr.base.initialValue
    ensures forall j :: 0 < j < |path| ==> path[j] == 0.0
  {
    path := sim.Path(EulerNextStep);
    forall j | 0 < j < |path|
      ensures path[j] == 0.0
    {
      assert path[j] == EulerNextStep(j - 1, path[j - 1]);
    }
  }
}
