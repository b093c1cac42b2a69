/** What the pricer takes from the Python runtime: the exceptions it can
    raise, the two `math` functions it calls, and the global generator of
    the `random` module that `random.seed` and `random.gauss` act on. */
module PyRuntime {

  /** The exceptions the pricer and its sensitivities can raise. */
  datatype Error =
    | IndexError         // `[-1]` on an empty fixing schedule
    | ValueError         // `math.sqrt` of a negative time gap
    | ZeroDivisionError  // a float division by zero
    | StatisticsError    // `statistics.mean` of an empty list of payoffs

  /** A value, or the exception raised in computing it. */
  datatype Result<T> = Ok(value: T) | Err(error: Error)
  {
    predicate IsFailure() {
      Err?
    }

    /** Passes the exception on to a caller expecting another type. */
    function PropagateFailure<U>(): Result<U>
      requires Err?
    {
      Err(error)
    }

    function Extract(): T
      requires Ok?
    {
      value
    }
  }

  datatype Option<T> = None | Some(value: T)

  /** `math.exp` and `math.sqrt`, left uninterpreted. */
  datatype Maths = Maths(exp: real -> real, sqrt: real -> real)

  /** The one fact about `math.exp` the model relies on. */
  ghost predicate PositiveExp(m: Maths) {
    forall x :: 0.0 < m.exp(x)
  }

  /** A result together with the position in the stream of standard
      normal draws reached once it has been computed. */
  datatype Run<T> = Run(result: Result<T>, pos: nat)

  /** `random.gauss(mu, sigma)` as CPython computes it from the next
      standard normal variate `z` of the generator. */
  function Gauss(mu: real, sigma: real, z: real): (r: real)
    ensures sigma == 0.0 || z == 0.0 ==> r == mu
  {
    mu + z * sigma
  }

  /** The interpreter-wide generator of `random`. After `random.seed(s)`
      it yields the standard normal variates `fromSeed(s)(0)`,
      `fromSeed(s)(1)`, ...; `pos` counts the variates used since. */
  class Random {
    const fromSeed: int -> (nat -> real)
    var stream: nat -> real
    var pos: nat

    constructor (fromSeed: int -> (nat -> real), stream: nat -> real)
      ensures this.fromSeed == fromSeed && this.stream == stream && pos == 0
    {
      this.fromSeed := fromSeed;
      this.stream := stream;
      pos := 0;
    }

    /** `random.seed(seed)`. */
    method Seed(seed: int)
      modifies this
      ensures stream == fromSeed(seed) && pos == 0
    {
      stream := fromSeed(seed);
      pos := 0;
    }

    /** `random.gauss(mu, sigma)`: uses up one variate. */
    method NextGauss(mu: real, sigma: real) returns (x: real)
      modifies this
      ensures x == Gauss(mu, sigma, stream(old(pos)))
      ensures stream == old(stream) && pos == old(pos) + 1
    {
      x := Gauss(mu, sigma, stream(pos));
      pos := pos + 1;
    }
  }
}
