/** The diffusion models of C++/Monte_carlo_pricer/Model.cpp: the abstract
    `Model` holding the initial value, the Black-Scholes model with a drift
    and a volatility proportional to the price, and the Dupire local
    volatility model whose terms are still stubs. A derived class keeps its
    `Model` part as the object `base`. */
module Models {

  /** The `Model` part of every model: the initial value of the asset. */
  class Model {
    var initialValue: real

    /** `Model(initValue)`. */
    constructor (initValue: real)
      ensures initialValue == initValue
    {
      initialValue := initValue;
    }

    /** `operator=`: copies the initial value unless the source is this very
        object, and returns this object. */
    method Assign(model: Model) returns (self: Model)
      modifies this
      ensures self == this
      ensures initialValue == old(model.initialValue)
    {
      if this != model {
        initialValue := model.initialValue;
      }
      return this;
    }
  }

  /** `BlackScholesModel`: geometric Brownian motion, with drift
      `drift * S` and diffusion `volatility * S`. */
  class BlackScholesModel {
    const base: Model
    var drift: real
    var volatility: real

    /** `BlackScholesModel(initValue, drift, volatility)`. */
    constructor (initValue: real, drift: real, volatility: real)
      ensures fresh(base)
      ensures base.initialValue == initValue && this.drift == drift && this.volatility == volatility
    {
      base := new Model(initValue);
      this.drift := drift;
      this.volatility := volatility;
    }

    /** `operator=`: unless the source is this very object, assigns the
        `Model` part through `Model::operator=` and copies the drift and the
        volatility. Distinct models own distinct `Model` parts. The C++
        operator has no return statement, so it returns nothing here. */
    method Assign(model: BlackScholesModel)
      requires this == model || base != model.base
      modifies this, base
      ensures base.initialValue == old(model.base.initialValue)
      ensures drift == old(model.drift) && volatility == old(model.volatility)
      ensures this != model ==> model.drift == old(model.drift) && model.volatility == old(model.volatility)
                                && model.base.initialValue == old(model.base.initialValue)
    {
      if this != model {
        var _ := base.Assign(model.base);
        drift := model.drift;
        volatility := model.volatility;
      }
    }

    /** `driftTerm`: `drift * assetPrice`, whatever the time. */
    function DriftTerm(time: real, assetPrice: real): real
      reads this
    {
      drift * assetPrice
    }

    /** `diffusionTerm`: `volatility * assetPrice`, whatever the time. */
    function DiffusionTerm(time: real, assetPrice: real): real
      reads this
    {
      volatility * assetPrice
    }

    /** `clone`: a new model with the same initial value, drift and volatility. */
    method Clone() returns (c: BlackScholesModel)
      ensures fresh(c) && fresh(c.base)
      ensures c.base.initialValue == base.initialValue && c.drift == drift && c.volatility == volatility
    {
      c := new BlackScholesModel(base.initialValue, drift, volatility);
    }
  }

  /** Both Black-Scholes terms are the same multiple of the price at every
      time: the model's drift and volatility per unit of price. */
  lemma BlackScholesTermsProportional(m: BlackScholesModel, t: real, u: real, x: real, y: real)
    ensures m.DriftTerm(t, x) * y == m.DriftTerm(u, y) * x
    ensures m.DiffusionTerm(t, x) * y == m.DiffusionTerm(u, y) * x
    ensures m.DriftTerm(t, x + y) == m.DriftTerm(t, x) + m.DriftTerm(u, y)
    ensures m.DiffusionTerm(t, x + y) == m.DiffusionTerm(t, x) + m.DiffusionTerm(u, y)
  {
    assert m.drift * x * y == m.drift * y * x;
    assert m.volatility * x * y == m.volatility * y * x;
  }

  /** `DupireLocalVolatility`: its drift and its local volatility are not
      implemented yet and are zero. The C++ class declares no constructor,
      so the one here only gives the `Model` part its initial value. */
  class DupireLocalVolatility {
    const base: Model

    constructor (initValue: real)
      ensures fresh(base) && base.initialValue == initValue
    {
      base := new Model(initValue);
    }

    /** `driftTerm`: a stub returning zero. */
    function DriftTerm(time: real, assetPrice: real): real {
      0.0
    }

    /** `localVolatility`: a stub returning zero. */
    function LocalVolatility(time: real, assetPrice: real): real {
      0.0
    }

    /** `diffusionTerm`: the local volatility times the price. */
    function DiffusionTerm(time: real, assetPrice: real): real {
      LocalVolatility(time, assetPrice) * assetPrice
    }

    /** `clone`: a new model with the same initial value. */
    method Clone() returns (c: DupireLocalVolatility)
      ensures fresh(c) && fresh(c.base) && c.base.initialValue == base.initialValue
    {
      c := new DupireLocalVolatility(base.initialValue);
    }
  }

  /** With the stubs in place, the Dupire model neither drifts nor diffuses. */
  lemma DupireTermsVanish(m: DupireLocalVolatility, t: real, x: real)
    ensures m.DriftTerm(t, x) == 0.0 && m.DiffusionTerm(t, x) == 0.0
  {
  }
}
