/** The drug-combination model of grmodel/pymcInteraction.py: Hill terms
    combined by Bliss independence, the death and growth rates built from
    them, the shape assertions of build_model, and the terms it records
    for each observed channel. Priors are parameters; theanoCorr needs a
    square root and is kept only as the name of the term it records. */
module Interaction {
  import opened Common
  import opened Kinetics
  import opened GrowthFit

  /** A parameter with one value per drug (hill[0], hill[1] and IC50[0], IC50[1]). */
  datatype PerDrug = PerDrug(one: real, two: real)

  /** E_con: the maximal death rate first, then the maximal growth rate. */
  datatype Econ = Econ(death: real, growth: real)

  /** The sampled quantities build_model computes with. */
  datatype Params = Params(hillGrowth: PerDrug, hillDeath: PerDrug, ic50Growth: PerDrug, ic50Death: PerDrug,
                           econ: Econ, apopfrac: real, d: real)

  // ---------------------------------------------------------------------
  // blissInteract

  /** The Hill term pow(X, h) / (pow(IC50, h) + pow(X, h)) divides by a
      sum that must not vanish. */
  predicate HillDefined(pow: (real, real) -> real, x: real, h: real, ic50: real)
  {
    pow(ic50, h) + pow(x, h) != 0.0
  }

  function Hill(pow: (real, real) -> real, x: real, h: real, ic50: real): real
    requires HillDefined(pow, x, h, ic50)
  {
    pow(x, h) / (pow(ic50, h) + pow(x, h))
  }

  /** Bliss independence of two effects. */
  function Bliss(a: real, b: real): real
  {
    a + b - a * b
  }

  predicate BlissDefined(pow: (real, real) -> real, x1: real, x2: real, hill: PerDrug, ic50: PerDrug)
  {
    HillDefined(pow, x1, hill.one, ic50.one) && HillDefined(pow, x2, hill.two, ic50.two)
  }

  /** blissInteract at one design point. */
  function BlissInteract(pow: (real, real) -> real, x1: real, x2: real, hill: PerDrug, ic50: PerDrug): real
    requires BlissDefined(pow, x1, x2, hill, ic50)
  {
    Bliss(Hill(pow, x1, hill.one, ic50.one), Hill(pow, x2, hill.two, ic50.two))
  }

  /** A Hill term of a non-negative dose with a positive IC50 is a fraction. */
  lemma HillBounds(pow: (real, real) -> real, x: real, h: real, ic50: real)
    requires PowLaws(pow) && x >= 0.0 && ic50 > 0.0
    ensures HillDefined(pow, x, h, ic50)
    ensures 0.0 <= Hill(pow, x, h, ic50) <= 1.0
  {
    var px, pi := pow(x, h), pow(ic50, h);
    assert px >= 0.0 && pi > 0.0;
    FractionBounds(px, pi);
  }

  lemma FractionBounds(p: real, q: real)
    requires p >= 0.0 && q > 0.0
    ensures 0.0 <= p / (q + p) <= 1.0
  {
    var s := q + p;
    assert p / s * s == p;
  }

  /** Both effects in [0, 1] give a combined effect in [0, 1]. */
  lemma BlissBounds(a: real, b: real)
    requires 0.0 <= a <= 1.0 && 0.0 <= b <= 1.0
    ensures 0.0 <= Bliss(a, b) <= 1.0
  {
    BlissComplement(a, b);
    assert (1.0 - a) * (1.0 - b) >= 0.0;
    assert (1.0 - a) * (1.0 - b) <= 1.0 * 1.0 by {
      assert (1.0 - a) * (1.0 - b) <= (1.0 - a) * 1.0;
    }
  }

  /** The surviving fraction of the combination is the product of the
      surviving fractions. */
  lemma BlissComplement(a: real, b: real)
    ensures 1.0 - Bliss(a, b) == (1.0 - a) * (1.0 - b)
  {
  }

  /** Bliss is non-decreasing in each effect while the other is at most 1. */
  lemma BlissMonotone(a: real, a': real, b: real)
    requires a <= a' && b <= 1.0
    ensures Bliss(a, b) <= Bliss(a', b)
    ensures Bliss(b, a) <= Bliss(b, a')
  {
    assert Bliss(a', b) - Bliss(a, b) == (a' - a) * (1.0 - b);
    assert Bliss(b, a') - Bliss(b, a) == (a' - a) * (1.0 - b);
  }

  /** A larger share of a fixed positive remainder: p / (q + p) is
      non-decreasing in p >= 0. */
  lemma FractionMonotone(p: real, p': real, q: real)
    requires 0.0 <= p <= p' && q > 0.0
    ensures p / (q + p) <= p' / (q + p')
  {
    QuotientOrder(p, q + p, p', q + p');
  }

  lemma QuotientOrder(a: real, s: real, a': real, s': real)
    requires s > 0.0 && s' > 0.0 && a * s' <= a' * s
    ensures a / s <= a' / s'
  {
    assert a / s - a' / s' == (a * s' - a' * s) / (s * s');
    assert s * s' > 0.0;
  }

  /** With a positive hill the Hill term is non-decreasing in the dose. */
  lemma HillMonotone(pow: (real, real) -> real, x: real, x': real, h: real, ic50: real)
    requires PowLaws(pow) && PowMonotone(pow) && 0.0 <= x <= x' && h > 0.0 && ic50 > 0.0
    ensures HillDefined(pow, x, h, ic50) && HillDefined(pow, x', h, ic50)
    ensures Hill(pow, x, h, ic50) <= Hill(pow, x', h, ic50)
  {
    HillBounds(pow, x, h, ic50);
    HillBounds(pow, x', h, ic50);
    assert pow(x, h) <= pow(x', h);
    assert pow(x, h) >= 0.0 && pow(ic50, h) > 0.0;
    FractionMonotone(pow(x, h), pow(x', h), pow(ic50, h));
  }

  /** Raising either dose (positive hills, positive IC50s) never lowers the
      combined effect. */
  lemma BlissInteractMonotone(pow: (real, real) -> real, x1: real, x1': real, x2: real, x2': real,
                              hill: PerDrug, ic50: PerDrug)
    requires PowLaws(pow) && PowMonotone(pow)
    requires 0.0 <= x1 <= x1' && 0.0 <= x2 <= x2'
    requires hill.one > 0.0 && hill.two > 0.0 && ic50.one > 0.0 && ic50.two > 0.0
    ensures BlissDefined(pow, x1, x2, hill, ic50) && BlissDefined(pow, x1', x2', hill, ic50)
    ensures BlissInteract(pow, x1, x2, hill, ic50) <= BlissInteract(pow, x1', x2', hill, ic50)
  {
    HillMonotone(pow, x1, x1', hill.one, ic50.one);
    HillMonotone(pow, x2, x2', hill.two, ic50.two);
    var a, a' := Hill(pow, x1, hill.one, ic50.one), Hill(pow, x1', hill.one, ic50.one);
    var b, b' := Hill(pow, x2, hill.two, ic50.two), Hill(pow, x2', hill.two, ic50.two);
    HillBounds(pow, x2, hill.two, ic50.two);
    HillBounds(pow, x1', hill.one, ic50.one);
    BlissMonotone(a, a', b);
    BlissMonotone(b, b', a');
  }

  /** No dose of either drug (with positive hills and IC50) means no effect. */
  lemma BlissAtZero(pow: (real, real) -> real, hill: PerDrug, ic50: PerDrug)
    requires PowLaws(pow) && hill.one > 0.0 && hill.two > 0.0 && ic50.one > 0.0 && ic50.two > 0.0
    ensures BlissDefined(pow, 0.0, 0.0, hill, ic50)
    ensures BlissInteract(pow, 0.0, 0.0, hill, ic50) == 0.0
  {
    assert pow(0.0, hill.one) == 0.0 && pow(0.0, hill.two) == 0.0;
    assert pow(ic50.one, hill.one) > 0.0 && pow(ic50.two, hill.two) > 0.0;
  }

  /** Exchanging the two drugs, each with its own hill and IC50, leaves the
      combined effect unchanged. */
  lemma BlissSymmetric(pow: (real, real) -> real, x1: real, x2: real, hill: PerDrug, ic50: PerDrug)
    requires BlissDefined(pow, x1, x2, hill, ic50)
    ensures BlissDefined(pow, x2, x1, PerDrug(hill.two, hill.one), PerDrug(ic50.two, ic50.one))
    ensures BlissInteract(pow, x2, x1, PerDrug(hill.two, hill.one), PerDrug(ic50.two, ic50.one))
              == BlissInteract(pow, x1, x2, hill, ic50)
  {
  }

  /** Non-negative doses with positive IC50s give a combined effect in [0, 1]. */
  lemma BlissInteractBounds(pow: (real, real) -> real, x1: real, x2: real, hill: PerDrug, ic50: PerDrug)
    requires PowLaws(pow) && x1 >= 0.0 && x2 >= 0.0 && ic50.one > 0.0 && ic50.two > 0.0
    ensures BlissDefined(pow, x1, x2, hill, ic50)
    ensures 0.0 <= BlissInteract(pow, x1, x2, hill, ic50) <= 1.0
  {
    HillBounds(pow, x1, hill.one, ic50.one);
    HillBounds(pow, x2, hill.two, ic50.two);
    BlissBounds(Hill(pow, x1, hill.one, ic50.one), Hill(pow, x2, hill.two, ic50.two));
  }

  // ---------------------------------------------------------------------
  // Rates

  /** death_rates = E_con[0] * blissInteract(X1, X2, hill_death, IC50_death). */
  function DeathRate(pow: (real, real) -> real, p: Params, x1: real, x2: real): real
    requires BlissDefined(pow, x1, x2, p.hillDeath, p.ic50Death)
  {
    p.econ.death * BlissInteract(pow, x1, x2, p.hillDeath, p.ic50Death)
  }

  /** growth_rates = E_con[1] * (1 - blissInteract(X1, X2, hill_growth, IC50_growth)). */
  function GrowthRate(pow: (real, real) -> real, p: Params, x1: real, x2: real): real
    requires BlissDefined(pow, x1, x2, p.hillGrowth, p.ic50Growth)
  {
    p.econ.growth * (1.0 - BlissInteract(pow, x1, x2, p.hillGrowth, p.ic50Growth))
  }

  /** With the combined effect in [0, 1] and E_con >= 0 the death rate is in
      [0, E_con[0]]; with the growth effect in [0, 1] the growth rate is in
      [0, E_con[1]]. */
  lemma RateBounds(pow: (real, real) -> real, p: Params, x1: real, x2: real)
    requires BlissDefined(pow, x1, x2, p.hillDeath, p.ic50Death)
    requires BlissDefined(pow, x1, x2, p.hillGrowth, p.ic50Growth)
    requires 0.0 <= BlissInteract(pow, x1, x2, p.hillDeath, p.ic50Death) <= 1.0
    requires 0.0 <= BlissInteract(pow, x1, x2, p.hillGrowth, p.ic50Growth) <= 1.0
    requires p.econ.death >= 0.0 && p.econ.growth >= 0.0
    ensures 0.0 <= DeathRate(pow, p, x1, x2) <= p.econ.death
    ensures 0.0 <= GrowthRate(pow, p, x1, x2) <= p.econ.growth
  {
    var bd := BlissInteract(pow, x1, x2, p.hillDeath, p.ic50Death);
    var bg := BlissInteract(pow, x1, x2, p.hillGrowth, p.ic50Growth);
    assert DeathRate(pow, p, x1, x2) == p.econ.death * bd;
    assert GrowthRate(pow, p, x1, x2) == p.econ.growth * (1.0 - bg);
    Scaled(p.econ.death, bd);
    assert p.econ.death * bd <= p.econ.death;
    assert DeathRate(pow, p, x1, x2) <= p.econ.death;
    Scaled(p.econ.growth, 1.0 - bg);
  }

  /** Raising either dose never lowers the death rate and never raises the
      growth rate (non-negative E_con, positive hills and IC50s). */
  lemma RatesMonotone(pow: (real, real) -> real, p: Params, x1: real, x1': real, x2: real, x2': real)
    requires PowLaws(pow) && PowMonotone(pow)
    requires 0.0 <= x1 <= x1' && 0.0 <= x2 <= x2'
    requires p.hillDeath.one > 0.0 && p.hillDeath.two > 0.0 && p.ic50Death.one > 0.0 && p.ic50Death.two > 0.0
    requires p.hillGrowth.one > 0.0 && p.hillGrowth.two > 0.0 && p.ic50Growth.one > 0.0 && p.ic50Growth.two > 0.0
    requires p.econ.death >= 0.0 && p.econ.growth >= 0.0
    ensures BlissDefined(pow, x1, x2, p.hillDeath, p.ic50Death) && BlissDefined(pow, x1', x2', p.hillDeath, p.ic50Death)
    ensures BlissDefined(pow, x1, x2, p.hillGrowth, p.ic50Growth) && BlissDefined(pow, x1', x2', p.hillGrowth, p.ic50Growth)
    ensures DeathRate(pow, p, x1, x2) <= DeathRate(pow, p, x1', x2')
    ensures GrowthRate(pow, p, x1', x2') <= GrowthRate(pow, p, x1, x2)
  {
    DeathRateMonotone(pow, p, x1, x1', x2, x2');
    GrowthRateMonotone(pow, p, x1, x1', x2, x2');
  }

  lemma DeathRateMonotone(pow: (real, real) -> real, p: Params, x1: real, x1': real, x2: real, x2': real)
    requires PowLaws(pow) && PowMonotone(pow)
    requires 0.0 <= x1 <= x1' && 0.0 <= x2 <= x2'
    requires p.hillDeath.one > 0.0 && p.hillDeath.two > 0.0 && p.ic50Death.one > 0.0 && p.ic50Death.two > 0.0
    requires p.econ.death >= 0.0
    ensures BlissDefined(pow, x1, x2, p.hillDeath, p.ic50Death) && BlissDefined(pow, x1', x2', p.hillDeath, p.ic50Death)
    ensures DeathRate(pow, p, x1, x2) <= DeathRate(pow, p, x1', x2')
  {
    BlissInteractMonotone(pow, x1, x1', x2, x2', p.hillDeath, p.ic50Death);
    ScaledOrder(p.econ.death, BlissInteract(pow, x1, x2, p.hillDeath, p.ic50Death),
                BlissInteract(pow, x1', x2', p.hillDeath, p.ic50Death));
  }

  lemma GrowthRateMonotone(pow: (real, real) -> real, p: Params, x1: real, x1': real, x2: real, x2': real)
    requires PowLaws(pow) && PowMonotone(pow)
    requires 0.0 <= x1 <= x1' && 0.0 <= x2 <= x2'
    requires p.hillGrowth.one > 0.0 && p.hillGrowth.two > 0.0 && p.ic50Growth.one > 0.0 && p.ic50Growth.two > 0.0
    requires p.econ.growth >= 0.0
    ensures BlissDefined(pow, x1, x2, p.hillGrowth, p.ic50Growth) && BlissDefined(pow, x1', x2', p.hillGrowth, p.ic50Growth)
    ensures GrowthRate(pow, p, x1', x2') <= GrowthRate(pow, p, x1, x2)
  {
    BlissInteractMonotone(pow, x1, x1', x2, x2', p.hillGrowth, p.ic50Growth);
    ScaledOrder(p.econ.growth, 1.0 - BlissInteract(pow, x1', x2', p.hillGrowth, p.ic50Growth),
                1.0 - BlissInteract(pow, x1, x2, p.hillGrowth, p.ic50Growth));
  }

  lemma ScaledOrder(e: real, f: real, f': real)
    requires e >= 0.0 && f <= f'
    ensures e * f <= e * f'
  {
  }

  /** Over a whole design with non-negative doses, positive IC50s and
      non-negative E_con, every death rate lies in [0, E_con[0]] and every
      growth rate in [0, E_con[1]]. */
  lemma RatesBounded(pow: (real, real) -> real, p: Params, X1: seq<real>, X2: seq<real>)
    requires RatesDefined(pow, p, X1, X2) && PowLaws(pow)
    requires forall i :: 0 <= i < |X1| ==> X1[i] >= 0.0
    requires forall i :: 0 <= i < |X2| ==> X2[i] >= 0.0
    requires p.ic50Death.one > 0.0 && p.ic50Death.two > 0.0 && p.ic50Growth.one > 0.0 && p.ic50Growth.two > 0.0
    requires p.econ.death >= 0.0 && p.econ.growth >= 0.0
    ensures |DeathRates(pow, p, X1, X2)| == |GrowthRates(pow, p, X1, X2)| == |X1|
    ensures forall i :: 0 <= i < |X1| ==> 0.0 <= DeathRates(pow, p, X1, X2)[i] <= p.econ.death
    ensures forall i :: 0 <= i < |X1| ==> 0.0 <= GrowthRates(pow, p, X1, X2)[i] <= p.econ.growth
  {
    forall i | 0 <= i < |X1|
      ensures 0.0 <= DeathRate(pow, p, X1[i], X2[i]) <= p.econ.death
      ensures 0.0 <= GrowthRate(pow, p, X1[i], X2[i]) <= p.econ.growth
    {
      BlissInteractBounds(pow, X1[i], X2[i], p.hillDeath, p.ic50Death);
      BlissInteractBounds(pow, X1[i], X2[i], p.hillGrowth, p.ic50Growth);
      RateBounds(pow, p, X1[i], X2[i]);
    }
  }

  lemma Scaled(e: real, f: real)
    requires e >= 0.0 && 0.0 <= f <= 1.0
    ensures 0.0 <= e * f <= e
  {
    assert e * f <= e * 1.0;
  }

  /** The rates are defined at every design point and the closed form of
      theanoCore is nonsingular there. */
  predicate RatesDefined(pow: (real, real) -> real, p: Params, X1: seq<real>, X2: seq<real>)
  {
    && |X1| == |X2|
    && (forall i :: 0 <= i < |X1| ==>
          BlissDefined(pow, X1[i], X2[i], p.hillDeath, p.ic50Death)
          && BlissDefined(pow, X1[i], X2[i], p.hillGrowth, p.ic50Growth))
    && (forall i :: 0 <= i < |X1| ==>
          Nonsingular(GrowthRate(pow, p, X1[i], X2[i]), DeathRate(pow, p, X1[i], X2[i]), p.d))
  }

  function DeathRates(pow: (real, real) -> real, p: Params, X1: seq<real>, X2: seq<real>): (r: seq<real>)
    requires RatesDefined(pow, p, X1, X2)
    ensures |r| == |X1| && forall i :: 0 <= i < |X1| ==> r[i] == DeathRate(pow, p, X1[i], X2[i])
  {
    seq(|X1|, i requires 0 <= i < |X1| => DeathRate(pow, p, X1[i], X2[i]))
  }

  function GrowthRates(pow: (real, real) -> real, p: Params, X1: seq<real>, X2: seq<real>): (r: seq<real>)
    requires RatesDefined(pow, p, X1, X2)
    ensures |r| == |X1| && forall i :: 0 <= i < |X1| ==> r[i] == GrowthRate(pow, p, X1[i], X2[i])
  {
    seq(|X1|, i requires 0 <= i < |X1| => GrowthRate(pow, p, X1[i], X2[i]))
  }

  /** The scalar apopfrac broadcast to every design point. */
  function Broadcast(n: nat, v: real): (r: seq<real>)
    ensures |r| == n && forall i :: 0 <= i < n ==> r[i] == v
  {
    seq(n, i => v)
  }

  lemma CoreRatesOk(pow: (real, real) -> real, p: Params, X1: seq<real>, X2: seq<real>)
    requires RatesDefined(pow, p, X1, X2)
    ensures RatesOk(GrowthRates(pow, p, X1, X2), DeathRates(pow, p, X1, X2), Broadcast(|X1|, p.apopfrac), p.d)
  {
  }

  /** theanoCore(timeV, growth_rates, death_rates, apopfrac, d). */
  function InteractionCore(exp: real -> real, pow: (real, real) -> real, p: Params, X1: seq<real>, X2: seq<real>,
                           timeV: seq<real>): Traj
    requires RatesDefined(pow, p, X1, X2)
  {
    CoreRatesOk(pow, p, X1, X2);
    TheanoCore(exp, timeV, GrowthRates(pow, p, X1, X2), DeathRates(pow, p, X1, X2), Broadcast(|X1|, p.apopfrac), p.d)
  }

  // ---------------------------------------------------------------------
  // build_model

  /** What build_model records: theanoCorr of a channel, its normal fit on
      the flattened residual, and logp. */
  datatype ITerm = Corr(name: string) | Fit(name: string, observed: seq<real>) | ILogP

  const CorrNames: seq<string> := ["confl_corr", "apop_corr", "dna_corr"]
  const ChannelFitNames: seq<string> := ["confl_fit", "apop_fit", "dna_fit"]

  /** The terms of channels c, c+1, .. for the observed matrices obs (None
      when build_model's argument is None), then logp. confl_exp - confl
      needs two matrices of one shape. */
  function ChannelTerms(s: Signals, obs: seq<Option<Matrix>>, c: nat): Result<seq<ITerm>>
    requires c <= 3 && |obs| == 3
    decreases 3 - c
  {
    if c == 3 then Ok([ILogP])
    else if obs[c].None? then ChannelTerms(s, obs, c + 1)
    else if !SameShape(ChannelSignal(s, c), obs[c].value) then Err(ValueError)
    else
      match ChannelTerms(s, obs, c + 1)
      case Err(e) => Err(e)
      case Ok(ts) =>
        Ok([Corr(CorrNames[c]), Fit(ChannelFitNames[c], Flatten(Diff(ChannelSignal(s, c), obs[c].value)))] + ts)
  }

  /** build_model(X1, X2, timeV, conv0, confl, apop, dna) of the
      combination model, doses as 1-D arrays. The three assertions are
      checked in the source's order: X1.shape == X2.shape (line 28), the
      growth rate count (line 59) and the trajectory size (line 64). */
  function InteractionModel(exp: real -> real, pow: (real, real) -> real, p: Params, conv: Conv, offset: Offset,
                            X1: seq<real>, X2: seq<real>, timeV: seq<real>,
                            confl: Option<Matrix>, apop: Option<Matrix>, dna: Option<Matrix>): Result<seq<ITerm>>
    requires |X1| == |X2| ==> RatesDefined(pow, p, X1, X2)
  {
    if |X1| != |X2| then Err(AssertionError)
    else if |GrowthRates(pow, p, X1, X2)| != |X1| then Err(AssertionError)
    else
      var tr := InteractionCore(exp, pow, p, X1, X2, timeV);
      if |Flatten(tr.lnum)| != |X1| * |timeV| then Err(AssertionError)
      else
        CoreAligned(exp, timeV, GrowthRates(pow, p, X1, X2), DeathRates(pow, p, X1, X2), Broadcast(|X1|, p.apopfrac), p.d);
        ChannelTerms(ConvSignal(tr, conv, Some(offset)), Obs3(confl, apop, dna), 0)
  }

  // ---------------------------------------------------------------------
  // Properties of build_model

  /** One rate per design point, and a trajectory of |X1| * |timeV| entries:
      the assertions of lines 59 and 64 always hold. */
  lemma SizeAssertionsHold(exp: real -> real, pow: (real, real) -> real, p: Params, X1: seq<real>, X2: seq<real>,
                           timeV: seq<real>)
    requires RatesDefined(pow, p, X1, X2)
    ensures |GrowthRates(pow, p, X1, X2)| == |X1| && |DeathRates(pow, p, X1, X2)| == |X1|
    ensures TrajShape(InteractionCore(exp, pow, p, X1, X2, timeV), |X1|, |timeV|)
    ensures |Flatten(InteractionCore(exp, pow, p, X1, X2, timeV).lnum)| == |X1| * |timeV|
  {
    FlattenShape(InteractionCore(exp, pow, p, X1, X2, timeV).lnum, |X1|, |timeV|);
  }

  /** Each given observed matrix has the shape of its channel's signal. */
  predicate ChannelsMatch(s: Signals, obs: seq<Option<Matrix>>, c: nat)
    requires |obs| == 3 && c <= 3
  {
    forall k :: c <= k < 3 && obs[k].Some? ==> SameShape(ChannelSignal(s, k), obs[k].value)
  }

  /** Number of given observed matrices among channels c, c+1, .. */
  function Given(obs: seq<Option<Matrix>>, c: nat): nat
    requires |obs| == 3 && c <= 3
    decreases 3 - c
  {
    if c == 3 then 0 else (if obs[c].Some? then 1 else 0) + Given(obs, c + 1)
  }

  predicate HasCorr(ts: seq<ITerm>, name: string)
  {
    exists i :: 0 <= i < |ts| && ts[i].Corr? && ts[i].name == name
  }

  predicate HasFit(ts: seq<ITerm>, name: string)
  {
    exists i :: 0 <= i < |ts| && ts[i].Fit? && ts[i].name == name
  }

  /** The terms exist exactly when every given matrix matches its signal. */
  lemma {:induction false} ChannelTermsOk(s: Signals, obs: seq<Option<Matrix>>, c: nat)
    requires c <= 3 && |obs| == 3
    ensures ChannelTerms(s, obs, c).Ok? <==> ChannelsMatch(s, obs, c)
    ensures ChannelTerms(s, obs, c).Err? ==> ChannelTerms(s, obs, c).error == ValueError
    decreases 3 - c
  {
    if c < 3 {
      ChannelTermsOk(s, obs, c + 1);
    }
  }

  /** Two terms per given channel and logp last; every term is named after
      one of channels c, c+1, .. */
  lemma {:induction false} ChannelTermsList(s: Signals, obs: seq<Option<Matrix>>, c: nat, ts: seq<ITerm>)
    requires c <= 3 && |obs| == 3 && ChannelTerms(s, obs, c) == Ok(ts)
    ensures |ts| == 2 * Given(obs, c) + 1 && ts[|ts| - 1] == ILogP
    ensures forall i :: 0 <= i < |ts| && ts[i].Corr? ==> ts[i].name in CorrNames[c..]
    ensures forall i :: 0 <= i < |ts| && ts[i].Fit? ==> ts[i].name in ChannelFitNames[c..]
    decreases 3 - c
  {
    if c < 3 {
      if obs[c].None? {
        ChannelTermsList(s, obs, c + 1, ts);
      } else {
        var rest := ChannelTerms(s, obs, c + 1).value;
        ChannelTermsList(s, obs, c + 1, rest);
        var f := Fit(ChannelFitNames[c], Flatten(Diff(ChannelSignal(s, c), obs[c].value)));
        assert ts == [Corr(CorrNames[c]), f] + rest;
      }
    }
  }

  /** Each fit observes the flattened difference of its channel's signal
      and matrix. */
  lemma {:induction false} ChannelTermsFits(s: Signals, obs: seq<Option<Matrix>>, c: nat, ts: seq<ITerm>)
    requires c <= 3 && |obs| == 3 && ChannelTerms(s, obs, c) == Ok(ts)
    ensures forall i, k :: 0 <= i < |ts| && c <= k < 3 && ts[i].Fit? && ts[i].name == ChannelFitNames[k] ==>
              obs[k].Some? && SameShape(ChannelSignal(s, k), obs[k].value)
              && ts[i].observed == Flatten(Diff(ChannelSignal(s, k), obs[k].value))
    decreases 3 - c
  {
    if c < 3 {
      if obs[c].None? {
        ChannelTermsFits(s, obs, c + 1, ts);
      } else {
        var rest := ChannelTerms(s, obs, c + 1).value;
        ChannelTermsFits(s, obs, c + 1, rest);
        ChannelTermsList(s, obs, c + 1, rest);
        var f := Fit(ChannelFitNames[c], Flatten(Diff(ChannelSignal(s, c), obs[c].value)));
        assert ts == [Corr(CorrNames[c]), f] + rest;
        forall i, k | 0 <= i < |ts| && c <= k < 3 && ts[i].Fit? && ts[i].name == ChannelFitNames[k]
          ensures obs[k].Some? && SameShape(ChannelSignal(s, k), obs[k].value)
                  && ts[i].observed == Flatten(Diff(ChannelSignal(s, k), obs[k].value))
        {
          if i >= 2 {
            assert ts[i] == rest[i - 2];
            assert k != c;
          } else {
            assert i == 1 && k == c;
          }
        }
      }
    }
  }

  /** The correlation and the fit term of channel k are recorded iff its
      matrix is given. */
  lemma {:induction false} ChannelTermsNames(s: Signals, obs: seq<Option<Matrix>>, c: nat, ts: seq<ITerm>)
    requires c <= 3 && |obs| == 3 && ChannelTerms(s, obs, c) == Ok(ts)
    ensures forall k :: c <= k < 3 ==> (HasCorr(ts, CorrNames[k]) <==> obs[k].Some?)
    ensures forall k :: c <= k < 3 ==> (HasFit(ts, ChannelFitNames[k]) <==> obs[k].Some?)
    decreases 3 - c
  {
    if c < 3 {
      if obs[c].None? {
        ChannelTermsNames(s, obs, c + 1, ts);
        ChannelTermsList(s, obs, c + 1, ts);
        assert !HasCorr(ts, CorrNames[c]) && !HasFit(ts, ChannelFitNames[c]);
      } else {
        var rest := ChannelTerms(s, obs, c + 1).value;
        ChannelTermsNames(s, obs, c + 1, rest);
        ChannelTermsList(s, obs, c + 1, rest);
        var f := Fit(ChannelFitNames[c], Flatten(Diff(ChannelSignal(s, c), obs[c].value)));
        assert ts == [Corr(CorrNames[c]), f] + rest;
        ConsChannel(Corr(CorrNames[c]), f, rest, c);
      }
    }
  }

  /** Putting channel c's two terms in front of the later channels' terms. */
  lemma ConsChannel(corr: ITerm, fit: ITerm, rest: seq<ITerm>, c: nat)
    requires c < 3 && corr == Corr(CorrNames[c]) && fit.Fit? && fit.name == ChannelFitNames[c]
    requires forall i :: 0 <= i < |rest| && rest[i].Corr? ==> rest[i].name in CorrNames[c + 1..]
    requires forall i :: 0 <= i < |rest| && rest[i].Fit? ==> rest[i].name in ChannelFitNames[c + 1..]
    ensures HasCorr([corr, fit] + rest, CorrNames[c]) && HasFit([corr, fit] + rest, ChannelFitNames[c])
    ensures forall k :: c < k < 3 ==> (HasCorr([corr, fit] + rest, CorrNames[k]) <==> HasCorr(rest, CorrNames[k]))
    ensures forall k :: c < k < 3 ==> (HasFit([corr, fit] + rest, ChannelFitNames[k]) <==> HasFit(rest, ChannelFitNames[k]))
  {
    var ts := [corr, fit] + rest;
    assert ts[0] == corr && ts[1] == fit;
    forall k | c < k < 3
      ensures HasCorr(ts, CorrNames[k]) <==> HasCorr(rest, CorrNames[k])
    {
      ConsCorr(corr, fit, rest, CorrNames[k]);
    }
    forall k | c < k < 3
      ensures HasFit(ts, ChannelFitNames[k]) <==> HasFit(rest, ChannelFitNames[k])
    {
      ConsFit(corr, fit, rest, ChannelFitNames[k]);
    }
  }

  lemma ConsCorr(corr: ITerm, fit: ITerm, rest: seq<ITerm>, name: string)
    requires !(corr.Corr? && corr.name == name) && fit.Fit?
    ensures HasCorr([corr, fit] + rest, name) <==> HasCorr(rest, name)
  {
    var ts := [corr, fit] + rest;
    if HasCorr(rest, name) {
      var i :| 0 <= i < |rest| && rest[i].Corr? && rest[i].name == name;
      assert ts[i + 2] == rest[i];
    }
    if HasCorr(ts, name) {
      var i :| 0 <= i < |ts| && ts[i].Corr? && ts[i].name == name;
      assert i >= 2 && rest[i - 2] == ts[i];
    }
  }

  lemma ConsFit(corr: ITerm, fit: ITerm, rest: seq<ITerm>, name: string)
    requires corr.Corr? && !(fit.Fit? && fit.name == name)
    ensures HasFit([corr, fit] + rest, name) <==> HasFit(rest, name)
  {
    var ts := [corr, fit] + rest;
    if HasFit(rest, name) {
      var i :| 0 <= i < |rest| && rest[i].Fit? && rest[i].name == name;
      assert ts[i + 2] == rest[i];
    }
    if HasFit(ts, name) {
      var i :| 0 <= i < |ts| && ts[i].Fit? && ts[i].name == name;
      assert i >= 2 && rest[i - 2] == ts[i];
    }
  }

  /** The model signals of the combination model. */
  function InteractionSignals(exp: real -> real, pow: (real, real) -> real, p: Params, conv: Conv, offset: Offset,
                              X1: seq<real>, X2: seq<real>, timeV: seq<real>): (r: Signals)
    requires RatesDefined(pow, p, X1, X2)
    ensures SignalShape(r, |X1|, |timeV|)
  {
    CoreAligned(exp, timeV, GrowthRates(pow, p, X1, X2), DeathRates(pow, p, X1, X2), Broadcast(|X1|, p.apopfrac), p.d);
    ConvSignal(InteractionCore(exp, pow, p, X1, X2, timeV), conv, Some(offset))
  }

  /** build_model's three optional observations, in channel order. */
  function Obs3(confl: Option<Matrix>, apop: Option<Matrix>, dna: Option<Matrix>): (r: seq<Option<Matrix>>)
    ensures |r| == 3 && r[0] == confl && r[1] == apop && r[2] == dna
  {
    [confl, apop, dna]
  }

  /** Once X1 and X2 agree, build_model records exactly the channel terms. */
  lemma InteractionModelUnfold(exp: real -> real, pow: (real, real) -> real, p: Params, conv: Conv, offset: Offset,
                               X1: seq<real>, X2: seq<real>, timeV: seq<real>,
                               confl: Option<Matrix>, apop: Option<Matrix>, dna: Option<Matrix>)
    requires |X1| == |X2| && RatesDefined(pow, p, X1, X2)
    ensures SignalShape(InteractionSignals(exp, pow, p, conv, offset, X1, X2, timeV), |X1|, |timeV|)
    ensures InteractionModel(exp, pow, p, conv, offset, X1, X2, timeV, confl, apop, dna)
              == ChannelTerms(InteractionSignals(exp, pow, p, conv, offset, X1, X2, timeV), Obs3(confl, apop, dna), 0)
  {
    SizeAssertionsHold(exp, pow, p, X1, X2, timeV);
  }

  /** A matrix has the shape of a rows x cols signal iff it is rows x cols. */
  lemma SameShapeIff(a: Matrix, b: Matrix, rows: nat, cols: nat)
    requires IsShape(a, rows, cols)
    ensures SameShape(a, b) <==> IsShape(b, rows, cols)
  {
  }

  /** build_model fails with AssertionError exactly when X1 and X2 differ in
      shape, fails with a shape error when a given matrix is not
      |X1| x |timeV|, and otherwise records its terms. */
  lemma InteractionModelOk(exp: real -> real, pow: (real, real) -> real, p: Params, conv: Conv, offset: Offset,
                           X1: seq<real>, X2: seq<real>, timeV: seq<real>,
                           confl: Option<Matrix>, apop: Option<Matrix>, dna: Option<Matrix>)
    requires |X1| == |X2| ==> RatesDefined(pow, p, X1, X2)
    ensures (InteractionModel(exp, pow, p, conv, offset, X1, X2, timeV, confl, apop, dna) == Err(AssertionError))
            <==> |X1| != |X2|
    ensures InteractionModel(exp, pow, p, conv, offset, X1, X2, timeV, confl, apop, dna).Ok?
            <==> |X1| == |X2| && forall k :: 0 <= k < 3 && Obs3(confl, apop, dna)[k].Some? ==>
                                     IsShape(Obs3(confl, apop, dna)[k].value, |X1|, |timeV|)
  {
    if |X1| == |X2| {
      var s := InteractionSignals(exp, pow, p, conv, offset, X1, X2, timeV);
      var obs := Obs3(confl, apop, dna);
      InteractionModelUnfold(exp, pow, p, conv, offset, X1, X2, timeV, confl, apop, dna);
      ChannelTermsOk(s, obs, 0);
      forall k | 0 <= k < 3 && obs[k].Some?
        ensures SameShape(ChannelSignal(s, k), obs[k].value) <==> IsShape(obs[k].value, |X1|, |timeV|)
      {
        SameShapeIff(ChannelSignal(s, k), obs[k].value, |X1|, |timeV|);
      }
    }
  }

  /** The recorded terms: a correlation and a fit for each given channel,
      nothing for a channel that is None, logp last. */
  lemma InteractionModelTerms(exp: real -> real, pow: (real, real) -> real, p: Params, conv: Conv, offset: Offset,
                              X1: seq<real>, X2: seq<real>, timeV: seq<real>,
                              confl: Option<Matrix>, apop: Option<Matrix>, dna: Option<Matrix>, ts: seq<ITerm>)
    requires |X1| == |X2| ==> RatesDefined(pow, p, X1, X2)
    requires InteractionModel(exp, pow, p, conv, offset, X1, X2, timeV, confl, apop, dna) == Ok(ts)
    ensures |ts| == 2 * Given(Obs3(confl, apop, dna), 0) + 1 && ts[|ts| - 1] == ILogP
    ensures forall k :: 0 <= k < 3 ==> (HasCorr(ts, CorrNames[k]) <==> Obs3(confl, apop, dna)[k].Some?)
    ensures forall k :: 0 <= k < 3 ==> (HasFit(ts, ChannelFitNames[k]) <==> Obs3(confl, apop, dna)[k].Some?)
  {
    var s := InteractionSignals(exp, pow, p, conv, offset, X1, X2, timeV);
    InteractionModelUnfold(exp, pow, p, conv, offset, X1, X2, timeV, confl, apop, dna);
    ChannelTermsList(s, Obs3(confl, apop, dna), 0, ts);
    ChannelTermsNames(s, Obs3(confl, apop, dna), 0, ts);
  }

  /** A fit term observes, at position i * |timeV| + j, the channel's signal
      for design point i at time j minus the observation there. */
  lemma InteractionResidual(exp: real -> real, pow: (real, real) -> real, p: Params, conv: Conv, offset: Offset,
                            X1: seq<real>, X2: seq<real>, timeV: seq<real>,
                            confl: Option<Matrix>, apop: Option<Matrix>, dna: Option<Matrix>, ts: seq<ITerm>,
                            t: nat, k: nat, i: nat, j: nat)
    returns (signal: Matrix, observed: Matrix, pos: nat)
    requires |X1| == |X2| ==> RatesDefined(pow, p, X1, X2)
    requires InteractionModel(exp, pow, p, conv, offset, X1, X2, timeV, confl, apop, dna) == Ok(ts)
    requires t < |ts| && ts[t].Fit? && k < 3 && ts[t].name == ChannelFitNames[k] && i < |X1| && j < |timeV|
    ensures |X1| == |X2|
    ensures signal == ChannelSignal(InteractionSignals(exp, pow, p, conv, offset, X1, X2, timeV), k)
    ensures Obs3(confl, apop, dna)[k] == Some(observed)
    ensures IsShape(signal, |X1|, |timeV|) && IsShape(observed, |X1|, |timeV|)
    ensures pos == i * |timeV| + j && pos < |ts[t].observed|
    ensures ts[t].observed[pos] == signal[i][j] - observed[i][j]
  {
    assert |X1| == |X2|;
    var s := InteractionSignals(exp, pow, p, conv, offset, X1, X2, timeV);
    var obs := Obs3(confl, apop, dna);
    InteractionModelUnfold(exp, pow, p, conv, offset, X1, X2, timeV, confl, apop, dna);
    ChannelTermsFits(s, obs, 0, ts);
    signal, observed := ChannelSignal(s, k), obs[k].value;
    assert ts[t].observed == Flatten(Diff(signal, observed));
    SameShapeIff(signal, observed, |X1|, |timeV|);
    pos := DiffAt(signal, observed, |X1|, |timeV|, i, j);
  }

  /** Entry (i, j) of the flattened difference. */
  lemma DiffAt(a: Matrix, b: Matrix, rows: nat, cols: nat, i: nat, j: nat) returns (pos: nat)
    requires IsShape(a, rows, cols) && IsShape(b, rows, cols) && i < rows && j < cols
    ensures pos == i * cols + j && pos < |Flatten(Diff(a, b))|
    ensures Flatten(Diff(a, b))[pos] == a[i][j] - b[i][j]
  {
    FlattenAt(Diff(a, b), rows, cols, i, j);
    pos := i * cols + j;
  }
}
