/** The closed-form cell kinetics of grmodel/pymcGrowth.py (theanoCore,
    simulate) and the mapping of population states onto the three
    measured signals (convSignal). Everything is real arithmetic; exp is a
    parameter constrained by Common.ExpLaws where a property needs it. */
module Kinetics {
  import opened Common

  /** One point of a trajectory: live cells, early-apoptotic cells, cells
      dead through apoptosis and cells dead through necrosis. */
  datatype State = State(lnum: real, eap: real, deadapop: real, deadnec: real)

  /** The closed form divides by GR = div - deathRate and by GR + d and
      has no guard against either being zero. */
  predicate Nonsingular(div: real, deathRate: real, d: real)
  {
    div - deathRate != 0.0 && div - deathRate + d != 0.0
  }

  /** theanoCore evaluated for one condition at one time point. */
  function PointState(exp: real -> real, t: real, div: real, deathRate: real, apopfrac: real, d: real): State
    requires Nonsingular(div, deathRate, d)
  {
    var GR := div - deathRate;
    var cGRd := deathRate * apopfrac / (GR + d);
    var b := deathRate * (1.0 - apopfrac);
    var lnum := exp(GR * t);
    State(lnum,
          cGRd * (lnum - exp(-d * t)),
          d * cGRd * (lnum - 1.0) / GR + cGRd * (exp(-d * t) - 1.0),
          b * (lnum - 1.0) / GR)
  }

  /** At t = 0 every cell is alive and no compartment is populated. */
  lemma AtTimeZero(exp: real -> real, div: real, deathRate: real, apopfrac: real, d: real)
    requires ExpLaws(exp) && Nonsingular(div, deathRate, d)
    ensures PointState(exp, 0.0, div, deathRate, apopfrac, d) == State(1.0, 0.0, 0.0, 0.0)
  {
    var GR := div - deathRate;
    assert GR * 0.0 == 0.0 && -d * 0.0 == 0.0;
  }

  /** Without death the population grows as exp(div * t) and all three
      death compartments stay empty. */
  lemma NoDeath(exp: real -> real, t: real, div: real, apopfrac: real, d: real)
    requires Nonsingular(div, 0.0, d)
    ensures PointState(exp, t, div, 0.0, apopfrac, d) == State(exp(div * t), 0.0, 0.0, 0.0)
  {
    var ps := PointState(exp, t, div, 0.0, apopfrac, d);
    assert (div - 0.0) * t == div * t;
    assert ps.lnum == exp(div * t);
    assert 0.0 * apopfrac / (div - 0.0 + d) == 0.0;
    assert ps.eap == 0.0;
    assert ps.deadapop == 0.0;
    assert 0.0 * (1.0 - apopfrac) == 0.0;
    assert ps.deadnec == 0.0;
  }

  /** When every dying cell goes through apoptosis nothing dies by necrosis. */
  lemma AllApoptotic(exp: real -> real, t: real, div: real, deathRate: real, d: real)
    requires Nonsingular(div, deathRate, d)
    ensures PointState(exp, t, div, deathRate, 1.0, d).deadnec == 0.0
  {
  }

  /** When no dying cell goes through apoptosis both apoptotic compartments stay empty. */
  lemma NoApoptosis(exp: real -> real, t: real, div: real, deathRate: real, d: real)
    requires Nonsingular(div, deathRate, d)
    ensures PointState(exp, t, div, deathRate, 0.0, d).eap == 0.0
    ensures PointState(exp, t, div, deathRate, 0.0, d).deadapop == 0.0
  {
    var cGRd := deathRate * 0.0 / (div - deathRate + d);
    assert cGRd == 0.0;
  }

  /** For non-negative rates, apopfrac in [0, 1] and t >= 0, all four
      compartments are non-negative and the live one positive (on both
      sides of each singularity), given that exp is increasing and convex. */
  lemma NonNegative(exp: real -> real, t: real, div: real, deathRate: real, apopfrac: real, d: real)
    requires ExpLaws(exp) && ExpMonotone(exp) && ExpConvex(exp) && Nonsingular(div, deathRate, d)
    requires t >= 0.0 && div >= 0.0 && deathRate >= 0.0 && d >= 0.0 && 0.0 <= apopfrac <= 1.0
    ensures PointState(exp, t, div, deathRate, apopfrac, d).lnum > 0.0
    ensures PointState(exp, t, div, deathRate, apopfrac, d).eap >= 0.0
    ensures PointState(exp, t, div, deathRate, apopfrac, d).deadapop >= 0.0
    ensures PointState(exp, t, div, deathRate, apopfrac, d).deadnec >= 0.0
  {
    PointStateForm(exp, t, div, deathRate, apopfrac, d);
    EapNonNegative(exp, t, div, deathRate, apopfrac, d);
    DeadApopNonNegative(exp, t, div, deathRate, apopfrac, d);
    NecrosisNonNegative(exp, t, div, deathRate, apopfrac, d);
  }

  /** The dead-apoptotic count d * cGRd * (lnum - 1) / GR + cGRd * (exp(-d t) - 1)
      is non-negative whatever the signs of GR and GR + d: it is cGRd
      times an expression that convexity of exp gives the sign of GR + d. */
  lemma DeadApopNonNegative(exp: real -> real, t: real, div: real, deathRate: real, apopfrac: real, d: real)
    requires ExpLaws(exp) && ExpConvex(exp) && Nonsingular(div, deathRate, d)
    requires t >= 0.0 && deathRate >= 0.0 && d >= 0.0 && 0.0 <= apopfrac
    ensures PointState(exp, t, div, deathRate, apopfrac, d).deadapop >= 0.0
  {
    DeadApopSign(exp, t, div, deathRate, apopfrac, d, exp((div - deathRate) * t), exp(-d * t));
    DeadApopAt(exp, t, div, deathRate, apopfrac, d, exp((div - deathRate) * t), exp(-d * t));
  }

  /** The dead-apoptotic closed form with L for exp(GR t) and E for exp(-d t). */
  function DeadApopIn(L: real, E: real, div: real, deathRate: real, apopfrac: real, d: real): real
    requires Nonsingular(div, deathRate, d)
  {
    d * (deathRate * apopfrac / (div - deathRate + d)) * (L - 1.0) / (div - deathRate)
    + deathRate * apopfrac / (div - deathRate + d) * (E - 1.0)
  }

  lemma DeadApopAt(exp: real -> real, t: real, div: real, deathRate: real, apopfrac: real, d: real, L: real, E: real)
    requires Nonsingular(div, deathRate, d) && L == exp((div - deathRate) * t) && E == exp(-d * t)
    ensures PointState(exp, t, div, deathRate, apopfrac, d).deadapop == DeadApopIn(L, E, div, deathRate, apopfrac, d)
  {
    PointStateForm(exp, t, div, deathRate, apopfrac, d);
  }

  lemma DeadApopSign(exp: real -> real, t: real, div: real, deathRate: real, apopfrac: real, d: real, L: real, E: real)
    requires ExpLaws(exp) && ExpConvex(exp) && Nonsingular(div, deathRate, d)
    requires t >= 0.0 && deathRate >= 0.0 && d >= 0.0 && 0.0 <= apopfrac
    requires L == exp((div - deathRate) * t) && E == exp(-d * t)
    ensures DeadApopIn(L, E, div, deathRate, apopfrac, d) >= 0.0
  {
    ChordSign(exp, div - deathRate, d, t, (div - deathRate) * t);
    DeadApopValue(L, E, div, deathRate, apopfrac, d);
  }

  /** The dead-apoptotic closed form in terms of L = exp(GR t) and
      E = exp(-d t), given the sign of N = d (L - 1) + GR (E - 1). */
  lemma DeadApopValue(L: real, E: real, div: real, deathRate: real, apopfrac: real, d: real)
    requires Nonsingular(div, deathRate, d) && deathRate >= 0.0 && d >= 0.0 && 0.0 <= apopfrac
    requires div - deathRate > 0.0 ==> d * (L - 1.0) + (div - deathRate) * (E - 1.0) >= 0.0
    requires div - deathRate < 0.0 && div - deathRate + d > 0.0 ==> d * (L - 1.0) + (div - deathRate) * (E - 1.0) <= 0.0
    requires div - deathRate + d < 0.0 ==> d * (L - 1.0) + (div - deathRate) * (E - 1.0) >= 0.0
    ensures DeadApopIn(L, E, div, deathRate, apopfrac, d) >= 0.0
  {
    MulNonNeg(deathRate, apopfrac);
    DeadApopTerm(L, E, div - deathRate, d, deathRate * apopfrac, div - deathRate + d);
  }

  /** Writing N for d (L - 1) + GR (E - 1) and s for GR + d: with c >= 0
      and N of the sign of GR where s > 0 and non-negative where s < 0,
      the dead-apoptotic expression is non-negative. */
  lemma DeadApopTerm(L: real, E: real, GR: real, d: real, c: real, s: real)
    requires GR != 0.0 && s == GR + d && s != 0.0 && d >= 0.0 && c >= 0.0
    requires GR > 0.0 ==> d * (L - 1.0) + GR * (E - 1.0) >= 0.0
    requires GR < 0.0 && s > 0.0 ==> d * (L - 1.0) + GR * (E - 1.0) <= 0.0
    requires s < 0.0 ==> d * (L - 1.0) + GR * (E - 1.0) >= 0.0
    ensures d * (c / s) * (L - 1.0) / GR + c / s * (E - 1.0) >= 0.0
  {
    DivSign(c, s);
    QuotientForm(c / s, d, L, E, GR);
    ProductSign(c / s, d * (L - 1.0) + GR * (E - 1.0), GR, d);
    SignByFactor(d * (c / s) * (L - 1.0) / GR + c / s * (E - 1.0), GR, c / s * (d * (L - 1.0) + GR * (E - 1.0)));
  }

  lemma ExpCongruent(exp: real -> real, x: real, y: real)
    requires x == y
    ensures exp(x) == exp(y)
  {
  }

  /** Multiplying the dead-apoptotic expression back by GR. */
  lemma QuotientForm(q: real, d: real, L: real, E: real, GR: real)
    requires GR != 0.0
    ensures (d * q * (L - 1.0) / GR + q * (E - 1.0)) * GR == q * (d * (L - 1.0) + GR * (E - 1.0))
  {
    assert d * q * (L - 1.0) / GR * GR == d * q * (L - 1.0);
  }

  /** q has the sign of GR + d and N the sign that makes q N follow GR. */
  lemma ProductSign(q: real, N: real, GR: real, d: real)
    requires GR != 0.0 && GR + d != 0.0 && d >= 0.0
    requires GR + d > 0.0 ==> q >= 0.0
    requires GR + d < 0.0 ==> q <= 0.0
    requires GR > 0.0 ==> N >= 0.0
    requires GR < 0.0 && GR + d > 0.0 ==> N <= 0.0
    requires GR + d < 0.0 ==> N >= 0.0
    ensures GR > 0.0 ==> q * N >= 0.0
    ensures GR < 0.0 ==> q * N <= 0.0
  {
    if GR > 0.0 {
      MulNonNeg(q, N);
    } else if GR + d > 0.0 {
      MulNonNeg(q, -N);
    } else {
      MulNonNeg(-q, N);
    }
  }

  /** X GR == P with P of the sign of GR makes X non-negative. */
  lemma SignByFactor(X: real, GR: real, P: real)
    requires GR != 0.0 && X * GR == P
    requires GR > 0.0 ==> P >= 0.0
    requires GR < 0.0 ==> P <= 0.0
    ensures X >= 0.0
  {
    if GR > 0.0 {
      Cancel(X, GR);
    } else {
      assert X * -GR == -P;
      Cancel(X, -GR);
    }
  }

  /** The three-point form of convexity at one triple. */
  lemma Chord(exp: real -> real, x: real, y: real, z: real)
    requires ExpConvex(exp) && x < y < z
    ensures (exp(y) - exp(x)) * (z - y) <= (exp(z) - exp(y)) * (y - x)
  {
    assert ChordOrdered(exp, x, y, z);
  }

  lemma ExpAtZero(exp: real -> real, x: real)
    requires ExpLaws(exp) && x == 0.0
    ensures exp(x) == 1.0
  {
  }

  /** Convexity of exp through the points -d t, GR t and 0 gives
      N = d (exp(GR t) - 1) + GR (exp(-d t) - 1) the sign of GR when
      GR + d > 0, and makes it non-negative when GR + d < 0. */
  lemma ChordSign(exp: real -> real, GR: real, d: real, t: real, x: real)
    requires ExpLaws(exp) && ExpConvex(exp) && t >= 0.0 && d >= 0.0 && GR != 0.0 && GR + d != 0.0
    requires x == GR * t
    ensures GR > 0.0 ==> d * (exp(x) - 1.0) + GR * (exp(-d * t) - 1.0) >= 0.0
    ensures GR < 0.0 && GR + d > 0.0 ==> d * (exp(x) - 1.0) + GR * (exp(-d * t) - 1.0) <= 0.0
    ensures GR + d < 0.0 ==> d * (exp(x) - 1.0) + GR * (exp(-d * t) - 1.0) >= 0.0
  {
    ExpCongruent(exp, x, GR * t);
    if t == 0.0 {
      ExpAtZero(exp, GR * t);
      ExpAtZero(exp, -d * t);
    } else if d == 0.0 {
      ExpAtZero(exp, -d * t);
    } else if GR > 0.0 {
      SignRising(exp, GR, d, t);
    } else if GR + d > 0.0 {
      SignBetween(exp, GR, d, t);
    } else {
      SignFalling(exp, GR, d, t);
    }
  }

  lemma SignRising(exp: real -> real, GR: real, d: real, t: real)
    requires ExpLaws(exp) && ExpConvex(exp) && t > 0.0 && d > 0.0 && GR > 0.0
    ensures d * (exp(GR * t) - 1.0) + GR * (exp(-d * t) - 1.0) >= 0.0
  {
    ExpAtZero(exp, 0.0);
    MulPos(d, t);
    MulPos(GR, t);
    assert -d * t == -(d * t);
    Chord(exp, -d * t, 0.0, GR * t);
    ChordRising(exp(GR * t), exp(-d * t), exp(0.0), GR, d, t);
  }

  lemma SignBetween(exp: real -> real, GR: real, d: real, t: real)
    requires ExpLaws(exp) && ExpConvex(exp) && t > 0.0 && d > 0.0 && GR < 0.0 && GR + d > 0.0
    ensures d * (exp(GR * t) - 1.0) + GR * (exp(-d * t) - 1.0) <= 0.0
  {
    ExpAtZero(exp, 0.0);
    MulPos(-GR, t);
    MulPos(GR + d, t);
    assert -d * t == -(d * t);
    assert (GR + d) * t == GR * t + d * t && (-GR) * t == -(GR * t);
    Chord(exp, -d * t, GR * t, 0.0);
    ChordBetween(exp(GR * t), exp(-d * t), exp(0.0), GR, d, t);
  }

  lemma SignFalling(exp: real -> real, GR: real, d: real, t: real)
    requires ExpLaws(exp) && ExpConvex(exp) && t > 0.0 && d > 0.0 && GR + d < 0.0
    ensures d * (exp(GR * t) - 1.0) + GR * (exp(-d * t) - 1.0) >= 0.0
  {
    ExpAtZero(exp, 0.0);
    MulPos(d, t);
    MulPos(-(GR + d), t);
    assert -d * t == -(d * t);
    assert (-(GR + d)) * t == -(GR * t) - d * t;
    Chord(exp, GR * t, -d * t, 0.0);
    ChordFalling(exp(GR * t), exp(-d * t), exp(0.0), GR, d, t);
  }

  /** The chord inequality through -d t < 0 < GR t, solved for N. */
  lemma ChordRising(L: real, E: real, e0: real, GR: real, d: real, t: real)
    requires e0 == 1.0 && t > 0.0 && (e0 - E) * (GR * t - 0.0) <= (L - e0) * (0.0 - -d * t)
    ensures d * (L - 1.0) + GR * (E - 1.0) >= 0.0
  {
    assert (d * (L - 1.0) + GR * (E - 1.0)) * t == (L - e0) * (0.0 - -d * t) - (e0 - E) * (GR * t - 0.0);
    Cancel(d * (L - 1.0) + GR * (E - 1.0), t);
  }

  /** The chord inequality through -d t < GR t < 0, solved for N. */
  lemma ChordBetween(L: real, E: real, e0: real, GR: real, d: real, t: real)
    requires e0 == 1.0 && t > 0.0 && (L - E) * (0.0 - GR * t) <= (e0 - L) * (GR * t - -d * t)
    ensures d * (L - 1.0) + GR * (E - 1.0) <= 0.0
  {
    assert (d * (L - 1.0) + GR * (E - 1.0)) * t == (L - E) * (0.0 - GR * t) - (e0 - L) * (GR * t - -d * t);
    Cancel(d * (L - 1.0) + GR * (E - 1.0), t);
  }

  /** The chord inequality through GR t < -d t < 0, solved for N. */
  lemma ChordFalling(L: real, E: real, e0: real, GR: real, d: real, t: real)
    requires e0 == 1.0 && t > 0.0 && (E - L) * (0.0 - -d * t) <= (e0 - E) * (-d * t - GR * t)
    ensures d * (L - 1.0) + GR * (E - 1.0) >= 0.0
  {
    assert (d * (L - 1.0) + GR * (E - 1.0)) * t == (e0 - E) * (-d * t - GR * t) - (E - L) * (0.0 - -d * t);
    Cancel(d * (L - 1.0) + GR * (E - 1.0), t);
  }

  lemma MulPos(x: real, y: real)
    requires x > 0.0 && y > 0.0
    ensures x * y > 0.0
  {
  }

  lemma Cancel(N: real, t: real)
    requires t > 0.0
    ensures N * t >= 0.0 ==> N >= 0.0
    ensures N * t <= 0.0 ==> N <= 0.0
  {
    if N < 0.0 { MulNonNeg(-N, t); assert (-N) * t != 0.0; }
    if N > 0.0 { MulNonNeg(N, t); assert N * t != 0.0; }
  }

  lemma EapNonNegative(exp: real -> real, t: real, div: real, deathRate: real, apopfrac: real, d: real)
    requires ExpMonotone(exp) && Nonsingular(div, deathRate, d)
    requires t >= 0.0 && deathRate >= 0.0 && 0.0 <= apopfrac
    ensures PointState(exp, t, div, deathRate, apopfrac, d).eap >= 0.0
  {
    ExpOrder(exp, (div - deathRate) * t, -d * t);
    ExpOrder(exp, -d * t, (div - deathRate) * t);
    ExponentOrder(div - deathRate, d, t);
    MulNonNeg(deathRate, apopfrac);
    EapSign(exp((div - deathRate) * t), exp(-d * t), div - deathRate + d, deathRate * apopfrac);
    PointStateForm(exp, t, div, deathRate, apopfrac, d);
  }

  lemma NecrosisNonNegative(exp: real -> real, t: real, div: real, deathRate: real, apopfrac: real, d: real)
    requires ExpLaws(exp) && ExpMonotone(exp) && Nonsingular(div, deathRate, d)
    requires t >= 0.0 && deathRate >= 0.0 && apopfrac <= 1.0
    ensures PointState(exp, t, div, deathRate, apopfrac, d).deadnec >= 0.0
  {
    var L := GrowthFactor(exp, div - deathRate, t);
    NecrosisTerm(L, div - deathRate, deathRate, apopfrac);
    PointStateForm(exp, t, div, deathRate, apopfrac, d);
  }

  /** exp(GR t) is at least 1 for a positive GR and at most 1 for a negative one. */
  lemma GrowthFactor(exp: real -> real, GR: real, t: real) returns (L: real)
    requires ExpLaws(exp) && ExpMonotone(exp) && t >= 0.0
    ensures L == exp(GR * t)
    ensures GR > 0.0 ==> L >= 1.0
    ensures GR < 0.0 ==> L <= 1.0
  {
    L := exp(GR * t);
    ExpOrder(exp, 0.0, GR * t);
    ExpOrder(exp, GR * t, 0.0);
    ExponentSign(GR, t);
  }

  /** The dead-necrotic term from the growth factor alone. */
  lemma NecrosisTerm(L: real, GR: real, deathRate: real, apopfrac: real)
    requires GR != 0.0 && deathRate >= 0.0 && apopfrac <= 1.0
    requires GR > 0.0 ==> L >= 1.0
    requires GR < 0.0 ==> L <= 1.0
    ensures deathRate * (1.0 - apopfrac) * (L - 1.0) / GR >= 0.0
  {
    MulNonNeg(deathRate, 1.0 - apopfrac);
    NecrosisSign(L, GR, deathRate * (1.0 - apopfrac));
  }

  /** The three compartments NonNegative bounds, in the form its helpers take. */
  lemma PointStateForm(exp: real -> real, t: real, div: real, deathRate: real, apopfrac: real, d: real)
    requires Nonsingular(div, deathRate, d)
    ensures PointState(exp, t, div, deathRate, apopfrac, d).lnum == exp((div - deathRate) * t)
    ensures PointState(exp, t, div, deathRate, apopfrac, d).eap
              == deathRate * apopfrac / (div - deathRate + d) * (exp((div - deathRate) * t) - exp(-d * t))
    ensures PointState(exp, t, div, deathRate, apopfrac, d).deadapop
              == d * (deathRate * apopfrac / (div - deathRate + d)) * (exp((div - deathRate) * t) - 1.0)
                   / (div - deathRate)
                 + deathRate * apopfrac / (div - deathRate + d) * (exp(-d * t) - 1.0)
    ensures PointState(exp, t, div, deathRate, apopfrac, d).deadnec
              == deathRate * (1.0 - apopfrac) * (exp((div - deathRate) * t) - 1.0) / (div - deathRate)
  {
  }

  lemma ExpOrder(exp: real -> real, x: real, y: real)
    requires ExpMonotone(exp)
    ensures x <= y ==> exp(x) <= exp(y)
  {
    if x < y {
      assert exp(x) < exp(y);
    }
  }

  /** GR t compared with -d t follows the sign of GR + d, for t >= 0. */
  lemma ExponentOrder(GR: real, d: real, t: real)
    requires t >= 0.0
    ensures GR + d > 0.0 ==> -d * t <= GR * t
    ensures GR + d < 0.0 ==> GR * t <= -d * t
  {
    assert GR * t - (-d * t) == (GR + d) * t;
    if GR + d > 0.0 { MulNonNeg(GR + d, t); }
    if GR + d < 0.0 { MulNonNeg(-(GR + d), t); }
  }

  /** GR t has the sign of GR, for t >= 0. */
  lemma ExponentSign(GR: real, t: real)
    requires t >= 0.0
    ensures GR > 0.0 ==> GR * t >= 0.0
    ensures GR < 0.0 ==> GR * t <= 0.0
  {
    if GR > 0.0 { MulNonNeg(GR, t); }
    if GR < 0.0 { MulNonNeg(-GR, t); }
  }

  /** num / s * (L - E) >= 0 when L - E has the sign of s. */
  lemma EapSign(L: real, E: real, s: real, num: real)
    requires s != 0.0 && num >= 0.0
    requires s > 0.0 ==> E <= L
    requires s < 0.0 ==> L <= E
    ensures num / s * (L - E) >= 0.0
  {
    DivSign(num, s);
    if s > 0.0 {
      MulNonNeg(num / s, L - E);
    } else {
      MulNonNeg(-(num / s), E - L);
    }
  }

  /** b (L - 1) / GR >= 0 when L - 1 has the sign of GR. */
  lemma NecrosisSign(L: real, GR: real, b: real)
    requires GR != 0.0 && b >= 0.0
    requires GR > 0.0 ==> L >= 1.0
    requires GR < 0.0 ==> L <= 1.0
    ensures b * (L - 1.0) / GR >= 0.0
  {
    assert b * (L - 1.0) / GR == b * ((L - 1.0) / GR);
    if GR > 0.0 {
      DivSign(L - 1.0, GR);
    } else {
      DivSign(1.0 - L, -GR);
      assert (L - 1.0) / GR == (1.0 - L) / -GR;
    }
    MulNonNeg(b, (L - 1.0) / GR);
  }

  lemma MulNonNeg(x: real, y: real)
    requires x >= 0.0 && y >= 0.0
    ensures x * y >= 0.0
  {
  }

  lemma DivSign(x: real, y: real)
    requires x >= 0.0 && y != 0.0
    ensures y > 0.0 ==> x / y >= 0.0
    ensures y < 0.0 ==> x / y <= 0.0
  {
  }

  /** The four compartments of every condition at every time point, each a
      (conditions x time) matrix: theanoCore's outer broadcast. */
  datatype Traj = Traj(lnum: Matrix, eap: Matrix, deadapop: Matrix, deadnec: Matrix)

  predicate TrajShape(tr: Traj, rows: nat, cols: nat)
  {
    IsShape(tr.lnum, rows, cols) && IsShape(tr.eap, rows, cols)
    && IsShape(tr.deadapop, rows, cols) && IsShape(tr.deadnec, rows, cols)
  }

  function StateAt(tr: Traj, rows: nat, cols: nat, i: nat, j: nat): State
    requires TrajShape(tr, rows, cols) && i < rows && j < cols
  {
    State(tr.lnum[i][j], tr.eap[i][j], tr.deadapop[i][j], tr.deadnec[i][j])
  }

  /** Per-condition rates of equal length, none of them singular. */
  predicate RatesOk(div: seq<real>, deathRate: seq<real>, apopfrac: seq<real>, d: real)
  {
    |div| == |deathRate| == |apopfrac|
    && forall i :: 0 <= i < |div| ==> Nonsingular(div[i], deathRate[i], d)
  }

  /** theanoCore: per-condition vectors div, deathRate, apopfrac and a shared
      d, broadcast against the time vector. */
  function TheanoCore(exp: real -> real, timeV: seq<real>, div: seq<real>, deathRate: seq<real>,
                      apopfrac: seq<real>, d: real): (r: Traj)
    requires RatesOk(div, deathRate, apopfrac, d)
    ensures TrajShape(r, |div|, |timeV|)
    ensures forall i, j :: 0 <= i < |div| && 0 <= j < |timeV| ==>
              StateAt(r, |div|, |timeV|, i, j) == PointState(exp, timeV[j], div[i], deathRate[i], apopfrac[i], d)
  {
    var n, m := |div|, |timeV|;
    Traj(seq(n, i requires 0 <= i < n => seq(m, j requires 0 <= j < m =>
           PointState(exp, timeV[j], div[i], deathRate[i], apopfrac[i], d).lnum)),
         seq(n, i requires 0 <= i < n => seq(m, j requires 0 <= j < m =>
           PointState(exp, timeV[j], div[i], deathRate[i], apopfrac[i], d).eap)),
         seq(n, i requires 0 <= i < n => seq(m, j requires 0 <= j < m =>
           PointState(exp, timeV[j], div[i], deathRate[i], apopfrac[i], d).deadapop)),
         seq(n, i requires 0 <= i < n => seq(m, j requires 0 <= j < m =>
           PointState(exp, timeV[j], div[i], deathRate[i], apopfrac[i], d).deadnec)))
  }

  /** Every condition starts from one live cell and empty compartments at
      each time point equal to 0. */
  lemma TrajectoryStart(exp: real -> real, timeV: seq<real>, div: seq<real>, deathRate: seq<real>,
                        apopfrac: seq<real>, d: real)
    requires ExpLaws(exp) && RatesOk(div, deathRate, apopfrac, d)
    ensures forall i, j :: 0 <= i < |div| && 0 <= j < |timeV| && timeV[j] == 0.0 ==>
              StateAt(TheanoCore(exp, timeV, div, deathRate, apopfrac, d), |div|, |timeV|, i, j)
                == State(1.0, 0.0, 0.0, 0.0)
  {
    forall i, j | 0 <= i < |div| && 0 <= j < |timeV| && timeV[j] == 0.0
      ensures StateAt(TheanoCore(exp, timeV, div, deathRate, apopfrac, d), |div|, |timeV|, i, j)
                == State(1.0, 0.0, 0.0, 0.0)
    {
      AtTimeZero(exp, div[i], deathRate[i], apopfrac[i], d);
    }
  }

  /** simulate(params, ttime) with params = [div, d, deathRate, apopfrac, ...]:
      theanoCore is called as (div, deathRate, apopfrac, d), i.e. params
      reordered as 0, 2, 3, 1, and the four compartments are stacked along
      axis 1 of a (1, 4, |ttime|) array: live, eap, deadapop, deadnec. */
  function Simulate(exp: real -> real, params: seq<real>, ttime: seq<real>): (r: Result<seq<seq<seq<real>>>>)
    requires |params| >= 4 ==> Nonsingular(params[0], params[2], params[1])
    ensures r.Err? <==> |params| < 4
    ensures r.Err? ==> r.error == IndexError
    ensures r.Ok? ==> |r.value| == 1 && |r.value[0]| == 4
    ensures r.Ok? ==> forall k :: 0 <= k < 4 ==> |r.value[0][k]| == |ttime|
    ensures r.Ok? ==> forall j :: 0 <= j < |ttime| ==>
              var s := PointState(exp, ttime[j], params[0], params[2], params[3], params[1]);
              && r.value[0][0][j] == s.lnum && r.value[0][1][j] == s.eap
              && r.value[0][2][j] == s.deadapop && r.value[0][3][j] == s.deadnec
  {
    if |params| < 4 then Err(IndexError)
    else
      var tr := TheanoCore(exp, ttime, [params[0]], [params[2]], [params[3]], params[1]);
      Ok([[tr.lnum[0], tr.eap[0], tr.deadapop[0], tr.deadnec[0]]])
  }

  // ---------------------------------------------------------------------
  // convSignal

  datatype Conv = Conv(confl: real, apop: real, dna: real)

  /** Additive baselines of the apop and dna channels (the offset mode). */
  datatype Offset = Offset(apop: real, dna: real)

  datatype Signals = Signals(confl: Matrix, apop: Matrix, dna: Matrix)

  predicate SameShape(a: Matrix, b: Matrix)
  {
    |a| == |b| && forall i :: 0 <= i < |a| ==> |a[i]| == |b[i]|
  }

  /** All four compartments of a trajectory have one shape. */
  predicate Aligned(tr: Traj)
  {
    SameShape(tr.lnum, tr.eap) && SameShape(tr.lnum, tr.deadapop) && SameShape(tr.lnum, tr.deadnec)
  }

  function OffsetApop(offset: Option<Offset>): real
  {
    if offset.Some? then offset.value.apop else 0.0
  }

  function OffsetDna(offset: Option<Offset>): real
  {
    if offset.Some? then offset.value.dna else 0.0
  }

  /** convSignal: confl sees every cell, apop the two apoptotic
      compartments, dna both dead compartments; `offset` is None when the
      source is called with offset=False. The result has the trajectory's shape. */
  function ConvSignal(tr: Traj, conv: Conv, offset: Option<Offset>): (r: Signals)
    requires Aligned(tr)
    ensures SameShape(r.confl, tr.lnum) && SameShape(r.apop, tr.lnum) && SameShape(r.dna, tr.lnum)
  {
    var L, E, A, N := tr.lnum, tr.eap, tr.deadapop, tr.deadnec;
    Signals(
      seq(|L|, i requires 0 <= i < |L| => seq(|L[i]|, j requires 0 <= j < |L[i]| =>
        (L[i][j] + E[i][j] + A[i][j] + N[i][j]) * conv.confl)),
      seq(|L|, i requires 0 <= i < |L| => seq(|L[i]|, j requires 0 <= j < |L[i]| =>
        (E[i][j] + A[i][j]) * conv.apop + OffsetApop(offset))),
      seq(|L|, i requires 0 <= i < |L| => seq(|L[i]|, j requires 0 <= j < |L[i]| =>
        (A[i][j] + N[i][j]) * conv.dna + OffsetDna(offset))))
  }

  predicate InShape(tr: Traj, i: int, j: int)
  {
    0 <= i < |tr.lnum| && 0 <= j < |tr.lnum[i]|
  }

  /** convSignal at one entry. */
  lemma ConvAt(tr: Traj, conv: Conv, offset: Option<Offset>, i: int, j: int)
    requires Aligned(tr) && InShape(tr, i, j)
    ensures ConvSignal(tr, conv, offset).confl[i][j]
              == (tr.lnum[i][j] + tr.eap[i][j] + tr.deadapop[i][j] + tr.deadnec[i][j]) * conv.confl
    ensures ConvSignal(tr, conv, offset).apop[i][j]
              == (tr.eap[i][j] + tr.deadapop[i][j]) * conv.apop + OffsetApop(offset)
    ensures ConvSignal(tr, conv, offset).dna[i][j]
              == (tr.deadapop[i][j] + tr.deadnec[i][j]) * conv.dna + OffsetDna(offset)
  {
  }

  /** With unit conversions and no offset the signals are exactly the summed
      population quantities. */
  lemma UnitConversion(tr: Traj)
    requires Aligned(tr)
    ensures forall i, j :: InShape(tr, i, j) ==>
              && ConvSignal(tr, Conv(1.0, 1.0, 1.0), None).confl[i][j]
                   == tr.lnum[i][j] + tr.eap[i][j] + tr.deadapop[i][j] + tr.deadnec[i][j]
              && ConvSignal(tr, Conv(1.0, 1.0, 1.0), None).apop[i][j] == tr.eap[i][j] + tr.deadapop[i][j]
              && ConvSignal(tr, Conv(1.0, 1.0, 1.0), None).dna[i][j] == tr.deadapop[i][j] + tr.deadnec[i][j]
  {
    forall i, j | InShape(tr, i, j)
      ensures ConvSignal(tr, Conv(1.0, 1.0, 1.0), None).confl[i][j]
                == tr.lnum[i][j] + tr.eap[i][j] + tr.deadapop[i][j] + tr.deadnec[i][j]
      ensures ConvSignal(tr, Conv(1.0, 1.0, 1.0), None).apop[i][j] == tr.eap[i][j] + tr.deadapop[i][j]
      ensures ConvSignal(tr, Conv(1.0, 1.0, 1.0), None).dna[i][j] == tr.deadapop[i][j] + tr.deadnec[i][j]
    {
      ConvAt(tr, Conv(1.0, 1.0, 1.0), None, i, j);
    }
  }

  /** Without offset each channel is linear in its own conversion factor and
      does not depend on the other two. */
  lemma ChannelScaling(tr: Traj, conv: Conv, k: real)
    requires Aligned(tr)
    ensures forall i, j :: InShape(tr, i, j) ==>
              ConvSignal(tr, conv.(confl := k * conv.confl), None).confl[i][j]
                == k * ConvSignal(tr, conv, None).confl[i][j]
    ensures forall i, j :: InShape(tr, i, j) ==>
              ConvSignal(tr, conv.(apop := k * conv.apop), None).apop[i][j]
                == k * ConvSignal(tr, conv, None).apop[i][j]
    ensures forall i, j :: InShape(tr, i, j) ==>
              ConvSignal(tr, conv.(dna := k * conv.dna), None).dna[i][j]
                == k * ConvSignal(tr, conv, None).dna[i][j]
    ensures ConvSignal(tr, conv.(confl := k * conv.confl), None).apop == ConvSignal(tr, conv, None).apop
    ensures ConvSignal(tr, conv.(confl := k * conv.confl), None).dna == ConvSignal(tr, conv, None).dna
    ensures ConvSignal(tr, conv.(apop := k * conv.apop), None).confl == ConvSignal(tr, conv, None).confl
    ensures ConvSignal(tr, conv.(apop := k * conv.apop), None).dna == ConvSignal(tr, conv, None).dna
    ensures ConvSignal(tr, conv.(dna := k * conv.dna), None).confl == ConvSignal(tr, conv, None).confl
    ensures ConvSignal(tr, conv.(dna := k * conv.dna), None).apop == ConvSignal(tr, conv, None).apop
  {
    forall i, j | InShape(tr, i, j)
      ensures ConvSignal(tr, conv.(confl := k * conv.confl), None).confl[i][j]
                == k * ConvSignal(tr, conv, None).confl[i][j]
      ensures ConvSignal(tr, conv.(apop := k * conv.apop), None).apop[i][j]
                == k * ConvSignal(tr, conv, None).apop[i][j]
      ensures ConvSignal(tr, conv.(dna := k * conv.dna), None).dna[i][j]
                == k * ConvSignal(tr, conv, None).dna[i][j]
    {
      ConvAt(tr, conv, None, i, j);
      ConvAt(tr, conv.(confl := k * conv.confl), None, i, j);
      ConvAt(tr, conv.(apop := k * conv.apop), None, i, j);
      ConvAt(tr, conv.(dna := k * conv.dna), None, i, j);
      var s := tr.lnum[i][j] + tr.eap[i][j] + tr.deadapop[i][j] + tr.deadnec[i][j];
      assert s * (k * conv.confl) == k * (s * conv.confl);
      var a := tr.eap[i][j] + tr.deadapop[i][j];
      assert a * (k * conv.apop) + 0.0 == k * (a * conv.apop + 0.0);
      var n := tr.deadapop[i][j] + tr.deadnec[i][j];
      assert n * (k * conv.dna) + 0.0 == k * (n * conv.dna + 0.0);
    }
  }

  /** The offset mode shifts apop by the first offset and dna by the second;
      confluence never gets an offset. */
  lemma OffsetShift(tr: Traj, conv: Conv, o: Offset)
    requires Aligned(tr)
    ensures ConvSignal(tr, conv, Some(o)).confl == ConvSignal(tr, conv, None).confl
    ensures forall i, j :: InShape(tr, i, j) ==>
              ConvSignal(tr, conv, Some(o)).apop[i][j] == ConvSignal(tr, conv, None).apop[i][j] + o.apop
    ensures forall i, j :: InShape(tr, i, j) ==>
              ConvSignal(tr, conv, Some(o)).dna[i][j] == ConvSignal(tr, conv, None).dna[i][j] + o.dna
  {
    forall i, j | InShape(tr, i, j)
      ensures ConvSignal(tr, conv, Some(o)).apop[i][j] == ConvSignal(tr, conv, None).apop[i][j] + o.apop
      ensures ConvSignal(tr, conv, Some(o)).dna[i][j] == ConvSignal(tr, conv, None).dna[i][j] + o.dna
    {
      ConvAt(tr, conv, Some(o), i, j);
      ConvAt(tr, conv, None, i, j);
    }
  }

  /** Confluence at time 0 is exactly the confluence conversion factor
      (1.0 when confl_conv = 1), in both offset modes. */
  lemma InitialConfluence(exp: real -> real, timeV: seq<real>, div: seq<real>, deathRate: seq<real>,
                          apopfrac: seq<real>, d: real, conv: Conv, offset: Option<Offset>)
    requires ExpLaws(exp) && RatesOk(div, deathRate, apopfrac, d)
    ensures Aligned(TheanoCore(exp, timeV, div, deathRate, apopfrac, d))
    ensures forall i, j :: 0 <= i < |div| && 0 <= j < |timeV| && timeV[j] == 0.0 ==>
              && ConvSignal(TheanoCore(exp, timeV, div, deathRate, apopfrac, d), conv, offset).confl[i][j] == conv.confl
              && ConvSignal(TheanoCore(exp, timeV, div, deathRate, apopfrac, d), conv, offset).apop[i][j] == OffsetApop(offset)
              && ConvSignal(TheanoCore(exp, timeV, div, deathRate, apopfrac, d), conv, offset).dna[i][j] == OffsetDna(offset)
  {
    var tr := TheanoCore(exp, timeV, div, deathRate, apopfrac, d);
    TrajectoryStart(exp, timeV, div, deathRate, apopfrac, d);
    forall i, j | 0 <= i < |div| && 0 <= j < |timeV| && timeV[j] == 0.0
      ensures && ConvSignal(tr, conv, offset).confl[i][j] == conv.confl
              && ConvSignal(tr, conv, offset).apop[i][j] == OffsetApop(offset)
              && ConvSignal(tr, conv, offset).dna[i][j] == OffsetDna(offset)
    {
      assert StateAt(tr, |div|, |timeV|, i, j) == State(1.0, 0.0, 0.0, 0.0);
      SignalsOfStart(tr, conv, offset, i, j);
    }
  }

  /** The signals at an entry where every cell is still alive and unaffected. */
  lemma SignalsOfStart(tr: Traj, conv: Conv, offset: Option<Offset>, i: int, j: int)
    requires Aligned(tr) && InShape(tr, i, j)
    requires tr.lnum[i][j] == 1.0 && tr.eap[i][j] == 0.0 && tr.deadapop[i][j] == 0.0 && tr.deadnec[i][j] == 0.0
    ensures ConvSignal(tr, conv, offset).confl[i][j] == conv.confl
    ensures ConvSignal(tr, conv, offset).apop[i][j] == OffsetApop(offset)
    ensures ConvSignal(tr, conv, offset).dna[i][j] == OffsetDna(offset)
  {
    ConvAt(tr, conv, offset, i, j);
  }
}
