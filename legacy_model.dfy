/** The older maximum-likelihood GrowthModel of grmodel/GrowthModel.py:
    the Jacobian handed to the ODE solver, the parameter bounds and the
    time co-sort that __init__ sets up, and the guard chain and signal
    combination of logL.

    The solver (simulate), the normal log-density in float64 (logpdf_sum)
    and log are parameters: `sim` returns the live/dead/apoptotic table or
    the error it raises, `logpdf` returns None where numpy's overflow check
    raises FloatingPointError. */
module LegacyGrowth {
  import opened Common

  // ---------------------------------------------------------------------
  // ODEfun and jacFun.

  /** ODEfun(ss, t, rates): the derivatives of the dead and early-apoptotic
      counts, driven by the closed-form live count. The IndexError on a
      short vector is Python's; the jit-compiled function does not check
      bounds. */
  function OdeFun(exp: real -> real, ss: seq<real>, t: real, rates: seq<real>): (r: Result<seq<real>>)
    ensures r.Ok? <==> |rates| >= 5 && |ss| >= 2
    ensures r.Err? ==> r.error == IndexError
    ensures r.Ok? ==> |r.value| == 2
  {
    if |rates| < 5 || |ss| < 2 then Err(IndexError)
    else
      var live := exp((rates[0] - rates[1] - rates[2]) * t);
      Ok([rates[1] * live - rates[4] * ss[0] + rates[3] * ss[1], rates[2] * live - rates[3] * ss[1]])
  }

  /** jacFun(state, t, rates). The IndexError on a short vector is
      Python's; the jit-compiled function does not check bounds. */
  function JacFun(state: seq<real>, t: real, rates: seq<real>): (r: Result<Matrix>)
    ensures r.Ok? <==> |rates| >= 5
    ensures r.Err? ==> r.error == IndexError
    ensures r.Ok? ==> IsShape(r.value, 2, 2)
  {
    if |rates| < 5 then Err(IndexError)
    else Ok([[-rates[4], rates[3]], [0.0, -rates[3]]])
  }

  /** jacFun, taken at any state and any time, is the exact Jacobian of
      ODEfun with respect to the state: ODEfun is affine in ss, so a step
      delta changes it by J * delta. */
  lemma JacobianExact(exp: real -> real, ss: seq<real>, delta: seq<real>, t: real, rates: seq<real>,
                      other: seq<real>, t2: real)
    requires |rates| >= 5 && |ss| == 2 && |delta| == 2
    ensures OdeFun(exp, [ss[0] + delta[0], ss[1] + delta[1]], t, rates).Ok?
    ensures forall i :: 0 <= i < 2 ==>
              OdeFun(exp, [ss[0] + delta[0], ss[1] + delta[1]], t, rates).value[i]
                == OdeFun(exp, ss, t, rates).value[i]
                   + JacFun(other, t2, rates).value[i][0] * delta[0]
                   + JacFun(other, t2, rates).value[i][1] * delta[1]
  {
    var live := exp((rates[0] - rates[1] - rates[2]) * t);
    assert rates[4] * (ss[0] + delta[0]) == rates[4] * ss[0] + rates[4] * delta[0];
    assert rates[3] * (ss[1] + delta[1]) == rates[3] * ss[1] + rates[3] * delta[1];
  }

  // ---------------------------------------------------------------------
  // The table simulate assembles around the solver's output.

  /** liveNum(t) of simulate, as written: exp(a - b - c * t). */
  function LiveNumAsWritten(exp: real -> real, params: seq<real>, t: real): real
    requires |params| >= 3
  {
    exp(params[0] - params[1] - params[2] * t)
  }

  /** The live count that ODEfun's right-hand side assumes: exp((a - b - c) * t). */
  function LiveNum(exp: real -> real, params: seq<real>, t: real): real
    requires |params| >= 3
  {
    exp((params[0] - params[1] - params[2]) * t)
  }

  /** simulate(params, ts) given the solver's result `ode` (one row of dead
      and apoptotic counts per time point, or the FloatingPointError raised
      when integration fails): the live column is put in front, so the rows
      read (live, dead, apoptotic). `live` is liveNum. */
  function SimulateWith(live: (seq<real>, real) -> real, params: seq<real>, ts: seq<real>,
                        ode: Result<Matrix>): (r: Result<Matrix>)
    requires ode.Ok? ==> IsShape(ode.value, |ts|, 2)
    ensures r.Err? <==> ode.Err?
    ensures r.Err? ==> r.error == ode.error
    ensures r.Ok? ==> IsShape(r.value, |ts|, 3)
    ensures r.Ok? ==> forall k :: 0 <= k < |ts| ==>
              r.value[k][0] == live(params, ts[k]) && r.value[k][1..] == ode.value[k]
  {
    if ode.Err? then Err(ode.error)
    else Ok(seq(|ts|, k requires 0 <= k < |ts| => [live(params, ts[k])] + ode.value[k]))
  }

  /** simulate with liveNum as the source writes it. */
  function SimulateAsWritten(exp: real -> real, params: seq<real>, ts: seq<real>, ode: Result<Matrix>): Result<Matrix>
    requires |params| >= 3 && (ode.Ok? ==> IsShape(ode.value, |ts|, 2))
  {
    SimulateWith((q: seq<real>, t: real) => if |q| >= 3 then LiveNumAsWritten(exp, q, t) else 0.0, params, ts, ode)
  }

  /** simulate with the live count ODEfun integrates against. */
  function Simulate(exp: real -> real, params: seq<real>, ts: seq<real>, ode: Result<Matrix>): Result<Matrix>
    requires |params| >= 3 && (ode.Ok? ==> IsShape(ode.value, |ts|, 2))
  {
    SimulateWith((q: seq<real>, t: real) => if |q| >= 3 then LiveNum(exp, q, t) else 0.0, params, ts, ode)
  }

  /** As written, the live column is not the count ODEfun assumes: with
      a = 1 and b = c = 0 it reads exp(1) > 1 at t = 0, where ODEfun's live
      count, like every cell count at the start, is 1. */
  lemma SimulateAsWrittenStart(exp: real -> real)
    requires ExpLaws(exp) && ExpMonotone(exp)
    ensures SimulateAsWritten(exp, [1.0, 0.0, 0.0, 0.0, 0.0], [0.0], Ok([[0.0, 0.0]])).Ok?
    ensures SimulateAsWritten(exp, [1.0, 0.0, 0.0, 0.0, 0.0], [0.0], Ok([[0.0, 0.0]])).value[0][0] > 1.0
    ensures LiveNum(exp, [1.0, 0.0, 0.0, 0.0, 0.0], 0.0) == 1.0
  {
    var p := [1.0, 0.0, 0.0, 0.0, 0.0];
    assert p[0] - p[1] - p[2] * 0.0 == 1.0;
    assert (p[0] - p[1] - p[2]) * 0.0 == 0.0;
    assert exp(0.0) < exp(1.0);
  }

  /** With the live count ODEfun assumes, every simulation starts from one
      live cell, and the live column is what drives the two derivatives
      ODEfun hands the solver at each time point. */
  lemma SimulateLive(exp: real -> real, params: seq<real>, ts: seq<real>, ode: Result<Matrix>, k: nat)
    requires |params| >= 5 && (ode.Ok? ==> IsShape(ode.value, |ts|, 2))
    requires Simulate(exp, params, ts, ode).Ok? && k < |ts|
    ensures ExpLaws(exp) && ts[k] == 0.0 ==> Simulate(exp, params, ts, ode).value[k][0] == 1.0
    ensures OdeFun(exp, ode.value[k], ts[k], params).Ok?
    ensures OdeFun(exp, ode.value[k], ts[k], params).value[0]
              == params[1] * Simulate(exp, params, ts, ode).value[k][0]
                 - params[4] * ode.value[k][0] + params[3] * ode.value[k][1]
    ensures OdeFun(exp, ode.value[k], ts[k], params).value[1]
              == params[2] * Simulate(exp, params, ts, ode).value[k][0] - params[3] * ode.value[k][1]
  {
    assert Simulate(exp, params, ts, ode).value[k][0] == LiveNum(exp, params, ts[k]);
    assert |ode.value[k]| == 2;
    if ExpLaws(exp) && ts[k] == 0.0 {
      assert (params[0] - params[1] - params[2]) * ts[k] == 0.0;
    }
  }

  // ---------------------------------------------------------------------
  // Parameter bounds.

  /** The nine parameters, in the order paramV holds them. */
  const ParamNames: seq<string> := ["a", "b", "c", "d", "e", "conv_confl", "conv_green", "err_confl", "err_green"]

  predicate IsConversion(i: int)
  {
    i == 5 || i == 6
  }

  /** The log10 lower bounds: -6, and -2 for the two conversion factors. */
  function LowerBounds(): (lb: seq<real>)
  {
    seq(9, i => if IsConversion(i) then -2.0 else -6.0)
  }

  /** The log10 upper bounds: 0, and 4 for the two conversion factors. */
  function UpperBounds(): (ub: seq<real>)
  {
    seq(9, i => if IsConversion(i) then 4.0 else 0.0)
  }

  /** One bound per parameter, and every interval lb[i] .. ub[i] is
      non-empty: the rates and errors lie in [1e-6, 1], the conversion
      factors in [1e-2, 1e4]. */
  lemma BoundsSpec()
    ensures |LowerBounds()| == |UpperBounds()| == |ParamNames| == 9
    ensures forall i :: 0 <= i < 9 ==> LowerBounds()[i] < UpperBounds()[i]
    ensures forall i :: 0 <= i < 9 && !IsConversion(i) ==> LowerBounds()[i] == -6.0 && UpperBounds()[i] == 0.0
    ensures forall i :: 0 <= i < 9 && IsConversion(i) ==> LowerBounds()[i] == -2.0 && UpperBounds()[i] == 4.0
  {
  }

  /** __init__'s construction of the bounds: every entry first, then the
      two conversion factors, which sit fourth and third from the end. */
  lemma BoundsAssembled()
    ensures seq(9, i => -6.0)[5 := -2.0][6 := -2.0] == LowerBounds()
    ensures seq(9, i => 0.0)[5 := 4.0][6 := 4.0] == UpperBounds()
  {
  }

  // ---------------------------------------------------------------------
  // np.argsort and the co-sort.

  /** [0, 1, ..., n - 1]. */
  function Range(n: nat): (r: seq<nat>)
    ensures |r| == n
  {
    if n == 0 then [] else Range(n - 1) + [n - 1]
  }

  lemma {:induction false} RangeBelow(n: nat)
    ensures forall x :: x in Range(n) ==> x < n
  {
    if n > 0 {
      RangeBelow(n - 1);
    }
  }

  /** idx lists every index below n exactly once. */
  predicate IsPermutation(idx: seq<nat>, n: nat)
  {
    |idx| == n && (forall k :: 0 <= k < n ==> idx[k] < n) && multiset(idx) == multiset(Range(n))
  }

  /** s read in the order idx gives is ascending. */
  predicate SortsBy(s: seq<real>, idx: seq<nat>)
  {
    (forall k :: 0 <= k < |idx| ==> idx[k] < |s|)
    && forall a, b :: 0 <= a < b < |idx| ==> s[idx[a]] <= s[idx[b]]
  }

  /** Index i placed before the first listed index whose value exceeds s[i]. */
  function InsertIndex(s: seq<real>, i: nat, idx: seq<nat>): (r: seq<nat>)
    ensures |r| == |idx| + 1
  {
    if |idx| == 0 then [i]
    else if idx[0] < |s| && i < |s| && s[i] < s[idx[0]] then [i] + idx
    else [idx[0]] + InsertIndex(s, i, idx[1..])
  }

  lemma {:induction false} InsertIndexMultiset(s: seq<real>, i: nat, idx: seq<nat>)
    ensures multiset(InsertIndex(s, i, idx)) == multiset(idx) + multiset{i}
  {
    if |idx| > 0 && !(idx[0] < |s| && i < |s| && s[i] < s[idx[0]]) {
      InsertIndexMultiset(s, i, idx[1..]);
      assert idx == [idx[0]] + idx[1..];
    }
  }

  lemma SortsByTail(s: seq<real>, idx: seq<nat>)
    requires |idx| > 0 && SortsBy(s, idx)
    ensures SortsBy(s, idx[1..])
  {
    forall a, b | 0 <= a < b < |idx| - 1
      ensures s[idx[1..][a]] <= s[idx[1..][b]]
    {
      assert s[idx[a + 1]] <= s[idx[b + 1]];
    }
  }

  lemma ConsSorted(s: seq<real>, h: nat, rest: seq<nat>)
    requires h < |s| && SortsBy(s, rest) && forall k :: 0 <= k < |rest| ==> s[h] <= s[rest[k]]
    ensures SortsBy(s, [h] + rest)
  {
  }

  lemma {:induction false} InsertIndexSorted(s: seq<real>, i: nat, idx: seq<nat>)
    requires i < |s| && SortsBy(s, idx)
    ensures SortsBy(s, InsertIndex(s, i, idx))
  {
    if |idx| == 0 {
    } else if s[i] < s[idx[0]] {
      forall k | 0 <= k < |idx|
        ensures s[i] <= s[idx[k]]
      {
        if k > 0 {
          assert s[idx[0]] <= s[idx[k]];
        }
      }
      ConsSorted(s, i, idx);
    } else {
      var tail := idx[1..];
      var rest := InsertIndex(s, i, tail);
      SortsByTail(s, idx);
      InsertIndexSorted(s, i, tail);
      InsertIndexMultiset(s, i, tail);
      forall k | 0 <= k < |rest|
        ensures s[idx[0]] <= s[rest[k]]
      {
        assert rest[k] in multiset(rest);
        if rest[k] != i {
          assert rest[k] in multiset(tail);
          var j :| 0 <= j < |tail| && tail[j] == rest[k];
          assert s[idx[0]] <= s[idx[j + 1]];
        }
      }
      ConsSorted(s, idx[0], rest);
    }
  }

  /** The indices below n of s, in ascending order of value. */
  function ArgSortUpTo(s: seq<real>, n: nat): (idx: seq<nat>)
    requires n <= |s|
    ensures |idx| == n
  {
    if n == 0 then [] else InsertIndex(s, n - 1, ArgSortUpTo(s, n - 1))
  }

  /** np.argsort(s); ties keep their original order. */
  function ArgSort(s: seq<real>): (idx: seq<nat>)
  {
    ArgSortUpTo(s, |s|)
  }

  lemma {:induction false} ArgSortUpToSorted(s: seq<real>, n: nat)
    requires n <= |s|
    ensures SortsBy(s, ArgSortUpTo(s, n))
  {
    if n > 0 {
      ArgSortUpToSorted(s, n - 1);
      InsertIndexSorted(s, n - 1, ArgSortUpTo(s, n - 1));
    }
  }

  lemma {:induction false} ArgSortUpToMultiset(s: seq<real>, n: nat)
    requires n <= |s|
    ensures multiset(ArgSortUpTo(s, n)) == multiset(Range(n))
  {
    if n > 0 {
      ArgSortUpToMultiset(s, n - 1);
      InsertIndexMultiset(s, n - 1, ArgSortUpTo(s, n - 1));
      assert multiset(Range(n)) == multiset(Range(n - 1)) + multiset{(n - 1) as nat};
    }
  }

  /** np.argsort gives a permutation of the indices that puts s in
      ascending order. */
  lemma ArgSortSpec(s: seq<real>)
    ensures IsPermutation(ArgSort(s), |s|) && SortsBy(s, ArgSort(s))
  {
    ArgSortUpToSorted(s, |s|);
    ArgSortUpToMultiset(s, |s|);
    RangeBelow(|s|);
    var idx := ArgSort(s);
    forall k | 0 <= k < |s|
      ensures idx[k] < |s|
    {
      assert idx[k] in multiset(Range(|s|));
    }
  }

  lemma ArgSortBounded(s: seq<real>)
    ensures |ArgSort(s)| == |s| && forall k :: 0 <= k < |s| ==> ArgSort(s)[k] < |s|
  {
    ArgSortSpec(s);
  }

  /** v[idx], numpy fancy indexing with in-range indices. */
  function Permute(v: seq<real>, idx: seq<nat>): (r: seq<real>)
    requires forall k :: 0 <= k < |idx| ==> idx[k] < |v|
    ensures |r| == |idx|
  {
    seq(|idx|, k requires 0 <= k < |idx| => v[idx[k]])
  }

  /** The three arrays of expTable, each reindexed by argsort of the times. */
  function CoSorted(times: seq<real>, confl: seq<real>, green: seq<real>): (r: seq<seq<real>>)
    requires |confl| == |times| <= |green|
  {
    var idx := ArgSort(times);
    ArgSortSpec(times);
    [Permute(times, idx), Permute(confl, idx), Permute(green, idx)]
  }

  /** After the co-sort the times are ascending, and one permutation of the
      row indices carries each (time, confluence, green) triple to its new
      place, so the triples stay together. */
  lemma CoSortSpec(times: seq<real>, confl: seq<real>, green: seq<real>) returns (idx: seq<nat>)
    requires |confl| == |times| <= |green|
    ensures IsPermutation(idx, |times|)
    ensures |CoSorted(times, confl, green)| == 3
    ensures forall k :: 0 <= k < |times| ==>
              && CoSorted(times, confl, green)[0][k] == times[idx[k]]
              && CoSorted(times, confl, green)[1][k] == confl[idx[k]]
              && CoSorted(times, confl, green)[2][k] == green[idx[k]]
    ensures forall a, b :: 0 <= a < b < |times| ==> CoSorted(times, confl, green)[0][a] <= CoSorted(times, confl, green)[0][b]
  {
    ArgSortSpec(times);
    idx := ArgSort(times);
  }

  // ---------------------------------------------------------------------
  // logL.

  predicate AllFinite(paramV: seq<Num>)
  {
    forall i :: 0 <= i < |paramV| ==> paramV[i].Fin?
  }

  predicate SomeBelow(paramV: seq<Num>, lb: seq<real>)
    requires AllFinite(paramV) && |paramV| == |lb|
  {
    exists i :: 0 <= i < |lb| && paramV[i].v < lb[i]
  }

  predicate SomeAbove(paramV: seq<Num>, ub: seq<real>)
    requires AllFinite(paramV) && |paramV| == |ub|
  {
    exists i :: 0 <= i < |ub| && paramV[i].v > ub[i]
  }

  /** The vectors the guard chain of logL turns away. */
  predicate Rejected(paramV: seq<Num>, lb: seq<real>, ub: seq<real>)
  {
    || !AllFinite(paramV)
    || (|paramV| == |lb| && SomeBelow(paramV, lb))
    || (|paramV| == |lb| == |ub| && SomeAbove(paramV, ub))
  }

  /** The vectors the guard chain lets through to the simulation. */
  predicate InBounds(paramV: seq<Num>, lb: seq<real>, ub: seq<real>)
  {
    && AllFinite(paramV) && |paramV| == |lb| == |ub|
    && (forall i :: 0 <= i < |lb| ==> lb[i] <= paramV[i].v <= ub[i])
  }

  /** np.power(10, paramV). */
  function Pow10(pow: (real, real) -> real, paramV: seq<Num>): (p: seq<real>)
    requires AllFinite(paramV)
    ensures |p| == |paramV|
  {
    seq(|paramV|, i requires 0 <= i < |paramV| => pow(10.0, paramV[i].v))
  }

  function RowSum(row: seq<real>): real
  {
    if |row| == 0 then 0.0 else row[0] + RowSum(row[1..])
  }

  predicate HasColumns(model: Matrix, n: nat)
  {
    forall k :: 0 <= k < |model| ==> |model[k]| >= n
  }

  /** confl_mod = paramV[-4] * np.sum(model, axis=1). */
  function ConflMod(p: seq<real>, model: Matrix): (r: seq<real>)
    requires |p| >= 4
    ensures |r| == |model|
  {
    seq(|model|, k requires 0 <= k < |model| => p[|p| - 4] * RowSum(model[k]))
  }

  /** green_mod = paramV[-3] * model[:, 1] + model[:, 2]. */
  function GreenMod(p: seq<real>, model: Matrix): (r: seq<real>)
    requires |p| >= 4 && HasColumns(model, 3)
    ensures |r| == |model|
  {
    seq(|model|, k requires 0 <= k < |model| => p[|p| - 3] * model[k][1] + model[k][2])
  }

  /** np.sum(logpdf_sum(x, loc, scale)): None when an element raises. */
  function SumLogPdf(x: seq<real>, loc: seq<real>, scale: real, logpdf: (real, real, real) -> Option<real>): Option<real>
    requires |x| == |loc|
  {
    if |x| == 0 then Some(0.0)
    else match logpdf(x[0], loc[0], scale)
      case None => None
      case Some(h) =>
        match SumLogPdf(x[1..], loc[1..], scale, logpdf)
        case None => None
        case Some(t) => Some(h + t)
  }

  /** The part of logL after a successful simulation. */
  function Likelihood(p: seq<real>, model: Matrix, expTable: seq<seq<real>>, ln: real -> real,
                      logpdf: (real, real, real) -> Option<real>): Result<Num>
    requires forall i :: 0 <= i < |p| ==> p[i] > 0.0
  {
    if |p| < 4 || !HasColumns(model, 3) || |expTable| < 2 then Err(IndexError)
    else if |expTable[1]| != |model| then Err(ValueError)
    else match SumLogPdf(expTable[1], ConflMod(p, model), p[|p| - 2], logpdf)
      case None => Ok(NegInf)
      case Some(a) =>
        if |expTable| < 3 then Err(IndexError)
        else if |expTable[2]| != |model| then Err(ValueError)
        else match SumLogPdf(expTable[2], GreenMod(p, model), p[|p| - 1], logpdf)
          case None => Ok(NegInf)
          case Some(b) =>
            match logpdf(ln(p[|p| - 3] / p[|p| - 4]), 0.0, 0.1)
            case None => Ok(NegInf)
            case Some(c) => Ok(Fin(a + b + c))
  }

  /** logL(paramV): the guard chain, the simulation, then the likelihood.
      A shape mismatch in a numpy comparison raises ValueError. */
  function LogL(lb: seq<real>, ub: seq<real>, expTable: seq<seq<real>>, paramV: seq<Num>,
                pow: (real, real) -> real, ln: real -> real,
                sim: (seq<real>, seq<real>) -> Result<Matrix>,
                logpdf: (real, real, real) -> Option<real>): (r: Result<Num>)
    requires PowLaws(pow)
  {
    if !AllFinite(paramV) then Ok(NegInf)
    else if |paramV| != |lb| then Err(ValueError)
    else if SomeBelow(paramV, lb) then Ok(NegInf)
    else if |paramV| != |ub| then Err(ValueError)
    else if SomeAbove(paramV, ub) then Ok(NegInf)
    else
      var p := Pow10(pow, paramV);
      if |expTable| == 0 then Err(IndexError)
      else match sim(p, expTable[0])
        case Err(e) => if e == FloatingPointError then Ok(NegInf) else Err(e)
        case Ok(model) => Likelihood(p, model, expTable, ln, logpdf)
  }

  /** A non-finite or out-of-bounds vector gets -inf from the guard chain
      alone: the result is the same whatever the solver and the density
      would do, so no simulation is run for it. */
  lemma LogLRejects(lb: seq<real>, ub: seq<real>, expTable: seq<seq<real>>, paramV: seq<Num>,
                    pow: (real, real) -> real, ln: real -> real,
                    sim: (seq<real>, seq<real>) -> Result<Matrix>, sim2: (seq<real>, seq<real>) -> Result<Matrix>,
                    logpdf: (real, real, real) -> Option<real>, logpdf2: (real, real, real) -> Option<real>)
    requires PowLaws(pow) && Rejected(paramV, lb, ub)
    ensures LogL(lb, ub, expTable, paramV, pow, ln, sim, logpdf) == Ok(NegInf)
    ensures LogL(lb, ub, expTable, paramV, pow, ln, sim2, logpdf2) == Ok(NegInf)
  {
  }

  /** A vector within the bounds always reaches the simulation. */
  lemma LogLAccepts(lb: seq<real>, ub: seq<real>, expTable: seq<seq<real>>, paramV: seq<Num>,
                    pow: (real, real) -> real, ln: real -> real,
                    sim: (seq<real>, seq<real>) -> Result<Matrix>, logpdf: (real, real, real) -> Option<real>)
    requires PowLaws(pow) && InBounds(paramV, lb, ub) && |expTable| > 0
    ensures !Rejected(paramV, lb, ub)
    ensures (sim(Pow10(pow, paramV), expTable[0]) == Err(FloatingPointError))
              ==> LogL(lb, ub, expTable, paramV, pow, ln, sim, logpdf) == Ok(NegInf)
    ensures (sim(Pow10(pow, paramV), expTable[0]).Err? && sim(Pow10(pow, paramV), expTable[0]).error != FloatingPointError)
              ==> LogL(lb, ub, expTable, paramV, pow, ln, sim, logpdf) == Err(sim(Pow10(pow, paramV), expTable[0]).error)
    ensures (sim(Pow10(pow, paramV), expTable[0]).Ok?)
              ==> LogL(lb, ub, expTable, paramV, pow, ln, sim, logpdf)
                    == Likelihood(Pow10(pow, paramV), sim(Pow10(pow, paramV), expTable[0]).value, expTable, ln, logpdf)
  {
    assert !SomeBelow(paramV, lb);
    assert !SomeAbove(paramV, ub);
  }

  /** The summed density raises exactly when some element does, and is
      otherwise the sum of the element densities. */
  lemma {:induction false} SumLogPdfSpec(x: seq<real>, loc: seq<real>, scale: real, logpdf: (real, real, real) -> Option<real>)
    requires |x| == |loc|
    ensures (SumLogPdf(x, loc, scale, logpdf).None?) <==> exists k :: 0 <= k < |x| && logpdf(x[k], loc[k], scale).None?
  {
    if |x| > 0 {
      SumLogPdfSpec(x[1..], loc[1..], scale, logpdf);
      if logpdf(x[0], loc[0], scale).Some? && SumLogPdf(x[1..], loc[1..], scale, logpdf).None? {
        var k :| 0 <= k < |x| - 1 && logpdf(x[1..][k], loc[1..][k], scale).None?;
        assert logpdf(x[k + 1], loc[k + 1], scale).None?;
      }
      if exists k :: 0 <= k < |x| && logpdf(x[k], loc[k], scale).None? {
        var k :| 0 <= k < |x| && logpdf(x[k], loc[k], scale).None?;
        if k > 0 {
          assert logpdf(x[1..][k - 1], loc[1..][k - 1], scale).None?;
        }
      }
    }
  }

  /** With the live, dead and apoptotic columns of the simulation, the
      modelled confluence is the conversion factor times the total cell
      count, and the modelled green signal is the second conversion factor
      times the dead count plus the apoptotic count. */
  lemma SignalCombination(p: seq<real>, model: Matrix, k: nat)
    requires |p| >= 4 && k < |model| && IsShape(model, |model|, 3)
    ensures ConflMod(p, model)[k] == p[|p| - 4] * (model[k][0] + model[k][1] + model[k][2])
    ensures GreenMod(p, model)[k] == p[|p| - 3] * model[k][1] + model[k][2]
  {
    var row := model[k];
    assert RowSum(row[2..]) == row[2] by {
      assert row[2..][1..] == [];
    }
    assert RowSum(row) == row[0] + (row[1] + RowSum(row[2..])) by {
      assert row[1..][1..] == row[2..];
    }
  }

  /** logL after a successful simulation of the right shape: -inf when any
      density raises; otherwise the two summed densities plus the prior
      tying the conversion factors together. */
  lemma LikelihoodCases(p: seq<real>, model: Matrix, expTable: seq<seq<real>>, ln: real -> real,
                        logpdf: (real, real, real) -> Option<real>)
    requires forall i :: 0 <= i < |p| ==> p[i] > 0.0
    requires |p| >= 4 && HasColumns(model, 3) && |expTable| >= 3
    requires |expTable[1]| == |model| == |expTable[2]|
    ensures (SumLogPdf(expTable[1], ConflMod(p, model), p[|p| - 2], logpdf).None?)
              ==> Likelihood(p, model, expTable, ln, logpdf) == Ok(NegInf)
    ensures (SumLogPdf(expTable[2], GreenMod(p, model), p[|p| - 1], logpdf).None?)
              ==> Likelihood(p, model, expTable, ln, logpdf) == Ok(NegInf)
    ensures (logpdf(ln(p[|p| - 3] / p[|p| - 4]), 0.0, 0.1).None?)
              ==> Likelihood(p, model, expTable, ln, logpdf) == Ok(NegInf)
    ensures (&& SumLogPdf(expTable[1], ConflMod(p, model), p[|p| - 2], logpdf).Some?
             && SumLogPdf(expTable[2], GreenMod(p, model), p[|p| - 1], logpdf).Some?
             && logpdf(ln(p[|p| - 3] / p[|p| - 4]), 0.0, 0.1).Some?)
              ==> Likelihood(p, model, expTable, ln, logpdf)
                    == Ok(Fin(SumLogPdf(expTable[1], ConflMod(p, model), p[|p| - 2], logpdf).value
                              + SumLogPdf(expTable[2], GreenMod(p, model), p[|p| - 1], logpdf).value
                              + logpdf(ln(p[|p| - 3] / p[|p| - 4]), 0.0, 0.1).value))
  {
  }

  /** expTable[2] is read only after the confluence sum: with two arrays,
      a confluence mismatch still raises ValueError and a raising
      confluence density still gives -inf; only a successful confluence
      sum reaches the IndexError. */
  lemma LikelihoodShortTable(p: seq<real>, model: Matrix, expTable: seq<seq<real>>, ln: real -> real,
                             logpdf: (real, real, real) -> Option<real>)
    requires forall i :: 0 <= i < |p| ==> p[i] > 0.0
    requires |p| >= 4 && HasColumns(model, 3) && |expTable| == 2
    ensures |expTable[1]| != |model| ==> Likelihood(p, model, expTable, ln, logpdf) == Err(ValueError)
    ensures (|expTable[1]| == |model| && SumLogPdf(expTable[1], ConflMod(p, model), p[|p| - 2], logpdf).None?)
              ==> Likelihood(p, model, expTable, ln, logpdf) == Ok(NegInf)
    ensures (|expTable[1]| == |model| && SumLogPdf(expTable[1], ConflMod(p, model), p[|p| - 2], logpdf).Some?)
              ==> Likelihood(p, model, expTable, ln, logpdf) == Err(IndexError)
  {
  }

  // ---------------------------------------------------------------------
  // The object.

  /** A column-major CSV table as pandas reads it: every column has one
      entry per row. */
  predicate Rectangular(t: seq<seq<real>>)
  {
    forall c :: 0 <= c < |t| ==> |t[c]| == |t[0]|
  }

  /** __init__ reads its three arrays without an IndexError: the time
      column 1 and column selCol exist in both tables, and the green table
      has at least as many rows as argsort indexes into it. */
  predicate LoadOk(confl: seq<seq<real>>, green: seq<seq<real>>, selCol: nat)
  {
    2 <= |confl| && selCol < |confl| && selCol < |green| && |green[selCol]| >= |confl[1]|
  }

  const DefaultLoadFile: string := "091916_H1299_cytotoxic_confluence"

  class LegacyModel {
    var selCol: nat
    var expTable: seq<seq<real>>
    var pNames: seq<string>
    var lb: seq<real>
    var ub: seq<real>
    var nParams: nat

    /** logL on this object's bounds and data. */
    function LogLikelihood(paramV: seq<Num>, pow: (real, real) -> real, ln: real -> real,
                           sim: (seq<real>, seq<real>) -> Result<Matrix>,
                           logpdf: (real, real, real) -> Option<real>): Result<Num>
      reads this
      requires PowLaws(pow)
    {
      LogL(lb, ub, expTable, paramV, pow, ln, sim, logpdf)
    }

    /** __init__(selCol, loadFile) on the two tables read from the
        `_confl` and `_green` files of stem (loadFile, or the default file
        when it is None; the source keeps it in a local): the selected
        columns and the times, co-sorted by time, then the names and
        bounds of the parameters. Reading a missing column raises
        IndexError. */
    method Init(selCol: nat, file: Option<string>, confl: seq<seq<real>>, green: seq<seq<real>>)
      returns (err: Option<Error>, stem: string)
      requires Rectangular(confl) && Rectangular(green)
      modifies this
      ensures stem == if file.None? then DefaultLoadFile else file.value
      ensures err.None? <==> LoadOk(confl, green, selCol)
      ensures err.Some? ==> err.value == IndexError
      ensures err.None? ==> this.selCol == selCol
      ensures err.None? ==> expTable == CoSorted(confl[1], confl[selCol], green[selCol])
      ensures err.None? ==> pNames == ParamNames && lb == LowerBounds() && ub == UpperBounds() && nParams == 9
    {
      stem := if file.None? then DefaultLoadFile else file.value;
      this.selCol := selCol;
      if |confl| < 2 || selCol >= |confl| || selCol >= |green| {
        return Some(IndexError), stem;
      }
      expTable := [confl[1], confl[selCol], green[selCol]];
      var idx := ArgSort(expTable[0]);
      ArgSortBounded(expTable[0]);
      var times, conflSorted := Permute(expTable[0], idx), Permute(expTable[1], idx);
      expTable := [times, conflSorted, expTable[2]];
      if |green[selCol]| < |idx| {
        return Some(IndexError), stem;
      }
      expTable := [times, conflSorted, Permute(green[selCol], idx)];
      pNames := ParamNames;
      assert |pNames| == 9;
      BoundsAssembled();
      lb := seq(|pNames|, i => -6.0);
      lb := lb[|lb| - 4 := -2.0][|lb| - 3 := -2.0];
      ub := seq(|pNames|, i => 0.0);
      ub := ub[|ub| - 4 := 4.0][|ub| - 3 := 4.0];
      nParams := |ub|;
      return None, stem;
    }
  }
}
