/** The likelihood terms of build_model in grmodel/pymcGrowth.py: the
    model's signals are flattened condition by condition and compared with
    the observed expTable vectors; one normal fit term exists per channel
    present, and the log-probability is always recorded last. The priors
    themselves are not modelled: the rates, conversions and offsets are
    parameters. */
module GrowthFit {
  import opened Common
  import opened Kinetics

  /** The expTable keys in the order build_model tests them. */
  const Channels: seq<string> := ["confl", "apop", "dna"]

  /** The name of the fit term of each channel. */
  const FitNames: seq<string> := ["dataFit", "dataFita", "dataFitd"]

  /** A recorded model term: a normal likelihood on a residual vector, or
      the Deterministic "logp". */
  datatype Term = Normal(name: string, observed: seq<real>) | LogP

  /** The signal matrix of channel c. */
  function ChannelSignal(s: Signals, c: nat): Matrix
    requires c < 3
  {
    if c == 0 then s.confl else if c == 1 then s.apop else s.dna
  }

  /** All three signals are rows x cols. */
  predicate SignalShape(s: Signals, rows: nat, cols: nat)
  {
    IsShape(s.confl, rows, cols) && IsShape(s.apop, rows, cols) && IsShape(s.dna, rows, cols)
  }

  /** T.reshape(pred, (-1,)) - obs: elementwise, on vectors of one length. */
  function Residual(pred: Matrix, obs: seq<real>): (r: Result<seq<real>>)
    ensures r.Ok? <==> |Flatten(pred)| == |obs|
    ensures r.Err? ==> r.error == ValueError
    ensures r.Ok? ==> |r.value| == |obs|
  {
    var p := Flatten(pred);
    if |p| != |obs| then Err(ValueError)
    else Ok(seq(|obs|, k requires 0 <= k < |obs| => p[k] - obs[k]))
  }

  /** The terms of channels c, c+1, .. and then logp, in build_model's order. */
  function FitTerms(s: Signals, expTable: map<string, seq<real>>, c: nat): Result<seq<Term>>
    requires c <= 3
    decreases 3 - c
  {
    if c == 3 then Ok([LogP])
    else if Channels[c] !in expTable then FitTerms(s, expTable, c + 1)
    else
      match Residual(ChannelSignal(s, c), expTable[Channels[c]])
      case Err(e) => Err(e)
      case Ok(res) =>
        match FitTerms(s, expTable, c + 1)
        case Err(e) => Err(e)
        case Ok(ts) => Ok([Normal(FitNames[c], res)] + ts)
  }

  /** The theanoCore trajectory is aligned, so convSignal applies to it. */
  lemma CoreAligned(exp: real -> real, timeV: seq<real>, div: seq<real>, deathRate: seq<real>,
                    apopfrac: seq<real>, d: real)
    requires RatesOk(div, deathRate, apopfrac, d)
    ensures Aligned(TheanoCore(exp, timeV, div, deathRate, apopfrac, d))
  {
  }

  /** The model signals: theanoCore then convSignal in offset mode, the
      mode build_model uses. */
  function ModelSignals(exp: real -> real, timeV: seq<real>, div: seq<real>, deathRate: seq<real>,
                        apopfrac: seq<real>, d: real, conv: Conv, offset: Offset): Signals
    requires RatesOk(div, deathRate, apopfrac, d)
  {
    CoreAligned(exp, timeV, div, deathRate, apopfrac, d);
    ConvSignal(TheanoCore(exp, timeV, div, deathRate, apopfrac, d), conv, Some(offset))
  }

  /** build_model: the per-condition rates have one entry per dose; the
      result is the list of recorded terms, or the shape error Theano
      raises when a residual's two sides differ in length. */
  function BuildModel(exp: real -> real, timeV: seq<real>, div: seq<real>, deathRate: seq<real>,
                      apopfrac: seq<real>, d: real, conv: Conv, offset: Offset,
                      expTable: map<string, seq<real>>): Result<seq<Term>>
    requires RatesOk(div, deathRate, apopfrac, d)
  {
    FitTerms(ModelSignals(exp, timeV, div, deathRate, apopfrac, d, conv, offset), expTable, 0)
  }

  // ---------------------------------------------------------------------
  // Properties.

  /** ts holds a normal term called name. */
  predicate HasTerm(ts: seq<Term>, name: string)
  {
    exists i :: 0 <= i < |ts| && ts[i].Normal? && ts[i].name == name
  }

  /** Every present channel's observed vector has as many entries as its
      flattened prediction. */
  predicate ChannelsFit(s: Signals, expTable: map<string, seq<real>>, c: nat)
    requires c <= 3
  {
    forall k :: c <= k < 3 && Channels[k] in expTable ==> |Flatten(ChannelSignal(s, k))| == |expTable[Channels[k]]|
  }

  /** Number of channels c, c+1, .. present in expTable. */
  function Present(expTable: map<string, seq<real>>, c: nat): nat
    requires c <= 3
    decreases 3 - c
  {
    if c == 3 then 0 else (if Channels[c] in expTable then 1 else 0) + Present(expTable, c + 1)
  }

  /** The terms exist exactly when every present channel fits; otherwise
      the error is the shape mismatch. */
  lemma {:induction false} FitTermsOk(s: Signals, expTable: map<string, seq<real>>, c: nat)
    requires c <= 3
    ensures FitTerms(s, expTable, c).Ok? <==> ChannelsFit(s, expTable, c)
    ensures FitTerms(s, expTable, c).Err? ==> FitTerms(s, expTable, c).error == ValueError
    decreases 3 - c
  {
    if c < 3 {
      FitTermsOk(s, expTable, c + 1);
    }
  }

  /** The term list ends with logp and has only normal terms before it,
      one per present channel, named after channels c, c+1, ..; each normal
      term's observed vector is the residual of its channel. */
  lemma {:induction false} FitTermsList(s: Signals, expTable: map<string, seq<real>>, c: nat, ts: seq<Term>)
    requires c <= 3 && FitTerms(s, expTable, c) == Ok(ts)
    ensures |ts| == Present(expTable, c) + 1
    ensures ts[|ts| - 1] == LogP
    ensures forall i :: 0 <= i < |ts| - 1 ==> ts[i].Normal?
    ensures forall i :: 0 <= i < |ts| && ts[i].Normal? ==> ts[i].name in FitNames[c..]
    ensures forall i, k :: 0 <= i < |ts| && c <= k < 3 && ts[i].Normal? && ts[i].name == FitNames[k] ==>
              Channels[k] in expTable && Residual(ChannelSignal(s, k), expTable[Channels[k]]) == Ok(ts[i].observed)
    decreases 3 - c
  {
    if c < 3 {
      if Channels[c] !in expTable {
        FitTermsList(s, expTable, c + 1, ts);
      } else {
        var res := Residual(ChannelSignal(s, c), expTable[Channels[c]]).value;
        var rest := FitTerms(s, expTable, c + 1).value;
        FitTermsList(s, expTable, c + 1, rest);
        assert ts == [Normal(FitNames[c], res)] + rest;
      }
    }
  }

  /** The fit term of channel k is among the terms iff its key is in expTable. */
  lemma {:induction false} FitTermsNames(s: Signals, expTable: map<string, seq<real>>, c: nat, ts: seq<Term>)
    requires c <= 3 && FitTerms(s, expTable, c) == Ok(ts)
    ensures forall k :: c <= k < 3 ==> (HasTerm(ts, FitNames[k]) <==> Channels[k] in expTable)
    decreases 3 - c
  {
    if c < 3 {
      if Channels[c] !in expTable {
        FitTermsNames(s, expTable, c + 1, ts);
        FitTermsList(s, expTable, c + 1, ts);
        assert !HasTerm(ts, FitNames[c]);
      } else {
        var res := Residual(ChannelSignal(s, c), expTable[Channels[c]]).value;
        var rest := FitTerms(s, expTable, c + 1).value;
        FitTermsNames(s, expTable, c + 1, rest);
        FitTermsList(s, expTable, c + 1, rest);
        assert ts == [Normal(FitNames[c], res)] + rest;
        ConsTerms(FitNames[c], res, rest, c);
      }
    }
  }

  /** Prepending channel c's term keeps the later channels' terms and
      adds the one of channel c. */
  lemma ConsTerms(name: string, res: seq<real>, rest: seq<Term>, c: nat)
    requires c < 3 && name == FitNames[c]
    requires forall i :: 0 <= i < |rest| && rest[i].Normal? ==> rest[i].name in FitNames[c + 1..]
    ensures HasTerm([Normal(name, res)] + rest, name)
    ensures forall k :: c < k < 3 ==> (HasTerm([Normal(name, res)] + rest, FitNames[k]) <==> HasTerm(rest, FitNames[k]))
  {
    var ts := [Normal(name, res)] + rest;
    assert ts[0].Normal? && ts[0].name == name;
    forall k | c < k < 3
      ensures HasTerm(ts, FitNames[k]) <==> HasTerm(rest, FitNames[k])
    {
      if HasTerm(rest, FitNames[k]) {
        var i :| 0 <= i < |rest| && rest[i].Normal? && rest[i].name == FitNames[k];
        assert ts[i + 1] == rest[i];
      }
      if HasTerm(ts, FitNames[k]) {
        var i :| 0 <= i < |ts| && ts[i].Normal? && ts[i].name == FitNames[k];
        assert i > 0;
        assert rest[i - 1] == ts[i];
      }
    }
  }

  /** A present channel's residual, entry by entry: condition i at time j
      sits at i * cols + j, so the prediction for (i, j) is compared with
      expTable[key][i * cols + j]. */
  lemma ResidualAt(pred: Matrix, obs: seq<real>, rows: nat, cols: nat, i: nat, j: nat)
    requires IsShape(pred, rows, cols) && |obs| == rows * cols && i < rows && j < cols
    ensures Residual(pred, obs).Ok?
    ensures i * cols + j < |obs|
    ensures Residual(pred, obs).value[i * cols + j] == pred[i][j] - obs[i * cols + j]
  {
    FlattenShape(pred, rows, cols);
    FlattenAt(pred, rows, cols, i, j);
  }

  /** The signals of conditions x time points. */
  lemma ModelSignalsShape(exp: real -> real, timeV: seq<real>, div: seq<real>, deathRate: seq<real>,
                          apopfrac: seq<real>, d: real, conv: Conv, offset: Offset)
    requires RatesOk(div, deathRate, apopfrac, d)
    ensures SignalShape(ModelSignals(exp, timeV, div, deathRate, apopfrac, d, conv, offset), |div|, |timeV|)
  {
  }

  /** build_model succeeds exactly when every present expTable vector has
      one entry per (condition, time point); otherwise Theano's shape error. */
  lemma BuildModelOk(exp: real -> real, timeV: seq<real>, div: seq<real>, deathRate: seq<real>,
                     apopfrac: seq<real>, d: real, conv: Conv, offset: Offset, expTable: map<string, seq<real>>)
    requires RatesOk(div, deathRate, apopfrac, d)
    ensures BuildModel(exp, timeV, div, deathRate, apopfrac, d, conv, offset, expTable).Ok?
            <==> (forall k :: 0 <= k < 3 && Channels[k] in expTable ==> |expTable[Channels[k]]| == |div| * |timeV|)
    ensures BuildModel(exp, timeV, div, deathRate, apopfrac, d, conv, offset, expTable).Err? ==>
              BuildModel(exp, timeV, div, deathRate, apopfrac, d, conv, offset, expTable).error == ValueError
  {
    var s := ModelSignals(exp, timeV, div, deathRate, apopfrac, d, conv, offset);
    ModelSignalsShape(exp, timeV, div, deathRate, apopfrac, d, conv, offset);
    FitTermsOk(s, expTable, 0);
    forall k | 0 <= k < 3
      ensures |Flatten(ChannelSignal(s, k))| == |div| * |timeV|
    {
      FlattenShape(ChannelSignal(s, k), |div|, |timeV|);
    }
  }

  /** The terms build_model records: a fit term for a channel iff its key is
      in expTable, one per present channel, and logp last. */
  lemma BuildModelTerms(exp: real -> real, timeV: seq<real>, div: seq<real>, deathRate: seq<real>,
                        apopfrac: seq<real>, d: real, conv: Conv, offset: Offset,
                        expTable: map<string, seq<real>>, ts: seq<Term>)
    requires RatesOk(div, deathRate, apopfrac, d)
    requires BuildModel(exp, timeV, div, deathRate, apopfrac, d, conv, offset, expTable) == Ok(ts)
    ensures |ts| == Present(expTable, 0) + 1 && ts[|ts| - 1] == LogP
    ensures forall i :: 0 <= i < |ts| - 1 ==> ts[i].Normal?
    ensures forall k :: 0 <= k < 3 ==> (HasTerm(ts, FitNames[k]) <==> Channels[k] in expTable)
  {
    FitTermsList(ModelSignals(exp, timeV, div, deathRate, apopfrac, d, conv, offset), expTable, 0, ts);
    FitTermsNames(ModelSignals(exp, timeV, div, deathRate, apopfrac, d, conv, offset), expTable, 0, ts);
  }

  /** Each fit term of build_model observes prediction minus data at every
      (condition, time point), the prediction flattened with conditions
      outermost. */
  lemma BuildModelResidual(exp: real -> real, timeV: seq<real>, div: seq<real>, deathRate: seq<real>,
                           apopfrac: seq<real>, d: real, conv: Conv, offset: Offset,
                           expTable: map<string, seq<real>>, ts: seq<Term>, t: nat, k: nat, i: nat, j: nat)
    requires RatesOk(div, deathRate, apopfrac, d)
    requires BuildModel(exp, timeV, div, deathRate, apopfrac, d, conv, offset, expTable) == Ok(ts)
    requires t < |ts| && ts[t].Normal? && k < 3 && ts[t].name == FitNames[k]
    requires i < |div| && j < |timeV|
    ensures Channels[k] in expTable
    ensures i * |timeV| + j < |ts[t].observed| == |expTable[Channels[k]]|
    ensures ts[t].observed[i * |timeV| + j]
              == ChannelSignal(ModelSignals(exp, timeV, div, deathRate, apopfrac, d, conv, offset), k)[i][j]
                 - expTable[Channels[k]][i * |timeV| + j]
  {
    var s := ModelSignals(exp, timeV, div, deathRate, apopfrac, d, conv, offset);
    ModelSignalsShape(exp, timeV, div, deathRate, apopfrac, d, conv, offset);
    FitTermsList(s, expTable, 0, ts);
    BuildModelOk(exp, timeV, div, deathRate, apopfrac, d, conv, offset, expTable);
    ResidualAt(ChannelSignal(s, k), expTable[Channels[k]], |div|, |timeV|, i, j);
  }

  /** Entrywise difference of two matrices of one shape. */
  function Diff(a: Matrix, b: Matrix): (r: Matrix)
    requires SameShape(a, b)
    ensures SameShape(r, a)
  {
    seq(|a|, i requires 0 <= i < |a| => seq(|a[i]|, j requires 0 <= j < |a[i]| => a[i][j] - b[i][j]))
  }

  function Zeros(n: nat): (r: seq<real>)
    ensures |r| == n && forall k :: 0 <= k < n ==> r[k] == 0.0
  {
    seq(n, k => 0.0)
  }

  lemma {:induction false} FlattenSameLength(a: Matrix, b: Matrix)
    requires SameShape(a, b)
    ensures |Flatten(a)| == |Flatten(b)|
    decreases |a|
  {
    if |a| > 0 {
      FlattenSameLength(a[1..], b[1..]);
    }
  }

  /** expTable[key] as importData lays it out, np.array(columns).reshape(-1)
      with one column of time points per condition, lines up with the
      flattened prediction: the residual is the flattening of the
      condition-by-time difference matrix, so each entry compares one
      condition's prediction and observation at one time point. */
  lemma {:induction false} ImportLayoutAligned(pred: Matrix, columns: Matrix)
    requires SameShape(pred, columns)
    ensures Residual(pred, Flatten(columns)) == Ok(Flatten(Diff(pred, columns)))
    decreases |pred|
  {
    FlattenSameLength(pred, columns);
    if |pred| > 0 {
      ImportLayoutAligned(pred[1..], columns[1..]);
      FlattenSameLength(pred[1..], columns[1..]);
      assert Diff(pred, columns)[1..] == Diff(pred[1..], columns[1..]);
      var p, o := Flatten(pred), Flatten(columns);
      var n := |pred[0]|;
      assert p == pred[0] + Flatten(pred[1..]);
      assert o == columns[0] + Flatten(columns[1..]);
      var d := Flatten(Diff(pred, columns));
      var dr := Flatten(Diff(pred[1..], columns[1..]));
      assert d == Diff(pred, columns)[0] + dr;
      var r := Residual(pred, o).value;
      var rr := Residual(pred[1..], Flatten(columns[1..])).value;
      assert rr == dr;
      forall k | 0 <= k < |o|
        ensures r[k] == d[k]
      {
        if k >= n {
          assert d[k] == dr[k - n] == rr[k - n];
          assert p[k] == Flatten(pred[1..])[k - n];
          assert o[k] == Flatten(columns[1..])[k - n];
        } else {
          assert d[k] == Diff(pred, columns)[0][k] == pred[0][k] - columns[0][k];
        }
      }
      assert r == d;
    }
  }

  /** The residual of one time point of one condition. */
  lemma ImportLayoutAt(pred: Matrix, columns: Matrix, rows: nat, cols: nat, i: nat, j: nat)
    requires IsShape(pred, rows, cols) && IsShape(columns, rows, cols) && i < rows && j < cols
    ensures i * cols + j < rows * cols == |Flatten(columns)|
    ensures Residual(pred, Flatten(columns)).Ok?
    ensures Residual(pred, Flatten(columns)).value[i * cols + j] == pred[i][j] - columns[i][j]
  {
    FlattenShape(columns, rows, cols);
    ResidualAt(pred, Flatten(columns), rows, cols, i, j);
    FlattenAt(columns, rows, cols, i, j);
  }

  /** The residual against importData's layout is all zeros exactly when
      the prediction equals the data. */
  lemma PerfectFit(pred: Matrix, columns: Matrix)
    requires SameShape(pred, columns)
    ensures Residual(pred, Flatten(columns)) == Ok(Zeros(|Flatten(columns)|)) <==> pred == columns
  {
    ImportLayoutAligned(pred, columns);
    FlattenSameLength(Diff(pred, columns), columns);
    ZeroDiff(pred, columns);
  }

  lemma {:induction false} ZeroDiff(pred: Matrix, columns: Matrix)
    requires SameShape(pred, columns)
    ensures |Flatten(Diff(pred, columns))| == |Flatten(columns)|
    ensures Flatten(Diff(pred, columns)) == Zeros(|Flatten(columns)|) <==> pred == columns
    decreases |pred|
  {
    FlattenSameLength(Diff(pred, columns), columns);
    if |pred| > 0 {
      ZeroDiff(pred[1..], columns[1..]);
      assert Diff(pred, columns)[1..] == Diff(pred[1..], columns[1..]);
      var row := Diff(pred, columns)[0];
      var rest := Flatten(Diff(pred[1..], columns[1..]));
      assert Flatten(Diff(pred, columns)) == row + rest;
      ZerosConcat(row, rest);
      RowZero(pred[0], columns[0], row);
      assert pred == columns <==> pred[0] == columns[0] && pred[1..] == columns[1..] by {
        if pred[0] == columns[0] && pred[1..] == columns[1..] {
          assert pred == [pred[0]] + pred[1..];
          assert columns == [columns[0]] + columns[1..];
        }
      }
    }
  }

  lemma ZerosConcat(a: seq<real>, b: seq<real>)
    ensures a + b == Zeros(|a| + |b|) <==> a == Zeros(|a|) && b == Zeros(|b|)
  {
    if a + b == Zeros(|a| + |b|) {
      assert forall k :: 0 <= k < |a| ==> a[k] == (a + b)[k];
      assert forall k :: 0 <= k < |b| ==> b[k] == (a + b)[|a| + k];
    }
    if a == Zeros(|a|) && b == Zeros(|b|) {
      assert forall k :: 0 <= k < |a| + |b| ==> (a + b)[k] == 0.0;
    }
  }

  lemma RowZero(p: seq<real>, c: seq<real>, row: seq<real>)
    requires |p| == |c| == |row| && forall j :: 0 <= j < |p| ==> row[j] == p[j] - c[j]
    ensures row == Zeros(|row|) <==> p == c
  {
    if row == Zeros(|row|) {
      assert forall j :: 0 <= j < |p| ==> p[j] == c[j] by {
        forall j | 0 <= j < |p| ensures p[j] == c[j] {
          assert row[j] == 0.0;
        }
      }
    }
  }
}
