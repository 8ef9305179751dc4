/** GrowthModel.importData of grmodel/pymcGrowth.py once the CSV reads are
    stripped away: the three files (confluence, apoptosis, DNA) arrive as
    already-parsed tables, and what remains is the classification of
    condition names into (drug, dose), the choice of columns, and the
    layout of expTable. The specification is a fold (ImportWith) over the
    keys and columns in the source's order; the class GrowthModel below
    carries out the same loops on its fields and is proved to agree. */
module GrowthImport {
  import opened Common

  /** A dose as the source stores it: the int 0, float(token), or the token itself. */
  datatype DoseVal = Zero | Parsed(tok: string) | Raw(tok: string)

  /** A single dose (plain data) or a (dose1, dose2) pair (combination data). */
  datatype Dose = Single(v: DoseVal) | Pair(first: DoseVal, second: DoseVal)

  /** A CSV file after reading: names[c] heads column cols[c]. */
  datatype CsvTable = CsvTable(names: seq<string>, cols: seq<seq<real>>)

  /** The layout the source expects: column 1 is "Elapsed" (read both by
      name and by position), and all columns have one length. */
  predicate WellFormed(t: CsvTable)
  {
    && |t.names| == |t.cols| >= 2
    && t.names[1] == "Elapsed"
    && forall c :: 0 <= c < |t.cols| ==> |t.cols[c]| == |t.cols[1]|
  }

  /** The keys of the property dict, in its iteration order. */
  const Keys: seq<string> := ["confl", "apop", "dna"]

  /** "blank" in condName.lower() */
  predicate HasBlank(name: string)
  {
    Contains(Lower(name), "blank")
  }

  /** a and b are the first two " "-separated tokens of s. */
  predicate FirstTwoTokens(s: string, a: string, b: string)
  {
    && !Contains(a, " ") && !Contains(b, " ")
    && a + " " + b <= s
    && (|s| == |a| + 1 + |b| || s[|a| + 1 + |b|] == ' ')
  }

  /** The first two pieces of a " "-join, and the separator after them. */
  lemma JoinFirstTwo(p: seq<string>)
    requires |p| >= 2
    ensures p[0] + " " + p[1] <= Join(p, " ")
    ensures |Join(p, " ")| == |p[0]| + 1 + |p[1]| || Join(p, " ")[|p[0]| + 1 + |p[1]|] == ' '
  {
    var head := p[0] + " " + p[1];
    if |p| == 2 {
      assert p[1..] == [p[1]];
      assert Join(p, " ") == head;
    } else {
      var rest := Join(p[2..], " ");
      assert p[1..][1..] == p[2..];
      assert Join(p[1..], " ") == p[1] + " " + rest;
      assert Join(p, " ") == p[0] + " " + (p[1] + " " + rest);
      assert Join(p, " ") == head + (" " + rest);
      assert Join(p, " ")[|head|] == ' ';
    }
  }

  lemma SplitFirstTwo(s: string)
    ensures Contains(s, " ") <==> |Split(s, " ")| >= 2
    ensures Contains(s, " ") ==> FirstTwoTokens(s, Split(s, " ")[0], Split(s, " ")[1])
    ensures !Contains(s, " ") ==> Split(s, " ") == [s]
  {
    SplitHead(s, " ");
    SplitSpec(s, " ");
    var p := Split(s, " ");
    if |p| >= 2 {
      JoinFirstTwo(p);
    }
  }

  // ---------------------------------------------------------------------
  // Classification of condition names.

  /** Plain data (comb is None), for a name without "blank": the first
      token is the drug and the second, kept as a string, the dose; a name
      without a space is the control with dose 0. */
  function ClassifySingle(name: string): (string, Dose)
  {
    var toks := Split(name, " ");
    if |toks| < 2 then ("Control", Single(Zero)) else (toks[0], Single(Raw(toks[1])))
  }

  lemma ClassifySingleSpec(name: string)
    ensures !Contains(name, " ") ==> ClassifySingle(name) == ("Control", Single(Zero))
    ensures Contains(name, " ") ==>
              var r := ClassifySingle(name);
              r.1.Single? && r.1.v.Raw? && FirstTwoTokens(name, r.0, r.1.v.tok)
  {
    SplitFirstTwo(name);
  }

  /** Drug and (dose1, dose2) as the combination branch leaves them. */
  datatype Classified = Classified(drug: string, dose1: DoseVal, dose2: DoseVal)

  /** float(tok), where only the empty token is modelled as unparsable. */
  function ParseFloat(tok: string): (r: Result<DoseVal>)
    ensures r.Err? <==> tok == ""
    ensures r.Ok? ==> r.value == Parsed(tok)
  {
    if tok == "" then Err(ValueError) else Ok(Parsed(tok))
  }

  /** The `except IndexError` branch: only the other drug is present. */
  function OnlyOtherDrug(name: string): Result<Classified>
  {
    var toks := Split(name, " ");
    if |toks| < 2 then Err(IndexError) else Ok(Classified(toks[0], Raw(toks[1]), Zero))
  }

  /** The `try` branch: "drug1 dose1, drug2 dose2". An IndexError falls
      back to OnlyOtherDrug; a failing float() propagates. */
  function DrugPair(name: string): Result<Classified>
  {
    var parts := Split(name, ", ");
    var t1 := Split(parts[0], " ");
    if |t1| < 2 then OnlyOtherDrug(name)
    else if t1[1] == "" then Err(ValueError)
    else if |parts| < 2 then OnlyOtherDrug(name)
    else
      var t2 := Split(parts[1], " ");
      if |t2| < 2 then OnlyOtherDrug(name)
      else if t2[1] == "" then Err(ValueError)
      else Ok(Classified(t1[0] + "+" + t2[0], Parsed(t1[1]), Parsed(t2[1])))
  }

  /** Combination data: one column name, given the drug/dose left by the
      previous column (None before any column: reading it is a NameError). */
  function ClassifyComb(name: string, comb: string, prev: Option<Classified>): Result<Classified>
  {
    if Contains(name, "Control") then Ok(Classified("Control", Zero, Zero))
    else
      var toks := Split(name, " ");
      if toks[0] == comb then
        if |toks| < 2 then Err(IndexError)
        else if toks[1] == "" then Err(ValueError)
        else Ok(Classified(comb, Zero, Parsed(toks[1])))
      else if !HasBlank(name) then DrugPair(name)
      else if prev.Some? then Ok(prev.value)
      else Err(NameError)
  }

  /** The classification used for combination data. The column and key
      folds and the lemmas about them take it as a parameter and hold for
      any classifier; ImportSpec instantiates it with ClassifyComb. */
  type Classifier = (string, string, Option<Classified>) -> Result<Classified>

  /** What the combination branch promises for one column name. */
  lemma CombCases(name: string, comb: string, prev: Option<Classified>)
    ensures Contains(name, "Control") ==> ClassifyComb(name, comb, prev) == Ok(Classified("Control", Zero, Zero))
    ensures !Contains(name, "Control") && Split(name, " ")[0] == comb && Contains(name, " ") ==>
              var c := ClassifyComb(name, comb, prev);
              (c.Ok? <==> Split(name, " ")[1] != "")
              && (c.Ok? ==> c.value.drug == comb && c.value.dose1 == Zero && c.value.dose2.Parsed?
                            && FirstTwoTokens(name, comb, c.value.dose2.tok))
    ensures !Contains(name, "Control") && !Contains(name, " ") && name == comb ==>
              ClassifyComb(name, comb, prev) == Err(IndexError)
    ensures !Contains(name, "Control") && Split(name, " ")[0] != comb && HasBlank(name) ==>
              ClassifyComb(name, comb, prev) == (if prev.Some? then Ok(prev.value) else Err(NameError))
  {
    SplitFirstTwo(name);
  }

  // ---------------------------------------------------------------------
  // Table operations done by pandas in the source.

  function Pick<T>(xs: seq<T>, idx: seq<nat>): (r: seq<T>)
    requires forall k :: 0 <= k < |idx| ==> idx[k] < |xs|
    ensures |r| == |idx| && forall k :: 0 <= k < |idx| ==> r[k] == xs[idx[k]]
  {
    seq(|idx|, k requires 0 <= k < |idx| => xs[idx[k]])
  }

  function MaxOf(s: seq<real>): (m: real)
    requires |s| > 0
    ensures m in s && forall k :: 0 <= k < |s| ==> s[k] <= m
  {
    if |s| == 1 then s[0]
    else
      var m' := MaxOf(s[..|s| - 1]);
      assert forall k :: 0 <= k < |s| - 1 ==> s[..|s| - 1][k] == s[k];
      if s[|s| - 1] > m' then s[|s| - 1] else m'
  }

  /** Indices r with e[r] == 0 or e[r] == mx, in row order. */
  function KeepRows(e: seq<real>, mx: real, hi: nat): (rows: seq<nat>)
    requires hi <= |e|
    ensures forall k :: 0 <= k < |rows| ==> rows[k] < hi
    ensures forall k, l :: 0 <= k < l < |rows| ==> rows[k] < rows[l]
    ensures forall r :: 0 <= r < hi ==> (r in rows <==> e[r] == 0.0 || e[r] == mx)
  {
    if hi == 0 then []
    else if e[hi - 1] == 0.0 || e[hi - 1] == mx then KeepRows(e, mx, hi - 1) + [hi - 1]
    else KeepRows(e, mx, hi - 1)
  }

  function TakeRows(t: CsvTable, rows: seq<nat>): (r: CsvTable)
    requires WellFormed(t)
    requires forall k :: 0 <= k < |rows| ==> rows[k] < |t.cols[1]|
    ensures WellFormed(r) && r.names == t.names && |r.cols[1]| == |rows|
    ensures forall c, k :: 0 <= c < |t.cols| && 0 <= k < |rows| ==> r.cols[c][k] == t.cols[c][rows[k]]
  {
    CsvTable(t.names, seq(|t.cols|, c requires 0 <= c < |t.cols| => Pick(t.cols[c], rows)))
  }

  /** With interval=False only the rows at Elapsed == 0 and at the largest
      Elapsed are kept, in their order (KeepRows says which); max() of no
      rows raises ValueError. */
  function FilterInterval(t: CsvTable, interval: bool): (r: Result<CsvTable>)
    requires WellFormed(t)
    ensures r.Err? <==> !interval && |t.cols[1]| == 0
    ensures r.Ok? ==> WellFormed(r.value) && r.value.names == t.names
    ensures interval ==> r == Ok(t)
    ensures !interval && r.Ok? ==>
              r.value == TakeRows(t, KeepRows(t.cols[1], MaxOf(t.cols[1]), |t.cols[1]|))
  {
    if interval then Ok(t)
    else if |t.cols[1]| == 0 then Err(ValueError)
    else
      var e := t.cols[1];
      Ok(TakeRows(t, KeepRows(e, MaxOf(e), |e|)))
  }

  /** Without interval every surviving row has Elapsed 0 or the largest
      Elapsed, and every row of the input with either value survives. */
  lemma FilterIntervalSurvivors(t: CsvTable)
    requires WellFormed(t) && |t.cols[1]| > 0
    ensures FilterInterval(t, false).Ok?
    ensures var e, data := t.cols[1], FilterInterval(t, false).value;
            && (forall k :: 0 <= k < |data.cols[1]| ==> data.cols[1][k] == 0.0 || data.cols[1][k] == MaxOf(e))
            && (forall row :: 0 <= row < |e| && (e[row] == 0.0 || e[row] == MaxOf(e)) ==>
                  row in KeepRows(e, MaxOf(e), |e|))
            && |data.cols[1]| == |KeepRows(e, MaxOf(e), |e|)|
  {
    var e := t.cols[1];
    var rows := KeepRows(e, MaxOf(e), |e|);
    var data := FilterInterval(t, false).value;
    forall k | 0 <= k < |data.cols[1]|
      ensures data.cols[1][k] == 0.0 || data.cols[1][k] == MaxOf(e)
    {
      assert data.cols[1][k] == e[rows[k]];
      assert rows[k] in rows;
    }
  }

  function SumAtZero(e: seq<real>, col: seq<real>, hi: nat): real
    requires hi <= |e| == |col|
  {
    if hi == 0 then 0.0
    else SumAtZero(e, col, hi - 1) + (if e[hi - 1] == 0.0 then col[hi - 1] else 0.0)
  }

  function CountAtZero(e: seq<real>, hi: nat): (n: nat)
    requires hi <= |e|
    ensures n == 0 <==> forall r :: 0 <= r < hi ==> e[r] != 0.0
  {
    if hi == 0 then 0
    else CountAtZero(e, hi - 1) + (if e[hi - 1] == 0.0 then 1 else 0)
  }

  /** conv0[col - firstCols]: the mean of column col over the rows at
      Elapsed == 0, NaN when there are none. */
  function ZeroTimeMean(t: CsvTable, c: nat): (r: Num)
    requires WellFormed(t) && c < |t.cols|
    ensures r == NaN <==> forall row :: 0 <= row < |t.cols[1]| ==> t.cols[1][row] != 0.0
  {
    var e := t.cols[1];
    var n := CountAtZero(e, |e|);
    if n == 0 then NaN else Fin(SumAtZero(e, t.cols[c], |e|) / n as real)
  }

  function SumFin(s: seq<Num>): real
  {
    if |s| == 0 then 0.0 else SumFin(s[..|s| - 1]) + (if s[|s| - 1].Fin? then s[|s| - 1].v else 0.0)
  }

  /** np.mean of a list: NaN if it is empty or holds a NaN, otherwise -inf
      if it holds a -inf, otherwise the arithmetic mean. */
  function MeanNum(s: seq<Num>): (r: Num)
    ensures r == NaN <==> |s| == 0 || NaN in s
    ensures r == NegInf <==> |s| > 0 && NaN !in s && NegInf in s
    ensures r.Fin? ==> (forall k :: 0 <= k < |s| ==> s[k].Fin?) && r.v * (|s| as real) == SumFin(s)
  {
    if |s| == 0 || NaN in s then NaN
    else if NegInf in s then NegInf
    else Fin(SumFin(s) / |s| as real)
  }

  /** dataset1["Control"] where dataset1 = dataset.iloc[:, 2:] */
  predicate HasControl(t: CsvTable)
  {
    |t.names| >= 2 && "Control" in t.names[2..]
  }

  /** The columns firstCols <= c < hi that the loop keeps: all of them for
      combination data, the names without "blank" otherwise. */
  function Selected(names: seq<string>, lo: nat, hi: nat, comb: bool): (s: seq<nat>)
    requires lo <= hi <= |names|
    ensures forall k :: 0 <= k < |s| ==> lo <= s[k] < hi
    ensures forall k, l :: 0 <= k < l < |s| ==> s[k] < s[l]
    ensures forall c :: lo <= c < hi ==> (c in s <==> comb || !HasBlank(names[c]))
    decreases hi - lo
  {
    if hi == lo then []
    else
      var s := Selected(names, lo, hi - 1, comb);
      if comb || !HasBlank(names[hi - 1]) then s + [hi - 1] else s
  }

  // ---------------------------------------------------------------------
  // The import as a fold.

  /** The object's attributes that importData sets; timeV and totalCols may
      be absent (hasattr) and conv0 is absent before the first import. */
  datatype Attrs = Attrs(selCols: seq<nat>, condNames: seq<string>, doses: seq<Dose>,
                         drugs: seq<string>, expTable: map<string, seq<real>>,
                         timeV: Option<seq<real>>, totalCols: Option<nat>, conv0: Option<Num>)

  /** Attributes plus importData's locals: selconv0, the drug/dose carried
      between columns, and the columns gathered so far for the current key. */
  datatype Run = Run(selCols: seq<nat>, condNames: seq<string>, doses: seq<Dose>, drugs: seq<string>,
                     selconv0: seq<Num>, expTable: map<string, seq<real>>, timeV: Option<seq<real>>,
                     totalCols: Option<nat>, prev: Option<Classified>, cur: seq<seq<real>>)

  /** The body of `for col in range(firstCols, totalCols)`. */
  function ColumnStep(cls: Classifier, r: Run, key: string, data: CsvTable, col: nat, comb: Option<string>): Result<Run>
    requires WellFormed(data)
  {
    if col >= |data.names| then Err(IndexError)
    else
      var name := data.names[col];
      if comb.Some? then
        match cls(name, comb.value, r.prev)
        case Err(e) => Err(e)
        case Ok(c) =>
          var r1 := r.(prev := Some(c), cur := r.cur + [data.cols[col]]);
          if key == "confl" then
            Ok(r1.(drugs := r.drugs + [c.drug], doses := r.doses + [Pair(c.dose1, c.dose2)],
                   condNames := r.condNames + [name], selCols := r.selCols + [col],
                   selconv0 := r.selconv0 + [ZeroTimeMean(data, col)]))
          else Ok(r1)
      else if HasBlank(name) then Ok(r)
      else
        var (drug, dose) := ClassifySingle(name);
        var r1 := r.(cur := r.cur + [data.cols[col]]);
        if key == "confl" then
          Ok(r1.(drugs := r.drugs + [drug], doses := r.doses + [dose],
                 condNames := r.condNames + [name], selCols := r.selCols + [col],
                 selconv0 := r.selconv0 + [ZeroTimeMean(data, col)]))
        else Ok(r1)
  }

  /** The column loop up to (excluding) column hi. */
  function ColsFold(cls: Classifier, r0: Run, key: string, data: CsvTable, lo: nat, comb: Option<string>, hi: nat): Result<Run>
    requires WellFormed(data) && lo <= hi
    decreases hi - lo
  {
    if hi == lo then Ok(r0)
    else
      match ColsFold(cls, r0, key, data, lo, comb, hi - 1)
      case Err(e) => Err(e)
      case Ok(r) => ColumnStep(cls, r, key, data, hi - 1, comb)
  }

  /** Everything importData does for one key, from reading its file to the
      final reshape of expTable[key]; a missing file is skipped. */
  function FileStep(cls: Classifier, r: Run, key: string, file: Option<CsvTable>, firstCols: nat,
                    comb: Option<string>, interval: bool): Result<Run>
    requires file.Some? ==> WellFormed(file.value)
  {
    if file.None? then Ok(r)
    else if !HasControl(file.value) then Err(KeyError)
    else
      match FilterInterval(file.value, interval)
      case Err(e) => Err(e)
      case Ok(data) =>
        var total := TotalOf(r.totalCols, data);
        var r1 := FileStart(r, data);
        if total < firstCols + 2 then Err(ValueError)
        else
          match ColsFold(cls, r1, key, data, firstCols, comb, total)
          case Err(e) => Err(e)
          case Ok(r2) =>
            if |r2.cur| == 0 then Err(KeyError)   // expTable[key] was never created
            else Ok(r2.(expTable := r2.expTable[key := Flatten(r2.cur)], cur := []))
  }

  function FileOf(files: map<string, CsvTable>, key: string): Option<CsvTable>
  {
    if key in files then Some(files[key]) else None
  }

  predicate FilesOk(files: map<string, CsvTable>)
  {
    forall k :: k in files ==> WellFormed(files[k])
  }

  /** The key loop over the first n keys. */
  function KeysFold(cls: Classifier, r0: Run, files: map<string, CsvTable>, firstCols: nat, comb: Option<string>,
                    interval: bool, n: nat): Result<Run>
    requires FilesOk(files) && n <= |Keys|
  {
    if n == 0 then Ok(r0)
    else
      match KeysFold(cls, r0, files, firstCols, comb, interval, n - 1)
      case Err(e) => Err(e)
      case Ok(r) => FileStep(cls, r, Keys[n - 1], FileOf(files, Keys[n - 1]), firstCols, comb, interval)
  }

  function StartRun(a: Attrs): Run
  {
    Run([], [], [], [], [], map[], a.timeV, a.totalCols, None, [])
  }

  function Finish(r: Run): Attrs
  {
    Attrs(r.selCols, r.condNames, r.doses, r.drugs, r.expTable, r.timeV, r.totalCols, Some(MeanNum(r.selconv0)))
  }

  /** importData(firstCols, comb, interval) applied to attributes `a`,
      classifying combination columns with cls. */
  function ImportWith(cls: Classifier, a: Attrs, files: map<string, CsvTable>, firstCols: nat, comb: Option<string>,
                      interval: bool): Result<Attrs>
    requires FilesOk(files)
  {
    match KeysFold(cls, StartRun(a), files, firstCols, comb, interval, |Keys|)
    case Err(e) => Err(e)
    case Ok(r) => Ok(Finish(r))
  }
  /** importData(firstCols, comb, interval) applied to attributes `a`. */
  function ImportSpec(a: Attrs, files: map<string, CsvTable>, firstCols: nat, comb: Option<string>,
                      interval: bool): Result<Attrs>
    requires FilesOk(files)
  {
    ImportWith(ClassifyComb, a, files, firstCols, comb, interval)
  }


  // ---------------------------------------------------------------------
  // What the column loop produces.

  function Means(data: CsvTable, sel: seq<nat>): (r: seq<Num>)
    requires WellFormed(data) && forall k :: 0 <= k < |sel| ==> sel[k] < |data.cols|
    ensures |r| == |sel| && forall k :: 0 <= k < |sel| ==> r[k] == ZeroTimeMean(data, sel[k])
  {
    seq(|sel|, k requires 0 <= k < |sel| => ZeroTimeMean(data, sel[k]))
  }

  predicate Indices(sel: seq<nat>, n: nat)
  {
    forall k :: 0 <= k < |sel| ==> sel[k] < n
  }

  lemma PickAppend<T>(xs: seq<T>, a: seq<nat>, b: seq<nat>)
    requires Indices(a, |xs|) && Indices(b, |xs|)
    ensures Indices(a + b, |xs|) && Pick(xs, a + b) == Pick(xs, a) + Pick(xs, b)
  {
    assert Indices(a + b, |xs|) by {
      forall k | 0 <= k < |a + b| ensures (a + b)[k] < |xs| {
        if k >= |a| { assert (a + b)[k] == b[k - |a|]; }
      }
    }
  }

  lemma MeansAppend(data: CsvTable, a: seq<nat>, b: seq<nat>)
    requires WellFormed(data) && Indices(a, |data.cols|) && Indices(b, |data.cols|)
    ensures Indices(a + b, |data.cols|) && Means(data, a + b) == Means(data, a) + Means(data, b)
  {
    PickAppend(data.cols, a, b);
  }

  /** r is r0 after the columns sel of data were gathered for key: each one
      is appended to the current expTable list and, for "confl" only, its
      index, name and zero-time mean are appended to the object's lists. */
  predicate Appended(r0: Run, r: Run, key: string, data: CsvTable, sel: seq<nat>)
    requires WellFormed(data) && Indices(sel, |data.cols|)
  {
    && r.cur == r0.cur + Pick(data.cols, sel)
    && r.expTable == r0.expTable && r.timeV == r0.timeV && r.totalCols == r0.totalCols
    && ListsAppended(r0, r, key, data, sel)
  }

  /** The object's lists after the columns sel of data were gathered for key. */
  predicate ListsAppended(r0: Run, r: Run, key: string, data: CsvTable, sel: seq<nat>)
    requires WellFormed(data) && Indices(sel, |data.cols|)
  {
    if key == "confl" then
         && r.selCols == r0.selCols + sel && r.condNames == r0.condNames + Pick(data.names, sel)
         && |r.drugs| == |r0.drugs| + |sel| && |r.doses| == |r0.doses| + |sel|
         && r.selconv0 == r0.selconv0 + Means(data, sel)
       else
         && r.selCols == r0.selCols && r.condNames == r0.condNames && r.doses == r0.doses
         && r.drugs == r0.drugs && r.selconv0 == r0.selconv0
  }

  lemma ListsAppendedTrans(r0: Run, r1: Run, r2: Run, key: string, data: CsvTable, a: seq<nat>, b: seq<nat>)
    requires WellFormed(data) && Indices(a, |data.cols|) && Indices(b, |data.cols|)
    requires ListsAppended(r0, r1, key, data, a) && ListsAppended(r1, r2, key, data, b)
    ensures Indices(a + b, |data.cols|) && ListsAppended(r0, r2, key, data, a + b)
  {
    PickAppend(data.names, a, b);
    if key == "confl" {
      MeansAppend(data, a, b);
      assert r2.selCols == r0.selCols + (a + b);
      assert r2.condNames == r0.condNames + Pick(data.names, a + b);
      assert r2.selconv0 == r0.selconv0 + Means(data, a + b);
    }
  }

  lemma AppendedTrans(r0: Run, r1: Run, r2: Run, key: string, data: CsvTable, a: seq<nat>, b: seq<nat>)
    requires WellFormed(data) && Indices(a, |data.cols|) && Indices(b, |data.cols|)
    requires Appended(r0, r1, key, data, a) && Appended(r1, r2, key, data, b)
    ensures Indices(a + b, |data.cols|) && Appended(r0, r2, key, data, a + b)
  {
    PickAppend(data.cols, a, b);
    ListsAppendedTrans(r0, r1, r2, key, data, a, b);
  }

  /** One column: it is gathered exactly when the data are combination data
      or its name has no "blank". */
  lemma ColumnStepFacts(cls: Classifier, r: Run, r': Run, key: string, data: CsvTable, col: nat, comb: Option<string>)
    returns (keep: seq<nat>)
    requires WellFormed(data) && ColumnStep(cls, r, key, data, col, comb) == Ok(r')
    ensures col < |data.names|
    ensures keep == if comb.Some? || !HasBlank(data.names[col]) then [col] else []
    ensures Indices(keep, |data.cols|) && Appended(r, r', key, data, keep)
  {
    keep := if comb.Some? || !HasBlank(data.names[col]) then [col] else [];
    assert Pick(data.cols, keep) == if keep == [] then [] else [data.cols[col]];
    assert Pick(data.names, keep) == if keep == [] then [] else [data.names[col]];
    assert Means(data, keep) == if keep == [] then [] else [ZeroTimeMean(data, col)];
  }

  /** One more column of the loop is one more ColumnStep. */
  lemma ColsFoldUnfold(cls: Classifier, r0: Run, key: string, data: CsvTable, lo: nat, comb: Option<string>, hi: nat)
    returns (rp: Run, r: Run)
    requires WellFormed(data) && lo < hi && ColsFold(cls, r0, key, data, lo, comb, hi).Ok?
    ensures ColsFold(cls, r0, key, data, lo, comb, hi - 1) == Ok(rp)
    ensures ColsFold(cls, r0, key, data, lo, comb, hi) == Ok(r)
    ensures ColumnStep(cls, rp, key, data, hi - 1, comb) == Ok(r)
  {
    rp := ColsFold(cls, r0, key, data, lo, comb, hi - 1).value;
    r := ColsFold(cls, r0, key, data, lo, comb, hi).value;
  }

  /** Selecting up to hi is selecting up to hi - 1, then column hi - 1 if kept. */
  lemma SelectedStep(names: seq<string>, lo: nat, hi: nat, comb: bool)
    requires lo < hi <= |names|
    ensures Selected(names, lo, hi, comb)
              == Selected(names, lo, hi - 1, comb) + if comb || !HasBlank(names[hi - 1]) then [hi - 1] else []
  {
  }

  /** The inductive step of ColsFoldFacts. */
  lemma ColsFoldFactsStep(cls: Classifier, r0: Run, rp: Run, r: Run, key: string, data: CsvTable, lo: nat, comb: Option<string>, hi: nat)
    requires WellFormed(data) && lo < hi <= |data.names|
    requires ColumnStep(cls, rp, key, data, hi - 1, comb) == Ok(r)
    requires Appended(r0, rp, key, data, Selected(data.names, lo, hi - 1, comb.Some?))
    ensures Appended(r0, r, key, data, Selected(data.names, lo, hi, comb.Some?))
  {
    var keep := ColumnStepFacts(cls, rp, r, key, data, hi - 1, comb);
    var sp := Selected(data.names, lo, hi - 1, comb.Some?);
    AppendedTrans(r0, rp, r, key, data, sp, keep);
    SelectedStep(data.names, lo, hi, comb.Some?);
  }

  /** Gathering no column changes nothing. */
  lemma AppendedNone(r0: Run, key: string, data: CsvTable)
    requires WellFormed(data)
    ensures Appended(r0, r0, key, data, [])
  {
    assert Pick(data.cols, []) == [] && Pick(data.names, []) == [] && Means(data, []) == [];
  }

  /** The column loop gathers exactly the Selected columns, in order. */
  lemma {:induction false} ColsFoldFacts(cls: Classifier, r0: Run, key: string, data: CsvTable, lo: nat, comb: Option<string>, hi: nat)
    requires WellFormed(data) && lo <= hi && ColsFold(cls, r0, key, data, lo, comb, hi).Ok?
    ensures lo < hi ==> hi <= |data.names|
    ensures hi <= |data.names| ==>
              Appended(r0, ColsFold(cls, r0, key, data, lo, comb, hi).value, key, data, Selected(data.names, lo, hi, comb.Some?))
    decreases hi - lo
  {
    if hi == lo {
      AppendedNone(r0, key, data);
    } else {
      var rp, r := ColsFoldUnfold(cls, r0, key, data, lo, comb, hi);
      ColsFoldFacts(cls, r0, key, data, lo, comb, hi - 1);
      var _ := ColumnStepFacts(cls, rp, r, key, data, hi - 1, comb);
      ColsFoldFactsStep(cls, r0, rp, r, key, data, lo, comb, hi);
    }
  }

  /** One "confl" column of plain data. */
  lemma SingleStep(cls: Classifier, r: Run, data: CsvTable, col: nat)
    requires WellFormed(data) && ColumnStep(cls, r, "confl", data, col, None).Ok?
    ensures col < |data.names|
    ensures var r' := ColumnStep(cls, r, "confl", data, col, None).value;
            var name := data.names[col];
            if HasBlank(name) then r'.drugs == r.drugs && r'.doses == r.doses && r'.condNames == r.condNames
            else r'.drugs == r.drugs + [ClassifySingle(name).0] && r'.doses == r.doses + [ClassifySingle(name).1]
                 && r'.condNames == r.condNames + [name]
  {
  }

  /** The lists of r0 extended by the plain-data classification of new names. */
  predicate SinglesFrom(r0: Run, r: Run)
  {
    && |r.drugs| == |r.doses| == |r.condNames| >= |r0.drugs|
    && r.drugs[..|r0.drugs|] == r0.drugs && r.doses[..|r0.drugs|] == r0.doses
    && r.condNames[..|r0.drugs|] == r0.condNames
    && forall i :: |r0.drugs| <= i < |r.drugs| ==> (r.drugs[i], r.doses[i]) == ClassifySingle(r.condNames[i])
  }

  lemma SinglesStep(cls: Classifier, r0: Run, rp: Run, r: Run, data: CsvTable, col: nat)
    requires WellFormed(data) && ColumnStep(cls, rp, "confl", data, col, None) == Ok(r)
    requires SinglesFrom(r0, rp)
    ensures SinglesFrom(r0, r)
  {
    SingleStep(cls, rp, data, col);
    var n := |rp.drugs|;
    var m := |r0.drugs|;
    assert r.drugs[..n] == rp.drugs && r.doses[..n] == rp.doses && r.condNames[..n] == rp.condNames;
    assert r.drugs[..m] == r.drugs[..n][..m] && r.doses[..m] == r.doses[..n][..m];
    assert r.condNames[..m] == r.condNames[..n][..m];
    forall i | m <= i < |r.drugs|
      ensures (r.drugs[i], r.doses[i]) == ClassifySingle(r.condNames[i])
    {
      if i < n {
        assert r.drugs[i] == rp.drugs[i] && r.doses[i] == rp.doses[i] && r.condNames[i] == rp.condNames[i];
      }
    }
  }

  /** Plain data: each appended entry is the classification of its name. */
  lemma {:induction false} ColsFoldSingle(cls: Classifier, r0: Run, data: CsvTable, lo: nat, hi: nat)
    requires WellFormed(data) && lo <= hi && ColsFold(cls, r0, "confl", data, lo, None, hi).Ok?
    requires |r0.drugs| == |r0.doses| == |r0.condNames|
    ensures SinglesFrom(r0, ColsFold(cls, r0, "confl", data, lo, None, hi).value)
    decreases hi - lo
  {
    if hi == lo {
      SinglesRefl(r0);
    } else {
      var rp, r := ColsFoldUnfold(cls, r0, "confl", data, lo, None, hi);
      ColsFoldSingle(cls, r0, data, lo, hi - 1);
      SinglesStep(cls, r0, rp, r, data, hi - 1);
    }
  }

  /** The last classification, or `prev` when there is none yet. */
  function LastOr(es: seq<Classified>, prev: Option<Classified>): Option<Classified>
  {
    if |es| == 0 then prev else Some(es[|es| - 1])
  }

  /** Combination data: the names classified in order, each given the
      drug/dose left by the one before it (prev for the first). */
  function CombChain(cls: Classifier, names: seq<string>, cb: string, prev: Option<Classified>): (r: Result<seq<Classified>>)
    ensures r.Ok? ==> |r.value| == |names|
    decreases |names|
  {
    if |names| == 0 then Ok([])
    else
      match CombChain(cls, names[..|names| - 1], cb, prev)
      case Err(e) => Err(e)
      case Ok(es) =>
        match cls(names[|names| - 1], cb, LastOr(es, prev))
        case Err(e) => Err(e)
        case Ok(c) => Ok(es + [c])
  }

  /** Entry i of the chain is ClassifyComb of name i given entry i - 1. */
  lemma {:induction false} CombChainAt(cls: Classifier, names: seq<string>, cb: string, prev: Option<Classified>, i: nat)
    requires CombChain(cls, names, cb, prev).Ok? && i < |names|
    ensures var es := CombChain(cls, names, cb, prev).value;
            cls(names[i], cb, LastOr(es[..i], prev)) == Ok(es[i])
    decreases |names|
  {
    var es := CombChain(cls, names, cb, prev).value;
    var init := names[..|names| - 1];
    var es' := CombChain(cls, init, cb, prev).value;
    assert es == es' + [es[|es| - 1]];
    if i < |names| - 1 {
      CombChainAt(cls, init, cb, prev, i);
      assert es[..i] == es'[..i] && init[i] == names[i];
    } else {
      assert es[..i] == es';
    }
  }

  /** The lists of r0 extended by the combination chain of the new names. */
  predicate CombsFrom(cls: Classifier, r0: Run, r: Run, cb: string)
  {
    var m := |r0.drugs|;
    && |r.drugs| == |r.doses| == |r.condNames| >= m
    && r.drugs[..m] == r0.drugs && r.doses[..m] == r0.doses && r.condNames[..m] == r0.condNames
    && CombChain(cls, r.condNames[m..], cb, r0.prev).Ok?
    && var es := CombChain(cls, r.condNames[m..], cb, r0.prev).value;
       && (forall k :: 0 <= k < |es| ==>
             r.drugs[m + k] == es[k].drug && r.doses[m + k] == Pair(es[k].dose1, es[k].dose2))
       && r.prev == LastOr(es, r0.prev)
  }

  /** One "confl" column of combination data: its classification c. */
  lemma CombStep(cls: Classifier, rp: Run, r: Run, data: CsvTable, col: nat, cb: string) returns (c: Classified)
    requires WellFormed(data) && ColumnStep(cls, rp, "confl", data, col, Some(cb)) == Ok(r)
    ensures col < |data.names| && cls(data.names[col], cb, rp.prev) == Ok(c) && r.prev == Some(c)
    ensures r.drugs == rp.drugs + [c.drug] && r.doses == rp.doses + [Pair(c.dose1, c.dose2)]
    ensures r.condNames == rp.condNames + [data.names[col]]
  {
    c := cls(data.names[col], cb, rp.prev).value;
  }

  lemma CombsStep(cls: Classifier, r0: Run, rp: Run, r: Run, name: string, c: Classified, cb: string)
    requires cls(name, cb, rp.prev) == Ok(c) && r.prev == Some(c)
    requires r.drugs == rp.drugs + [c.drug] && r.doses == rp.doses + [Pair(c.dose1, c.dose2)]
    requires r.condNames == rp.condNames + [name]
    requires CombsFrom(cls, r0, rp, cb)
    ensures CombsFrom(cls, r0, r, cb)
  {
    var m := |r0.drugs|;
    var n := |rp.drugs|;
    var names := r.condNames[m..];
    assert names[..|names| - 1] == rp.condNames[m..] && names[|names| - 1] == name;
    var es := CombChain(cls, rp.condNames[m..], cb, r0.prev).value;
    assert CombChain(cls, names, cb, r0.prev) == Ok(es + [c]);
    assert r.drugs[..n] == rp.drugs && r.doses[..n] == rp.doses && r.condNames[..n] == rp.condNames;
    assert r.drugs[..m] == r.drugs[..n][..m] && r.doses[..m] == r.doses[..n][..m];
    assert r.condNames[..m] == r.condNames[..n][..m];
  }

  lemma ColsFoldCombStep(cls: Classifier, r0: Run, rp: Run, r: Run, data: CsvTable, col: nat, cb: string)
    requires WellFormed(data) && ColumnStep(cls, rp, "confl", data, col, Some(cb)) == Ok(r)
    requires CombsFrom(cls, r0, rp, cb)
    ensures CombsFrom(cls, r0, r, cb)
  {
    var c := CombStep(cls, rp, r, data, col, cb);
    CombsStep(cls, r0, rp, r, data.names[col], c, cb);
  }

  /** Combination data: the new entries are the chain classification of
      the new names, and the carried drug/dose is the last of them. */
  lemma {:induction false} ColsFoldComb(cls: Classifier, r0: Run, data: CsvTable, lo: nat, cb: string, hi: nat)
    requires WellFormed(data) && lo <= hi && ColsFold(cls, r0, "confl", data, lo, Some(cb), hi).Ok?
    requires |r0.drugs| == |r0.doses| == |r0.condNames|
    ensures CombsFrom(cls, r0, ColsFold(cls, r0, "confl", data, lo, Some(cb), hi).value, cb)
    decreases hi - lo
  {
    if hi == lo {
      CombsRefl(cls, r0, cb);
    } else {
      var rp, r := ColsFoldUnfold(cls, r0, "confl", data, lo, Some(cb), hi);
      ColsFoldComb(cls, r0, data, lo, cb, hi - 1);
      ColsFoldCombStep(cls, r0, rp, r, data, hi - 1, cb);
    }
  }

  // ---------------------------------------------------------------------
  // One file, then the three keys.

  /** totalCols as the file sets it: the earlier value if there is one. */
  function TotalOf(prior: Option<nat>, data: CsvTable): nat
  {
    if prior.Some? then prior.value else |data.names|
  }

  /** flat is expTable[key] for file t: the Selected columns of the
      filtered table, laid out column after column. */
  predicate TableOf(t: CsvTable, interval: bool, firstCols: nat, total: nat, comb: bool, flat: seq<real>)
    requires WellFormed(t)
  {
    && HasControl(t) && FilterInterval(t, interval).Ok?
    && var data := FilterInterval(t, interval).value;
       && firstCols + 2 <= total <= |data.names|
       && var sel := Selected(data.names, firstCols, total, comb);
          && |sel| > 0
          && flat == Flatten(Pick(data.cols, sel))
  }

  /** What reading one present file does to the run. */
  predicate FileRead(r: Run, r': Run, key: string, t: CsvTable, firstCols: nat, comb: Option<string>, interval: bool)
    requires WellFormed(t)
  {
    && HasControl(t) && FilterInterval(t, interval).Ok?
    && var data := FilterInterval(t, interval).value;
       var total := TotalOf(r.totalCols, data);
       && firstCols + 2 <= total <= |data.names|
       && var sel := Selected(data.names, firstCols, total, comb.Some?);
          && TableOf(t, interval, firstCols, total, comb.Some?, Flatten(Pick(data.cols, sel)))
          && r'.expTable == r.expTable[key := Flatten(Pick(data.cols, sel))]
          && r'.timeV == Some(data.cols[1]) && r'.totalCols == Some(total) && r'.cur == []
          && ListsAppended(r, r', key, data, sel)
  }

  /** The run a present file starts its column loop from. */
  function FileStart(r: Run, data: CsvTable): Run
    requires WellFormed(data)
  {
    r.(timeV := Some(data.cols[1]), totalCols := Some(TotalOf(r.totalCols, data)), cur := [])
  }

  /** A present file that is read without error passes every guard. */
  lemma FileStepUnfold(cls: Classifier, r: Run, key: string, t: CsvTable, firstCols: nat, comb: Option<string>, interval: bool)
    requires WellFormed(t) && FileStep(cls, r, key, Some(t), firstCols, comb, interval).Ok?
    ensures HasControl(t) && FilterInterval(t, interval).Ok?
    ensures var data := FilterInterval(t, interval).value;
            var total := TotalOf(r.totalCols, data);
            && firstCols + 2 <= total
            && ColsFold(cls, FileStart(r, data), key, data, firstCols, comb, total).Ok?
            && var r2 := ColsFold(cls, FileStart(r, data), key, data, firstCols, comb, total).value;
               && |r2.cur| > 0
               && FileStep(cls, r, key, Some(t), firstCols, comb, interval)
                    == Ok(r2.(expTable := r2.expTable[key := Flatten(r2.cur)], cur := []))
  {
  }

  lemma FileStepFacts(cls: Classifier, r: Run, key: string, file: Option<CsvTable>, firstCols: nat, comb: Option<string>, interval: bool)
    requires file.Some? ==> WellFormed(file.value)
    requires FileStep(cls, r, key, file, firstCols, comb, interval).Ok?
    ensures file.None? ==> FileStep(cls, r, key, file, firstCols, comb, interval).value == r
    ensures file.Some? ==> FileRead(r, FileStep(cls, r, key, file, firstCols, comb, interval).value, key, file.value,
                                    firstCols, comb, interval)
  {
    if file.Some? {
      FileStepUnfold(cls, r, key, file.value, firstCols, comb, interval);
      var data := FilterInterval(file.value, interval).value;
      var total := TotalOf(r.totalCols, data);
      var r1 := FileStart(r, data);
      ColsFoldFacts(cls, r1, key, data, firstCols, comb, total);
      var sel := Selected(data.names, firstCols, total, comb.Some?);
      var r2 := ColsFold(cls, r1, key, data, firstCols, comb, total).value;
      assert Appended(r1, r2, key, data, sel);
      assert r2.cur == Pick(data.cols, sel);
      FileReadIntro(r, r1, r2, FileStep(cls, r, key, file, firstCols, comb, interval).value, key, file.value, data,
                    firstCols, comb, interval);
    }
  }

  lemma FileReadIntro(r: Run, r1: Run, r2: Run, r': Run, key: string, t: CsvTable, data: CsvTable,
                      firstCols: nat, comb: Option<string>, interval: bool)
    requires WellFormed(t) && HasControl(t) && FilterInterval(t, interval) == Ok(data)
    requires firstCols + 2 <= TotalOf(r.totalCols, data) <= |data.names|
    requires r1 == FileStart(r, data)
    requires Appended(r1, r2, key, data, Selected(data.names, firstCols, TotalOf(r.totalCols, data), comb.Some?))
    requires |r2.cur| > 0 && r' == r2.(expTable := r2.expTable[key := Flatten(r2.cur)], cur := [])
    ensures FileRead(r, r', key, t, firstCols, comb, interval)
  {
    var sel := Selected(data.names, firstCols, TotalOf(r.totalCols, data), comb.Some?);
    assert r2.cur == Pick(data.cols, sel);
    assert ListsAppended(r1, r2, key, data, sel);
  }

  /** Reading a file keeps the classification pattern of the lists. */
  /** r and r' agree on the lists and on the carried drug/dose. */
  predicate SameHistory(r: Run, r': Run)
  {
    r'.drugs == r.drugs && r'.doses == r.doses && r'.condNames == r.condNames && r'.prev == r.prev
  }

  lemma SinglesFrame(r0: Run, r0': Run, r: Run, r': Run)
    requires SameHistory(r0, r0') && SameHistory(r, r') && SinglesFrom(r0, r)
    ensures SinglesFrom(r0', r')
  {
  }

  lemma CombsFrame(cls: Classifier, r0: Run, r0': Run, r: Run, r': Run, cb: string)
    requires SameHistory(r0, r0') && SameHistory(r, r') && CombsFrom(cls, r0, r, cb)
    ensures CombsFrom(cls, r0', r', cb)
  {
  }

  lemma SinglesRefl(r: Run)
    requires |r.drugs| == |r.doses| == |r.condNames|
    ensures SinglesFrom(r, r)
  {
    assert r.drugs[..|r.drugs|] == r.drugs && r.doses[..|r.drugs|] == r.doses;
    assert r.condNames[..|r.drugs|] == r.condNames;
  }

  lemma CombsRefl(cls: Classifier, r: Run, cb: string)
    requires |r.drugs| == |r.doses| == |r.condNames|
    ensures CombsFrom(cls, r, r, cb)
  {
    SinglesRefl(r);
    assert r.condNames[|r.drugs|..] == [];
  }

  /** A present file's step, as the column loop's result with the table stored. */
  lemma FileStepResult(cls: Classifier, r: Run, t: CsvTable, firstCols: nat, comb: Option<string>, interval: bool)
    returns (r1: Run, r2: Run, total: nat, data: CsvTable)
    requires WellFormed(t) && FileStep(cls, r, "confl", Some(t), firstCols, comb, interval).Ok?
    ensures WellFormed(data) && FilterInterval(t, interval) == Ok(data) && total == TotalOf(r.totalCols, data)
    ensures r1 == FileStart(r, data) && firstCols <= total
    ensures ColsFold(cls, r1, "confl", data, firstCols, comb, total) == Ok(r2)
    ensures SameHistory(r1, r) && SameHistory(r2, FileStep(cls, r, "confl", Some(t), firstCols, comb, interval).value)
  {
    FileStepUnfold(cls, r, "confl", t, firstCols, comb, interval);
    data := FilterInterval(t, interval).value;
    total := TotalOf(r.totalCols, data);
    r1 := FileStart(r, data);
    r2 := ColsFold(cls, r1, "confl", data, firstCols, comb, total).value;
  }

  lemma FileStepSingles(cls: Classifier, r: Run, file: Option<CsvTable>, firstCols: nat, interval: bool)
    requires file.Some? ==> WellFormed(file.value)
    requires FileStep(cls, r, "confl", file, firstCols, None, interval).Ok?
    requires |r.drugs| == |r.doses| == |r.condNames|
    ensures SinglesFrom(r, FileStep(cls, r, "confl", file, firstCols, None, interval).value)
  {
    if file.Some? {
      var r1, r2, total, data := FileStepResult(cls, r, file.value, firstCols, None, interval);
      ColsFoldSingle(cls, r1, data, firstCols, total);
      SinglesFrame(r1, r, r2, FileStep(cls, r, "confl", file, firstCols, None, interval).value);
    } else {
      SinglesRefl(r);
    }
  }

  lemma FileStepCombs(cls: Classifier, r: Run, file: Option<CsvTable>, firstCols: nat, cb: string, interval: bool)
    requires file.Some? ==> WellFormed(file.value)
    requires FileStep(cls, r, "confl", file, firstCols, Some(cb), interval).Ok?
    requires |r.drugs| == |r.doses| == |r.condNames|
    ensures CombsFrom(cls, r, FileStep(cls, r, "confl", file, firstCols, Some(cb), interval).value, cb)
  {
    if file.Some? {
      var r1, r2, total, data := FileStepResult(cls, r, file.value, firstCols, Some(cb), interval);
      ColsFoldComb(cls, r1, data, firstCols, cb, total);
      CombsFrame(cls, r1, r, r2, FileStep(cls, r, "confl", file, firstCols, Some(cb), interval).value, cb);
    } else {
      CombsRefl(cls, r, cb);
    }
  }

  // ---------------------------------------------------------------------
  // The whole import.

  /** The filtered Elapsed column of a file, the value timeV takes from it. */
  function FilteredTime(t: CsvTable, interval: bool): Option<seq<real>>
    requires WellFormed(t)
  {
    match FilterInterval(t, interval)
    case Ok(d) => Some(d.cols[1])
    case Err(_) => None
  }

  /** totalCols after the first n keys: set by the first file present. */
  function TotalUpTo(a: Attrs, files: map<string, CsvTable>, n: nat): Option<nat>
    requires n <= |Keys|
  {
    if n == 0 then a.totalCols
    else
      var p := TotalUpTo(a, files, n - 1);
      if p.Some? then p
      else if Keys[n - 1] in files then Some(|files[Keys[n - 1]].names|)
      else None
  }

  /** timeV after the first n keys: the Elapsed column of the last file present. */
  function TimeUpTo(a: Attrs, files: map<string, CsvTable>, interval: bool, n: nat): Option<seq<real>>
    requires FilesOk(files) && n <= |Keys|
  {
    if n == 0 then a.timeV
    else if Keys[n - 1] in files then FilteredTime(files[Keys[n - 1]], interval)
    else TimeUpTo(a, files, interval, n - 1)
  }

  /** After the first n keys: which tables exist, and what each holds. */
  ghost predicate TablesInv(a: Attrs, files: map<string, CsvTable>, firstCols: nat, comb: bool, interval: bool,
                            n: nat, s: Run)
    requires FilesOk(files) && n <= |Keys|
  {
    && s.totalCols == TotalUpTo(a, files, n)
    && s.timeV == TimeUpTo(a, files, interval, n)
    && TablesPresent(files, n, s.expTable)
    && TablesHold(files, firstCols, comb, interval, s.totalCols, s.expTable)
  }

  ghost predicate TablesPresent(files: map<string, CsvTable>, n: nat, tables: map<string, seq<real>>)
    requires n <= |Keys|
  {
    forall key :: key in tables <==> key in Keys[..n] && key in files
  }

  ghost predicate TablesHold(files: map<string, CsvTable>, firstCols: nat, comb: bool, interval: bool,
                             total: Option<nat>, tables: map<string, seq<real>>)
    requires FilesOk(files)
  {
    forall key :: key in tables ==>
      key in files && total.Some? && TableOf(files[key], interval, firstCols, total.value, comb, tables[key])
  }

  lemma KeysFoldUnfold(cls: Classifier, r0: Run, files: map<string, CsvTable>, firstCols: nat, comb: Option<string>,
                       interval: bool, n: nat)
    returns (s: Run, s': Run)
    requires FilesOk(files) && 0 < n <= |Keys| && KeysFold(cls, r0, files, firstCols, comb, interval, n).Ok?
    ensures KeysFold(cls, r0, files, firstCols, comb, interval, n - 1) == Ok(s)
    ensures KeysFold(cls, r0, files, firstCols, comb, interval, n) == Ok(s')
    ensures FileStep(cls, s, Keys[n - 1], FileOf(files, Keys[n - 1]), firstCols, comb, interval) == Ok(s')
  {
    s := KeysFold(cls, r0, files, firstCols, comb, interval, n - 1).value;
    s' := KeysFold(cls, r0, files, firstCols, comb, interval, n).value;
  }

  /** The three keys are distinct. */
  lemma KeyNotEarlier(n: nat)
    requires n < |Keys|
    ensures Keys[n] !in Keys[..n]
  {
    if n == 1 {
      assert Keys[..1] == ["confl"] && Keys[1][0] != Keys[0][0];
    } else if n == 2 {
      assert Keys[..2] == ["confl", "apop"] && Keys[2][0] != Keys[0][0] && Keys[2][0] != Keys[1][0];
    }
  }

  lemma TablesStep(cls: Classifier, a: Attrs, files: map<string, CsvTable>, firstCols: nat, comb: Option<string>,
                   interval: bool, n: nat, s: Run, s': Run)
    requires FilesOk(files) && n < |Keys| && TablesInv(a, files, firstCols, comb.Some?, interval, n, s)
    requires FileStep(cls, s, Keys[n], FileOf(files, Keys[n]), firstCols, comb, interval) == Ok(s')
    ensures TablesInv(a, files, firstCols, comb.Some?, interval, n + 1, s')
  {
    if Keys[n] in files {
      TablesStepPresent(cls, a, files, firstCols, comb, interval, n, s, s');
    } else {
      TablesStepAbsent(cls, a, files, firstCols, comb, interval, n, s, s');
    }
  }

  /** The step for a key whose file is present: its table is added. */
  lemma TablesStepPresent(cls: Classifier, a: Attrs, files: map<string, CsvTable>, firstCols: nat,
                          comb: Option<string>, interval: bool, n: nat, s: Run, s': Run)
    requires FilesOk(files) && n < |Keys| && Keys[n] in files
    requires TablesInv(a, files, firstCols, comb.Some?, interval, n, s)
    requires FileStep(cls, s, Keys[n], Some(files[Keys[n]]), firstCols, comb, interval) == Ok(s')
    ensures TablesInv(a, files, firstCols, comb.Some?, interval, n + 1, s')
  {
    assert Keys[..n + 1] == Keys[..n] + [Keys[n]];
    KeyNotEarlier(n);
    var data, total, flat := FileStepParts(cls, s, s', Keys[n], files[Keys[n]], firstCols, comb, interval);
    TotalsStep(a, files, interval, n, s.totalCols, data, total);
    TimeStep(a, files, interval, n, data);
    TablesPresentStep(files, n, s.expTable, flat);
    TablesHoldStep(files, firstCols, comb.Some?, interval, s.expTable, s.totalCols, Keys[n], flat, total);
  }

  /** The step for a key whose file is absent: nothing changes. */
  lemma TablesStepAbsent(cls: Classifier, a: Attrs, files: map<string, CsvTable>, firstCols: nat,
                         comb: Option<string>, interval: bool, n: nat, s: Run, s': Run)
    requires FilesOk(files) && n < |Keys| && Keys[n] !in files
    requires TablesInv(a, files, firstCols, comb.Some?, interval, n, s)
    requires FileStep(cls, s, Keys[n], None, firstCols, comb, interval) == Ok(s')
    ensures TablesInv(a, files, firstCols, comb.Some?, interval, n + 1, s')
  {
    assert s' == s;
    assert TotalUpTo(a, files, n + 1) == TotalUpTo(a, files, n);
    assert TimeUpTo(a, files, interval, n + 1) == TimeUpTo(a, files, interval, n);
    TablesPresentSkip(files, n, s.expTable);
  }

  lemma TablesPresentSkip(files: map<string, CsvTable>, n: nat, tables: map<string, seq<real>>)
    requires n < |Keys| && Keys[n] !in files && TablesPresent(files, n, tables)
    ensures TablesPresent(files, n + 1, tables)
  {
    assert Keys[..n + 1] == Keys[..n] + [Keys[n]];
  }

  /** A present file's step, through the facts FileReadParts names. */
  lemma FileStepParts(cls: Classifier, r: Run, r': Run, key: string, t: CsvTable, firstCols: nat,
                      comb: Option<string>, interval: bool)
    returns (data: CsvTable, total: nat, flat: seq<real>)
    requires WellFormed(t) && FileStep(cls, r, key, Some(t), firstCols, comb, interval) == Ok(r')
    ensures FilterInterval(t, interval) == Ok(data) && |data.names| == |t.names|
    ensures total == TotalOf(r.totalCols, data) && TableOf(t, interval, firstCols, total, comb.Some?, flat)
    ensures r'.totalCols == Some(total) && r'.timeV == Some(data.cols[1]) && r'.expTable == r.expTable[key := flat]
  {
    FileStepFacts(cls, r, key, Some(t), firstCols, comb, interval);
    data, total, flat := FileReadParts(r, r', key, t, firstCols, comb, interval);
  }

  /** The facts a FileRead consists of, with its table, width and layout named. */
  lemma FileReadParts(r: Run, r': Run, key: string, t: CsvTable, firstCols: nat, comb: Option<string>, interval: bool)
    returns (data: CsvTable, total: nat, flat: seq<real>)
    requires WellFormed(t) && FileRead(r, r', key, t, firstCols, comb, interval)
    ensures FilterInterval(t, interval) == Ok(data) && |data.names| == |t.names|
    ensures total == TotalOf(r.totalCols, data) && TableOf(t, interval, firstCols, total, comb.Some?, flat)
    ensures r'.totalCols == Some(total) && r'.timeV == Some(data.cols[1]) && r'.expTable == r.expTable[key := flat]
  {
    data := FilterInterval(t, interval).value;
    total := TotalOf(r.totalCols, data);
    flat := Flatten(Pick(data.cols, Selected(data.names, firstCols, total, comb.Some?)));
  }

  lemma TotalsStep(a: Attrs, files: map<string, CsvTable>, interval: bool, n: nat, prior: Option<nat>,
                   data: CsvTable, total: nat)
    requires n < |Keys| && Keys[n] in files && |data.names| == |files[Keys[n]].names|
    requires prior == TotalUpTo(a, files, n) && total == TotalOf(prior, data)
    ensures TotalUpTo(a, files, n + 1) == Some(total)
    ensures prior.Some? ==> prior.value == total
  {
  }

  lemma TimeStep(a: Attrs, files: map<string, CsvTable>, interval: bool, n: nat, data: CsvTable)
    requires FilesOk(files) && n < |Keys| && Keys[n] in files
    requires FilterInterval(files[Keys[n]], interval) == Ok(data)
    ensures TimeUpTo(a, files, interval, n + 1) == Some(data.cols[1])
  {
  }

  lemma TablesPresentStep(files: map<string, CsvTable>, n: nat, tables: map<string, seq<real>>, flat: seq<real>)
    requires n < |Keys| && Keys[n] in files && Keys[..n + 1] == Keys[..n] + [Keys[n]]
    requires TablesPresent(files, n, tables)
    ensures TablesPresent(files, n + 1, tables[Keys[n] := flat])
  {
  }

  /** Adding table `key` with totalCols fixed at total keeps every table described. */
  lemma TablesHoldStep(files: map<string, CsvTable>, firstCols: nat, comb: bool, interval: bool,
                       tables: map<string, seq<real>>, prior: Option<nat>, key: string, flat: seq<real>, total: nat)
    requires FilesOk(files) && key in files && TableOf(files[key], interval, firstCols, total, comb, flat)
    requires prior.Some? ==> prior.value == total
    requires TablesHold(files, firstCols, comb, interval, prior, tables)
    ensures TablesHold(files, firstCols, comb, interval, Some(total), tables[key := flat])
  {
  }

  lemma {:induction false} KeysFoldTables(cls: Classifier, a: Attrs, files: map<string, CsvTable>, firstCols: nat,
                                          comb: Option<string>, interval: bool, n: nat)
    requires FilesOk(files) && n <= |Keys| && KeysFold(cls, StartRun(a), files, firstCols, comb, interval, n).Ok?
    ensures TablesInv(a, files, firstCols, comb.Some?, interval, n,
                      KeysFold(cls, StartRun(a), files, firstCols, comb, interval, n).value)
  {
    if n > 0 {
      var s, s' := KeysFoldUnfold(cls, StartRun(a), files, firstCols, comb, interval, n);
      KeysFoldTables(cls, a, files, firstCols, comb, interval, n - 1);
      TablesStep(cls, a, files, firstCols, comb, interval, n - 1, s, s');
    }
  }

  /** importData resets expTable and then creates one table per file that
      is present, holding that file's selected columns; totalCols is the
      earlier value or the first present file's width, and timeV comes
      from the last present file. */
  lemma ImportTables(cls: Classifier, a: Attrs, files: map<string, CsvTable>, firstCols: nat, comb: Option<string>, interval: bool)
    requires FilesOk(files) && ImportWith(cls, a, files, firstCols, comb, interval).Ok?
    ensures var b := ImportWith(cls, a, files, firstCols, comb, interval).value;
            && b.totalCols == TotalUpTo(a, files, |Keys|)
            && b.timeV == TimeUpTo(a, files, interval, |Keys|)
            && (forall key :: key in b.expTable <==> key in Keys && key in files)
            && (forall key :: key in b.expTable ==>
                  key in files && b.totalCols.Some?
                  && TableOf(files[key], interval, firstCols, b.totalCols.value, comb.Some?, b.expTable[key]))
  {
    KeysFoldTables(cls, a, files, firstCols, comb, interval, |Keys|);
    assert Keys[..|Keys|] == Keys;
  }

  predicate SameLists(r: Run, r': Run)
  {
    r'.selCols == r.selCols && r'.condNames == r.condNames && r'.doses == r.doses
    && r'.drugs == r.drugs && r'.selconv0 == r.selconv0
  }

  /** Only the "confl" file adds to the object's lists. */
  lemma {:induction false} KeysFoldKeepsLists(cls: Classifier, r0: Run, files: map<string, CsvTable>, firstCols: nat,
                                              comb: Option<string>, interval: bool, n: nat)
    requires FilesOk(files) && 1 <= n <= |Keys| && KeysFold(cls, r0, files, firstCols, comb, interval, n).Ok?
    ensures KeysFold(cls, r0, files, firstCols, comb, interval, 1).Ok?
    ensures SameLists(KeysFold(cls, r0, files, firstCols, comb, interval, 1).value,
                      KeysFold(cls, r0, files, firstCols, comb, interval, n).value)
  {
    if n > 1 {
      var s, s' := KeysFoldUnfold(cls, r0, files, firstCols, comb, interval, n);
      KeysFoldKeepsLists(cls, r0, files, firstCols, comb, interval, n - 1);
      KeyNotConfl(n - 1);
      KeepsListsStep(cls, s, s', Keys[n - 1], FileOf(files, Keys[n - 1]), firstCols, comb, interval);
    }
  }

  /** Only the first key is "confl". */
  lemma KeyNotConfl(n: nat)
    requires 0 < n < |Keys|
    ensures Keys[n] != "confl"
  {
    assert Keys[n][0] != 'c';
  }

  /** A key other than "confl" leaves the lists as they were. */
  lemma KeepsListsStep(cls: Classifier, s: Run, s': Run, key: string, file: Option<CsvTable>, firstCols: nat,
                       comb: Option<string>, interval: bool)
    requires file.Some? ==> WellFormed(file.value)
    requires key != "confl" && FileStep(cls, s, key, file, firstCols, comb, interval) == Ok(s')
    ensures SameLists(s, s')
  {
    FileStepFacts(cls, s, key, file, firstCols, comb, interval);
    if file.Some? {
      var data, sel := FileReadLists(s, s', key, file.value, firstCols, comb, interval);
    }
  }

  /** The list part of a FileRead, with its table and selection named. */
  lemma FileReadLists(r: Run, r': Run, key: string, t: CsvTable, firstCols: nat, comb: Option<string>, interval: bool)
    returns (data: CsvTable, sel: seq<nat>)
    requires WellFormed(t) && FileRead(r, r', key, t, firstCols, comb, interval)
    ensures WellFormed(data) && Indices(sel, |data.cols|) && ListsAppended(r, r', key, data, sel)
  {
    data := FilterInterval(t, interval).value;
    sel := Selected(data.names, firstCols, TotalOf(r.totalCols, data), comb.Some?);
  }

  /** The "confl" file's selected columns: their indices, names and the
      mean of their zero-time means. */
  predicate ConflColumns(t: CsvTable, interval: bool, firstCols: nat, total: Option<nat>, comb: bool,
                         selCols: seq<nat>, condNames: seq<string>, conv0: Option<Num>)
    requires WellFormed(t)
  {
    && FilterInterval(t, interval).Ok? && total.Some?
    && var data := FilterInterval(t, interval).value;
       && firstCols <= total.value <= |data.names|
       && var sel := Selected(data.names, firstCols, total.value, comb);
          && selCols == sel && condNames == Pick(data.names, sel)
          && conv0 == Some(MeanNum(Means(data, sel)))
  }

  /** The first key's step is the "confl" file's FileStep. */
  lemma KeysFoldFirst(cls: Classifier, r0: Run, files: map<string, CsvTable>, firstCols: nat, comb: Option<string>, interval: bool)
    requires FilesOk(files)
    ensures KeysFold(cls, r0, files, firstCols, comb, interval, 1)
              == FileStep(cls, r0, "confl", FileOf(files, "confl"), firstCols, comb, interval)
  {
    assert KeysFold(cls, r0, files, firstCols, comb, interval, 0) == Ok(r0);
  }

  /** The lists and selconv0 after the first key, from a present "confl" file. */
  lemma ConflLists(a: Attrs, s1: Run, t: CsvTable, firstCols: nat, comb: Option<string>, interval: bool)
    requires WellFormed(t) && FileRead(StartRun(a), s1, "confl", t, firstCols, comb, interval)
    ensures |s1.drugs| == |s1.doses| == |s1.condNames| == |s1.selCols|
    ensures ConflColumns(t, interval, firstCols, s1.totalCols, comb.Some?, s1.selCols, s1.condNames,
                         Some(MeanNum(s1.selconv0)))
  {
    var data, total, sel := FileReadSelection(StartRun(a), s1, "confl", t, firstCols, comb, interval);
    ListsFromStart(a, s1, data, sel);
  }

  /** A FileRead's table, width and selection, named. */
  lemma FileReadSelection(r: Run, r': Run, key: string, t: CsvTable, firstCols: nat, comb: Option<string>,
                          interval: bool)
    returns (data: CsvTable, total: nat, sel: seq<nat>)
    requires WellFormed(t) && FileRead(r, r', key, t, firstCols, comb, interval)
    ensures FilterInterval(t, interval) == Ok(data) && WellFormed(data) && r'.totalCols == Some(total)
    ensures firstCols + 2 <= total <= |data.names| && sel == Selected(data.names, firstCols, total, comb.Some?)
    ensures Indices(sel, |data.cols|) && ListsAppended(r, r', key, data, sel)
  {
    data := FilterInterval(t, interval).value;
    total := TotalOf(r.totalCols, data);
    sel := Selected(data.names, firstCols, total, comb.Some?);
  }

  /** Appending to the empty lists of the start run gives the appended lists. */
  lemma ListsFromStart(a: Attrs, s1: Run, data: CsvTable, sel: seq<nat>)
    requires WellFormed(data) && Indices(sel, |data.cols|) && ListsAppended(StartRun(a), s1, "confl", data, sel)
    ensures s1.selCols == sel && s1.condNames == Pick(data.names, sel) && s1.selconv0 == Means(data, sel)
    ensures |s1.drugs| == |s1.doses| == |sel|
  {
    assert StartRun(a).selCols == [] && StartRun(a).condNames == [] && StartRun(a).selconv0 == [];
  }

  /** The run after the "confl" key and the final attributes, named. */
  lemma ImportRuns(cls: Classifier, a: Attrs, files: map<string, CsvTable>, firstCols: nat, comb: Option<string>, interval: bool)
    returns (s1: Run, b: Attrs)
    requires FilesOk(files) && ImportWith(cls, a, files, firstCols, comb, interval).Ok?
    ensures KeysFold(cls, StartRun(a), files, firstCols, comb, interval, 1) == Ok(s1)
    ensures FileStep(cls, StartRun(a), "confl", FileOf(files, "confl"), firstCols, comb, interval) == Ok(s1)
    ensures ImportWith(cls, a, files, firstCols, comb, interval) == Ok(b)
    ensures b.selCols == s1.selCols && b.condNames == s1.condNames && b.doses == s1.doses && b.drugs == s1.drugs
    ensures b.conv0 == Some(MeanNum(s1.selconv0)) && b.totalCols == TotalUpTo(a, files, |Keys|)
  {
    var s0 := StartRun(a);
    KeysFoldKeepsLists(cls, s0, files, firstCols, comb, interval, |Keys|);
    KeysFoldTables(cls, a, files, firstCols, comb, interval, |Keys|);
    KeysFoldFirst(cls, s0, files, firstCols, comb, interval);
    s1 := KeysFold(cls, s0, files, firstCols, comb, interval, 1).value;
    b := Finish(KeysFold(cls, s0, files, firstCols, comb, interval, |Keys|).value);
  }

  /** The lists after the whole import are those the "confl" file left. */
  lemma ImportFromConfl(cls: Classifier, a: Attrs, files: map<string, CsvTable>, firstCols: nat, comb: Option<string>, interval: bool)
    requires FilesOk(files) && ImportWith(cls, a, files, firstCols, comb, interval).Ok?
    ensures var s1 := KeysFold(cls, StartRun(a), files, firstCols, comb, interval, 1);
            && s1.Ok?
            && var b := ImportWith(cls, a, files, firstCols, comb, interval).value;
               && b.selCols == s1.value.selCols && b.condNames == s1.value.condNames
               && b.doses == s1.value.doses && b.drugs == s1.value.drugs
               && |b.drugs| == |b.doses| == |b.condNames| == |b.selCols|
               && ("confl" !in files ==> b.selCols == [] && b.condNames == [] && b.drugs == [] && b.doses == []
                                          && b.conv0 == Some(NaN))
               && ("confl" in files ==>
                     ConflColumns(files["confl"], interval, firstCols, b.totalCols, comb.Some?,
                                  b.selCols, b.condNames, b.conv0))
  {
    var s1, b := ImportRuns(cls, a, files, firstCols, comb, interval);
    FileStepFacts(cls, StartRun(a), "confl", FileOf(files, "confl"), firstCols, comb, interval);
    if "confl" in files {
      ConflLists(a, s1, files["confl"], firstCols, comb, interval);
      ConflTotal(a, files, firstCols, comb, interval);
    }
  }

  /** With a "confl" file, totalCols ends as the value that file used. */
  lemma ConflTotal(a: Attrs, files: map<string, CsvTable>, firstCols: nat, comb: Option<string>, interval: bool)
    requires FilesOk(files) && "confl" in files
    ensures TotalUpTo(a, files, |Keys|) == Some(TotalOf(a.totalCols, files["confl"]))
  {
    assert TotalUpTo(a, files, 1) == Some(TotalOf(a.totalCols, files["confl"]));
    assert TotalUpTo(a, files, 2) == TotalUpTo(a, files, 1);
  }

  /** Plain data: the columns kept are those without "blank", and each
      entry is the (drug, dose) its name classifies to. */
  lemma ImportPlain(cls: Classifier, a: Attrs, files: map<string, CsvTable>, firstCols: nat, interval: bool)
    requires FilesOk(files) && ImportWith(cls, a, files, firstCols, None, interval).Ok?
    ensures var b := ImportWith(cls, a, files, firstCols, None, interval).value;
            && |b.drugs| == |b.doses| == |b.condNames| == |b.selCols|
            && (forall i :: 0 <= i < |b.drugs| ==>
                  !HasBlank(b.condNames[i]) && (b.drugs[i], b.doses[i]) == ClassifySingle(b.condNames[i]))
            && ("confl" in files ==>
                  ConflColumns(files["confl"], interval, firstCols, b.totalCols, false, b.selCols, b.condNames, b.conv0))
            && ("confl" !in files ==> b.selCols == [] && b.drugs == [] && b.conv0 == Some(NaN))
  {
    var s1, b := ImportRuns(cls, a, files, firstCols, None, interval);
    FileStepSingles(cls, StartRun(a), FileOf(files, "confl"), firstCols, interval);
    SinglesEntries(StartRun(a), s1, b);
    ImportFromConfl(cls, a, files, firstCols, None, interval);
    if "confl" in files {
      PlainConfl(files["confl"], interval, firstCols, b.totalCols, b.selCols, b.condNames, b.conv0);
    }
  }

  lemma SinglesEntries(r0: Run, s1: Run, b: Attrs)
    requires r0.drugs == [] && SinglesFrom(r0, s1)
    requires b.drugs == s1.drugs && b.doses == s1.doses && b.condNames == s1.condNames
    ensures |b.drugs| == |b.doses| == |b.condNames|
    ensures forall i :: 0 <= i < |b.drugs| ==> (b.drugs[i], b.doses[i]) == ClassifySingle(b.condNames[i])
  {
  }

  /** Plain data keeps no column whose name holds "blank". */
  lemma PlainConfl(t: CsvTable, interval: bool, firstCols: nat, total: Option<nat>,
                   selCols: seq<nat>, condNames: seq<string>, conv0: Option<Num>)
    requires WellFormed(t) && ConflColumns(t, interval, firstCols, total, false, selCols, condNames, conv0)
    ensures forall i :: 0 <= i < |condNames| ==> !HasBlank(condNames[i])
  {
    var data := FilterInterval(t, interval).value;
    forall i | 0 <= i < |condNames| ensures !HasBlank(condNames[i]) {
      assert condNames[i] == data.names[selCols[i]];
    }
  }

  /** Combination data: every column from firstCols on is kept, and the
      entries are the chain classification of the names, in order. */
  lemma ImportComb(cls: Classifier, a: Attrs, files: map<string, CsvTable>, firstCols: nat, cb: string, interval: bool)
    requires FilesOk(files) && ImportWith(cls, a, files, firstCols, Some(cb), interval).Ok?
    ensures var b := ImportWith(cls, a, files, firstCols, Some(cb), interval).value;
            && |b.drugs| == |b.doses| == |b.condNames| == |b.selCols|
            && CombChain(cls, b.condNames, cb, None).Ok?
            && (var es := CombChain(cls, b.condNames, cb, None).value;
                forall i :: 0 <= i < |es| ==> b.drugs[i] == es[i].drug && b.doses[i] == Pair(es[i].dose1, es[i].dose2))
            && ("confl" in files ==>
                  ConflColumns(files["confl"], interval, firstCols, b.totalCols, true, b.selCols, b.condNames, b.conv0)
                  && b.selCols == Range(firstCols, b.totalCols.value))
            && ("confl" !in files ==> b.selCols == [] && b.drugs == [] && b.conv0 == Some(NaN))
  {
    var s1, b := ImportRuns(cls, a, files, firstCols, Some(cb), interval);
    FileStepCombs(cls, StartRun(a), FileOf(files, "confl"), firstCols, cb, interval);
    CombEntries(cls, StartRun(a), s1, b, cb);
    ImportFromConfl(cls, a, files, firstCols, Some(cb), interval);
    if "confl" in files {
      CombConfl(files["confl"], interval, firstCols, b.totalCols, b.selCols, b.condNames, b.conv0);
    }
  }

  lemma CombEntries(cls: Classifier, r0: Run, s1: Run, b: Attrs, cb: string)
    requires r0.drugs == [] && r0.prev == None && CombsFrom(cls, r0, s1, cb)
    requires b.drugs == s1.drugs && b.doses == s1.doses && b.condNames == s1.condNames
    ensures |b.drugs| == |b.doses| == |b.condNames|
    ensures CombChain(cls, b.condNames, cb, None).Ok?
    ensures var es := CombChain(cls, b.condNames, cb, None).value;
            forall i :: 0 <= i < |es| ==> b.drugs[i] == es[i].drug && b.doses[i] == Pair(es[i].dose1, es[i].dose2)
  {
    var es := CombsChainFrom(cls, r0, s1, cb);
  }

  /** The chain when the lists start empty, named. */
  lemma CombsChainFrom(cls: Classifier, r0: Run, s1: Run, cb: string) returns (es: seq<Classified>)
    requires r0.drugs == [] && r0.prev == None && CombsFrom(cls, r0, s1, cb)
    ensures |s1.drugs| == |s1.doses| == |s1.condNames| == |es|
    ensures CombChain(cls, s1.condNames, cb, None) == Ok(es)
    ensures forall i :: 0 <= i < |es| ==> s1.drugs[i] == es[i].drug && s1.doses[i] == Pair(es[i].dose1, es[i].dose2)
  {
    assert s1.condNames[|r0.drugs|..] == s1.condNames;
    es := CombChain(cls, s1.condNames, cb, None).value;
    forall i | 0 <= i < |es|
      ensures s1.drugs[i] == es[i].drug && s1.doses[i] == Pair(es[i].dose1, es[i].dose2)
    {
      assert s1.drugs[|r0.drugs| + i] == es[i].drug;
    }
  }

  /** Combination data keeps every column from firstCols to totalCols. */
  lemma CombConfl(t: CsvTable, interval: bool, firstCols: nat, total: Option<nat>,
                  selCols: seq<nat>, condNames: seq<string>, conv0: Option<Num>)
    requires WellFormed(t) && ConflColumns(t, interval, firstCols, total, true, selCols, condNames, conv0)
    ensures total.Some? && firstCols <= total.value && selCols == Range(firstCols, total.value)
  {
    SelectedAll(FilterInterval(t, interval).value.names, firstCols, total.value);
  }

  function Range(lo: nat, hi: nat): (r: seq<nat>)
    requires lo <= hi
    ensures |r| == hi - lo && forall k :: 0 <= k < |r| ==> r[k] == lo + k
  {
    seq(hi - lo, k requires 0 <= k < hi - lo => lo + k)
  }

  /** With combination data no column is skipped. */
  lemma {:induction false} SelectedAll(names: seq<string>, lo: nat, hi: nat)
    requires lo <= hi <= |names|
    ensures Selected(names, lo, hi, true) == Range(lo, hi)
    decreases hi - lo
  {
    if hi > lo {
      SelectedAll(names, lo, hi - 1);
      assert Range(lo, hi) == Range(lo, hi - 1) + [hi - 1];
    }
  }

  // ---------------------------------------------------------------------
  // Errors: the first failing step decides the outcome.

  /** Once the column loop has failed, later columns do not change the error. */
  lemma {:induction false} ColsFoldFail(cls: Classifier, r0: Run, key: string, data: CsvTable, lo: nat,
                                        comb: Option<string>, m: nat, hi: nat)
    requires WellFormed(data) && lo <= m <= hi && ColsFold(cls, r0, key, data, lo, comb, m).Err?
    ensures ColsFold(cls, r0, key, data, lo, comb, hi) == ColsFold(cls, r0, key, data, lo, comb, m)
    decreases hi - m
  {
    if m < hi {
      ColsFoldFailNext(cls, r0, key, data, lo, comb, m);
      ColsFoldFail(cls, r0, key, data, lo, comb, m + 1, hi);
    }
  }

  lemma ColsFoldFailNext(cls: Classifier, r0: Run, key: string, data: CsvTable, lo: nat, comb: Option<string>, m: nat)
    requires WellFormed(data) && lo <= m && ColsFold(cls, r0, key, data, lo, comb, m).Err?
    ensures ColsFold(cls, r0, key, data, lo, comb, m + 1) == ColsFold(cls, r0, key, data, lo, comb, m)
  {
  }

  /** One more column, when the loop so far has succeeded. */
  lemma ColsFoldNext(cls: Classifier, r0: Run, key: string, data: CsvTable, lo: nat, comb: Option<string>, m: nat, r: Run)
    requires WellFormed(data) && lo <= m && ColsFold(cls, r0, key, data, lo, comb, m) == Ok(r)
    ensures ColsFold(cls, r0, key, data, lo, comb, m + 1) == ColumnStep(cls, r, key, data, m, comb)
  {
  }

  /** Once the key loop has failed, later keys do not change the error. */
  lemma {:induction false} KeysFoldFail(cls: Classifier, r0: Run, files: map<string, CsvTable>, firstCols: nat,
                                        comb: Option<string>, interval: bool, m: nat, n: nat)
    requires FilesOk(files) && m <= n <= |Keys| && KeysFold(cls, r0, files, firstCols, comb, interval, m).Err?
    ensures KeysFold(cls, r0, files, firstCols, comb, interval, n) == KeysFold(cls, r0, files, firstCols, comb, interval, m)
    decreases n - m
  {
    if m < n {
      KeysFoldFailNext(cls, r0, files, firstCols, comb, interval, m);
      KeysFoldFail(cls, r0, files, firstCols, comb, interval, m + 1, n);
    }
  }

  lemma KeysFoldFailNext(cls: Classifier, r0: Run, files: map<string, CsvTable>, firstCols: nat,
                         comb: Option<string>, interval: bool, m: nat)
    requires FilesOk(files) && m < |Keys| && KeysFold(cls, r0, files, firstCols, comb, interval, m).Err?
    ensures KeysFold(cls, r0, files, firstCols, comb, interval, m + 1) == KeysFold(cls, r0, files, firstCols, comb, interval, m)
  {
  }

  /** One more key, when the loop so far has succeeded. */
  lemma KeysFoldNext(cls: Classifier, r0: Run, files: map<string, CsvTable>, firstCols: nat,
                     comb: Option<string>, interval: bool, m: nat, r: Run)
    requires FilesOk(files) && m < |Keys| && KeysFold(cls, r0, files, firstCols, comb, interval, m) == Ok(r)
    ensures KeysFold(cls, r0, files, firstCols, comb, interval, m + 1)
              == FileStep(cls, r, Keys[m], FileOf(files, Keys[m]), firstCols, comb, interval)
  {
  }

  /** A key whose step fails makes the whole import fail with its error. */
  lemma ImportFailsAt(cls: Classifier, a: Attrs, files: map<string, CsvTable>, firstCols: nat, comb: Option<string>,
                      interval: bool, m: nat, r: Run, e: Error)
    requires FilesOk(files) && m < |Keys| && KeysFold(cls, StartRun(a), files, firstCols, comb, interval, m) == Ok(r)
    requires FileStep(cls, r, Keys[m], FileOf(files, Keys[m]), firstCols, comb, interval) == Err(e)
    ensures ImportWith(cls, a, files, firstCols, comb, interval) == Err(e)
  {
    KeysFoldNext(cls, StartRun(a), files, firstCols, comb, interval, m, r);
    KeysFoldFail(cls, StartRun(a), files, firstCols, comb, interval, m + 1, |Keys|);
  }

  /** dataset1["Control"] on a confluence file without a Control column
      raises KeyError, so the import fails. */
  lemma ImportNoControl(a: Attrs, files: map<string, CsvTable>, firstCols: nat, comb: Option<string>, interval: bool)
    requires FilesOk(files) && "confl" in files && !HasControl(files["confl"])
    ensures ImportSpec(a, files, firstCols, comb, interval) == Err(KeyError)
  {
    ImportFailsAt(ClassifyComb, a, files, firstCols, comb, interval, 0, StartRun(a), KeyError);
  }

  /** A confluence file with fewer than firstCols + 2 columns (when no
      earlier import fixed totalCols) raises ValueError. */
  lemma ImportTooFewColumns(a: Attrs, files: map<string, CsvTable>, firstCols: nat, comb: Option<string>, interval: bool)
    requires FilesOk(files) && a.totalCols == None && "confl" in files && HasControl(files["confl"])
    requires (interval || |files["confl"].cols[1]| > 0) && |files["confl"].names| < firstCols + 2
    ensures ImportSpec(a, files, firstCols, comb, interval) == Err(ValueError)
  {
    ImportFailsAt(ClassifyComb, a, files, firstCols, comb, interval, 0, StartRun(a), ValueError);
  }

  /** Endpoint filtering of a confluence file with no rows: max() of an
      empty column raises ValueError. */
  lemma ImportNoRows(a: Attrs, files: map<string, CsvTable>, firstCols: nat, comb: Option<string>)
    requires FilesOk(files) && "confl" in files && HasControl(files["confl"]) && |files["confl"].cols[1]| == 0
    ensures ImportSpec(a, files, firstCols, comb, false) == Err(ValueError)
  {
    ImportFailsAt(ClassifyComb, a, files, firstCols, comb, false, 0, StartRun(a), ValueError);
  }

  /** Plain data: the column loop cannot fail once totalCols fits the table. */
  lemma {:induction false} ColsFoldPlainOk(cls: Classifier, r0: Run, key: string, data: CsvTable, lo: nat, hi: nat)
    requires WellFormed(data) && lo <= hi <= |data.names|
    ensures ColsFold(cls, r0, key, data, lo, None, hi).Ok?
    decreases hi - lo
  {
    if hi > lo {
      ColsFoldPlainOk(cls, r0, key, data, lo, hi - 1);
      ColsFoldNext(cls, r0, key, data, lo, None, hi - 1, ColsFold(cls, r0, key, data, lo, None, hi - 1).value);
    }
  }

  /** No column is kept when every name in the range holds "blank". */
  lemma SelectedNone(names: seq<string>, lo: nat, hi: nat)
    requires lo <= hi <= |names| && forall c :: lo <= c < hi ==> HasBlank(names[c])
    ensures Selected(names, lo, hi, false) == []
  {
  }

  /** Plain data whose columns from firstCols on all hold "blank": once the
      Control, filter and width guards pass, expTable never gets the key, so
      the reshape raises KeyError. */
  lemma ImportAllBlank(a: Attrs, files: map<string, CsvTable>, firstCols: nat, interval: bool)
    requires FilesOk(files) && "confl" in files && HasControl(files["confl"])
    requires interval || |files["confl"].cols[1]| > 0
    requires firstCols + 2 <= TotalOf(a.totalCols, files["confl"]) <= |files["confl"].names|
    requires forall c :: firstCols <= c < TotalOf(a.totalCols, files["confl"]) ==> HasBlank(files["confl"].names[c])
    ensures ImportSpec(a, files, firstCols, None, interval) == Err(KeyError)
  {
    var t := files["confl"];
    var data := FilterInterval(t, interval).value;
    var total := TotalOf(a.totalCols, data);
    assert total == TotalOf(a.totalCols, t);
    var r1 := FileStart(StartRun(a), data);
    ColsFoldPlainOk(ClassifyComb, r1, "confl", data, firstCols, total);
    ColsFoldFacts(ClassifyComb, r1, "confl", data, firstCols, None, total);
    SelectedNone(data.names, firstCols, total);
    AllBlankStep(ClassifyComb, StartRun(a), t, data, firstCols, interval);
    ImportFailsAt(ClassifyComb, a, files, firstCols, None, interval, 0, StartRun(a), KeyError);
  }

  lemma AllBlankStep(cls: Classifier, r: Run, t: CsvTable, data: CsvTable, firstCols: nat, interval: bool)
    requires WellFormed(t) && HasControl(t) && FilterInterval(t, interval) == Ok(data)
    requires firstCols + 2 <= TotalOf(r.totalCols, data) && r.cur == []
    requires ColsFold(cls, FileStart(r, data), "confl", data, firstCols, None, TotalOf(r.totalCols, data)).Ok?
    requires ColsFold(cls, FileStart(r, data), "confl", data, firstCols, None, TotalOf(r.totalCols, data)).value.cur == []
    ensures FileStep(cls, r, "confl", Some(t), firstCols, None, interval) == Err(KeyError)
  {
  }

  /** A present file with Control, filterable and wide enough: the step is
      decided by its column loop. */
  lemma FileStepOf(cls: Classifier, r: Run, key: string, t: CsvTable, firstCols: nat, comb: Option<string>,
                   interval: bool, data: CsvTable, res: Result<Run>)
    requires WellFormed(t) && HasControl(t) && FilterInterval(t, interval) == Ok(data)
    requires firstCols + 2 <= TotalOf(r.totalCols, data)
    requires ColsFold(cls, FileStart(r, data), key, data, firstCols, comb, TotalOf(r.totalCols, data)) == res
    ensures FileStep(cls, r, key, Some(t), firstCols, comb, interval)
              == match res
                 case Err(e) => Err(e)
                 case Ok(r2) =>
                   if |r2.cur| == 0 then Err(KeyError)
                   else Ok(r2.(expTable := r2.expTable[key := Flatten(r2.cur)], cur := []))
  {
  }

  /** The guards of a present file, each with the exception it raises. */
  lemma FileStepGuards(cls: Classifier, r: Run, key: string, t: CsvTable, firstCols: nat, comb: Option<string>,
                       interval: bool)
    requires WellFormed(t)
    ensures !HasControl(t) ==> FileStep(cls, r, key, Some(t), firstCols, comb, interval) == Err(KeyError)
    ensures (HasControl(t) && FilterInterval(t, interval).Err?) ==>
              FileStep(cls, r, key, Some(t), firstCols, comb, interval) == Err(FilterInterval(t, interval).error)
    ensures (HasControl(t) && FilterInterval(t, interval).Ok?
             && TotalOf(r.totalCols, FilterInterval(t, interval).value) < firstCols + 2) ==>
              FileStep(cls, r, key, Some(t), firstCols, comb, interval) == Err(ValueError)
  {
  }

  /** Once every key is folded, the import finishes with conv0. */
  lemma ImportDone(cls: Classifier, a: Attrs, files: map<string, CsvTable>, firstCols: nat, comb: Option<string>,
                   interval: bool, r: Run)
    requires FilesOk(files) && KeysFold(cls, StartRun(a), files, firstCols, comb, interval, |Keys|) == Ok(r)
    ensures ImportWith(cls, a, files, firstCols, comb, interval) == Ok(Finish(r))
  {
  }
}
