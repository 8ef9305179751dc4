/** The drug-combination frame of grmodel/interactionData.py: filterDrugC,
    which reads the two doses out of each row's Condition string in place,
    and the steps of dataSplit that follow the pandas groupby.

    A dose is kept as the text the pattern captured (float() is not
    modelled beyond the tokens it refuses), and the grouped table is an
    input: one row per (drugA, drugB, Type) group with its mean Measure at
    each time point. */
module InteractionData {
  import opened Common

  /** A drugA/drugB cell: the initial 0, a captured dose token, or NaN. */
  datatype Dose = Zero | Parsed(token: string) | Missing

  /** The columns of the frame other than Condition, drugA and drugB. */
  datatype Record = Record(elapsed: real, well: int, measure: real, typ: string, drugAmt: string)

  // ---------------------------------------------------------------------
  // The pattern name + " " + (\d*\.?\d*).

  predicate IsDigit(c: char)
  {
    '0' <= c <= '9'
  }

  predicate AllDigits(s: string)
  {
    forall i :: 0 <= i < |s| ==> IsDigit(s[i])
  }

  /** The text t matches \d*\.?\d* as a whole. */
  predicate DosePattern(t: string)
  {
    exists k :: 0 <= k <= |t| && AllDigits(t[..k]) && (k == |t| || (t[k] == '.' && AllDigits(t[k + 1..])))
  }

  /** Length of the run of digits that starts s. */
  function LeadDigits(s: string): (n: nat)
    ensures n <= |s| && AllDigits(s[..n]) && (n == |s| || !IsDigit(s[n]))
  {
    if |s| == 0 || !IsDigit(s[0]) then 0
    else
      var m := LeadDigits(s[1..]);
      assert s[..1 + m] == [s[0]] + s[1..][..m];
      1 + m
  }

  /** The greedy match of \d*\.?\d* at the start of s: digits, then a
      '.' and digits when a '.' follows the first run. */
  function DoseToken(s: string): string
  {
    var a := LeadDigits(s);
    if a < |s| && s[a] == '.' then s[..a + 1 + LeadDigits(s[a + 1..])] else s[..a]
  }

  /** A prefix of s that matches the pattern, split at k, is no longer
      than the greedy token. */
  lemma MatchBounded(s: string, n: nat, k: nat)
    requires n <= |s| && k <= n
    requires AllDigits(s[..n][..k]) && (k == n || (s[k] == '.' && AllDigits(s[..n][k + 1..])))
    ensures n <= |DoseToken(s)|
  {
    var a := LeadDigits(s);
    assert forall i :: 0 <= i < k ==> IsDigit(s[i]) by {
      forall i | 0 <= i < k
        ensures IsDigit(s[i])
      {
        assert s[..n][..k][i] == s[i];
      }
    }
    DigitsRun(s, k);
    if k < n {
      assert k == a;
      var rest := s[a + 1..];
      forall i | 0 <= i < n - a - 1
        ensures IsDigit(rest[i])
      {
        assert rest[i] == s[..n][k + 1..][i];
      }
      DigitsRun(rest, n - a - 1);
    }
  }

  /** A run of k digits at the start of s is no longer than LeadDigits(s). */
  lemma {:induction false} DigitsRun(s: string, k: nat)
    requires k <= |s| && forall i :: 0 <= i < k ==> IsDigit(s[i])
    ensures k <= LeadDigits(s)
  {
    if k > 0 {
      var tail := s[1..];
      forall i | 0 <= i < k - 1
        ensures IsDigit(tail[i])
      {
        assert tail[i] == s[i + 1];
      }
      DigitsRun(tail, k - 1);
    }
  }

  /** No prefix of s longer than the greedy token matches the pattern. */
  lemma NoLongerMatch(s: string, n: nat)
    requires |DoseToken(s)| < n <= |s|
    ensures !DosePattern(s[..n])
  {
    var p := s[..n];
    if k :| 0 <= k <= |p| && AllDigits(p[..k]) && (k == |p| || (p[k] == '.' && AllDigits(p[k + 1..]))) {
      MatchBounded(s, n, k);
    }
  }

  /** The captured group is the longest prefix of the text after the
      match that has the form digits[.digits]. */
  lemma {:induction false} DoseTokenLongest(s: string)
    ensures DoseToken(s) <= s
    ensures DosePattern(DoseToken(s))
    ensures forall n :: |DoseToken(s)| < n <= |s| ==> !DosePattern(s[..n])
  {
    var a := LeadDigits(s);
    var t := DoseToken(s);
    if a < |s| && s[a] == '.' {
      var b := LeadDigits(s[a + 1..]);
      assert t[..a] == s[..a];
      assert t[a + 1..] == s[a + 1..][..b];
      assert AllDigits(t[..a]) && t[a] == '.' && AllDigits(t[a + 1..]);
    } else {
      assert t[..a] == t;
      assert AllDigits(t[..|t|]);
    }
    forall n | |t| < n <= |s|
      ensures !DosePattern(s[..n])
    {
      NoLongerMatch(s, n);
    }
  }

  /** m.group(1) of re.search(name + r" (\d*\.?\d*)", cond): the greedy
      token right after the leftmost occurrence of name + " ". */
  function Match(cond: string, name: string): Option<string>
  {
    match Find(cond, name + " ", 0)
    case None => None
    case Some(i) => Some(DoseToken(cond[i + |name| + 1..]))
  }

  /** float() of a captured token: the pattern can capture "" and ".",
      which float() refuses; every other capture is a decimal literal. */
  function ParseDose(token: string): (r: Result<Dose>)
  {
    if token == "" || token == "." then Err(ValueError) else Ok(Parsed(token))
  }

  /** The value one loop iteration leaves in the cell of one row. */
  function CellResult(cond: string, name: string): Result<Dose>
  {
    match Match(cond, name)
    case None => Ok(Zero)
    case Some(token) => ParseDose(token)
  }

  /** Every row's capture parses. */
  predicate DosesOk(conds: seq<string>, name: string)
  {
    forall k :: 0 <= k < |conds| ==> CellResult(conds[k], name).Ok?
  }

  /** The column a completed loop leaves. */
  function DrugColumn(conds: seq<string>, name: string): (col: seq<Dose>)
    requires DosesOk(conds, name)
    ensures |col| == |conds|
  {
    seq(|conds|, k requires 0 <= k < |conds| && CellResult(conds[k], name).Ok? => CellResult(conds[k], name).value)
  }

  /** The first row whose capture float() refuses, searching from row i. */
  function FirstBad(conds: seq<string>, name: string, i: nat): (j: nat)
    requires i <= |conds| && !DosesOk(conds, name)
    requires forall k :: 0 <= k < i ==> CellResult(conds[k], name).Ok?
    ensures i <= j < |conds| && CellResult(conds[j], name).Err?
    ensures forall k :: 0 <= k < j ==> CellResult(conds[k], name).Ok?
    decreases |conds| - i
  {
    if CellResult(conds[i], name).Err? then i else FirstBad(conds, name, i + 1)
  }

  /** A row that fails after only passing rows is the first failing row. */
  lemma {:induction false} FirstBadAt(conds: seq<string>, name: string, i: nat, j: nat)
    requires i <= j < |conds| && CellResult(conds[j], name).Err?
    requires forall k :: 0 <= k < j ==> CellResult(conds[k], name).Ok?
    ensures !DosesOk(conds, name) && FirstBad(conds, name, i) == j
    decreases j - i
  {
    if i < j {
      FirstBadAt(conds, name, i + 1, j);
    }
  }

  /** The column an interrupted loop leaves: the rows before bad hold their
      parsed doses and the rest still hold 0. */
  function PartialColumn(conds: seq<string>, name: string, bad: nat): (col: seq<Dose>)
    requires bad <= |conds| && forall k :: 0 <= k < bad ==> CellResult(conds[k], name).Ok?
    ensures |col| == |conds|
  {
    seq(|conds|, k requires 0 <= k < |conds| => if k < bad then CellResult(conds[k], name).value else Zero)
  }

  /** df.loc[df["Condition"] == "blank", [...]] = np.nan on one column. */
  function Blanked(col: seq<Dose>, conds: seq<string>): (r: seq<Dose>)
    requires |col| == |conds|
    ensures |r| == |col|
  {
    seq(|col|, k requires 0 <= k < |col| => if conds[k] == "blank" then Missing else col[k])
  }

  /** The cell of a row stays 0 when its condition does not mention
      name + " ", and holds the greedy token after the leftmost mention
      otherwise. */
  lemma MatchLeftmost(cond: string, name: string)
    ensures (Match(cond, name).None?) <==> !Contains(cond, name + " ")
    ensures !Contains(cond, name + " ") ==> CellResult(cond, name) == Ok(Zero)
    ensures forall i: nat :: OccursAt(cond, name + " ", i) && (forall k :: 0 <= k < i ==> !OccursAt(cond, name + " ", k))
              ==> Match(cond, name) == Some(DoseToken(cond[i + |name| + 1..]))
  {
    forall i: nat | OccursAt(cond, name + " ", i) && (forall k :: 0 <= k < i ==> !OccursAt(cond, name + " ", k))
      ensures Match(cond, name) == Some(DoseToken(cond[i + |name| + 1..]))
    {
      var f := Find(cond, name + " ", 0);
      assert f.Some?;
      assert !(f.value < i) && !(i < f.value);
    }
  }

  /** float() raises exactly when the condition mentions name + " " and
      what follows the leftmost mention starts with neither a digit nor
      a '.' followed by a digit. */
  lemma CellFails(cond: string, name: string)
    ensures CellResult(cond, name).Err? <==> Match(cond, name).Some? && Match(cond, name).value in {"", "."}
    ensures CellResult(cond, name).Err? ==> CellResult(cond, name).error == ValueError
    ensures (CellResult(cond, name).Ok? && Match(cond, name).Some?)
              ==> CellResult(cond, name).value == Parsed(Match(cond, name).value)
  {
  }

  /** The finished drug column row by row: NaN for "blank" rows, whatever
      the condition says; otherwise 0 without a mention and the captured
      token with one. */
  lemma {:induction false} FilteredColumnAt(conds: seq<string>, name: string, k: nat)
    requires DosesOk(conds, name) && k < |conds|
    ensures conds[k] == "blank" ==> Blanked(DrugColumn(conds, name), conds)[k] == Missing
    ensures (conds[k] != "blank" && !Contains(conds[k], name + " "))
              ==> Blanked(DrugColumn(conds, name), conds)[k] == Zero
    ensures (conds[k] != "blank" && Contains(conds[k], name + " "))
              ==> Blanked(DrugColumn(conds, name), conds)[k] == Parsed(Match(conds[k], name).value)
  {
    MatchLeftmost(conds[k], name);
  }

  // ---------------------------------------------------------------------
  // dataSplit after the groupby.

  /** One row of dfGrp: its (drugA, drugB, Type) index and the mean
      Measure at each Elapsed value. */
  datatype GroupRow = GroupRow(drugA: real, drugB: real, typ: string, values: seq<real>)

  /** unstack(0) gives every group one value per time point. */
  predicate Unstacked(g: seq<GroupRow>, width: nat)
  {
    forall i :: 0 <= i < |g| ==> |g[i].values| == width
  }

  /** dfGrp.xs(typ, level='Type').values: the rows of that Type, in order. */
  function Xs(g: seq<GroupRow>, typ: string): (m: Matrix)
    ensures |m| <= |g|
  {
    if |g| == 0 then []
    else if g[0].typ == typ then [g[0].values] + Xs(g[1..], typ)
    else Xs(g[1..], typ)
  }

  lemma {:induction false} XsShape(g: seq<GroupRow>, width: nat, typ: string)
    requires Unstacked(g, width)
    ensures IsShape(Xs(g, typ), |Xs(g, typ)|, width)
  {
    if |g| > 0 {
      XsShape(g[1..], width, typ);
    }
  }

  /** m - m[0], numpy broadcasting the first row over all rows. */
  function SubtractFirst(m: Matrix, width: nat): (r: Matrix)
    requires |m| > 0 && IsShape(m, |m|, width)
  {
    seq(|m|, i requires 0 <= i < |m| => seq(width, j requires 0 <= j < width => m[i][j] - m[0][j]))
  }

  /** The tuple dataSplit returns. */
  datatype SplitData = SplitData(x1: seq<real>, x2: seq<real>, timeV: seq<real>,
                                 phase: Matrix, red: Matrix, green: Matrix)

  predicate StrictlyIncreasing(s: seq<real>)
  {
    forall i, j :: 0 <= i < j < |s| ==> s[i] < s[j]
  }

  /** x inserted into a strictly increasing sequence, dropping a repeat. */
  function Insert(x: real, t: seq<real>): seq<real>
  {
    if |t| == 0 then [x]
    else if x < t[0] then [x] + t
    else if x == t[0] then t
    else [t[0]] + Insert(x, t[1..])
  }

  /** np.sort(df.Elapsed.unique()). */
  function SortedUnique(s: seq<real>): seq<real>
  {
    if |s| == 0 then [] else Insert(s[0], SortedUnique(s[1..]))
  }

  lemma ConsIncreasing(h: real, r: seq<real>)
    requires StrictlyIncreasing(r) && forall i :: 0 <= i < |r| ==> h < r[i]
    ensures StrictlyIncreasing([h] + r)
  {
  }

  lemma {:induction false} InsertSpec(x: real, t: seq<real>)
    requires StrictlyIncreasing(t)
    ensures StrictlyIncreasing(Insert(x, t))
    ensures forall v :: v in Insert(x, t) <==> v == x || v in t
  {
    if |t| > 0 && x > t[0] {
      InsertSpec(x, t[1..]);
      var r := Insert(x, t[1..]);
      assert t == [t[0]] + t[1..];
      forall i | 0 <= i < |r|
        ensures t[0] < r[i]
      {
        assert r[i] in r;
        if r[i] != x {
          var j :| 0 <= j < |t| - 1 && t[1..][j] == r[i];
          assert t[j + 1] == r[i];
        }
      }
      ConsIncreasing(t[0], r);
    }
  }

  /** timeV is strictly ascending, so free of repeats, and holds exactly
      the Elapsed values. */
  lemma {:induction false} SortedUniqueSpec(s: seq<real>)
    ensures StrictlyIncreasing(SortedUnique(s))
    ensures forall v :: v in SortedUnique(s) <==> v in s
  {
    if |s| > 0 {
      SortedUniqueSpec(s[1..]);
      InsertSpec(s[0], SortedUnique(s[1..]));
      assert SortedUnique(s) == Insert(s[0], SortedUnique(s[1..]));
      assert s == [s[0]] + s[1..];
    }
  }

  /** dataSplit from the Elapsed column of the cleaned frame and the
      grouped table: xs raises KeyError for a Type with no group; the
      red and green signals are taken relative to their first (control)
      group; the doses are shifted by 0.01; the shapes are asserted equal. */
  function DataSplitOf(elapsed: seq<real>, g: seq<GroupRow>, width: nat): (r: Result<SplitData>)
    requires Unstacked(g, width)
  {
    var phase := Xs(g, "phase");
    var red := Xs(g, "red");
    var green := Xs(g, "green");
    if |phase| == 0 || |red| == 0 || |green| == 0 then Err(KeyError)
    else
      XsShape(g, width, "red");
      XsShape(g, width, "green");
      if |phase| != |red| || |red| != |green| then Err(AssertionError)
      else
        Ok(SplitData(seq(|g|, i requires 0 <= i < |g| => g[i].drugA + 0.01),
                     seq(|g|, i requires 0 <= i < |g| => g[i].drugB + 0.01),
                     SortedUnique(elapsed), phase,
                     SubtractFirst(red, width), SubtractFirst(green, width)))
  }

  /** dataSplit fails with KeyError when a Type has no group and with
      AssertionError when the three signals differ in shape, and succeeds
      otherwise. */
  lemma DataSplitOk(elapsed: seq<real>, g: seq<GroupRow>, width: nat)
    requires Unstacked(g, width)
    ensures DataSplitOf(elapsed, g, width).Err? <==>
              |Xs(g, "phase")| == 0 || |Xs(g, "red")| == 0 || |Xs(g, "green")| == 0
              || |Xs(g, "phase")| != |Xs(g, "red")| || |Xs(g, "red")| != |Xs(g, "green")|
    ensures DataSplitOf(elapsed, g, width).Err? ==>
              DataSplitOf(elapsed, g, width).error
                == if |Xs(g, "phase")| == 0 || |Xs(g, "red")| == 0 || |Xs(g, "green")| == 0
                   then KeyError else AssertionError
  {
  }

  /** On success: phase, red and green all have one row per group of
      their Type and one column per time point; red and green are the
      readings minus those of the first group, so their first row is
      zero; timeV is strictly ascending and holds exactly the Elapsed
      values; X1 and X2 are the group doses plus 0.01, one per row of the
      grouped table. */
  lemma {:induction false} DataSplitSpec(elapsed: seq<real>, g: seq<GroupRow>, width: nat, s: SplitData)
    requires Unstacked(g, width) && DataSplitOf(elapsed, g, width) == Ok(s)
    ensures s.phase == Xs(g, "phase") && |s.red| == |Xs(g, "red")| && |s.green| == |Xs(g, "green")|
    ensures IsShape(Xs(g, "red"), |s.red|, width) && IsShape(Xs(g, "green"), |s.green|, width)
    ensures IsShape(s.phase, |s.phase|, width) && IsShape(s.red, |s.phase|, width)
              && IsShape(s.green, |s.phase|, width)
    ensures forall j :: 0 <= j < width ==> s.red[0][j] == 0.0 && s.green[0][j] == 0.0
    ensures forall i, j :: 0 <= i < |s.red| && 0 <= j < width ==>
              s.red[i][j] == Xs(g, "red")[i][j] - Xs(g, "red")[0][j]
    ensures forall i, j :: 0 <= i < |s.green| && 0 <= j < width ==>
              s.green[i][j] == Xs(g, "green")[i][j] - Xs(g, "green")[0][j]
    ensures StrictlyIncreasing(s.timeV) && forall v :: v in s.timeV <==> v in elapsed
    ensures |s.x1| == |g| == |s.x2|
    ensures forall i :: 0 <= i < |g| ==> s.x1[i] == g[i].drugA + 0.01 && s.x2[i] == g[i].drugB + 0.01
  {
    XsShape(g, width, "phase");
    XsShape(g, width, "red");
    XsShape(g, width, "green");
    SortedUniqueSpec(elapsed);
  }

  // ---------------------------------------------------------------------
  // dropna on the frame's columns.

  /** The rows whose cells are all present: only the drug columns can
      hold NaN here. */
  function Complete(drugA: Option<seq<Dose>>, drugB: Option<seq<Dose>>, n: nat): (keep: seq<bool>)
    requires drugA.Some? ==> |drugA.value| == n
    requires drugB.Some? ==> |drugB.value| == n
    ensures |keep| == n
  {
    seq(n, k requires 0 <= k < n =>
      !(drugA.Some? && drugA.value[k] == Missing) && !(drugB.Some? && drugB.value[k] == Missing))
  }

  /** The entries of s whose flag is set, in order. */
  function Select<T>(s: seq<T>, keep: seq<bool>): (r: seq<T>)
    requires |s| == |keep|
    ensures |r| <= |s|
  {
    if |s| == 0 then []
    else if keep[0] then [s[0]] + Select(s[1..], keep[1..])
    else Select(s[1..], keep[1..])
  }

  /** The number of set flags. */
  function CountTrue(keep: seq<bool>): (n: nat)
    ensures n <= |keep|
  {
    if |keep| == 0 then 0 else (if keep[0] then 1 else 0) + CountTrue(keep[1..])
  }

  /** Select keeps exactly the flagged entries, in order and once each: the
      result has one entry per set flag, the entry at a flagged position k
      sits at the number of flags before k, and nothing else is in it. */
  lemma {:induction false} SelectSpec<T>(s: seq<T>, keep: seq<bool>)
    requires |s| == |keep|
    ensures |Select(s, keep)| == CountTrue(keep)
    ensures forall k :: 0 <= k < |s| && keep[k] ==>
              CountTrue(keep[..k]) < |Select(s, keep)| && Select(s, keep)[CountTrue(keep[..k])] == s[k]
    ensures forall x :: x in Select(s, keep) ==> exists k :: 0 <= k < |s| && keep[k] && s[k] == x
  {
    if |s| > 0 {
      SelectSpec(s[1..], keep[1..]);
      var rest := Select(s[1..], keep[1..]);
      forall k | 0 <= k < |s| && keep[k]
        ensures CountTrue(keep[..k]) < |Select(s, keep)| && Select(s, keep)[CountTrue(keep[..k])] == s[k]
      {
        if k > 0 {
          assert keep[..k][1..] == keep[1..][..k - 1];
          assert keep[1..][k - 1] && s[1..][k - 1] == s[k];
        }
      }
      forall x | x in Select(s, keep)
        ensures exists k :: 0 <= k < |s| && keep[k] && s[k] == x
      {
        if !(keep[0] && x == s[0]) {
          assert x in rest;
          var k :| 0 <= k < |s| - 1 && keep[1..][k] && s[1..][k] == x;
          assert keep[k + 1] && s[k + 1] == x;
        }
      }
    }
  }

  lemma {:induction false} SelectLength<T, U>(s: seq<T>, t: seq<U>, keep: seq<bool>)
    requires |s| == |keep| == |t|
    ensures |Select(s, keep)| == |Select(t, keep)|
  {
    if |s| > 0 {
      SelectLength(s[1..], t[1..], keep[1..]);
    }
  }

  /** After dropna no drug cell is NaN, and a frame with no NaN is left
      as it was. */
  lemma DropNaSpec(drugA: seq<Dose>, drugB: seq<Dose>)
    requires |drugA| == |drugB|
    ensures Missing !in Select(drugA, Complete(Some(drugA), Some(drugB), |drugA|))
    ensures Missing !in Select(drugB, Complete(Some(drugA), Some(drugB), |drugA|))
    ensures (Missing !in drugA && Missing !in drugB) ==>
              Select(drugA, Complete(Some(drugA), Some(drugB), |drugA|)) == drugA
  {
    var keep := Complete(Some(drugA), Some(drugB), |drugA|);
    SelectSpec(drugA, keep);
    SelectSpec(drugB, keep);
    if Missing !in drugA && Missing !in drugB {
      SelectAllKept(drugA, keep);
    }
  }

  lemma {:induction false} SelectAllKept<T>(s: seq<T>, keep: seq<bool>)
    requires |s| == |keep| && forall k :: 0 <= k < |keep| ==> keep[k]
    ensures Select(s, keep) == s
  {
    if |s| > 0 {
      SelectAllKept(s[1..], keep[1..]);
    }
  }

  function ElapsedOf(records: seq<Record>): (r: seq<real>)
    ensures |r| == |records|
  {
    seq(|records|, k requires 0 <= k < |records| => records[k].elapsed)
  }

  /** One `for index, row in df.iterrows()` loop of filterDrugC on a
      column that starts at 0: row by row the capture is parsed into the
      cell, and the first capture float() refuses stops the loop. ok
      reports whether the loop ran to the end; col is the column it
      leaves either way. */
  method FillColumn(conds: seq<string>, name: string) returns (col: seq<Dose>, ok: bool)
    ensures |col| == |conds|
    ensures ok <==> DosesOk(conds, name)
    ensures ok ==> col == DrugColumn(conds, name)
    ensures !ok ==> col == PartialColumn(conds, name, FirstBad(conds, name, 0))
  {
    col := seq(|conds|, k => Zero);
    var i := 0;
    while i < |conds|
      invariant 0 <= i <= |conds| == |col|
      invariant forall k :: 0 <= k < i ==> CellResult(conds[k], name) == Ok(col[k])
      invariant forall k :: i <= k < |conds| ==> col[k] == Zero
    {
      var m := Match(conds[i], name);
      if m.Some? {
        var v := ParseDose(m.value);
        if v.Err? {
          FirstBadAt(conds, name, 0, i);
          assert col == PartialColumn(conds, name, i);
          return col, false;
        }
        col := col[i := v.value];
      }
      i := i + 1;
    }
    assert col == DrugColumn(conds, name);
    return col, true;
  }

  // ---------------------------------------------------------------------
  // The frame.

  /** The long-format frame readCombo returns: one row per measurement,
      with the Condition column until filterDrugC drops it and the drug
      columns once filterDrugC adds them. */
  class ComboFrame {
    var records: seq<Record>
    var condition: Option<seq<string>>
    var drugA: Option<seq<Dose>>
    var drugB: Option<seq<Dose>>

    /** Every column has one cell per row. */
    ghost predicate Valid()
      reads this
    {
      && (condition.Some? ==> |condition.value| == |records|)
      && (drugA.Some? ==> |drugA.value| == |records|)
      && (drugB.Some? ==> |drugB.value| == |records|)
    }

    constructor (records: seq<Record>, conditions: seq<string>)
      requires |records| == |conditions|
      ensures Valid()
      ensures this.records == records && condition == Some(conditions) && drugA.None? && drugB.None?
    {
      this.records := records;
      condition := Some(conditions);
      drugA, drugB := None, None;
    }

    /** filterDrugC(df, nameA, nameB). Without a Condition column it
        raises KeyError once drugA is set (and, on a frame without rows,
        drugB too, since the loops never read a row); a capture float()
        refuses raises ValueError, leaving the column being filled
        parsed up to the failing row; otherwise both drug columns are the
        filled and blanked columns, the Condition column is gone and
        every row and other column is kept. */
    method FilterDrugC(nameA: string, nameB: string) returns (err: Option<Error>)
      requires Valid()
      modifies this
      ensures Valid()
      ensures err.None? <==> old(condition).Some? && DosesOk(old(condition).value, nameA)
                             && DosesOk(old(condition).value, nameB)
      ensures err.Some? ==> err.value == if old(condition).None? then KeyError else ValueError
      ensures err.Some? ==> records == old(records) && condition == old(condition)
      ensures err == Some(KeyError) ==>
                && drugA == Some(seq(|records|, k => Zero))
                && drugB == if |records| == 0 then Some([]) else old(drugB)
      ensures err == Some(ValueError) && !DosesOk(old(condition).value, nameA) ==>
                && drugA == Some(PartialColumn(old(condition).value, nameA, FirstBad(old(condition).value, nameA, 0)))
                && drugB == old(drugB)
      ensures err == Some(ValueError) && DosesOk(old(condition).value, nameA) ==>
                && drugA == Some(DrugColumn(old(condition).value, nameA))
                && drugB == Some(PartialColumn(old(condition).value, nameB, FirstBad(old(condition).value, nameB, 0)))
      ensures err.None? ==> records == old(records) && condition.None?
      ensures err.None? ==> drugA == Some(Blanked(DrugColumn(old(condition).value, nameA), old(condition).value))
      ensures err.None? ==> drugB == Some(Blanked(DrugColumn(old(condition).value, nameB), old(condition).value))
    {
      drugA := Some(seq(|records|, k => Zero));
      if condition.None? {
        if |records| == 0 {
          drugB := Some([]);
        }
        return Some(KeyError);
      }
      var conds := condition.value;
      var colA, okA := FillColumn(conds, nameA);
      drugA := Some(colA);
      if !okA {
        return Some(ValueError);
      }
      drugB := Some(seq(|records|, k => Zero));
      var colB, okB := FillColumn(conds, nameB);
      drugB := Some(colB);
      if !okB {
        return Some(ValueError);
      }
      drugA := Some(Blanked(colA, conds));
      drugB := Some(Blanked(colB, conds));
      condition := None;
      return None;
    }

    /** dataSplit(df) given the grouped table: dropna removes, in place,
        every row with a NaN drug cell; selecting keepCols then raises
        KeyError unless both drug columns exist, and otherwise the result
        is DataSplitOf the remaining Elapsed values. */
    method DataSplit(g: seq<GroupRow>, width: nat) returns (r: Result<SplitData>)
      requires Valid() && Unstacked(g, width)
      modifies this
      ensures Valid()
      ensures records == Select(old(records), Complete(old(drugA), old(drugB), |old(records)|))
      ensures condition == if old(condition).None? then None
                           else Some(Select(old(condition).value, Complete(old(drugA), old(drugB), |old(records)|)))
      ensures drugA == if old(drugA).None? then None
                       else Some(Select(old(drugA).value, Complete(old(drugA), old(drugB), |old(records)|)))
      ensures drugB == if old(drugB).None? then None
                       else Some(Select(old(drugB).value, Complete(old(drugA), old(drugB), |old(records)|)))
      ensures r == if drugA.None? || drugB.None? then Err(KeyError) else DataSplitOf(ElapsedOf(records), g, width)
    {
      var keep := Complete(drugA, drugB, |records|);
      if condition.Some? {
        SelectLength(condition.value, records, keep);
        condition := Some(Select(condition.value, keep));
      }
      if drugA.Some? {
        SelectLength(drugA.value, records, keep);
        drugA := Some(Select(drugA.value, keep));
      }
      if drugB.Some? {
        SelectLength(drugB.value, records, keep);
        drugB := Some(Select(drugB.value, keep));
      }
      records := Select(records, keep);
      if drugA.None? || drugB.None? {
        return Err(KeyError);
      }
      r := DataSplitOf(ElapsedOf(records), g, width);
    }
  }
}
