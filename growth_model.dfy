/** The GrowthModel object of grmodel/pymcGrowth.py: its constructor and
    importData, which resets and then fills the object's attributes column
    by column. Each method is proved to leave the attributes that the fold
    GrowthImport.ImportSpec (and its steps FileStep and ColumnStep) computes
    from the attributes it started with. */
module GrowthObject {
  import opened Common
  import opened GrowthImport

  /** The data set opened when no file name is given. */
  const DefaultLoadFile: string := "101117_H1299"

  class GrowthModel {
    var loadFile: string
    var selCols: seq<nat>
    var condNames: seq<string>
    var doses: seq<Dose>
    var drugs: seq<string>
    var expTable: map<string, seq<real>>
    var timeV: Option<seq<real>>       // None while the attribute does not exist
    var totalCols: Option<nat>         // None until the first file read sets it
    var conv0: Option<Num>

    /** The attributes importData reads and writes. */
    function Attributes(): Attrs
      reads this
    {
      Attrs(selCols, condNames, doses, drugs, expTable, timeV, totalCols, conv0)
    }

    /** The attributes together with importData's locals selconv0, the
        drug/dose carried between columns, and expTable[key] while the
        columns of key are gathered. */
    function RunOf(selconv0: seq<Num>, prev: Option<Classified>, cur: seq<seq<real>>): Run
      reads this
    {
      Run(selCols, condNames, doses, drugs, selconv0, expTable, timeV, totalCols, prev, cur)
    }

    /** GrowthModel(loadFile=None): only loadFile is set. */
    constructor (file: Option<string>)
      ensures loadFile == if file.None? then DefaultLoadFile else file.value
      ensures Attributes() == Attrs([], [], [], [], map[], None, None, None)
    {
      loadFile := if file.None? then DefaultLoadFile else file.value;
      selCols, condNames, doses, drugs := [], [], [], [];
      expTable, timeV, totalCols, conv0 := map[], None, None, None;
    }

    /** importData(firstCols, comb, interval) on the three files (a missing
        key is a missing file). On success the attributes are those
        ImportSpec computes from the attributes before the call; on failure
        err is the exception ImportSpec reports. */
    method ImportData(files: map<string, CsvTable>, firstCols: nat, comb: Option<string>, interval: bool)
      returns (err: Option<Error>)
      requires FilesOk(files)
      modifies this
      ensures loadFile == old(loadFile)
      ensures ImportSpec(old(Attributes()), files, firstCols, comb, interval)
                == if err.None? then Ok(Attributes()) else Err(err.value)
    {
      err := ImportUsing(ClassifyComb, files, firstCols, comb, interval);
    }

    /** importData with the combination columns classified by cls; the
        methods below take the classifier as a parameter, as the folds do. */
    method ImportUsing(cls: Classifier, files: map<string, CsvTable>, firstCols: nat, comb: Option<string>,
                       interval: bool)
      returns (err: Option<Error>)
      requires FilesOk(files)
      modifies this
      ensures loadFile == old(loadFile)
      ensures ImportWith(cls, old(Attributes()), files, firstCols, comb, interval)
                == if err.None? then Ok(Attributes()) else Err(err.value)
    {
      ghost var a := Attributes();
      selCols, condNames, doses, drugs := [], [], [], [];
      expTable := map[];
      var selconv0: seq<Num> := [];
      var prev: Option<Classified> := None;
      assert RunOf(selconv0, prev, []) == StartRun(a);
      var k := 0;
      while k < |Keys|
        invariant 0 <= k <= |Keys| && loadFile == old(loadFile)
        invariant KeysFold(cls, StartRun(a), files, firstCols, comb, interval, k)
                    == Ok(RunOf(selconv0, prev, []))
      {
        ghost var before := RunOf(selconv0, prev, []);
        KeysFoldNext(cls, StartRun(a), files, firstCols, comb, interval, k, before);
        var e;
        e, selconv0, prev := ReadKey(cls, files, Keys[k], firstCols, comb, interval, selconv0, prev);
        if e.Some? {
          ImportFailsAt(cls, a, files, firstCols, comb, interval, k, before, e.value);
          return e;
        }
        k := k + 1;
      }
      ImportDone(cls, a, files, firstCols, comb, interval, RunOf(selconv0, prev, []));
      conv0 := Some(MeanNum(selconv0));
      return None;
    }

    /** One iteration of the key loop: a missing file is skipped. */
    method ReadKey(cls: Classifier, files: map<string, CsvTable>, key: string, firstCols: nat, comb: Option<string>,
                   interval: bool, selconv0: seq<Num>, prev: Option<Classified>)
      returns (err: Option<Error>, selconv0': seq<Num>, prev': Option<Classified>)
      requires FilesOk(files)
      modifies this
      ensures loadFile == old(loadFile)
      ensures FileStep(cls, old(RunOf(selconv0, prev, [])), key, FileOf(files, key), firstCols, comb, interval)
                == if err.None? then Ok(RunOf(selconv0', prev', [])) else Err(err.value)
    {
      if key in files {
        err, selconv0', prev' := ReadFile(cls, key, files[key], firstCols, comb, interval, selconv0, prev);
      } else {
        err, selconv0', prev' := None, selconv0, prev;
      }
    }

    /** A key whose file exists. */
    method ReadFile(cls: Classifier, key: string, t: CsvTable, firstCols: nat, comb: Option<string>, interval: bool,
                    selconv0: seq<Num>, prev: Option<Classified>)
      returns (err: Option<Error>, selconv0': seq<Num>, prev': Option<Classified>)
      requires WellFormed(t)
      modifies this
      ensures loadFile == old(loadFile)
      ensures FileStep(cls, old(RunOf(selconv0, prev, [])), key, Some(t), firstCols, comb, interval)
                == if err.None? then Ok(RunOf(selconv0', prev', [])) else Err(err.value)
    {
      ghost var r0 := RunOf(selconv0, prev, []);
      FileStepGuards(cls, r0, key, t, firstCols, comb, interval);
      selconv0', prev' := selconv0, prev;
      var data;
      err, data := OpenFile(t, firstCols, interval);
      if err.Some? {
        return;
      }
      var e, cur;
      e, selconv0', prev', cur := GatherColumns(cls, key, data, firstCols, totalCols.value, comb, selconv0', prev');
      ghost var res := if e.None? then Ok(RunOf(selconv0', prev', cur)) else Err(e.value);
      FileStepOf(cls, r0, key, t, firstCols, comb, interval, data, res);
      if e.Some? {
        return e, selconv0', prev';
      }
      if |cur| == 0 {
        return Some(KeyError), selconv0', prev';
      }
      expTable := expTable[key := Flatten(cur)];
      return None, selconv0', prev';
    }

    /** The guards of one file before its column loop: the Control column,
        the interval filter, then timeV and (on the first file) totalCols are
        set, and too few columns raise ValueError. */
    method OpenFile(t: CsvTable, firstCols: nat, interval: bool) returns (err: Option<Error>, data: CsvTable)
      requires WellFormed(t)
      modifies this
      ensures err.None? <==> HasControl(t) && FilterInterval(t, interval).Ok?
                             && TotalOf(old(totalCols), FilterInterval(t, interval).value) >= firstCols + 2
      ensures err.Some? && !HasControl(t) ==> err.value == KeyError
      ensures err.Some? && HasControl(t) && FilterInterval(t, interval).Err? ==> err.value == FilterInterval(t, interval).error
      ensures err.Some? && HasControl(t) && FilterInterval(t, interval).Ok? ==> err.value == ValueError
      ensures err.None? ==> data == FilterInterval(t, interval).value && WellFormed(data)
      ensures err.None? ==> timeV == Some(data.cols[1]) && totalCols == Some(TotalOf(old(totalCols), data))
      ensures err.None? ==> unchanged(`loadFile, `selCols, `condNames, `doses, `drugs, `expTable, `conv0)
      ensures loadFile == old(loadFile)
    {
      data := t;
      if !HasControl(t) {
        return Some(KeyError), data;
      }
      var filtered := FilterInterval(t, interval);
      if filtered.Err? {
        return Some(filtered.error), data;
      }
      data := filtered.value;
      timeV := Some(data.cols[1]);
      if totalCols.None? {
        totalCols := Some(|data.names|);
      }
      if totalCols.value < firstCols + 2 {
        return Some(ValueError), data;
      }
      return None, data;
    }

    /** The column loop of one file: columns firstCols <= col < total. */
    method GatherColumns(cls: Classifier, key: string, data: CsvTable, firstCols: nat, total: nat, comb: Option<string>,
                         selconv0: seq<Num>, prev: Option<Classified>)
      returns (err: Option<Error>, selconv0': seq<Num>, prev': Option<Classified>, cur: seq<seq<real>>)
      requires WellFormed(data) && firstCols <= total
      modifies this
      ensures loadFile == old(loadFile)
      ensures ColsFold(cls, old(RunOf(selconv0, prev, [])), key, data, firstCols, comb, total)
                == if err.None? then Ok(RunOf(selconv0', prev', cur)) else Err(err.value)
    {
      ghost var r1 := RunOf(selconv0, prev, []);
      selconv0', prev', cur := selconv0, prev, [];
      var col := firstCols;
      while col < total
        invariant firstCols <= col <= total && loadFile == old(loadFile)
        invariant ColsFold(cls, r1, key, data, firstCols, comb, col) == Ok(RunOf(selconv0', prev', cur))
      {
        ghost var before := RunOf(selconv0', prev', cur);
        ColsFoldNext(cls, r1, key, data, firstCols, comb, col, before);
        var e;
        e, selconv0', prev', cur := AddColumn(cls, key, data, col, comb, selconv0', prev', cur);
        if e.Some? {
          ColsFoldFail(cls, r1, key, data, firstCols, comb, col + 1, total);
          return e, selconv0', prev', cur;
        }
        col := col + 1;
      }
      return None, selconv0', prev', cur;
    }

    /** One iteration of the column loop. */
    method AddColumn(cls: Classifier, key: string, data: CsvTable, col: nat, comb: Option<string>,
                     selconv0: seq<Num>, prev: Option<Classified>, cur: seq<seq<real>>)
      returns (err: Option<Error>, selconv0': seq<Num>, prev': Option<Classified>, cur': seq<seq<real>>)
      requires WellFormed(data)
      modifies this
      ensures loadFile == old(loadFile)
      ensures ColumnStep(cls, old(RunOf(selconv0, prev, cur)), key, data, col, comb)
                == if err.None? then Ok(RunOf(selconv0', prev', cur')) else Err(err.value)
    {
      selconv0', prev', cur' := selconv0, prev, cur;
      if col >= |data.names| {
        return Some(IndexError), selconv0', prev', cur';
      }
      var name := data.names[col];
      if comb.Some? {
        var c := cls(name, comb.value, prev);
        if c.Err? {
          return Some(c.error), selconv0', prev', cur';
        }
        prev' := Some(c.value);
        cur' := cur + [data.cols[col]];
        if key == "confl" {
          drugs := drugs + [c.value.drug];
          doses := doses + [Pair(c.value.dose1, c.value.dose2)];
          condNames := condNames + [name];
          selCols := selCols + [col];
          selconv0' := selconv0 + [ZeroTimeMean(data, col)];
        }
      } else if !HasBlank(name) {
        var (drug, dose) := ClassifySingle(name);
        cur' := cur + [data.cols[col]];
        if key == "confl" {
          drugs := drugs + [drug];
          doses := doses + [dose];
          condNames := condNames + [name];
          selCols := selCols + [col];
          selconv0' := selconv0 + [ZeroTimeMean(data, col)];
        }
      }
      return None, selconv0', prev', cur';
    }
  }
}
