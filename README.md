# ps-growth-model in Dafny

This project models the numerical core of ps-growth-model, which fits
cell-growth and drug-response models to live-cell imaging data:

- The closed-form population kinetics (`theanoCore`, its numpy path) and the
  conversion of population compartments into the three measured signals
  (confluence, apoptosis, DNA) in `grmodel/pymcGrowth.py`.
- The likelihood terms that `build_model` records. The priors and the
  sampler are not modelled; the sampled quantities are parameters.
- `GrowthModel.importData` and the constructor of `grmodel/pymcGrowth.py`:
  - how condition names are classified into drug and dose;
  - which columns are kept;
  - the layout of `expTable`;
  - every exception the import raises.

  It is a class whose methods run the source's key and column loops on
  its attributes. They are proved to agree with a fold over those loops,
  `GrowthImport.ImportSpec`, and the lemmas state what that fold produces.
- The drug-combination model of `grmodel/pymcInteraction.py`:
  - Hill terms combined by Bliss independence;
  - the death and growth rates built from them;
  - the shape assertions;
  - the correlation and fit terms recorded per observed channel.
- The drug-combination data frame of `grmodel/interactionData.py`:
  - `filterDrugC`, a class method that fills the two dose columns in
    place from the Condition strings;
  - the in-place `dropna` and the steps of `dataSplit` after the pandas
    group-by.
- The older maximum-likelihood model `grmodel/GrowthModel.py`:
  - the Jacobian `jacFun`;
  - the parameter bounds;
  - the argsort co-sort of the time, confluence and green arrays in
    `__init__`;
  - the guard chain and signal combination of `logL`;
  - the table `simulate` assembles around the solver's output.
- The viability panel of `grmodel/figures/Figure4.py`: in-place steps on an
  `array2<real>` that give the residual of each measured effect against the
  Bliss-additive prediction.

Modelling conventions:

- Numbers are mathematical reals. `Common.Num` adds NaN and -inf where the
  source returns them.
- Errors are `Common.Result` values that name the Python exception raised.
- The transcendental functions `exp`, `pow` and `log` are function-typed
  parameters. Where a property needs it, they are constrained by
  `Common.ExpLaws` (exp(0) = 1, exp positive), `Common.ExpMonotone`,
  `Common.ExpConvex` (the three-chord form of convexity),
  `Common.PowLaws` (pow of a non-negative base is non-negative, of a
  positive base positive, of 0 to a positive power 0) and
  `Common.PowMonotone` (pow non-decreasing in the base for a positive
  exponent).
- The ODE solver, the normal log-density and the file reads are also
  parameters or inputs.

Where the source and its documentation differ, the model follows the source:

- `importData` computes `dataset1.sub(dataset1["Control"], axis=0)` and
  discards the result (grmodel/pymcGrowth.py line 177), so no control
  subtraction happens. Only the `KeyError` of a missing Control column is
  modelled.
- With combination data, a column whose name contains "blank" reuses the
  drug and dose of the previous column. Before any column has been
  classified this raises `NameError` (`GrowthImport.ClassifyComb`).
- In `interactionData.dataSplit`, X1 and X2 are read from `dfGrp.index`.
  That index has one entry per grouped row of every Type, not one per
  phase row, and the model keeps it that way.

## Definitions

The source functions are defined once each; the rows of the table below
state properties of these definitions.

- `Kinetics.PointState`: `theanoCore` at one condition and one time point
  (grmodel/pymcGrowth.py:37-52); `Kinetics.TheanoCore` lifts it to the
  conditions x time matrices.
- `Kinetics.ConvSignal`: `convSignal` (grmodel/pymcGrowth.py:57-69).
- `GrowthFit.BuildModel`: `build_model` of the growth model
  (grmodel/pymcGrowth.py:92-136).
- `GrowthImport.ClassifySingle`: the drug and dose of a plain-data column
  name (grmodel/pymcGrowth.py:243-250).
- `GrowthImport.ClassifyComb`: the same for combination data
  (grmodel/pymcGrowth.py:205-229).
- `GrowthImport.ImportSpec`: `importData` as a fold over the keys and
  columns (grmodel/pymcGrowth.py:150-266), through `GrowthImport.ImportWith`.
- `Interaction.Hill`, `Interaction.Bliss` and `Interaction.BlissInteract`:
  `blissInteract` (grmodel/pymcInteraction.py:19-22).
- `Interaction.DeathRate` and `Interaction.GrowthRate`: the rates of
  lines 53 and 56 of grmodel/pymcInteraction.py, and
  `Interaction.DeathRates` and `Interaction.GrowthRates` the same at each
  design point.
- `Interaction.InteractionModel`: `build_model` of the interaction model
  (grmodel/pymcInteraction.py:25-86).
- `InteractionData.Match`: the `re.search` of `filterDrugC`
  (grmodel/interactionData.py:36, 44).
- `InteractionData.DataSplitOf`: `dataSplit` after its group-by
  (grmodel/interactionData.py:61-77).
- `LegacyGrowth.LogL`: `logL` (grmodel/GrowthModel.py:76-115), with
  `LegacyGrowth.Likelihood` its part after the simulation
  (grmodel/GrowthModel.py:98-115).
- `BlissFigure.Effect`: one minus a reading relative to the control
  (grmodel/figures/Figure4.py:62-64).

## Model

| member | source | states |
|---|---|---|
| Kinetics.TheanoCore | grmodel/pymcGrowth.py:25-54 | the four compartments are conditions x time matrices, and entry (i, j) is the closed form for condition i at time j, with the per-condition rates broadcast against the time vector |
| Kinetics.AtTimeZero | grmodel/pymcGrowth.py:45-52 | at t = 0 there is exactly one live cell and no early-apoptotic, apoptotic-dead or necrotic-dead cell |
| Kinetics.TrajectoryStart | grmodel/pymcGrowth.py:25-54 | every condition's trajectory starts at (1, 0, 0, 0) at each time point equal to 0 |
| Kinetics.NoDeath | grmodel/pymcGrowth.py:38-52 | with deathRate = 0 the live count is exp(div t) and all three death compartments are empty |
| Kinetics.AllApoptotic | grmodel/pymcGrowth.py:43-51 | with apopfrac = 1 no cell dies by necrosis |
| Kinetics.NoApoptosis | grmodel/pymcGrowth.py:40-52 | with apopfrac = 0 both apoptotic compartments stay empty |
| Kinetics.NonNegative | grmodel/pymcGrowth.py:38-52 | for non-negative rates, apopfrac in [0, 1] and t >= 0, with exp increasing and convex, the live count is positive and the early-apoptotic, apoptotic-dead and necrotic-dead counts are all non-negative, on both sides of each singularity |
| Kinetics.EapNonNegative | grmodel/pymcGrowth.py:40-48 | the early-apoptotic count is non-negative whatever the sign of GR + d |
| Kinetics.NecrosisNonNegative | grmodel/pymcGrowth.py:43-51 | the necrotic count is non-negative whatever the sign of GR |
| Kinetics.DeadApopNonNegative | grmodel/pymcGrowth.py:38-52 | the apoptotic-dead count is non-negative whatever the signs of GR and GR + d, because exp is convex |
| Kinetics.Simulate | grmodel/pymcGrowth.py:13-22 | an IndexError exactly when fewer than four parameters are given; otherwise a 1 x 4 x time array whose rows are live, eap, deadapop, deadnec for the reordered parameters (div, deathRate, apopfrac, d) |
| Kinetics.ConvSignal | grmodel/pymcGrowth.py:57-69 | the three signals have the trajectory's shape |
| Kinetics.UnitConversion | grmodel/pymcGrowth.py:63-67 | with unit conversions and no offset the signals are exactly the summed population counts |
| Kinetics.ChannelScaling | grmodel/pymcGrowth.py:63-67 | each channel is linear in its own conversion factor and independent of the other two |
| Kinetics.OffsetShift | grmodel/pymcGrowth.py:57-69 | offset mode shifts apoptosis and DNA by their offsets and never changes confluence |
| Kinetics.InitialConfluence | grmodel/pymcGrowth.py:57-69 | at t = 0 confluence equals the confluence factor and the other two signals equal their offsets |
| GrowthFit.Residual | grmodel/pymcGrowth.py:118-132 | the flattened prediction minus the observation exists exactly when their lengths agree; otherwise a shape error |
| GrowthFit.CoreAligned | grmodel/pymcGrowth.py:112-115 | the theanoCore trajectory has four equally shaped compartments, so convSignal applies to it |
| GrowthFit.ModelSignalsShape | grmodel/pymcGrowth.py:112-115 | the model signals are conditions x time points |
| GrowthFit.FitTermsOk | grmodel/pymcGrowth.py:118-134 | the term list exists exactly when every present channel's vector has its prediction's length |
| GrowthFit.FitTermsList | grmodel/pymcGrowth.py:118-134 | one normal term per present channel, in channel order, and logp last; each term observes its channel's residual |
| GrowthFit.FitTermsNames | grmodel/pymcGrowth.py:118-134 | the fit term of a channel is recorded if and only if its key is in expTable |
| GrowthFit.ResidualAt | grmodel/pymcGrowth.py:120 | the residual at i * cols + j compares the prediction for condition i at time j |
| GrowthFit.BuildModelOk | grmodel/pymcGrowth.py:92-136 | build_model succeeds if and only if every present expTable vector has conditions x time entries; otherwise a shape error |
| GrowthFit.BuildModelTerms | grmodel/pymcGrowth.py:118-134 | there is a fit term for a channel if and only if its key is present, one per present channel, with logp last |
| GrowthFit.BuildModelResidual | grmodel/pymcGrowth.py:118-132 | each fit term observes prediction minus data at every (condition, time point), with conditions outermost |
| GrowthFit.ImportLayoutAligned | grmodel/pymcGrowth.py:253-263 | expTable as importData lays it out (one column per condition, then flattened) lines up with the flattened prediction entry by entry |
| GrowthFit.ImportLayoutAt | grmodel/pymcGrowth.py:253-263 | the residual at one (condition, time point) against importData's layout |
| GrowthFit.PerfectFit | grmodel/pymcGrowth.py:120-122 | the residual is all zeros if and only if the prediction equals the data |
| Interaction.HillBounds | grmodel/pymcInteraction.py:20-21 | a Hill term of a non-negative dose with a positive IC50 is defined and lies in [0, 1] |
| Interaction.BlissBounds | grmodel/pymcInteraction.py:22 | two effects in [0, 1] combine to an effect in [0, 1] |
| Interaction.BlissComplement | grmodel/pymcInteraction.py:22 | the surviving fraction of the combination is the product of the surviving fractions |
| Interaction.BlissMonotone | grmodel/pymcInteraction.py:22 | the combination is non-decreasing in each effect while the other effect is at most 1 |
| Interaction.FractionMonotone | grmodel/pymcInteraction.py:20-21 | p / (q + p) is non-decreasing in p >= 0 for a fixed positive q |
| Interaction.HillMonotone | grmodel/pymcInteraction.py:20-21 | with a positive hill and IC50, a larger dose never gives a smaller Hill term |
| Interaction.BlissInteractMonotone | grmodel/pymcInteraction.py:19-22 | raising either dose never lowers the combined effect |
| Interaction.BlissAtZero | grmodel/pymcInteraction.py:19-22 | no dose of either drug gives no effect |
| Interaction.BlissSymmetric | grmodel/pymcInteraction.py:19-22 | exchanging the two drugs, each with its own hill and IC50, leaves the effect unchanged |
| Interaction.BlissInteractBounds | grmodel/pymcInteraction.py:19-22 | non-negative doses with positive IC50s give a combined effect in [0, 1] |
| Interaction.RateBounds | grmodel/pymcInteraction.py:52-56 | the death rate lies in [0, E_con[0]] and the growth rate in [0, E_con[1]] |
| Interaction.RatesMonotone | grmodel/pymcInteraction.py:52-56 | raising either dose never lowers the death rate and never raises the growth rate |
| Interaction.RatesBounded | grmodel/pymcInteraction.py:52-56 | over a whole design of non-negative doses there is one rate of each kind per point, every death rate in [0, E_con[0]] and every growth rate in [0, E_con[1]] |
| Interaction.CoreRatesOk | grmodel/pymcInteraction.py:53-61 | the rates passed to theanoCore have one entry per design point and keep it nonsingular |
| Interaction.SizeAssertionsHold | grmodel/pymcInteraction.py:58-64 | the assertions on the growth-rate count and on the trajectory size cannot fail |
| Interaction.InteractionSignals | grmodel/pymcInteraction.py:61-66 | the model signals are design points x time points |
| Interaction.ChannelTermsOk | grmodel/pymcInteraction.py:68-82 | the channel terms exist exactly when every given matrix has its signal's shape; otherwise a shape error |
| Interaction.ChannelTermsList | grmodel/pymcInteraction.py:68-84 | two terms per given channel and logp last, each named after its channel |
| Interaction.ChannelTermsFits | grmodel/pymcInteraction.py:69-82 | a fit term observes the flattened difference of its channel's signal and matrix |
| Interaction.ChannelTermsNames | grmodel/pymcInteraction.py:68-82 | a channel's correlation and fit terms are recorded if and only if its matrix is given |
| Interaction.InteractionModelOk | grmodel/pymcInteraction.py:25-86 | AssertionError if and only if X1 and X2 differ in shape; success if and only if they agree and every given matrix is design points x time points |
| Interaction.InteractionModelTerms | grmodel/pymcInteraction.py:68-84 | a correlation and a fit term for each given channel, none for a channel that is None, and logp last |
| Interaction.InteractionResidual | grmodel/pymcInteraction.py:69-82 | at position i * time + j a fit observes the signal for design point i at time j minus the observation there |
| GrowthImport.ClassifySingleSpec | grmodel/pymcGrowth.py:243-250 | plain data: a name without a space is the control with dose 0; otherwise the drug and dose are its first two space-separated tokens, with the dose kept as text |
| GrowthImport.CombCases | grmodel/pymcGrowth.py:205-228 | combination data: "Control" names give (0, 0); a name starting with the combination drug gives (0, dose), and fails exactly when that token is missing or empty; a "blank" name reuses the previous drug and dose, or raises NameError when there is none |
| GrowthImport.FilterInterval | grmodel/pymcGrowth.py:181-182 | endpoint filtering fails (max of nothing) exactly on a table with no rows and is the identity when interval is set; otherwise the names are kept and every column is taken at the KeepRows rows |
| GrowthImport.KeepRows | grmodel/pymcGrowth.py:182 | the kept row indices are strictly ascending, and a row is kept if and only if its Elapsed is 0 or the maximum |
| GrowthImport.TakeRows | grmodel/pymcGrowth.py:182 | the names stay; each column holds the input's cells at the given rows, in their order |
| GrowthImport.FilterIntervalSurvivors | grmodel/pymcGrowth.py:181-182 | without interval, every surviving row has Elapsed 0 or the maximum, every input row with either value survives, and there is one surviving row per kept index |
| GrowthImport.ZeroTimeMean | grmodel/pymcGrowth.py:185-187 | conv0 of a column is NaN exactly when no row is at Elapsed == 0 |
| GrowthImport.MeanNum | grmodel/pymcGrowth.py:266 | np.mean is NaN exactly for an empty list or one holding a NaN; otherwise it is -inf exactly when a -inf is present; otherwise every entry is finite and the mean times the count is their sum |
| GrowthImport.Selected | grmodel/pymcGrowth.py:200-243 | the kept columns are ascending, in range, and are all columns for combination data or exactly those without "blank" otherwise |
| GrowthImport.ColsFoldFacts | grmodel/pymcGrowth.py:200-261 | the column loop appends exactly the Selected columns, in order, to expTable[key] and, for "confl", to the object's lists |
| GrowthImport.ColsFoldSingle | grmodel/pymcGrowth.py:242-261 | plain data: each appended entry is its name's classification |
| GrowthImport.CombChainAt | grmodel/pymcGrowth.py:204-229 | combination data: entry i is the classification of name i given entry i - 1 |
| GrowthImport.ColsFoldComb | grmodel/pymcGrowth.py:204-240 | combination data: the appended entries are the chained classifications of the names |
| GrowthImport.SelectedAll | grmodel/pymcGrowth.py:200-232 | with combination data no column is skipped |
| GrowthImport.ImportTables | grmodel/pymcGrowth.py:167-263 | expTable has a table exactly for each present file, holding that file's selected columns flattened; totalCols is the first present file's width unless set before; timeV comes from the last present file |
| GrowthImport.ImportFromConfl | grmodel/pymcGrowth.py:171-266 | selCols, condNames, doses and drugs are those left by the "confl" file, of one length; without that file they are empty and conv0 is NaN |
| GrowthImport.ConflTotal | grmodel/pymcGrowth.py:195-196 | with a "confl" file, totalCols ends as the width that file used |
| GrowthImport.ImportPlain | grmodel/pymcGrowth.py:242-261 | plain data keeps the columns without "blank", and each entry is the drug and dose its name classifies to |
| GrowthImport.ImportComb | grmodel/pymcGrowth.py:204-240 | combination data keeps every column from firstCols to totalCols, and the entries are the chained classifications in order |
| GrowthImport.ImportFailsAt | grmodel/pymcGrowth.py:171-263 | one file whose step raises makes the whole import raise that exception |
| GrowthImport.ImportNoControl | grmodel/pymcGrowth.py:176-177 | a confluence file without a Control column raises KeyError |
| GrowthImport.ImportTooFewColumns | grmodel/pymcGrowth.py:195-198 | on an import where totalCols is not yet set (no earlier import fixed it), a confluence file that has a Control column and passes the endpoint filter (interval set or at least one row) but is narrower than firstCols + 2 raises ValueError |
| GrowthImport.ImportNoRows | grmodel/pymcGrowth.py:181-182 | endpoint filtering of an empty confluence file raises ValueError |
| GrowthImport.ImportAllBlank | grmodel/pymcGrowth.py:253-263 | once the Control, endpoint-filter and width guards pass (a Control column, interval set or at least one row, firstCols + 2 <= totalCols <= the table width), plain data whose columns from firstCols to totalCols all hold "blank" never creates the key, so the reshape raises KeyError |
| GrowthImport.FileStepGuards | grmodel/pymcGrowth.py:173-198 | the guards of one file, in order, each with the exception it raises |
| GrowthImport.FileStepOf | grmodel/pymcGrowth.py:192-263 | once the guards pass, one file's step is decided by its column loop: a KeyError when nothing was gathered, otherwise the flattened table stored under the key |
| GrowthImport.ImportDone | grmodel/pymcGrowth.py:265-266 | after every key the import finishes by recording the mean conv0 |
| GrowthObject.GrowthModel.constructor | grmodel/pymcGrowth.py:268-273 | the default data set is used when no file name is given, and no import attribute exists yet |
| GrowthObject.GrowthModel.ImportData | grmodel/pymcGrowth.py:150-266 | the attributes after the call are those ImportSpec computes from the attributes before it, or the exception it reports; loadFile is unchanged |
| GrowthObject.GrowthModel.ImportUsing | grmodel/pymcGrowth.py:150-266 | the same, for any classifier of combination names |
| GrowthObject.GrowthModel.ReadKey | grmodel/pymcGrowth.py:171-190 | one key-loop iteration is the fold's FileStep; a missing file is skipped |
| GrowthObject.GrowthModel.ReadFile | grmodel/pymcGrowth.py:171-263 | reading a present file is the fold's FileStep |
| GrowthObject.GrowthModel.OpenFile | grmodel/pymcGrowth.py:173-198 | the guards before the column loop: KeyError without Control, the filter's error, ValueError when too narrow; on success timeV and totalCols are set and nothing else changes |
| GrowthObject.GrowthModel.GatherColumns | grmodel/pymcGrowth.py:200-261 | the column loop is the fold's ColsFold |
| GrowthObject.GrowthModel.AddColumn | grmodel/pymcGrowth.py:202-261 | one column-loop iteration is the fold's ColumnStep |
| Common.Find | grmodel/interactionData.py:36 | the leftmost occurrence at or after the start position, or none at all |
| Common.SplitSpec | grmodel/pymcGrowth.py:246-247 | str.split: joining the pieces gives back the string, no piece contains the separator, and a string without it is one piece |
| InteractionData.LeadDigits | grmodel/interactionData.py:36 | the length of the longest run of digits at the start |
| InteractionData.DoseTokenLongest | grmodel/interactionData.py:36 | the captured dose is a prefix matching \d*\.?\d*, and no longer prefix matches |
| InteractionData.MatchLeftmost | grmodel/interactionData.py:36-39 | there is no match if and only if the condition does not contain the drug name followed by a space, and then the cell stays 0; otherwise the token comes after the leftmost mention |
| InteractionData.CellFails | grmodel/interactionData.py:36-39 | float() fails if and only if the capture is "" or ".", raising ValueError; otherwise the cell holds the capture |
| InteractionData.FilteredColumnAt | grmodel/interactionData.py:33-49 | the finished column row by row: NaN for "blank" rows, 0 without a mention, otherwise the captured dose |
| InteractionData.XsShape | grmodel/interactionData.py:65-67 | each cross-section has one column per time point |
| InteractionData.InsertSpec | grmodel/interactionData.py:61 | inserting keeps the sequence strictly ascending and adds exactly the new value |
| InteractionData.SortedUniqueSpec | grmodel/interactionData.py:61 | timeV is strictly ascending and holds exactly the Elapsed values |
| InteractionData.DataSplitOk | grmodel/interactionData.py:65-75 | dataSplit fails if and only if a Type has no group (KeyError) or the three signals differ in row count (AssertionError) |
| InteractionData.DataSplitSpec | grmodel/interactionData.py:59-77 | on success the signals share one shape; red and green are taken relative to the first group, so their first row is zero; timeV is sorted and unique; X1 and X2 are the group doses plus 0.01 |
| InteractionData.SelectSpec | grmodel/interactionData.py:59 | the filter keeps the flagged rows in order, once each: one entry per set flag, the entry of flagged row k at the number of flags before k, and nothing else |
| InteractionData.DropNaSpec | grmodel/interactionData.py:59 | after dropna no drug cell is NaN, and a frame without NaN is unchanged |
| InteractionData.ComboFrame.FilterDrugC | grmodel/interactionData.py:32-52 | KeyError without a Condition column, after drugA is set to 0 (and drugB too on a frame without rows); ValueError when a capture cannot be parsed, the column being filled parsed up to the first failing row (FirstBad) and 0 after it, the other drug column unchanged or complete; rows and Condition unchanged on either error; otherwise both dose columns are filled from the conditions and blanked on "blank" rows, the Condition column is dropped, and the other columns are unchanged |
| InteractionData.FirstBad | grmodel/interactionData.py:35-47 | the row at which a filling loop stops: its capture fails and every earlier row's parses |
| InteractionData.FillColumn | grmodel/interactionData.py:35-47 | one filling loop runs to the end exactly when every capture parses, and then leaves the drug column; otherwise it leaves the rows before FirstBad parsed and 0 from there on |
| InteractionData.ComboFrame.DataSplit | grmodel/interactionData.py:55-77 | dropna removes in place every row with a NaN dose from every column; then KeyError if a drug column is missing, otherwise the split of the remaining Elapsed values |
| LegacyGrowth.OdeFun | grmodel/GrowthModel.py:18-35 | with at least five rates and two states, the two derivatives (the short-vector case is Python's IndexError; see "## Left out") |
| LegacyGrowth.JacFun | grmodel/GrowthModel.py:38-40 | with at least five rates, a 2 x 2 matrix (the short-vector case is Python's IndexError; see "## Left out") |
| LegacyGrowth.JacobianExact | grmodel/GrowthModel.py:32-40 | jacFun at any state and time is the exact Jacobian of ODEfun: a step delta changes ODEfun by J delta |
| LegacyGrowth.SimulateWith | grmodel/GrowthModel.py:59-71 | a solver failure propagates; otherwise each row is the live count followed by the solver's row |
| LegacyGrowth.SimulateAsWrittenStart | grmodel/GrowthModel.py:56-57 | as written, the live column at t = 0 can exceed 1, where ODEfun's live count is 1 |
| LegacyGrowth.SimulateLive | grmodel/GrowthModel.py:32-35 | with ODEfun's live count, every simulation starts from one live cell, and the live column is the count that drives ODEfun's derivatives |
| LegacyGrowth.BoundsSpec | grmodel/GrowthModel.py:150-160 | nine names and bounds; -6 to 0 except the two conversion factors, -2 to 4; every interval is non-empty |
| LegacyGrowth.InsertIndexSorted | grmodel/GrowthModel.py:145 | inserting an index keeps the index list ordered by value |
| LegacyGrowth.ArgSortSpec | grmodel/GrowthModel.py:145 | argsort is a permutation of the indices that puts the times in ascending order |
| LegacyGrowth.CoSortSpec | grmodel/GrowthModel.py:139-148 | after the co-sort the times are ascending, and one permutation carries each (time, confluence, green) triple to its place |
| LegacyGrowth.LogLRejects | grmodel/GrowthModel.py:82-88 | a non-finite or out-of-bounds vector gets -inf, whatever the solver and the density would do |
| LegacyGrowth.LogLAccepts | grmodel/GrowthModel.py:90-96 | an in-bounds vector reaches the simulation: -inf on FloatingPointError, other exceptions propagate, otherwise the likelihood of 10^paramV |
| LegacyGrowth.SumLogPdfSpec | grmodel/GrowthModel.py:104-108 | the summed density raises if and only if some element's density raises |
| LegacyGrowth.SignalCombination | grmodel/GrowthModel.py:98-100 | confluence is paramV[-4] times the total cell count; green is paramV[-3] times the dead count plus the apoptotic count |
| LegacyGrowth.LikelihoodShortTable | grmodel/GrowthModel.py:104-108 | expTable[2] is read after the confluence sum: with only two arrays a confluence length mismatch raises ValueError and a raising confluence density gives -inf; only a successful confluence sum reaches IndexError |
| LegacyGrowth.LikelihoodCases | grmodel/GrowthModel.py:102-115 | -inf when any density raises; otherwise the two summed densities plus the prior tying the conversion factors together |
| LegacyGrowth.LegacyModel.Init | grmodel/GrowthModel.py:117-163 | the file stem read is the default one when none is given (a local, not an attribute); IndexError exactly when a needed column is missing; otherwise expTable is the co-sorted triple and the names, bounds and count of parameters are set |
| BlissFigure.EffectOfControl | grmodel/figures/Figure4.py:62-64 | the control reading has effect 0 |
| BlissFigure.EffectBound | grmodel/figures/Figure4.py:62-66 | an effect is at most 1 exactly when the reading divided by the control is non-negative |
| BlissFigure.AdditiveAtMostOne | grmodel/figures/Figure4.py:66-70 | the first assert implies the second: effects of at most 1 give a Bliss-additive effect of at most 1 |
| BlissFigure.ResidualOnAxes | grmodel/figures/Figure4.py:68-72 | the residual is zero on the first row and the first column |
| BlissFigure.CopyOf | grmodel/figures/Figure4.py:62 | to_numpy gives a fresh copy of the table |
| BlissFigure.DivideAll | grmodel/figures/Figure4.py:63 | every entry is divided by the control, in place |
| BlissFigure.OneMinus | grmodel/figures/Figure4.py:64 | a fresh array of one minus each entry |
| BlissFigure.AllAtMostOne | grmodel/figures/Figure4.py:66 | true if and only if every entry is at most 1 |
| BlissFigure.AdditiveOf | grmodel/figures/Figure4.py:68 | entry (i, j) is the Bliss combination of the first-column and first-row effects |
| BlissFigure.StoreDifference | grmodel/figures/Figure4.py:72 | the table holds effect minus additive prediction |
| BlissFigure.ViabilityResidual | grmodel/figures/Figure4.py:62-72 | IndexError on an empty table; AssertionError, with the table unchanged, exactly when an effect exceeds 1; otherwise each entry becomes its residual against the Bliss prediction, zero on the first row and column |

## Left out

- File input: `pandas.read_csv`, the data directory layout, and the files
  themselves. Each file arrives as a parsed table
  (`GrowthImport.CsvTable`, or the column lists of
  `LegacyGrowth.LegacyModel.Init`). A missing file is a missing key, as
  `IOError` is caught.
- PyMC priors, the NUTS sampler, `conversionPriors` and its constants, and
  `pm.Deterministic`/`pm.Normal` beyond the names and observed vectors of
  the terms: these are probabilistic. The sampled values are parameters.
- `theanoCorr`: it needs a square root and a mean. Only the name of the
  term recorded from it is modelled.
- Floating point: reals replace IEEE doubles. Overflow, rounding, and
  numpy's inf/NaN results of a division by zero are not modelled.
  `Common.Num` carries only the NaN and -inf values the source returns
  explicitly.
- `exp`, `pow`, `log`, `logpdf_sum` and `scipy.integrate.odeint` are
  parameters. The solver's table and its FloatingPointError are inputs to
  `LegacyGrowth.SimulateWith` and to the `sim` parameter of
  `LegacyGrowth.LogL`.
- LegacyGrowth.OdeFun, LegacyGrowth.JacFun: `@jit` is modelled as plain
  Python. The IndexError on a short `rates` or `ss` is what the
  uncompiled functions raise. The numba-compiled functions do not check
  bounds, so on a short vector they read out of range instead.
- `LegacyGrowth.SumLogPdfSpec`: only whether the sum raises is stated;
  its value is the element sum by definition.
- Regular expressions: the drug name in `filterDrugC` is matched
  literally, so regex metacharacters in a name are not modelled. `\d` is
  ASCII digits only.
- `float()` is modelled only to the extent that it refuses the tokens
  "" and "." (and "" in `importData`). A parsed dose is kept as its text.
- `str.lower()` is modelled on ASCII letters only.
- The pandas `groupby(...).agg(mean).unstack(0)` of `dataSplit` is an
  input (`InteractionData.GroupRow`, one row per group with one mean per
  time point). The `xs` cross-sections and everything after them are
  modelled.
- numpy broadcasting of length-1 operands and negative indices beyond
  `paramV[-4..-1]` are not modelled. `LegacyModel.Init` takes a
  non-negative `selCol`.
- `np.argsort` is modelled as a stable sort. numpy's default quicksort may
  order equal times differently. The property that holds for either order
  (ascending times, triples kept together) is what is proved.
- The `Classifier` parameter: the import folds take the classification of
  combination names as a parameter so their proofs stay small.
  `GrowthImport.ImportSpec` and `GrowthObject.GrowthModel.ImportData`
  instantiate it with the source's classification,
  `GrowthImport.ClassifyComb`.
- GrowthObject.GrowthModel.ImportData: on an exception the source leaves
  the attributes partly updated. The methods perform the same assignments
  in the same order, but their contracts state only the exception, not
  that partial state.
- BlissFigure.ViabilityResidual: requires a non-zero control reading
  `frame[0, 0]`. numpy would divide by zero and continue with inf/NaN.
- BlissFigure.CopyOf: the model copies the table (`to_numpy` on a
  single-dtype frame may instead return a view). Writing back through
  `iloc` is `BlissFigure.StoreDifference`.
- Kinetics.TheanoCore: requires GR != 0 and GR + d != 0 for every
  condition, where the source divides by zero and numpy yields inf/NaN.
- GrowthImport.WellFormed: a table is taken to have "Elapsed" as its
  column 1, which the source reads both by name (grmodel/pymcGrowth.py
  lines 182 and 186) and by position (`iloc[:, 1]`, line 193). A file
  without an "Elapsed" column, which raises KeyError at line 182 or 186,
  or with "Elapsed" elsewhere, is not modelled.
- The symbolic (Theano) path of `theanoCore`: it computes the same
  expressions as the numpy path, which is what is modelled.
- Plotting, logging, `performFit`, the driver scripts, and the rest of
  the repository.

## Findings

| source | as written | input that shows it | evidently intended | confidence | as-written member | corrected member |
|---|---|---|---|---|---|---|
| grmodel/GrowthModel.py:56-57 | `liveNum(t)` returns `exp(a - b - c * t)` | `a = 1`, `b = c = 0`, `t = 0`: the live column reads `exp(1)`, while ODEfun's live count there is `exp(0) = 1` | `exp((a - b - c) * t)`, the live count ODEfun's right-hand side is integrated against (line 32) | medium; not executed | LegacyGrowth.SimulateAsWrittenStart | LegacyGrowth.SimulateLive |
