# Geopressure divergence and IPR tables, modelled in Dafny

This project models two small numeric pipelines from a petroleum-engineering toolkit.

**The geopressure divergence method** (`DivergenceAnalysis`, Dia_2/divergence_model.py).
A well log gives a depth, a compressional transit time DTC and a mud weight MW per sample.
`run_analysis` runs eight stages, each adding columns to a results table:
velocity, Gardner density, Troughton density, overburden stress and its gradient, the
forward moving average of DTC over up to 101 samples, the Athy normal-compaction trend, the
running-maximum divergence ratio with its factor and the shale trend, Eaton pore pressure with
its calibration to mud weight, and fracture pressure. The model is the class
`DivergenceModel.DivergenceAnalysis`, whose stage methods update a `results` map and a
`columns` order in place. The two loops of the source (the moving average and the ratchet) are
the methods `Trends.ForwardMovingAverage` and `Trends.Ratchet`. `DivergenceModel.Expected` states
the whole table as a function of the inputs; the lemmas beside it state what the table means.

**The IPR (inflow performance relationship) tool** (Dia_4/backend.py and its variant
Dia_4/codigos_ipr.py). `ProcesadorExcel.cargar_y_calcular` strips the header names of a well-test
sheet, computes four formula columns (the perforation midpoint, the static pressure `Pws_Final`
by a three-point extrapolation plus a gradient over the years, and the flowing pressure
`Pwf_Final` by a line through two survey points), and returns the last row whose Pws, Pwf and
Qo are all present. `CalculadoraIPR.generar_tabla` looks the test's Pwf/Pws up on one of five
digitised dimensionless curves (`DatosCurvas.CURVAS`) by clamped piecewise-linear
interpolation (numpy's `interp`), derives the well's maximum rate `qo_z`, and builds a
seven-row table at fixed flowing pressures whose last fraction is overwritten. The two files
differ in their errors: backend.py turns a missing formula column into ValueError and an unknown
curve into ValueError; codigos_ipr.py fills a missing block's column with NaN, and an unknown
curve raises KeyError.

Modelling choices:
- Floating-point numbers are Dafny `real`s.
- numpy's exp, log and fractional power are the arrows of `Transcendental.Transcendentals`.
  The proofs use only the facts in its `Sound()`: exp is positive, a power of a non-negative base
  is non-negative, a power of 1 is 1, and a positive power of 0 is 0 (numpy gives `0 ** 0.5 == 0`).
- A spreadsheet cell is `Option<real>`, with None standing for NaN. A missing DataFrame column is
  a key absent from the frame's map.
- Exceptions are `Result` failures: `IprErrors.IprError` for the IPR tool, and
  `DivergenceModel.AnalysisError` for the IndexError `run_analysis` raises on an empty table.

## Model

| member | source | states |
|---|---|---|
| Geopressure.Velocity | Dia_2/divergence_model.py:72-74 | Vp is positive and Vp times DTC is 304878.05 |
| Geopressure.GardnerDensity | Dia_2/divergence_model.py:76-78 | the Gardner density of a non-negative velocity is non-negative |
| Geopressure.TroughtonBase | Dia_2/divergence_model.py:92-96 | the base is non-negative, at least Depth - z, and equal to 0 or to Depth - z: it is max(Depth - z, 0) |
| Geopressure.TroughtonDensity | Dia_2/divergence_model.py:100 | with k >= 0 the density is at least po; where Depth <= z (and c > 0) it is exactly po |
| Geopressure.Overburden | Dia_2/divergence_model.py:110-115 | SV is non-negative for non-negative po, k, depth and c > -1 |
| Geopressure.OverburdenGradient | Dia_2/divergence_model.py:116 | GSV times Depth times 1.422 gives back SV |
| Geopressure.NormalTrend | Dia_2/divergence_model.py:132-134 | the Athy trend DTN is positive |
| Geopressure.DivergenceFactor | Dia_2/divergence_model.py:157-159 | the factor is 1.0 where Depth <= prf and the ratchet value where Depth > prf |
| Geopressure.PorePressure | Dia_2/divergence_model.py:172 | Eaton gives ppn where DTSH equals DTN, and never exceeds a gradient GSV >= ppn |
| Geopressure.CalibratedPorePressure | Dia_2/divergence_model.py:177-181 | the uncalibrated value where Depth < ms, exactly MW - 0.03 where Depth >= ms |
| Geopressure.FracturePressure | Dia_2/divergence_model.py:196 | (1 - v)(Pf - Pp) = v(GSV - Pp); with 0 <= v <= 1/2, Pf lies between Pp and GSV |
| Geopressure.ParamVFraction | Dia_2/divergence_model.py:196 | for 0 <= v <= 1/2 the factor v/(1 - v) lies in [0, 1] |
| Trends.WindowEnd | Dia_2/divergence_model.py:126 | the window end lies after i and within n, and the window holds min(101, n - i) samples |
| Trends.MeanBounds | Dia_2/divergence_model.py:127 | a mean lies between any bounds of its samples |
| Trends.MeanWithinExtremes | Dia_2/divergence_model.py:127 | a mean lies between the smallest and the largest sample |
| Trends.MeanPositive | Dia_2/divergence_model.py:127 | the mean of positive samples is positive |
| Trends.ForwardMeanWindow | Dia_2/divergence_model.py:122-128 | the window at row i holds min(101, n - i) samples, and the last row's mean is its own DTC |
| Trends.ForwardMovingAverage | Dia_2/divergence_model.py:122-128 | the loop yields one value per row, the mean of dtc[i .. min(i + 101, n)) |
| Trends.RunningMaxIsMaximum | Dia_2/divergence_model.py:146-151 | the running maximum up to i bounds every ratio up to i and equals one of them |
| Trends.RunningMaxMonotone | Dia_2/divergence_model.py:146-151 | the running maximum never decreases |
| Trends.Ratchet | Dia_2/divergence_model.py:145-151 | the loop starts at ratios[0], is the running maximum, bounds every earlier ratio, equals one of them and never decreases |
| DivergenceModel.ShaleTrendPositive | Dia_2/divergence_model.py:145-172 | every DTSH is positive, so the Eaton quotient DTN/DTSH is always defined |
| DivergenceModel.OneRowPerInputRow | Dia_2/divergence_model.py:56-70 | every column of the table has one value per input row, and Depth, DTC and MW are the inputs unchanged |
| DivergenceModel.SmoothedTransitTime | Dia_2/divergence_model.py:122-128 | DTC_Prom[i] is the mean of its window of min(101, n - i) samples, lies within the window's range, and is the last DTC on the last row |
| DivergenceModel.DivergenceRatchet | Dia_2/divergence_model.py:145-153 | Div_DT_Ratio starts at the first ratio, never decreases, bounds every ratio up to its row and equals one of them |
| DivergenceModel.RatchetOfRatios | Dia_2/divergence_model.py:145-151 | the same running-maximum facts for a ratchet over DTC_Prom/DTN |
| DivergenceModel.DivergenceFactorSwitch | Dia_2/divergence_model.py:157-159 | Div_Factor is 1.0 where Depth <= prf and Div_DT_Ratio where Depth > prf |
| DivergenceModel.ShaleTrendScalesNormal | Dia_2/divergence_model.py:163 | DTSH = Div_Factor times DTN on every row |
| DivergenceModel.TroughtonClamp | Dia_2/divergence_model.py:92-100 | Rho_Trougott uses max(Depth - z, 0), equals po where Depth <= z = ta + rkb (and c > 0), and is at least po when k >= 0 |
| DivergenceModel.PorePressureSwitches | Dia_2/divergence_model.py:157-181 | Pp_Cal is Pp_Uncal where Depth < ms and MW - 0.03 where Depth >= ms; at Depth <= prf, DTSH = DTN and Pp_Uncal = ppn |
| DivergenceModel.FractureFromUncalibrated | Dia_2/divergence_model.py:189-197 | Param_V = 0.0645 ln(Depth) - 0.067 and Pf = Pp_Uncal + v/(1 - v)(GSV - Pp_Uncal) |
| DivergenceModel.FractureIgnoresMudWeight | Dia_2/divergence_model.py:183-197 | changing MW at a row with Depth >= ms changes its Pp_Cal but leaves the whole Pf column unchanged |
| DivergenceModel.ColumnsAfterDistinct | Dia_2/divergence_model.py:60-70 | assigning stage columns never makes a column name appear twice |
| DivergenceModel.ColumnOrder | Dia_2/divergence_model.py:56-70 | a first run appends the fourteen stage columns after Depth, DTC and MW in stage order; a second run keeps that order |
| DivergenceModel.DivergenceAnalysis.constructor | Dia_2/divergence_model.py:6-58 | the parameters with their defaults, z = ta + rkb, the first three sheet columns as Depth, DTC and MW, and a table of those three columns |
| DivergenceModel.DivergenceAnalysis.CalculateVp | Dia_2/divergence_model.py:72-74 | adds the Vp column and changes nothing else |
| DivergenceModel.DivergenceAnalysis.CalculateGardnerDensity | Dia_2/divergence_model.py:76-78 | adds Rho_Gardner from the table's Vp column |
| DivergenceModel.DivergenceAnalysis.CalculateTrougottDensity | Dia_2/divergence_model.py:80-100 | adds Rho_Trougott over the clamped base |
| DivergenceModel.DivergenceAnalysis.CalculateOverburden | Dia_2/divergence_model.py:102-116 | adds SV, then GSV from that SV |
| DivergenceModel.DivergenceAnalysis.CalculateTrends | Dia_2/divergence_model.py:118-134 | adds DTC_Prom from the moving-average loop, then DTN |
| DivergenceModel.DivergenceAnalysis.CalculateDivergence | Dia_2/divergence_model.py:136-163 | fails on an empty table with nothing assigned; otherwise adds the ratchet, the factor and DTSH from the table's DTC_Prom and DTN |
| DivergenceModel.DivergenceAnalysis.CalculatePorePressure | Dia_2/divergence_model.py:165-181 | adds Pp_Uncal from the table's GSV, DTN and DTSH, then Pp_Cal |
| DivergenceModel.DivergenceAnalysis.CalculateFracturePressure | Dia_2/divergence_model.py:183-197 | adds Param_V, then Pf from the table's Pp_Uncal and GSV |
| DivergenceModel.DivergenceAnalysis.RunAnalysis | Dia_2/divergence_model.py:60-70 | on a non-empty log the results are exactly Expected of the inputs, whatever an earlier run left, with the columns in stage order; an empty log fails with IndexError after the first five stages |
| Interpolation.InsertPermutes | Dia_4/backend.py:83 | inserting a point adds exactly that point |
| Interpolation.InsertSorted | Dia_4/backend.py:83 | inserting into a sorted sequence keeps it sorted |
| Interpolation.SortByXSorts | Dia_4/backend.py:83 | `sorted(curva, key=x)` is ascending by x and a permutation of the curve |
| Interpolation.SortDescending | Dia_4/backend.py:83 | a curve listed right to left is sorted by reversing it |
| Interpolation.InterpClamps | Dia_4/backend.py:88 | left of the first point the value is y_ref[0]; at or right of the last point it is y_ref[-1] |
| Interpolation.InterpBetween | Dia_4/backend.py:102 | between neighbouring points the value is their linear piece |
| Interpolation.InterpAtPoint | Dia_4/backend.py:102 | at a point with no other point on its abscissa to its right, the value is that point's ordinate |
| Interpolation.InterpBounded | Dia_4/backend.py:102 | bounds on every ordinate bound the interpolated value |
| Interpolation.InterpWithinRange | Dia_4/backend.py:88 | the interpolated value lies within the curve's range of ordinates |
| Interpolation.SegmentBetween | Dia_4/backend.py:102 | strictly inside a segment the linear piece lies between the two ordinates' bounds |
| IprCurves.CurvesShape | Dia_4/backend.py:14-55 | every curve has six points listed from the largest Pwf/Pws down, with Pwf/Pws in (0, 1] and rising fractions in [0, 1] |
| IprCurves.SortedCurveFacts | Dia_4/backend.py:83-85 | after the sort a curve is its listing reversed; y_ref[0] is its largest fraction and y_ref[-1] its smallest |
| IprCurves.SortedCurve | Dia_4/backend.py:83 | `curva_ord` has six points sorted ascending by x |
| IprTable.MaxRate | Dia_4/backend.py:92 | qo_z is 0 when z is 0, and otherwise qo_z times z is the test rate |
| IprTable.BuildTable | Dia_4/backend.py:94-117 | the seven rows at the fixed pressures with Pwf/Pws = Pwf/pws, interpolated fractions except the forced last one, and Qo = fraction times qo_z |
| IprTable.MaxRateReproducesTest | Dia_4/backend.py:92 | z times qo_z gives back the test rate, and every Qo is 0 when z is 0 |
| IprTable.StepRatios | Dia_4/backend.py:99 | each step's Pwf/Pws times Pws is the step's Pwf |
| IprTable.FractionsWithinCurve | Dia_4/backend.py:88-102 | z and every unforced fraction lie within the curve's range |
| IprTable.LastRowForced | Dia_4/backend.py:107-112 | the last row is Pwf = 0 with Pwf/Pws = 0, and its fraction is the forced one |
| IprTable.InterpAtZero | Dia_4/backend.py:102 | left of a curve that starts right of 0, the value at 0 is the curve's first ordinate |
| IprBackend.GenerateTable | Dia_4/backend.py:64-117 | an unknown curve name raises ValueError and nothing else does; a known one gives the table over the sorted curve with the last fraction forced to y_ref[-1] |
| IprBackend.GenerateTableCorrected | Dia_4/backend.py:104-112 | the same table with the last fraction forced to the curve's value at Pwf/Pws near 0 |
| IprBackend.ForcedIsCurveMinimum | Dia_4/backend.py:107-109 | y_ref[-1] is the curve's smallest fraction, that of its point with the largest Pwf/Pws |
| IprBackend.ForcedRowAsWritten | Dia_4/backend.py:107-112 | on Curva 0.85 the row Pwf = 0 gets 0.00579279, where the curve gives 0.992551 at Pwf/Pws = 0 |
| IprBackend.ForcedRowCorrected | Dia_4/backend.py:104-112 | corrected, the last fraction is the curve's largest, and every row lies on the curve |
| IprBackend.CalculateReportsFirstMissing | Dia_4/backend.py:173-198 | a missing formula column raises ValueError naming the first one Python looks up |
| IprBackend.CalculateRunsAllStages | Dia_4/backend.py:173-194 | with every input present, the four formula stages all run, then the selection |
| IprBackend.CalculateWithoutRate | Dia_4/backend.py:202 | with every formula input present but no `Qo (BPD)` column, dropna raises KeyError |
| IprBackend.CalculateSelectsLastTestRow | Dia_4/backend.py:200-210 | None exactly when no row has Pws, Pwf and Qo present; otherwise the last such row, with the cells the formulas give |
| IprBackend.ExcelProcessor.constructor | Dia_4/backend.py:128-133 | the workbook is kept and `df` starts empty |
| IprBackend.ExcelProcessor.LoadAndCalculate | Dia_4/backend.py:135-210 | `df` ends as the frame the stages reached and the result is the selection or the error |
| WellFrame.StripSlice | Dia_4/backend.py:149 | a stripped name is a slice of the name with only whitespace cut away, and begins and ends with a non-space |
| WellFrame.StripIdempotent | Dia_4/backend.py:149 | stripping twice strips nothing more |
| WellFrame.Load | Dia_4/backend.py:149 | the loaded frame is well formed with the sheet's rows |
| WellFrame.LoadColumns | Dia_4/backend.py:149 | each sheet column appears under its stripped name, and the frame has no other column |
| WellFrame.FirstMissing | Dia_4/backend.py:173-198 | None means every name is present; otherwise a name of the list absent from the frame |
| WellFrame.FirstMissingIsFirst | Dia_4/backend.py:173-198 | the reported name is absent and every name before it is present |
| WellFrame.FirstMissingIgnoresOthers | Dia_4/backend.py:173-198 | adding a column not searched for leaves the reported name unchanged |
| WellFrame.FirstMissingAppend | Dia_4/backend.py:173-198 | over two lists the first list is searched first |
| WellFrame.MidpointHalfway | Dia_4/backend.py:175 | the midpoint is present exactly when a1 and a2 are, and lies halfway between them |
| WellFrame.Pws2010OnLine | Dia_4/backend.py:179-182 | pws_2010 is present exactly when its five inputs are, and lies on the line through (x1, y1) and (x2, y2) at x3 |
| WellFrame.ThreePointLine | Dia_4/backend.py:179-182 | the three-point value lies on that line: y2 at x3 = x2 and y1 at x3 = x1 |
| WellFrame.PwsFinalPresence | Dia_4/backend.py:185-186 | Pws_Final is present exactly when pws_2010, the gradient and the years are, and is their sum and product |
| WellFrame.PwfOnLine | Dia_4/backend.py:191-194 | Pwf_Final is present exactly when its inputs are, and lies on the line through (X1, Y1) and (X2, Y2): Y1 at X1 and Y2 at X2 |
| WellFrame.LastCompleteIsLast | Dia_4/backend.py:202-208 | None exactly when no row is complete; otherwise the chosen row is complete and no later row is |
| WellFrame.SelectedRowIsLastComplete | Dia_4/backend.py:200-210 | the selection is the last row with Pws_Final, Pwf_Final and Qo present, or None when there is none |
| WellFrame.AddMidpoint | Dia_4/backend.py:175 | adds exactly the midpoint column |
| WellFrame.AddPws2010 | Dia_4/backend.py:179-182 | adds exactly the pws_2010 column |
| WellFrame.AddPwsFinal | Dia_4/backend.py:185-186 | adds exactly Gradiente_Anos and Pws_Final |
| WellFrame.AddPwfFinal | Dia_4/backend.py:191-194 | adds exactly Pwf_Final |
| WellFrame.HasInputsNoneMissing | Dia_4/backend.py:173-198 | every formula input is present exactly when no input is missing |
| WellFrame.AllStagesKeep | Dia_4/backend.py:173-194 | the stages add exactly the five computed columns and leave every other column as it was |
| WellFrame.AllStagesColumns | Dia_4/backend.py:173-194 | the computed midpoint, Pws_Final and Pwf_Final of each row are the row formulas over that row's inputs |
| WellFrame.AllStagesComplete | Dia_4/backend.py:173-202 | a computed row is complete exactly when its Pws, Pwf and Qo from the sheet are all present |
| WellFrame.AllStagesSelect | Dia_4/backend.py:200-210 | the selection succeeds, and is None exactly when no row has all three values |
| WellFrame.AllStagesSelectedRow | Dia_4/backend.py:200-210 | the selected row has all three values, no later row has, and its cells are the formulas' values |
| WellFrame.AssignNaN | Dia_4/codigos_ipr.py:95 | `df[name] = np.nan` adds exactly that column |
| WellFrame.NoneSelected | Dia_4/codigos_ipr.py:118-132 | with Pws_Final or Pwf_Final NaN throughout, no row is selected |
| IprScript.GenerateTable | Dia_4/codigos_ipr.py:140-183 | an unknown curve name raises KeyError and nothing else does; a known one gives the backend's table |
| IprScript.GenerateTableCorrected | Dia_4/codigos_ipr.py:172-175 | the same table with the last fraction forced to the curve's value at Pwf/Pws near 0 |
| IprScript.GuardPws | Dia_4/codigos_ipr.py:88-95 | adds exactly pws_2010, computed or NaN |
| IprScript.GuardPwsFinal | Dia_4/codigos_ipr.py:98-102 | adds Pws_Final, and Gradiente_Anos only where the gradient inputs exist |
| IprScript.GuardPwf | Dia_4/codigos_ipr.py:106-115 | adds exactly Pwf_Final, computed or NaN |
| IprScript.AgreesWithBackend | Dia_4/codigos_ipr.py:84-115 | with every input present the variant computes what the backend does; without a1 or a2 both stop at once, with KeyError here and ValueError there |
| IprScript.MissingInputSelectsNothing | Dia_4/codigos_ipr.py:88-132 | with a1, a2 and Qo present but some other input missing, no row is selected |
| IprScript.PwsBlockFails | Dia_4/codigos_ipr.py:88-102 | a missing pws or gradient input leaves Pws_Final NaN throughout, so no row is selected |
| IprScript.PwfBlockFails | Dia_4/codigos_ipr.py:106-115 | a missing X or Y input leaves Pwf_Final NaN throughout, so no row is selected |
| IprScript.PwsFinalAllNaN | Dia_4/codigos_ipr.py:98-102 | with pws_2010 NaN throughout or a gradient input missing, Pws_Final is NaN throughout |
| IprScript.ExcelProcessor.constructor | Dia_4/codigos_ipr.py:58-60 | the path is kept and `df` starts empty |
| IprScript.ExcelProcessor.LoadAndCalculate | Dia_4/codigos_ipr.py:62-132 | `df` ends as the frame the blocks produced and the result is the selection or the KeyError |

## Left out

- Reading the workbook (`pd.read_excel`, the `Hoja1` fallback and the ValueError wrapping a read failure): the model starts from a sheet already read, as its header names and numeric cells.
- Console printing in codigos_ipr.py, matplotlib plotting (`graficar`) and the user interface that picks the curve and passes the selected row on.
- IEEE-754 rounding, infinities and NaN arithmetic: values are reals, and NaN is an absent cell. Non-numeric cells are treated like empty ones.
- The actual values of exp, ln and power: only the facts in `Transcendentals.Sound()` are used.
- Divisions by zero, which give infinities or NaN in numpy, are excluded by preconditions instead: DTC > 0 and Depth > 0, `v != 1`, `dtco > 0` and `c != -1` (in `Admissible` and `Params.WellDefined`), `pws != 0` for the table, and `x2 != x1` or `X2 != X1` wherever a row has those inputs (`WellFrame.FormulasDefined`).
- Duplicate header names after stripping: `WellFrame.Load` requires them distinct, since pandas then has two columns under one label.
- The column order of the IPR frames, and the `faltantes` list backend.py builds but never uses.
- WellFrame.SelectLastValid: when several of the dropna subset columns are missing, pandas's KeyError lists them all; the model reports `Qo (BPD)`, the only one that can be missing there.
- Interpolation.Interp: numpy's behaviour on two points with the same abscissa is not modelled, and none of the five curves has any.
- DivergenceModel.DivergenceAnalysis.Valid: it does not hold the distinctness of the column names; `ColumnsAfterDistinct` proves it for the stage order instead.
- The text accompanying the divergence method reads the calibration boundary two ways; the model follows the code: `MW - 0.03` wherever Depth >= ms (Dia_2/divergence_model.py:177-181).
- `generar_tabla` reads Pws, Pwf and Qo from the selected row; the model takes them as a `WellTest` of three numbers.

## Findings

| source | as written | input that shows it | evidently intended | confidence | as-written member | corrected member |
|---|---|---|---|---|---|---|
| Dia_4/backend.py:107-112 | the last row (Pwf = 0) gets `y_ref[-1]`, which after the ascending sort is the fraction at the largest Pwf/Pws, the curve's smallest | default curve "Curva 0.85", any test with Pws != 0: the row Pwf = 0 gets Qo/Qmax 0.00579279, while the curve gives 0.992551 at Pwf/Pws = 0 | the curve's value at Pwf/Pws near 0, its maximum, as the comments say: `y_ref[0]` | not executed | IprBackend.ForcedRowAsWritten | IprBackend.ForcedRowCorrected |
| Dia_4/codigos_ipr.py:174-175 | the same `y_ref[-1]` override | default curve "Curva 0.85": the row Pwf = 0 gets 0.00579279 instead of 0.992551 | `y_ref[0]`, the maximum the comment names | not executed | IprScript.GenerateTable | IprScript.GenerateTableCorrected |
