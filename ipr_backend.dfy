/**
 * Dia_4/backend.py: `CalculadoraIPR.generar_tabla`, which raises ValueError for an unknown curve,
 * and `ProcesadorExcel.cargar_y_calcular`, whose formula block turns a missing column into
 * ValueError before the last complete row is selected.
 */
module IprBackend {
  import opened Wrappers
  import opened IprErrors
  import opened Extremes
  import opened Interpolation
  import opened IprCurves
  import opened IprTable
  import opened WellFrame

  /** `nombre_curva`'s default. */
  const DefaultCurve: string := "Curva 0.85"

  /**
   * `valor_interseccion = y_ref[-1]`: the ordinate of the sorted curve's last point, which is
   * the point with the largest Pwf/Pws.
   */
  function ForcedAsWritten(name: string): real
    requires name in Curves
  {
    SortedCurve(name)[5].y
  }

  /** The value the comment describes, the curve's ordinate at Pwf/Pws near 0: `y_ref[0]`. */
  function ForcedIntended(name: string): real
    requires name in Curves
  {
    SortedCurve(name)[0].y
  }

  /**
   * `generar_tabla`: an unknown name (or an empty curve) raises ValueError before any table is
   * built; otherwise the table over the sorted curve with the last fraction forced to `y_ref[-1]`.
   */
  method GenerateTable(test: WellTest, name: string := DefaultCurve) returns (r: Result<Ipr, IprError>)
    requires test.pws != 0.0
    ensures name !in Curves <==> r == Failure(CurveNotFound(name))
    ensures name in Curves ==> r.Success? && IsTable(test, SortedCurve(name), ForcedAsWritten(name), r.value)
  {
    var curva := if name in Curves then Curves[name] else [];
    if |curva| == 0 {
      return Failure(CurveNotFound(name));
    }
    var curvaOrd := SortedCurve(name);
    var yRef := Ordinates(curvaOrd);
    var t := BuildTable(test, curvaOrd, yRef[|yRef| - 1]);
    return Success(t);
  }

  /** `generar_tabla` with the last fraction forced to the curve's value at Pwf/Pws near 0. */
  method GenerateTableCorrected(test: WellTest, name: string := DefaultCurve) returns (r: Result<Ipr, IprError>)
    requires test.pws != 0.0
    ensures name !in Curves <==> r == Failure(CurveNotFound(name))
    ensures name in Curves ==> r.Success? && IsTable(test, SortedCurve(name), ForcedIntended(name), r.value)
  {
    var curva := if name in Curves then Curves[name] else [];
    if |curva| == 0 {
      return Failure(CurveNotFound(name));
    }
    var curvaOrd := SortedCurve(name);
    var yRef := Ordinates(curvaOrd);
    var t := BuildTable(test, curvaOrd, yRef[0]);
    return Success(t);
  }

  // ---------------------------------------------------------------------------------------
  // The forced last row.

  /**
   * As written, the forced fraction is the curve's smallest one, that of its first-listed
   * point (the largest Pwf/Pws), not the fraction at Pwf/Pws = 0.
   */
  lemma ForcedIsCurveMinimum(name: string)
    requires name in Curves
    ensures ForcedAsWritten(name) == Lowest(Ordinates(SortedCurve(name)))
    ensures ForcedAsWritten(name) == Curves[name][0].y
  {
    SortedCurveFacts(name);
  }

  /**
   * On the default curve the row Pwf = 0 gets Qo/Qmax 0.00579279, where the curve itself
   * gives 0.992551 at Pwf/Pws = 0.
   */
  lemma ForcedRowAsWritten(test: WellTest, t: Ipr)
    requires test.pws != 0.0
    requires IsTable(test, SortedCurve(DefaultCurve), ForcedAsWritten(DefaultCurve), t)
    ensures t.table[6].pwfPws == 0.0
    ensures t.table[6].qoQomax == 0.00579279
    ensures Interp(t.table[6].pwfPws, SortedCurve(DefaultCurve)) == 0.992551
  {
    var pts := SortedCurve(DefaultCurve);
    LastRowForced(test, pts, ForcedAsWritten(DefaultCurve), t);
    SortedCurveFacts(DefaultCurve);
    assert Curves[DefaultCurve] == Curve085;
    assert pts[5] == Curve085[0] && pts[0] == Curve085[5];
    InterpAtZero(pts);
  }

  /**
   * Corrected, the row Pwf = 0 gets the curve's own value at Pwf/Pws = 0, its largest fraction,
   * so every row of the table lies on the curve.
   */
  lemma ForcedRowCorrected(name: string, test: WellTest, t: Ipr)
    requires name in Curves && test.pws != 0.0
    requires IsTable(test, SortedCurve(name), ForcedIntended(name), t)
    ensures t.table[6].qoQomax == Highest(Ordinates(SortedCurve(name)))
    ensures forall i :: 0 <= i < |t.table| ==> t.table[i].qoQomax == Interp(t.table[i].pwfPws, SortedCurve(name))
  {
    var pts := SortedCurve(name);
    LastRowForced(test, pts, ForcedIntended(name), t);
    SortedCurveFacts(name);
    CurvesShape(name);
    assert pts[0] == Curves[name][5];
    InterpAtZero(pts);
  }

  // ---------------------------------------------------------------------------------------
  // cargar_y_calcular

  /**
   * What `cargar_y_calcular` leaves in `self.df` and what it returns, from the loaded frame: the
   * four formula stages in order, the first missing column of a stage raising ValueError with
   * the frame as far as it got, then the filter and the selection.
   */
  function Calculate(f0: Frame): (Frame, Result<Option<Row>, IprError>)
    requires f0.WellFormed() && FormulasDefined(f0)
  {
    var missing := FirstMissing(f0, MidpointInputs);
    if missing.Some? then (f0, Failure(MissingColumn(missing.value)))
    else CalculateFromPws(AddMidpoint(f0))
  }

  function CalculateFromPws(f1: Frame): (Frame, Result<Option<Row>, IprError>)
    requires f1.WellFormed() && FormulasDefined(f1) && ColMidpoint in f1.data
  {
    var missing := FirstMissing(f1, PwsInputs);
    if missing.Some? then (f1, Failure(MissingColumn(missing.value)))
    else CalculateFromGradient(AddPws2010(f1))
  }

  function CalculateFromGradient(f2: Frame): (Frame, Result<Option<Row>, IprError>)
    requires f2.WellFormed() && FormulasDefined(f2) && ColMidpoint in f2.data && ColPws2010 in f2.data
  {
    var missing := FirstMissing(f2, GradientInputs);
    if missing.Some? then (f2, Failure(MissingColumn(missing.value)))
    else CalculateFromPwf(AddPwsFinal(f2))
  }

  function CalculateFromPwf(f3: Frame): (Frame, Result<Option<Row>, IprError>)
    requires f3.WellFormed() && FormulasDefined(f3) && ColMidpoint in f3.data
  {
    var missing := FirstMissing(f3, PwfInputs);
    if missing.Some? then (f3, Failure(MissingColumn(missing.value)))
    else var f4 := AddPwfFinal(f3); (f4, SelectLastValid(f4))
  }

  /**
   * The stages read the inputs in the order listed, so the first input missing from the sheet
   * is the one reported.
   */
  lemma CalculateReportsFirstMissing(f0: Frame)
    requires f0.WellFormed() && FormulasDefined(f0)
    ensures FirstMissing(f0, AllInputs).Some? ==>
      Calculate(f0).1 == Failure(MissingColumn(FirstMissing(f0, AllInputs).value))
  {
    GroupsNotComputed();
    FirstMissingAppend(f0, MidpointInputs + PwsInputs + GradientInputs, PwfInputs);
    FirstMissingAppend(f0, MidpointInputs + PwsInputs, GradientInputs);
    FirstMissingAppend(f0, MidpointInputs, PwsInputs);
    if FirstMissing(f0, MidpointInputs).None? {
      var f1 := AddMidpoint(f0);
      FirstMissingSameKeys(f0, f1, PwsInputs);
      if FirstMissing(f1, PwsInputs).None? {
        var f2 := AddPws2010(f1);
        FirstMissingSameKeys(f0, f2, GradientInputs);
        if FirstMissing(f2, GradientInputs).None? {
          FirstMissingSameKeys(f0, AddPwsFinal(f2), PwfInputs);
        }
      }
    }
  }

  /** With every input present the four stages all run, then the selection. */
  lemma CalculateRunsAllStages(f0: Frame)
    requires f0.WellFormed() && FormulasDefined(f0) && HasInputs(f0)
    ensures Calculate(f0) == (AllStages(f0), SelectLastValid(AllStages(f0)))
  {
    HasInputsNoneMissing(f0);
    GroupsNotComputed();
    FirstMissingAppend(f0, MidpointInputs + PwsInputs + GradientInputs, PwfInputs);
    FirstMissingAppend(f0, MidpointInputs + PwsInputs, GradientInputs);
    FirstMissingAppend(f0, MidpointInputs, PwsInputs);
    var f1 := AddMidpoint(f0);
    FirstMissingSameKeys(f0, f1, PwsInputs);
    var f2 := AddPws2010(f1);
    FirstMissingSameKeys(f0, f2, GradientInputs);
    FirstMissingSameKeys(f0, AddPwsFinal(f2), PwfInputs);
  }

  /** With every input present but no `Qo (BPD)` column, the filter raises KeyError. */
  lemma CalculateWithoutRate(f0: Frame)
    requires f0.WellFormed() && FormulasDefined(f0) && HasInputs(f0) && ColQo !in f0.data
    ensures Calculate(f0).1 == Failure(KeyError(ColQo))
  {
    CalculateRunsAllStages(f0);
    AllStagesKeep(f0);
    InputsNotComputed();
  }

  /**
   * With every input and `Qo (BPD)` present the result is the last row whose Pws_Final,
   * Pwf_Final and Qo, computed from the sheet, are all present, or None when no row has them.
   */
  lemma CalculateSelectsLastTestRow(f0: Frame)
    requires f0.WellFormed() && FormulasDefined(f0) && HasInputs(f0) && ColQo in f0.data
    ensures Calculate(f0).1.Success?
    ensures Calculate(f0).1.value.None? <==> forall i :: 0 <= i < f0.rows ==> !TestRowAt(f0, i)
    ensures Calculate(f0).1.value.Some? ==>
      var row := Calculate(f0).1.value.value;
      && row.index < f0.rows && TestRowAt(f0, row.index)
      && (forall j :: row.index < j < f0.rows ==> !TestRowAt(f0, j))
      && ColPwsFinal in row.cells && row.cells[ColPwsFinal] == PwsAt(f0, row.index)
      && ColPwfFinal in row.cells && row.cells[ColPwfFinal] == PwfAt(f0, row.index)
      && ColQo in row.cells && row.cells[ColQo] == f0.data[ColQo][row.index]
  {
    CalculateRunsAllStages(f0);
    AllStagesSelect(f0);
    if Calculate(f0).1.value.Some? {
      AllStagesSelectedRow(f0, Calculate(f0).1.value.value);
    }
  }

  class ExcelProcessor {
    /** The workbook, already read: its first usable sheet. */
    const archivo: Sheet
    var df: Option<Frame>

    constructor(archivo: Sheet)
      ensures this.archivo == archivo && df == None
    {
      this.archivo := archivo;
      df := None;
    }

    /** Loads the sheet, adds the computed columns one by one to `df`, and selects the row. */
    method LoadAndCalculate() returns (r: Result<Option<Row>, IprError>)
      requires archivo.WellFormed() && DistinctStripped(archivo.header)
      requires FormulasDefined(Load(archivo))
      modifies this
      ensures df == Some(Calculate(Load(archivo)).0)
      ensures r == Calculate(Load(archivo)).1
    {
      df := Some(Load(archivo));
      ghost var outcome := Calculate(df.value);
      var missing := FirstMissing(df.value, MidpointInputs);
      if missing.Some? {
        return Failure(MissingColumn(missing.value));
      }
      df := Some(AddMidpoint(df.value));
      assert outcome == CalculateFromPws(df.value);
      missing := FirstMissing(df.value, PwsInputs);
      if missing.Some? {
        return Failure(MissingColumn(missing.value));
      }
      df := Some(AddPws2010(df.value));
      assert outcome == CalculateFromGradient(df.value);
      missing := FirstMissing(df.value, GradientInputs);
      if missing.Some? {
        return Failure(MissingColumn(missing.value));
      }
      df := Some(AddPwsFinal(df.value));
      assert outcome == CalculateFromPwf(df.value);
      missing := FirstMissing(df.value, PwfInputs);
      if missing.Some? {
        return Failure(MissingColumn(missing.value));
      }
      df := Some(AddPwfFinal(df.value));
      r := SelectLastValid(df.value);
    }
  }
}
