/**
 * Dia_4/codigos_ipr.py, the script version of the IPR tool: `generar_tabla` looks the curve up
 * with `CURVAS[nombre_curva]`, so an unknown name raises KeyError; `cargar_y_calcular` computes
 * the midpoint unguarded and each later formula inside its own `try`, assigning NaN when one of
 * its columns is missing.
 */
module IprScript {
  import opened Wrappers
  import opened IprErrors
  import opened Interpolation
  import opened IprCurves
  import opened IprTable
  import opened WellFrame
  import IprBackend

  /** `generar_tabla`: the same table as the backend's; an unknown name raises KeyError. */
  method GenerateTable(test: WellTest, name: string := IprBackend.DefaultCurve) returns (r: Result<Ipr, IprError>)
    requires test.pws != 0.0
    ensures name !in Curves <==> r == Failure(KeyError(name))
    ensures name in Curves ==> r.Success? && IsTable(test, SortedCurve(name), IprBackend.ForcedAsWritten(name), r.value)
  {
    if name !in Curves {
      return Failure(KeyError(name));
    }
    var curvaOrd := SortedCurve(name);
    var yRef := Ordinates(curvaOrd);
    var t := BuildTable(test, curvaOrd, yRef[|yRef| - 1]);
    return Success(t);
  }

  /** `generar_tabla` with the last fraction forced to the curve's value at Pwf/Pws near 0. */
  method GenerateTableCorrected(test: WellTest, name: string := IprBackend.DefaultCurve) returns (r: Result<Ipr, IprError>)
    requires test.pws != 0.0
    ensures name !in Curves <==> r == Failure(KeyError(name))
    ensures name in Curves ==> r.Success? && IsTable(test, SortedCurve(name), IprBackend.ForcedIntended(name), r.value)
  {
    if name !in Curves {
      return Failure(KeyError(name));
    }
    var curvaOrd := SortedCurve(name);
    var yRef := Ordinates(curvaOrd);
    var t := BuildTable(test, curvaOrd, yRef[0]);
    return Success(t);
  }

  // ---------------------------------------------------------------------------------------
  // cargar_y_calcular

  /** Block B: `pws_2010`, or NaN when one of its five columns is missing. */
  function GuardPws(f1: Frame): (f2: Frame)
    requires f1.WellFormed() && FormulasDefined(f1)
    ensures f2.WellFormed() && f2.rows == f1.rows && FormulasDefined(f2)
    ensures f2.data.Keys == f1.data.Keys + {ColPws2010}
  {
    if FirstMissing(f1, PwsInputs).None? then AddPws2010(f1) else AssignNaN(f1, ColPws2010)
  }

  /** Block C: `Gradiente_Anos` and `Pws_Final`, or only `Pws_Final` as NaN when an input is missing. */
  function GuardPwsFinal(f2: Frame): (f3: Frame)
    requires f2.WellFormed() && FormulasDefined(f2) && ColPws2010 in f2.data
    ensures f3.WellFormed() && f3.rows == f2.rows && FormulasDefined(f3)
    ensures f2.data.Keys + {ColPwsFinal} <= f3.data.Keys <= f2.data.Keys + {ColGradientYears, ColPwsFinal}
  {
    if FirstMissing(f2, GradientInputs).None? then AddPwsFinal(f2) else AssignNaN(f2, ColPwsFinal)
  }

  /** Block D: `Pwf_Final`, or NaN when one of X1, X2, Y1, Y2 is missing. */
  function GuardPwf(f3: Frame): (f4: Frame)
    requires f3.WellFormed() && FormulasDefined(f3) && ColMidpoint in f3.data
    ensures f4.WellFormed() && f4.rows == f3.rows
    ensures f4.data.Keys == f3.data.Keys + {ColPwfFinal}
  {
    if FirstMissing(f3, PwfInputs).None? then AddPwfFinal(f3) else AssignNaN(f3, ColPwfFinal)
  }

  /**
   * What `cargar_y_calcular` leaves in `self.df` and what it returns: a missing a1 or a2 raises
   * KeyError out of the method; every later block either computes its column or fills it with
   * NaN; then the filter and the selection.
   */
  function Calculate(f0: Frame): (Frame, Result<Option<Row>, IprError>)
    requires f0.WellFormed() && FormulasDefined(f0)
  {
    var missing := FirstMissing(f0, MidpointInputs);
    if missing.Some? then (f0, Failure(KeyError(missing.value)))
    else
      var f4 := GuardPwf(GuardPwsFinal(GuardPws(AddMidpoint(f0))));
      (f4, SelectLastValid(f4))
  }

  class ExcelProcessor {
    /** The workbook, already read: its `Hoja1` sheet or else its first sheet. */
    const ruta: Sheet
    var df: Option<Frame>

    constructor(ruta: Sheet)
      ensures this.ruta == ruta && df == None
    {
      this.ruta := ruta;
      df := None;
    }

    /** Loads the sheet, adds the computed columns one by one to `df`, and selects the row. */
    method LoadAndCalculate() returns (r: Result<Option<Row>, IprError>)
      requires ruta.WellFormed() && DistinctStripped(ruta.header)
      requires FormulasDefined(Load(ruta))
      modifies this
      ensures df == Some(Calculate(Load(ruta)).0)
      ensures r == Calculate(Load(ruta)).1
    {
      df := Some(Load(ruta));
      var missing := FirstMissing(df.value, MidpointInputs);
      if missing.Some? {
        return Failure(KeyError(missing.value));
      }
      df := Some(AddMidpoint(df.value));
      if FirstMissing(df.value, PwsInputs).None? {
        df := Some(AddPws2010(df.value));
      } else {
        df := Some(AssignNaN(df.value, ColPws2010));
      }
      if FirstMissing(df.value, GradientInputs).None? {
        df := Some(AddPwsFinal(df.value));
      } else {
        df := Some(AssignNaN(df.value, ColPwsFinal));
      }
      if FirstMissing(df.value, PwfInputs).None? {
        df := Some(AddPwfFinal(df.value));
      } else {
        df := Some(AssignNaN(df.value, ColPwfFinal));
      }
      r := SelectLastValid(df.value);
    }
  }

  // ---------------------------------------------------------------------------------------
  // The script against the backend.

  /**
   * With every input present the script computes the same frame and makes the same choice as
   * the backend; without a1 or a2 both stop at once on the same column, the script with KeyError
   * where the backend raises ValueError.
   */
  lemma AgreesWithBackend(f0: Frame)
    requires f0.WellFormed() && FormulasDefined(f0)
    ensures HasInputs(f0) ==> Calculate(f0) == IprBackend.Calculate(f0)
    ensures FirstMissing(f0, MidpointInputs).Some? ==>
      && Calculate(f0).0 == IprBackend.Calculate(f0).0 == f0
      && Calculate(f0).1 == Failure(KeyError(FirstMissing(f0, MidpointInputs).value))
      && IprBackend.Calculate(f0).1 == Failure(MissingColumn(FirstMissing(f0, MidpointInputs).value))
  {
    if HasInputs(f0) {
      IprBackend.CalculateRunsAllStages(f0);
      HasInputsNoneMissing(f0);
      GroupsNotComputed();
      FirstMissingAppend(f0, MidpointInputs + PwsInputs + GradientInputs, PwfInputs);
      FirstMissingAppend(f0, MidpointInputs + PwsInputs, GradientInputs);
      FirstMissingAppend(f0, MidpointInputs, PwsInputs);
      var f1 := AddMidpoint(f0);
      FirstMissingSameKeys(f0, f1, PwsInputs);
      var f2 := AddPws2010(f1);
      FirstMissingSameKeys(f0, f2, GradientInputs);
      FirstMissingSameKeys(f0, AddPwsFinal(f2), PwfInputs);
    }
  }

  /**
   * Where the backend raises ValueError for a missing formula input, the script, given a1, a2
   * and `Qo (BPD)`, finishes and finds no row.
   */
  lemma MissingInputSelectsNothing(f0: Frame)
    requires f0.WellFormed() && FormulasDefined(f0) && ColQo in f0.data
    requires FirstMissing(f0, MidpointInputs).None? && !HasInputs(f0)
    ensures Calculate(f0).1 == Success(None)
  {
    HasInputsNoneMissing(f0);
    FirstMissingAppend(f0, MidpointInputs + PwsInputs + GradientInputs, PwfInputs);
    FirstMissingAppend(f0, MidpointInputs + PwsInputs, GradientInputs);
    FirstMissingAppend(f0, MidpointInputs, PwsInputs);
    if FirstMissing(f0, PwsInputs).Some? || FirstMissing(f0, GradientInputs).Some? {
      PwsBlockFails(f0);
    } else {
      PwfBlockFails(f0);
    }
  }

  lemma PwsBlockFails(f0: Frame)
    requires f0.WellFormed() && FormulasDefined(f0) && ColQo in f0.data
    requires FirstMissing(f0, MidpointInputs).None?
    requires FirstMissing(f0, PwsInputs).Some? || FirstMissing(f0, GradientInputs).Some?
    ensures Calculate(f0).1 == Success(None)
  {
    GroupsNotComputed();
    InputsNotComputed();
    var f1 := AddMidpoint(f0);
    FirstMissingSameKeys(f0, f1, PwsInputs);
    var f2 := GuardPws(f1);
    FirstMissingSameKeys(f0, f2, GradientInputs);
    var f3 := GuardPwsFinal(f2);
    PwsFinalAllNaN(f2);
    var f4 := GuardPwf(f3);
    assert f4.data[ColPwsFinal] == f3.data[ColPwsFinal];
    NoneSelected(f4);
  }

  lemma PwfBlockFails(f0: Frame)
    requires f0.WellFormed() && FormulasDefined(f0) && ColQo in f0.data
    requires FirstMissing(f0, MidpointInputs).None? && FirstMissing(f0, PwfInputs).Some?
    ensures Calculate(f0).1 == Success(None)
  {
    GroupsNotComputed();
    InputsNotComputed();
    var f3 := GuardPwsFinal(GuardPws(AddMidpoint(f0)));
    FirstMissingSameKeys(f0, f3, PwfInputs);
    NoneSelected(GuardPwf(f3));
  }

  /** When pws_2010 is NaN throughout or the gradient block fails, Pws_Final is NaN throughout. */
  lemma PwsFinalAllNaN(f2: Frame)
    requires f2.WellFormed() && FormulasDefined(f2) && ColPws2010 in f2.data
    requires FirstMissing(f2, GradientInputs).Some? || forall i :: 0 <= i < f2.rows ==> f2.data[ColPws2010][i].None?
    ensures forall i :: 0 <= i < f2.rows ==> GuardPwsFinal(f2).data[ColPwsFinal][i].None?
  {
  }
}
