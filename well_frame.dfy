/**
 * The spreadsheet side of the IPR tool (`ProcesadorExcel.cargar_y_calcular` in Dia_4/backend.py
 * and Dia_4/codigos_ipr.py): a DataFrame of numeric cells in which an empty cell is NaN, the
 * stripping of header names, the row formulas pandas applies column-wise, and the choice of the
 * last row whose Pws, Pwf and Qo are all present.
 */
module WellFrame {
  import opened Wrappers
  import opened IprErrors

  /** A cell: a number, or NaN (an empty or non-numeric cell) as None. */
  type Cell = Option<real>

  /** The sheet as read: its header names as written, and one column of cells per name. */
  datatype Sheet = Sheet(header: seq<string>, rows: nat, cells: seq<seq<Cell>>)
  {
    predicate WellFormed()
    {
      |cells| == |header| && forall k :: 0 <= k < |cells| ==> |cells[k]| == rows
    }
  }

  /** A DataFrame: named columns of `rows` cells each. */
  datatype Frame = Frame(rows: nat, data: map<string, seq<Cell>>)
  {
    predicate WellFormed()
    {
      forall c :: c in data ==> |data[c]| == rows
    }
  }

  /** A selected row: its index label and its cell in every column. */
  datatype Row = Row(index: nat, cells: map<string, Cell>)

  const ColA1: string := "a1"
  const ColA2: string := "a2"
  const Colx1: string := "x1"
  const Colx2: string := "x2"
  const Colx3: string := "x3"
  const Coly1: string := "y1"
  const Coly2: string := "y2"
  const ColGradient: string := "Gradiente (kg/cm^2)"
  const ColYears: string := "años"
  const ColX1: string := "X1"
  const ColX2: string := "X2"
  const ColY1: string := "Y1"
  const ColY2: string := "Y2"
  const ColQo: string := "Qo (BPD)"
  const ColMidpoint: string := "Intervalo medio"
  const ColPws2010: string := "pws_2010"
  const ColGradientYears: string := "Gradiente_Anos"
  const ColPwsFinal: string := "Pws_Final"
  const ColPwfFinal: string := "Pwf_Final"

  // ---------------------------------------------------------------------------------------
  // str(col).strip()

  /** The characters Python's `str.isspace` accepts. */
  predicate IsSpace(ch: char)
  {
    || ch == ' ' || ch == '\t' || ch == '\n' || ch == '\r' || ch == '\U{0B}' || ch == '\U{0C}'
    || '\U{1C}' <= ch <= '\U{1F}' || ch == '\U{85}' || ch == '\U{A0}' || ch == '\U{1680}'
    || '\U{2000}' <= ch <= '\U{200A}' || ch == '\U{2028}' || ch == '\U{2029}' || ch == '\U{202F}'
    || ch == '\U{205F}' || ch == '\U{3000}'
  }

  function TrimStart(s: string): string
  {
    if s != [] && IsSpace(s[0]) then TrimStart(s[1..]) else s
  }

  function TrimEnd(s: string): string
  {
    if s != [] && IsSpace(s[|s| - 1]) then TrimEnd(s[..|s| - 1]) else s
  }

  /** `str.strip()`: leading and trailing whitespace removed. */
  function Strip(s: string): string
  {
    TrimEnd(TrimStart(s))
  }

  /** The leading run of whitespace that TrimStart drops has length i. */
  lemma {:induction false} TrimStartSlice(s: string) returns (i: nat)
    ensures i <= |s| && TrimStart(s) == s[i..] && forall k :: 0 <= k < i ==> IsSpace(s[k])
    ensures TrimStart(s) != [] ==> !IsSpace(TrimStart(s)[0])
  {
    if s != [] && IsSpace(s[0]) {
      var i' := TrimStartSlice(s[1..]);
      i := i' + 1;
      assert s[1..][i'..] == s[i..];
      forall k | 0 <= k < i
        ensures IsSpace(s[k])
      {
        if k > 0 {
          assert s[k] == s[1..][k - 1];
        }
      }
    } else {
      i := 0;
      assert s[0..] == s;
    }
  }

  /** TrimEnd keeps the first j characters, dropping a trailing run of whitespace. */
  lemma {:induction false} TrimEndSlice(s: string) returns (j: nat)
    ensures j <= |s| && TrimEnd(s) == s[..j] && forall k :: j <= k < |s| ==> IsSpace(s[k])
    ensures TrimEnd(s) != [] ==> !IsSpace(TrimEnd(s)[|TrimEnd(s)| - 1])
  {
    if s != [] && IsSpace(s[|s| - 1]) {
      var t := s[..|s| - 1];
      j := TrimEndSlice(t);
      assert t[..j] == s[..j];
      forall k | j <= k < |s|
        ensures IsSpace(s[k])
      {
        if k < |t| {
          assert s[k] == t[k];
        }
      }
    } else {
      j := |s|;
      assert s[..|s|] == s;
    }
  }

  /**
   * The stripped name is the slice of the original between its leading and its trailing run
   * of whitespace, and it neither starts nor ends with whitespace.
   */
  lemma StripSlice(s: string)
    ensures exists i, j :: (0 <= i <= j <= |s| && Strip(s) == s[i..j]
      && (forall k :: 0 <= k < i ==> IsSpace(s[k])) && (forall k :: j <= k < |s| ==> IsSpace(s[k])))
    ensures Strip(s) != [] ==> !IsSpace(Strip(s)[0]) && !IsSpace(Strip(s)[|Strip(s)| - 1])
  {
    var i := TrimStartSlice(s);
    var t := TrimStart(s);
    var j := TrimEndSlice(t);
    assert t[..j] == s[i..i + j];
    forall k | i + j <= k < |s|
      ensures IsSpace(s[k])
    {
      assert s[k] == t[k - i];
    }
    assert Strip(s) == s[i..i + j];
    if Strip(s) != [] {
      assert Strip(s)[0] == t[0];
    }
  }

  lemma {:induction false} TrimStartOfClean(s: string)
    requires s == [] || !IsSpace(s[0])
    ensures TrimStart(s) == s
  {
  }

  lemma {:induction false} TrimEndOfClean(s: string)
    requires s == [] || !IsSpace(s[|s| - 1])
    ensures TrimEnd(s) == s
  {
  }

  /** Stripping twice strips nothing more. */
  lemma StripIdempotent(s: string)
    ensures Strip(Strip(s)) == Strip(s)
  {
    StripSlice(s);
    var t := Strip(s);
    TrimStartOfClean(t);
    TrimEndOfClean(t);
  }

  // ---------------------------------------------------------------------------------------
  // Loading: the frame with stripped column names.

  /** No two header names coincide once stripped. */
  predicate DistinctStripped(header: seq<string>)
  {
    forall k, l :: 0 <= k < l < |header| ==> Strip(header[k]) != Strip(header[l])
  }

  /** The frame after `self.df.columns = [str(col).strip() for col in self.df.columns]`. */
  function Load(sheet: Sheet): (f: Frame)
    requires sheet.WellFormed() && DistinctStripped(sheet.header)
    ensures f.WellFormed() && f.rows == sheet.rows
  {
    Frame(sheet.rows, map k | 0 <= k < |sheet.header| :: Strip(sheet.header[k]) := sheet.cells[k])
  }

  /** Each column of the sheet appears under its stripped name, and there is no other column. */
  lemma LoadColumns(sheet: Sheet)
    requires sheet.WellFormed() && DistinctStripped(sheet.header)
    ensures forall k :: 0 <= k < |sheet.header| ==>
      Strip(sheet.header[k]) in Load(sheet).data && Load(sheet).data[Strip(sheet.header[k])] == sheet.cells[k]
    ensures forall c :: c in Load(sheet).data ==> exists k :: 0 <= k < |sheet.header| && c == Strip(sheet.header[k])
  {
  }

  /** `df[name] = values`: a new column, or new values under an existing name. */
  function WithColumn(f: Frame, name: string, values: seq<Cell>): (g: Frame)
    requires f.WellFormed() && |values| == f.rows
    ensures g.WellFormed() && g.rows == f.rows
    ensures g.data == f.data[name := values]
  {
    Frame(f.rows, f.data[name := values])
  }

  /** The first of `names` the frame lacks: the column whose lookup raises KeyError first. */
  function FirstMissing(f: Frame, names: seq<string>): (r: Option<string>)
    ensures r.None? ==> forall k :: 0 <= k < |names| ==> names[k] in f.data
    ensures r.Some? ==> r.value in names && r.value !in f.data
  {
    if names == [] then None
    else if names[0] !in f.data then Some(names[0])
    else FirstMissing(f, names[1..])
  }

  lemma {:induction false} FirstMissingIsFirst(f: Frame, names: seq<string>)
    ensures FirstMissing(f, names).None? <==> forall k :: 0 <= k < |names| ==> names[k] in f.data
    ensures FirstMissing(f, names).Some? ==> exists k :: (0 <= k < |names| && names[k] == FirstMissing(f, names).value
      && names[k] !in f.data && forall l :: 0 <= l < k ==> names[l] in f.data)
  {
    if names != [] && names[0] in f.data {
      FirstMissingIsFirst(f, names[1..]);
      if FirstMissing(f, names[1..]).Some? {
        var k :| 0 <= k < |names[1..]| && names[1..][k] == FirstMissing(f, names).value
          && names[1..][k] !in f.data && forall l :: 0 <= l < k ==> names[1..][l] in f.data;
        assert names[k + 1] == names[1..][k];
        forall l | 0 <= l < k + 1
          ensures names[l] in f.data
        {
          if l > 0 {
            assert names[l] == names[1..][l - 1];
          }
        }
      } else {
        forall k | 0 <= k < |names|
          ensures names[k] in f.data
        {
          if k > 0 {
            assert names[k] == names[1..][k - 1];
          }
        }
      }
    }
  }

  /** Only this frame's columns matter to the search: adding a column not searched for changes nothing. */
  lemma {:induction false} FirstMissingIgnoresOthers(f: Frame, name: string, values: seq<Cell>, names: seq<string>)
    requires f.WellFormed() && |values| == f.rows && name !in names
    ensures FirstMissing(WithColumn(f, name, values), names) == FirstMissing(f, names)
  {
    if names != [] {
      FirstMissingIgnoresOthers(f, name, values, names[1..]);
    }
  }

  // ---------------------------------------------------------------------------------------
  // pandas arithmetic: NaN in, NaN out.

  function Plus(a: Cell, b: Cell): Cell
  {
    if a.Some? && b.Some? then Some(a.value + b.value) else None
  }

  function Minus(a: Cell, b: Cell): Cell
  {
    if a.Some? && b.Some? then Some(a.value - b.value) else None
  }

  function Times(a: Cell, b: Cell): Cell
  {
    if a.Some? && b.Some? then Some(a.value * b.value) else None
  }

  /** Division: a zero divisor of a number would give infinity, which this model excludes. */
  function Over(a: Cell, b: Cell): Cell
    requires a.Some? && b.Some? ==> b.value != 0.0
  {
    if a.Some? && b.Some? then Some(a.value / b.value) else None
  }

  // ---------------------------------------------------------------------------------------
  // The row formulas.

  /** `Intervalo medio = (a1 + a2) / 2`. */
  function Midpoint(a1: Cell, a2: Cell): Cell
  {
    Over(Plus(a1, a2), Some(2.0))
  }

  /** The three-point formula needs `x2 != x1` wherever all five inputs are present. */
  predicate Pws2010Defined(x1: Cell, x2: Cell, x3: Cell, y1: Cell, y2: Cell)
  {
    x1.Some? && x2.Some? && x3.Some? && y1.Some? && y2.Some? ==> x2.value != x1.value
  }

  /** `pws_2010 = ((y2 - y1) * (x3 - x2)) / (x2 - x1) + y2`. */
  function Pws2010(x1: Cell, x2: Cell, x3: Cell, y1: Cell, y2: Cell): Cell
    requires Pws2010Defined(x1, x2, x3, y1, y2)
  {
    Plus(Over(Times(Minus(y2, y1), Minus(x3, x2)), Minus(x2, x1)), y2)
  }

  /** `Pws_Final = pws_2010 + Gradiente (kg/cm^2) * años`. */
  function PwsFinal(pws2010: Cell, gradient: Cell, years: Cell): Cell
  {
    Plus(pws2010, Times(gradient, years))
  }

  /** The slope needs `X2 != X1` wherever all four line inputs are present. */
  predicate PwfDefined(bigX1: Cell, bigX2: Cell, bigY1: Cell, bigY2: Cell)
  {
    bigX1.Some? && bigX2.Some? && bigY1.Some? && bigY2.Some? ==> bigX2.value != bigX1.value
  }

  /** `Pwf_Final = Y1 + (Y2 - Y1) / (X2 - X1) * (Intervalo medio - X1)`. */
  function PwfFinal(bigX1: Cell, bigX2: Cell, bigY1: Cell, bigY2: Cell, midpoint: Cell): Cell
    requires PwfDefined(bigX1, bigX2, bigY1, bigY2)
  {
    Plus(bigY1, Times(Over(Minus(bigY2, bigY1), Minus(bigX2, bigX1)), Minus(midpoint, bigX1)))
  }

  /** The midpoint is present exactly when both ends are, and lies halfway between them. */
  lemma MidpointHalfway(a1: Cell, a2: Cell)
    ensures Midpoint(a1, a2).Some? <==> a1.Some? && a2.Some?
    ensures Midpoint(a1, a2).Some? ==> Midpoint(a1, a2).value - a1.value == a2.value - Midpoint(a1, a2).value
  {
  }

  /**
   * `pws_2010` is the straight line through (x1, y1) and (x2, y2) evaluated at x3: it gives y2
   * at x3 = x2 and y1 at x3 = x1, and it is present exactly when all five inputs are.
   */
  lemma Pws2010OnLine(x1: Cell, x2: Cell, x3: Cell, y1: Cell, y2: Cell)
    requires Pws2010Defined(x1, x2, x3, y1, y2)
    ensures Pws2010(x1, x2, x3, y1, y2).Some? <==> x1.Some? && x2.Some? && x3.Some? && y1.Some? && y2.Some?
    ensures Pws2010(x1, x2, x3, y1, y2).Some? ==>
      var v := Pws2010(x1, x2, x3, y1, y2).value;
      && (v - y2.value) * (x2.value - x1.value) == (y2.value - y1.value) * (x3.value - x2.value)
      && (x3.value == x2.value ==> v == y2.value)
      && (x3.value == x1.value ==> v == y1.value)
  {
    if x1.Some? && x2.Some? && x3.Some? && y1.Some? && y2.Some? {
      Pws2010Value(x1, x2, x3, y1, y2);
      ThreePointLine(x1.value, x2.value, x3.value, y1.value, y2.value);
    }
  }

  /** The three-point formula on numbers. */
  function ThreePoint(x1: real, x2: real, x3: real, y1: real, y2: real): real
    requires x2 != x1
  {
    (y2 - y1) * (x3 - x2) / (x2 - x1) + y2
  }

  lemma Pws2010Value(x1: Cell, x2: Cell, x3: Cell, y1: Cell, y2: Cell)
    requires x1.Some? && x2.Some? && x3.Some? && y1.Some? && y2.Some? && x2.value != x1.value
    ensures Pws2010(x1, x2, x3, y1, y2) == Some(ThreePoint(x1.value, x2.value, x3.value, y1.value, y2.value))
  {
    var dy, dx, run := Minus(y2, y1), Minus(x3, x2), Minus(x2, x1);
    assert dy.value == y2.value - y1.value && dx.value == x3.value - x2.value && run.value == x2.value - x1.value;
    var num := Times(dy, dx);
    assert num.value == dy.value * dx.value;
    var q := Over(num, run);
    assert q.value == (y2.value - y1.value) * (x3.value - x2.value) / (x2.value - x1.value);
    assert Pws2010(x1, x2, x3, y1, y2) == Plus(q, y2);
  }

  /** The three-point value lies on the line through (x1, y1) and (x2, y2). */
  lemma ThreePointLine(x1: real, x2: real, x3: real, y1: real, y2: real)
    requires x2 != x1
    ensures var v := ThreePoint(x1, x2, x3, y1, y2);
      && (v - y2) * (x2 - x1) == (y2 - y1) * (x3 - x2)
      && (x3 == x2 ==> v == y2)
      && (x3 == x1 ==> v == y1)
  {
    var run := x2 - x1;
    var v := (y2 - y1) * (x3 - x2) / run + y2;
    assert (v - y2) * run == (y2 - y1) * (x3 - x2);
    if x3 == x1 {
      ThreePointAtFirst(x1, x2, y1, y2);
    }
  }

  /** At x3 = x1 the three-point formula gives back y1. */
  lemma ThreePointAtFirst(x1: real, x2: real, y1: real, y2: real)
    requires x2 != x1
    ensures (y2 - y1) * (x1 - x2) / (x2 - x1) + y2 == y1
  {
    var run := x2 - x1;
    var q := (y2 - y1) * (x1 - x2) / run;
    assert q * run == (y2 - y1) * (x1 - x2);
    assert q * run == (y1 - y2) * run;
    CancelRun(q, y1 - y2, run);
  }

  lemma CancelRun(a: real, b: real, run: real)
    requires run != 0.0 && a * run == b * run
    ensures a == b
  {
    assert (a - b) * run == 0.0;
  }

  /**
   * `Pwf_Final` is the straight line through (X1, Y1) and (X2, Y2) evaluated at the interval's
   * midpoint: Y1 at X1, Y2 at X2; present exactly when all five inputs are.
   */
  lemma PwfOnLine(bigX1: Cell, bigX2: Cell, bigY1: Cell, bigY2: Cell, midpoint: Cell)
    requires PwfDefined(bigX1, bigX2, bigY1, bigY2)
    ensures PwfFinal(bigX1, bigX2, bigY1, bigY2, midpoint).Some? <==>
      bigX1.Some? && bigX2.Some? && bigY1.Some? && bigY2.Some? && midpoint.Some?
    ensures PwfFinal(bigX1, bigX2, bigY1, bigY2, midpoint).Some? ==>
      var v := PwfFinal(bigX1, bigX2, bigY1, bigY2, midpoint).value;
      && (midpoint.value == bigX1.value ==> v == bigY1.value)
      && (midpoint.value == bigX2.value ==> v == bigY2.value)
  {
    if bigX1.Some? && bigX2.Some? && bigY1.Some? && bigY2.Some? && midpoint.Some? {
      var run := bigX2.value - bigX1.value;
      var slope := (bigY2.value - bigY1.value) / run;
      assert slope * run == bigY2.value - bigY1.value;
    }
  }

  /** Pws_Final is present exactly when pws_2010, the gradient and the years are. */
  lemma PwsFinalPresence(pws2010: Cell, gradient: Cell, years: Cell)
    ensures PwsFinal(pws2010, gradient, years).Some? <==> pws2010.Some? && gradient.Some? && years.Some?
    ensures PwsFinal(pws2010, gradient, years).Some? ==>
      PwsFinal(pws2010, gradient, years).value - pws2010.value == gradient.value * years.value
  {
  }

  // ---------------------------------------------------------------------------------------
  // The formulas column by column.

  function MidpointColumn(a1: seq<Cell>, a2: seq<Cell>): (r: seq<Cell>)
    requires |a1| == |a2|
    ensures |r| == |a1| && forall i :: 0 <= i < |r| ==> r[i] == Midpoint(a1[i], a2[i])
  {
    seq(|a1|, i requires 0 <= i < |a1| => Midpoint(a1[i], a2[i]))
  }

  predicate Pws2010ColumnDefined(x1: seq<Cell>, x2: seq<Cell>, x3: seq<Cell>, y1: seq<Cell>, y2: seq<Cell>)
  {
    && |x2| == |x1| && |x3| == |x1| && |y1| == |x1| && |y2| == |x1|
    && forall i :: 0 <= i < |x1| ==> Pws2010Defined(x1[i], x2[i], x3[i], y1[i], y2[i])
  }

  function Pws2010Column(x1: seq<Cell>, x2: seq<Cell>, x3: seq<Cell>, y1: seq<Cell>, y2: seq<Cell>): (r: seq<Cell>)
    requires Pws2010ColumnDefined(x1, x2, x3, y1, y2)
    ensures |r| == |x1| && forall i :: 0 <= i < |r| ==> r[i] == Pws2010(x1[i], x2[i], x3[i], y1[i], y2[i])
  {
    seq(|x1|, i requires 0 <= i < |x1| => Pws2010(x1[i], x2[i], x3[i], y1[i], y2[i]))
  }

  function TimesColumn(a: seq<Cell>, b: seq<Cell>): (r: seq<Cell>)
    requires |a| == |b|
    ensures |r| == |a| && forall i :: 0 <= i < |r| ==> r[i] == Times(a[i], b[i])
  {
    seq(|a|, i requires 0 <= i < |a| => Times(a[i], b[i]))
  }

  function PlusColumn(a: seq<Cell>, b: seq<Cell>): (r: seq<Cell>)
    requires |a| == |b|
    ensures |r| == |a| && forall i :: 0 <= i < |r| ==> r[i] == Plus(a[i], b[i])
  {
    seq(|a|, i requires 0 <= i < |a| => Plus(a[i], b[i]))
  }

  predicate PwfColumnDefined(bigX1: seq<Cell>, bigX2: seq<Cell>, bigY1: seq<Cell>, bigY2: seq<Cell>)
  {
    && |bigX2| == |bigX1| && |bigY1| == |bigX1| && |bigY2| == |bigX1|
    && forall i :: 0 <= i < |bigX1| ==> PwfDefined(bigX1[i], bigX2[i], bigY1[i], bigY2[i])
  }

  function PwfColumn(bigX1: seq<Cell>, bigX2: seq<Cell>, bigY1: seq<Cell>, bigY2: seq<Cell>, midpoint: seq<Cell>): (r: seq<Cell>)
    requires PwfColumnDefined(bigX1, bigX2, bigY1, bigY2) && |midpoint| == |bigX1|
    ensures |r| == |bigX1| && forall i :: 0 <= i < |r| ==> r[i] == PwfFinal(bigX1[i], bigX2[i], bigY1[i], bigY2[i], midpoint[i])
  {
    seq(|bigX1|, i requires 0 <= i < |bigX1| => PwfFinal(bigX1[i], bigX2[i], bigY1[i], bigY2[i], midpoint[i]))
  }

  /** `self.df[...] = np.nan`: a column of NaN. */
  function NaNColumn(n: nat): (r: seq<Cell>)
    ensures |r| == n && forall i :: 0 <= i < n ==> r[i] == None
  {
    seq(n, i => None)
  }

  // ---------------------------------------------------------------------------------------
  // dropna(subset=[Pws_Final, Pwf_Final, Qo (BPD)]).iloc[-1]

  predicate Complete(pws: seq<Cell>, pwf: seq<Cell>, qo: seq<Cell>, i: nat)
    requires i < |pws| && i < |pwf| && i < |qo|
  {
    pws[i].Some? && pwf[i].Some? && qo[i].Some?
  }

  /** The last of the first k rows with all three cells present. */
  function LastComplete(pws: seq<Cell>, pwf: seq<Cell>, qo: seq<Cell>, k: nat): (r: Option<nat>)
    requires k <= |pws| && |pwf| == |pws| && |qo| == |pws|
    ensures r.Some? ==> r.value < k
  {
    if k == 0 then None
    else if Complete(pws, pwf, qo, k - 1) then Some(k - 1)
    else LastComplete(pws, pwf, qo, k - 1)
  }

  /** The selected row is complete and no later row is; None means no row is complete. */
  lemma {:induction false} LastCompleteIsLast(pws: seq<Cell>, pwf: seq<Cell>, qo: seq<Cell>, k: nat)
    requires k <= |pws| && |pwf| == |pws| && |qo| == |pws|
    ensures LastComplete(pws, pwf, qo, k).None? <==> forall j :: 0 <= j < k ==> !Complete(pws, pwf, qo, j)
    ensures LastComplete(pws, pwf, qo, k).Some? ==>
      var i := LastComplete(pws, pwf, qo, k).value;
      && i < k && Complete(pws, pwf, qo, i)
      && forall j :: i < j < k ==> !Complete(pws, pwf, qo, j)
  {
    if k > 0 && !Complete(pws, pwf, qo, k - 1) {
      LastCompleteIsLast(pws, pwf, qo, k - 1);
    }
  }

  /** Row i of the frame, every column's cell. */
  function RowAt(f: Frame, i: nat): (r: Row)
    requires f.WellFormed() && i < f.rows
    ensures r.index == i && r.cells.Keys == f.data.Keys
    ensures forall c :: c in f.data ==> r.cells[c] == f.data[c][i]
  {
    Row(i, map c | c in f.data :: f.data[c][i])
  }

  /**
   * The filter and the selection: a missing subset column raises KeyError (the first one
   * missing is reported); otherwise the last complete row, or None when there is none.
   */
  function SelectLastValid(f: Frame): Result<Option<Row>, IprError>
    requires f.WellFormed()
  {
    if ColPwsFinal !in f.data then Failure(KeyError(ColPwsFinal))
    else if ColPwfFinal !in f.data then Failure(KeyError(ColPwfFinal))
    else if ColQo !in f.data then Failure(KeyError(ColQo))
    else
      var pick := LastComplete(f.data[ColPwsFinal], f.data[ColPwfFinal], f.data[ColQo], f.rows);
      if pick.None? then Success(None) else Success(Some(RowAt(f, pick.value)))
  }

  /** What the selection promises: the result row has Pws, Pwf and Qo present, and is the last such. */
  lemma SelectedRowIsLastComplete(f: Frame)
    requires f.WellFormed() && ColPwsFinal in f.data && ColPwfFinal in f.data && ColQo in f.data
    ensures SelectLastValid(f).Success?
    ensures var pws, pwf, qo := f.data[ColPwsFinal], f.data[ColPwfFinal], f.data[ColQo];
      && (SelectLastValid(f).value.None? <==> forall j :: 0 <= j < f.rows ==> !Complete(pws, pwf, qo, j))
      && (SelectLastValid(f).value.Some? ==>
            var row := SelectLastValid(f).value.value;
            && row.index < f.rows && row.cells.Keys == f.data.Keys
            && row.cells[ColPwsFinal].Some? && row.cells[ColPwfFinal].Some? && row.cells[ColQo].Some?
            && forall j :: row.index < j < f.rows ==> !Complete(pws, pwf, qo, j))
  {
    var pws, pwf, qo := f.data[ColPwsFinal], f.data[ColPwfFinal], f.data[ColQo];
    LastCompleteIsLast(pws, pwf, qo, f.rows);
  }

  /** FirstMissing over two lists in a row: the first list is searched first. */
  lemma {:induction false} FirstMissingAppend(f: Frame, a: seq<string>, b: seq<string>)
    ensures FirstMissing(f, a + b) == if FirstMissing(f, a).Some? then FirstMissing(f, a) else FirstMissing(f, b)
  {
    if a != [] {
      assert (a + b)[1..] == a[1..] + b;
      FirstMissingAppend(f, a[1..], b);
    } else {
      assert a + b == b;
    }
  }

  // ---------------------------------------------------------------------------------------
  // The computation stages, in the order cargar_y_calcular runs them.

  /** The columns each stage reads, in the order Python evaluates its expression. */
  const MidpointInputs: seq<string> := [ColA1, ColA2]
  const PwsInputs: seq<string> := [Coly2, Coly1, Colx3, Colx2, Colx1]
  const GradientInputs: seq<string> := [ColGradient, ColYears]
  const PwfInputs: seq<string> := [ColY2, ColY1, ColX2, ColX1]

  /** Where the sheet has a formula's inputs, no divisor of it is zero. */
  predicate FormulasDefined(f: Frame)
    requires f.WellFormed()
  {
    && (Colx1 in f.data && Colx2 in f.data && Colx3 in f.data && Coly1 in f.data && Coly2 in f.data ==>
          Pws2010ColumnDefined(f.data[Colx1], f.data[Colx2], f.data[Colx3], f.data[Coly1], f.data[Coly2]))
    && (ColX1 in f.data && ColX2 in f.data && ColY1 in f.data && ColY2 in f.data ==>
          PwfColumnDefined(f.data[ColX1], f.data[ColX2], f.data[ColY1], f.data[ColY2]))
  }

  /** `df["Intervalo medio"] = (df["a1"] + df["a2"]) / 2`. */
  function AddMidpoint(f: Frame): (g: Frame)
    requires f.WellFormed() && FirstMissing(f, MidpointInputs).None?
    ensures g.WellFormed() && g.rows == f.rows
    ensures g.data.Keys == f.data.Keys + {ColMidpoint}
    ensures FormulasDefined(f) ==> FormulasDefined(g)
    ensures ColMidpoint in g.data
  {
    assert MidpointInputs[0] == ColA1 && MidpointInputs[1] == ColA2;
    WithColumn(f, ColMidpoint, MidpointColumn(f.data[ColA1], f.data[ColA2]))
  }

  /** `df["pws_2010"] = ((df["y2"] - df["y1"]) * (df["x3"] - df["x2"])) / (df["x2"] - df["x1"]) + df["y2"]`. */
  function AddPws2010(f: Frame): (g: Frame)
    requires f.WellFormed() && FormulasDefined(f)
    requires FirstMissing(f, PwsInputs).None?
    ensures g.WellFormed() && g.rows == f.rows
    ensures g.data.Keys == f.data.Keys + {ColPws2010}
    ensures FormulasDefined(f) ==> FormulasDefined(g)
    ensures ColPws2010 in g.data
  {
    assert PwsInputs[0] == Coly2 && PwsInputs[1] == Coly1 && PwsInputs[2] == Colx3;
    assert PwsInputs[3] == Colx2 && PwsInputs[4] == Colx1;
    WithColumn(f, ColPws2010, Pws2010Column(f.data[Colx1], f.data[Colx2], f.data[Colx3], f.data[Coly1], f.data[Coly2]))
  }

  /** `df["Gradiente_Anos"] = gradient * years`, then `df["Pws_Final"] = df["pws_2010"] + df["Gradiente_Anos"]`. */
  function AddPwsFinal(f: Frame): (g: Frame)
    requires f.WellFormed() && FirstMissing(f, GradientInputs).None? && ColPws2010 in f.data
    ensures g.WellFormed() && g.rows == f.rows
    ensures g.data.Keys == f.data.Keys + {ColGradientYears, ColPwsFinal}
    ensures FormulasDefined(f) ==> FormulasDefined(g)
  {
    assert GradientInputs[0] == ColGradient && GradientInputs[1] == ColYears;
    var gradientYears := TimesColumn(f.data[ColGradient], f.data[ColYears]);
    WithColumn(WithColumn(f, ColGradientYears, gradientYears), ColPwsFinal, PlusColumn(f.data[ColPws2010], gradientYears))
  }

  /** `m = (df["Y2"] - df["Y1"]) / (df["X2"] - df["X1"])`, `df["Pwf_Final"] = df["Y1"] + m * (df["Intervalo medio"] - df["X1"])`. */
  function AddPwfFinal(f: Frame): (g: Frame)
    requires f.WellFormed() && FormulasDefined(f)
    requires FirstMissing(f, PwfInputs).None? && ColMidpoint in f.data
    ensures g.WellFormed() && g.rows == f.rows
    ensures g.data.Keys == f.data.Keys + {ColPwfFinal}
    ensures FormulasDefined(f) ==> FormulasDefined(g)
  {
    assert PwfInputs[0] == ColY2 && PwfInputs[1] == ColY1 && PwfInputs[2] == ColX2 && PwfInputs[3] == ColX1;
    WithColumn(f, ColPwfFinal, PwfColumn(f.data[ColX1], f.data[ColX2], f.data[ColY1], f.data[ColY2], f.data[ColMidpoint]))
  }

  /** The names the stages write; none of them is a column a formula reads. */
  const ComputedNames: set<string> := {ColMidpoint, ColPws2010, ColGradientYears, ColPwsFinal, ColPwfFinal}

  /** Every column a formula or the selection reads, in the order backend.py first reads it. */
  const AllInputs: seq<string> := MidpointInputs + PwsInputs + GradientInputs + PwfInputs

  lemma InputsNotComputed()
    ensures forall k :: 0 <= k < |AllInputs| ==> AllInputs[k] !in ComputedNames
    ensures ColQo !in ComputedNames
  {
  }

  /** Every column a formula reads is present. */
  predicate HasInputs(f: Frame)
  {
    && ColA1 in f.data && ColA2 in f.data
    && Coly2 in f.data && Coly1 in f.data && Colx3 in f.data && Colx2 in f.data && Colx1 in f.data
    && ColGradient in f.data && ColYears in f.data
    && ColY2 in f.data && ColY1 in f.data && ColX2 in f.data && ColX1 in f.data
  }

  lemma HasInputsNoneMissing(f: Frame)
    ensures HasInputs(f) <==> FirstMissing(f, AllInputs).None?
  {
    FirstMissingIsFirst(f, AllInputs);
    var a := AllInputs;
    assert a[0] == ColA1 && a[1] == ColA2 && a[2] == Coly2 && a[3] == Coly1 && a[4] == Colx3 && a[5] == Colx2;
    assert a[6] == Colx1 && a[7] == ColGradient && a[8] == ColYears;
    assert a[9] == ColY2 && a[10] == ColY1 && a[11] == ColX2 && a[12] == ColX1 && |a| == 13;
    if HasInputs(f) {
      forall k | 0 <= k < |a|
        ensures a[k] in f.data
      {
      }
    }
  }

  /** FirstMissing only looks at which of the names are present. */
  lemma {:induction false} FirstMissingSameKeys(f: Frame, g: Frame, names: seq<string>)
    requires forall c :: c in names ==> (c in f.data <==> c in g.data)
    ensures FirstMissing(f, names) == FirstMissing(g, names)
  {
    if names != [] {
      FirstMissingSameKeys(f, g, names[1..]);
    }
  }

  /** No input group names a computed column. */
  lemma GroupsNotComputed()
    ensures forall c :: c in MidpointInputs ==> c !in ComputedNames
    ensures forall c :: c in PwsInputs ==> c !in ComputedNames
    ensures forall c :: c in GradientInputs ==> c !in ComputedNames
    ensures forall c :: c in PwfInputs ==> c !in ComputedNames
  {
  }

  /** Row i's Pws_Final, straight from the sheet's inputs. */
  function PwsAt(f: Frame, i: nat): Cell
    requires f.WellFormed() && HasInputs(f) && FormulasDefined(f) && i < f.rows
  {
    var d := f.data;
    PwsFinal(Pws2010(d[Colx1][i], d[Colx2][i], d[Colx3][i], d[Coly1][i], d[Coly2][i]), d[ColGradient][i], d[ColYears][i])
  }

  /** Row i's Pwf_Final, straight from the sheet's inputs. */
  function PwfAt(f: Frame, i: nat): Cell
    requires f.WellFormed() && HasInputs(f) && FormulasDefined(f) && i < f.rows
  {
    var d := f.data;
    PwfFinal(d[ColX1][i], d[ColX2][i], d[ColY1][i], d[ColY2][i], Midpoint(d[ColA1][i], d[ColA2][i]))
  }

  /** Row i has the three values the IPR table needs, computed from the sheet's inputs. */
  predicate TestRowAt(f: Frame, i: nat)
    requires f.WellFormed() && HasInputs(f) && FormulasDefined(f) && ColQo in f.data && i < f.rows
  {
    PwsAt(f, i).Some? && PwfAt(f, i).Some? && f.data[ColQo][i].Some?
  }

  /** The four stages over a frame with every input: the computed columns are the row formulas. */
  function AllStages(f: Frame): (g: Frame)
    requires f.WellFormed() && HasInputs(f) && FormulasDefined(f)
    ensures g.WellFormed() && g.rows == f.rows
  {
    HasInputsNoneMissing(f);
    GroupsNotComputed();
    var f1 := AddMidpoint(f);
    FirstMissingSameKeys(f, f1, PwsInputs);
    var f2 := AddPws2010(f1);
    FirstMissingSameKeys(f, f2, GradientInputs);
    var f3 := AddPwsFinal(f2);
    FirstMissingSameKeys(f, f3, PwfInputs);
    AddPwfFinal(f3)
  }

  /** The stages add exactly the computed columns and leave every other column as it was. */
  lemma AllStagesKeep(f: Frame)
    requires f.WellFormed() && HasInputs(f) && FormulasDefined(f)
    ensures AllStages(f).data.Keys == f.data.Keys + ComputedNames
    ensures forall c :: c in f.data && c !in ComputedNames ==> AllStages(f).data[c] == f.data[c]
  {
  }

  /** Column by column, the stages compute each row's formulas from that row's inputs. */
  lemma AllStagesColumns(f: Frame)
    requires f.WellFormed() && HasInputs(f) && FormulasDefined(f)
    ensures ColMidpoint in AllStages(f).data && ColPwsFinal in AllStages(f).data && ColPwfFinal in AllStages(f).data
    ensures forall i :: 0 <= i < f.rows ==>
      && AllStages(f).data[ColMidpoint][i] == Midpoint(f.data[ColA1][i], f.data[ColA2][i])
      && AllStages(f).data[ColPwsFinal][i] == PwsAt(f, i)
      && AllStages(f).data[ColPwfFinal][i] == PwfAt(f, i)
  {
    HasInputsNoneMissing(f);
    GroupsNotComputed();
    var f1 := AddMidpoint(f);
    FirstMissingSameKeys(f, f1, PwsInputs);
    var f2 := AddPws2010(f1);
    FirstMissingSameKeys(f, f2, GradientInputs);
    var f3 := AddPwsFinal(f2);
    FirstMissingSameKeys(f, f3, PwfInputs);
    var g := AddPwfFinal(f3);
    assert g == AllStages(f);
    var mid := f1.data[ColMidpoint];
    assert f3.data[ColMidpoint] == mid;
    var d := f.data;
    var pws := Pws2010Column(d[Colx1], d[Colx2], d[Colx3], d[Coly1], d[Coly2]);
    assert f2.data[ColPws2010] == pws;
    forall i | 0 <= i < f.rows
      ensures g.data[ColMidpoint][i] == Midpoint(d[ColA1][i], d[ColA2][i])
      ensures g.data[ColPwsFinal][i] == PwsAt(f, i)
      ensures g.data[ColPwfFinal][i] == PwfAt(f, i)
    {
      assert g.data[ColPwsFinal] == f3.data[ColPwsFinal];
    }
  }

  /** A stage-computed row is complete exactly when its formulas, read from the sheet, are. */
  lemma AllStagesComplete(f: Frame)
    requires f.WellFormed() && HasInputs(f) && FormulasDefined(f) && ColQo in f.data
    ensures ColPwsFinal in AllStages(f).data && ColPwfFinal in AllStages(f).data && ColQo in AllStages(f).data
    ensures AllStages(f).data[ColQo] == f.data[ColQo]
    ensures forall i :: 0 <= i < f.rows ==>
      (Complete(AllStages(f).data[ColPwsFinal], AllStages(f).data[ColPwfFinal], AllStages(f).data[ColQo], i) <==> TestRowAt(f, i))
  {
    AllStagesKeep(f);
    AllStagesColumns(f);
    InputsNotComputed();
  }

  /**
   * The selection after the stages finds no row exactly when no row has Pws_Final, Pwf_Final
   * and Qo, from the sheet's inputs, all present.
   */
  lemma AllStagesSelect(f: Frame)
    requires f.WellFormed() && HasInputs(f) && FormulasDefined(f) && ColQo in f.data
    ensures SelectLastValid(AllStages(f)).Success?
    ensures SelectLastValid(AllStages(f)).value.None? <==> forall i :: 0 <= i < f.rows ==> !TestRowAt(f, i)
  {
    AllStagesComplete(f);
    SelectedRowIsLastComplete(AllStages(f));
  }

  /**
   * A row the selection after the stages finds is the last one whose Pws_Final, Pwf_Final and Qo,
   * from the sheet's inputs, are all present, and carries those values.
   */
  lemma AllStagesSelectedRow(f: Frame, row: Row)
    requires f.WellFormed() && HasInputs(f) && FormulasDefined(f) && ColQo in f.data
    requires SelectLastValid(AllStages(f)) == Success(Some(row))
    ensures && row.index < f.rows && TestRowAt(f, row.index)
      && (forall j :: row.index < j < f.rows ==> !TestRowAt(f, j))
      && ColPwsFinal in row.cells && row.cells[ColPwsFinal] == PwsAt(f, row.index)
      && ColPwfFinal in row.cells && row.cells[ColPwfFinal] == PwfAt(f, row.index)
      && ColQo in row.cells && row.cells[ColQo] == f.data[ColQo][row.index]
  {
    var g := AllStages(f);
    AllStagesComplete(f);
    AllStagesColumns(f);
    SelectedRowIsLastComplete(g);
  }

  /** `df[name] = np.nan` for a computed column: every row of it NaN. */
  function AssignNaN(f: Frame, name: string): (g: Frame)
    requires f.WellFormed() && name in ComputedNames
    ensures g.WellFormed() && g.rows == f.rows && g.data.Keys == f.data.Keys + {name}
    ensures FormulasDefined(f) ==> FormulasDefined(g)
  {
    WithColumn(f, name, NaNColumn(f.rows))
  }

  /** With a column of the filter NaN throughout, the selection finds no row. */
  lemma NoneSelected(f: Frame)
    requires f.WellFormed() && ColPwsFinal in f.data && ColPwfFinal in f.data && ColQo in f.data
    requires (forall i :: 0 <= i < f.rows ==> f.data[ColPwsFinal][i].None?)
          || (forall i :: 0 <= i < f.rows ==> f.data[ColPwfFinal][i].None?)
    ensures SelectLastValid(f) == Success(None)
  {
    LastCompleteIsLast(f.data[ColPwsFinal], f.data[ColPwfFinal], f.data[ColQo], f.rows);
  }
}
