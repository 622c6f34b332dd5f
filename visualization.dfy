/**
 * The two charts of the dashboard. The Visualizer holds no state, so each
 * chart is a function from the table and the chosen city and year range to
 * a figure: the list of its traces with their titles and data. Colours,
 * fonts and legend placement are not modelled, and neither are the
 * floating-point monthly means. A humidity trace records which months it
 * averages and over which column.
 */
module Visualization {
  import opened Wrappers
  import opened Seqs
  import opened Text
  import opened Tables

  /** The x values of a trace: dates from column `index`, or category labels. */
  datatype Axis = Dates(dates: seq<Option<Date>>) | Labels(labels: seq<string>)

  /** The y values of a trace: a column's cells, or that column's mean per month. */
  datatype Series =
    | Values(column: string, values: seq<Option<real>>)
    | MonthlyMeans(column: string, months: seq<Month>)

  datatype Trace = Trace(name: string, x: Axis, y: Series)

  datatype Figure = Figure(traces: seq<Trace>, title: string, categoryOrder: seq<string>)

  /** A drawn figure, or the column whose lookup raised KeyError. */
  datatype Plot = Drawn(figure: Figure) | KeyError(column: string)

  /** `go.Figure()`. */
  const EmptyFigure := Figure([], "", [])

  /** The mask `cidade == cidade & year >= ano_inicio & year <= ano_fim`; NaN fails every test. */
  predicate Selected(r: Row, cidade: string, from: int, to: int)
  {
    r.cidade == Some(cidade) && r.year.Some? && from <= r.year.value <= to
  }

  function Selects(cidade: string, from: int, to: int): Row -> bool
  {
    r => Selected(r, cidade, from, to)
  }

  /** The rows the mask keeps. */
  function Selection(rows: seq<Row>, cidade: string, from: int, to: int): (s: seq<Row>)
    ensures |s| <= |rows|
    ensures forall r :: r in s <==> r in rows && Selected(r, cidade, from, to)
  {
    Filter(Selects(cidade, from, to), rows)
  }

  /**
   * The selection keeps row order: selecting from two parts one after the
   * other gives the two selections one after the other, and a single row is
   * kept exactly when it passes the mask.
   */
  lemma {:induction false} SelectionKeepsOrder(xs: seq<Row>, ys: seq<Row>, cidade: string, from: int, to: int)
    ensures Selection(xs + ys, cidade, from, to) == Selection(xs, cidade, from, to) + Selection(ys, cidade, from, to)
    ensures Selection([], cidade, from, to) == []
    ensures forall r :: Selection([r], cidade, from, to) == if Selected(r, cidade, from, to) then [r] else []
  {
    FilterAppend(Selects(cidade, from, to), xs, ys);
  }

  /** The first column of `wanted` that the table lacks, if any: the KeyError pandas raises. */
  function FirstMissing(columns: set<string>, wanted: seq<string>): (m: Option<string>)
    ensures m == None <==> forall c :: c in wanted ==> c in columns
    ensures m.Some? ==> exists i :: 0 <= i < |wanted| && wanted[i] == m.value && m.value !in columns
                                    && forall j :: 0 <= j < i ==> wanted[j] in columns
  {
    if wanted == [] then None
    else if wanted[0] !in columns then Some(wanted[0])
    else
      var m := FirstMissing(columns, wanted[1..]);
      if m.Some? then
        var i :| 0 <= i < |wanted[1..]| && wanted[1..][i] == m.value && m.value !in columns
                 && forall j :: 0 <= j < i ==> wanted[1..][j] in columns;
        assert wanted[i + 1] == m.value;
        m
      else
        assert forall c :: c in wanted ==> c == wanted[0] || c in wanted[1..];
        m
  }

  /** `dff["index"]`. */
  function IndexColumn(rows: seq<Row>): (xs: seq<Option<Date>>)
  {
    seq(|rows|, i requires 0 <= i < |rows| => rows[i].index)
  }

  /** `dff[column]`. */
  function CellColumn(rows: seq<Row>, column: string): seq<Option<real>>
  {
    seq(|rows|, i requires 0 <= i < |rows| => Cell(rows[i], column))
  }

  /** `f"{ano_inicio}-{ano_fim}"`. */
  function RangeText(from: int, to: int): string
  {
    IntToString(from) + "-" + IntToString(to)
  }

  /** `f"{what} em {cidade} ({ano_inicio}-{ano_fim})"`. */
  function Title(what: string, cidade: string, from: int, to: int): (t: string)
    ensures StartsWith(t, what + " em " + cidade + " (")
    ensures EndsWith(t, RangeText(from, to) + ")")
  {
    var heading, range := what + " em " + cidade + " (", RangeText(from, to) + ")";
    assert (heading + range)[..|heading|] == heading;
    assert (heading + range)[|heading|..] == range;
    heading + range
  }

  /** `str(from) + "-" + str(to)` names the range it was made from. */
  lemma {:induction false} RangeTextInjective(from: int, to: int, from2: int, to2: int)
    requires RangeText(from, to) == RangeText(from2, to2)
    ensures from == from2 && to == to2
  {
    var a, b, a2, b2 := IntToString(from), IntToString(to), IntToString(from2), IntToString(to2);
    var s := a + "-" + b;
    IntToStringShape(from);
    IntToStringShape(from2);
    assert s[|a|] == '-' && s[|a2|] == '-';
    assert |a| == |a2|;
    assert a == s[..|a|] == a2;
    assert b == s[|a| + 1..] == b2;
    IntToStringRoundTrip(from);
    IntToStringRoundTrip(from2);
    IntToStringRoundTrip(to);
    IntToStringRoundTrip(to2);
  }

  /** The range text holds no bracket, so the title's last '(' opens it. */
  lemma TitleSplits(what: string, cidade: string, from: int, to: int)
    ensures Title(what, cidade, from, to) == (what + " em " + cidade + " ") + "(" + (RangeText(from, to) + ")")
    ensures '(' !in RangeText(from, to) + ")"
  {
    var x := what + " em " + cidade + " ";
    assert what + " em " + cidade + " (" == x + "(";
    NoBracketInRange(from, to);
  }

  lemma NoBracketInRange(from: int, to: int)
    ensures '(' !in RangeText(from, to) + ")"
  {
    IntToStringShape(from);
    IntToStringShape(to);
    var a, b := IntToString(from), IntToString(to);
    assert '(' !in a && '(' !in b;
  }

  /** For a fixed chart, the title names the city and the year range, and different ones differ. */
  lemma {:induction false} TitleNamesCityAndRange(what: string, cidade: string, from: int, to: int,
                                                  cidade2: string, from2: int, to2: int)
    ensures Title(what, cidade, from, to) == Title(what, cidade2, from2, to2)
            <==> cidade == cidade2 && from == from2 && to == to2
  {
    if Title(what, cidade, from, to) == Title(what, cidade2, from2, to2) {
      var x, x2 := what + " em " + cidade + " ", what + " em " + cidade2 + " ";
      var y, y2 := RangeText(from, to) + ")", RangeText(from2, to2) + ")";
      TitleSplits(what, cidade, from, to);
      TitleSplits(what, cidade2, from2, to2);
      LastBracketSplits(x, y, x2, y2);
      assert cidade == x[|what| + 4..|x| - 1];
      assert cidade2 == x2[|what| + 4..|x2| - 1];
      assert RangeText(from, to) == y[..|y| - 1];
      assert RangeText(from2, to2) == y2[..|y2| - 1];
      RangeTextInjective(from, to, from2, to2);
    }
  }

  /** A trace drawing `column` of the selected rows against their dates. */
  predicate DrawsColumn(t: Trace, name: string, column: string, rows: seq<Row>)
  {
    && t.name == name
    && t.x.Dates? && |t.x.dates| == |rows|
    && t.y.Values? && t.y.column == column && |t.y.values| == |rows|
    && forall i :: 0 <= i < |rows| ==> t.x.dates[i] == rows[i].index && t.y.values[i] == Cell(rows[i], column)
  }

  const TemperatureColumns := ["index", "tempMax", "tempMed", "tempMin"]

  /** `Visualizer.create_temperature_plot`. */
  function CreateTemperaturePlot(df: Table, cidade: string, from: int, to: int): (p: Plot)
    ensures IsEmpty(df) ==> p == Drawn(EmptyFigure)
    ensures !IsEmpty(df) && "cidade" !in df.columns ==> p == KeyError("cidade")
    ensures !IsEmpty(df) && "cidade" in df.columns && "year" !in df.columns ==> p == KeyError("year")
    ensures p.KeyError? ==> p.column !in df.columns && p.column in ["cidade", "year"] + TemperatureColumns
    ensures !IsEmpty(df) && "cidade" in df.columns && "year" in df.columns && Selection(df.rows, cidade, from, to) != []
            && FirstMissing(df.columns, TemperatureColumns).Some? ==>
              p == KeyError(FirstMissing(df.columns, TemperatureColumns).value)
    ensures p == Drawn(EmptyFigure) <==>
              IsEmpty(df) || ("cidade" in df.columns && "year" in df.columns && Selection(df.rows, cidade, from, to) == [])
    ensures p.Drawn? && p.figure != EmptyFigure ==>
              var sel := Selection(df.rows, cidade, from, to);
              && (forall c :: c in TemperatureColumns ==> c in df.columns)
              && |p.figure.traces| == 3
              && DrawsColumn(p.figure.traces[0], "Máxima", "tempMax", sel)
              && DrawsColumn(p.figure.traces[1], "Média", "tempMed", sel)
              && DrawsColumn(p.figure.traces[2], "Mínima", "tempMin", sel)
              && p.figure.title == Title("Temperaturas", cidade, from, to)
  {
    if IsEmpty(df) then Drawn(EmptyFigure)
    else if "cidade" !in df.columns then KeyError("cidade")
    else if "year" !in df.columns then KeyError("year")
    else
      var dff := Table(df.columns, Selection(df.rows, cidade, from, to));
      if IsEmpty(dff) then Drawn(EmptyFigure)
      else match FirstMissing(dff.columns, TemperatureColumns)
        case Some(c) => KeyError(c)
        case None =>
          var x := Dates(IndexColumn(dff.rows));
          Drawn(Figure(
            [ Trace("Máxima", x, Values("tempMax", CellColumn(dff.rows, "tempMax"))),
              Trace("Média", x, Values("tempMed", CellColumn(dff.rows, "tempMed"))),
              Trace("Mínima", x, Values("tempMin", CellColumn(dff.rows, "tempMin"))) ],
            Title("Temperaturas", cidade, from, to),
            []))
  }

  /** The humidity column: `HumidadeMed` if there is one, else `umidade`, else none. */
  function HumidityColumn(columns: set<string>): (c: Option<string>)
    ensures c.Some? ==> c.value in columns
    ensures c == None <==> "HumidadeMed" !in columns && "umidade" !in columns
    ensures "HumidadeMed" in columns ==> c == Some("HumidadeMed")
    ensures "HumidadeMed" !in columns && "umidade" in columns ==> c == Some("umidade")
  {
    if "HumidadeMed" in columns then Some("HumidadeMed")
    else if "umidade" in columns then Some("umidade")
    else None
  }

  /** `dff["index"].dt.month` for the rows with a date, in row order; NaT has no month. */
  function MonthsOf(rows: seq<Row>): (ms: seq<Month>)
    ensures |ms| <= |rows|
    ensures forall m :: m in ms <==> exists r :: r in rows && r.index.Some? && r.index.value.month == m
  {
    if rows == [] then []
    else
      var rest := MonthsOf(rows[1..]);
      assert forall r :: r in rows <==> r == rows[0] || r in rows[1..];
      if rows[0].index.Some? then [rows[0].index.value.month] + rest else rest
  }

  function MonthLess(m: Month, n: Month): bool
  {
    m < n
  }

  lemma MonthLessIsStrictTotalOrder()
    ensures StrictTotalOrder(MonthLess)
  {
  }

  /** The group keys of `groupby(month)`: each month present once, ascending. */
  function MonthsPresent(rows: seq<Row>): (ms: seq<Month>)
    ensures StrictlyIncreasing(MonthLess, ms)
    ensures forall m :: m in ms <==> exists r :: r in rows && r.index.Some? && r.index.value.month == m
  {
    MonthLessIsStrictTotalOrder();
    SortedDistinct(MonthLess, MonthsOf(rows))
  }

  /** The month-number-to-name dictionary of the humidity chart. */
  const MonthNames: map<int, string> := map[
    1 := "Janeiro", 2 := "Fevereiro", 3 := "Março", 4 := "Abril",
    5 := "Maio", 6 := "Junho", 7 := "Julho", 8 := "Agosto",
    9 := "Setembro", 10 := "Outubro", 11 := "Novembro", 12 := "Dezembro"]

  /** The `categoryarray` of the humidity chart's x axis. */
  const CalendarOrder: seq<string> := [
    "Janeiro", "Fevereiro", "Março", "Abril", "Maio", "Junho",
    "Julho", "Agosto", "Setembro", "Outubro", "Novembro", "Dezembro"]

  /**
   * The dictionary names every month, and the category order lists the
   * same names, January first, each once.
   */
  lemma MonthNamesFollowCalendar()
    ensures |CalendarOrder| == 12
    ensures forall m: Month :: m in MonthNames && MonthNames[m] == CalendarOrder[m - 1]
    ensures forall i, j :: 0 <= i < j < |CalendarOrder| ==> CalendarOrder[i] != CalendarOrder[j]
  {
  }

  /** `.map(MonthNames)` over the group keys. */
  function MonthLabels(months: seq<Month>): (labels: seq<string>)
    ensures |labels| == |months|
    ensures forall i :: 0 <= i < |months| ==> labels[i] == CalendarOrder[months[i] - 1]
  {
    MonthNamesFollowCalendar();
    seq(|months|, i requires 0 <= i < |months| => MonthNames[months[i]])
  }

  /** Distinct months get distinct names, so the chart has one category per month. */
  lemma {:induction false} MonthLabelsDistinct(months: seq<Month>)
    requires StrictlyIncreasing(MonthLess, months)
    ensures forall i, j :: 0 <= i < j < |months| ==> MonthLabels(months)[i] != MonthLabels(months)[j]
  {
    var labels := MonthLabels(months);
    MonthNamesFollowCalendar();
    forall i, j | 0 <= i < j < |months| ensures labels[i] != labels[j] {
      assert MonthLess(months[i], months[j]);
      assert labels[i] == CalendarOrder[months[i] - 1] && labels[j] == CalendarOrder[months[j] - 1];
    }
  }

  /** `Visualizer.create_umidity_plot`. */
  function CreateUmidityPlot(df: Table, cidade: string, from: int, to: int): (p: Plot)
    ensures IsEmpty(df) ==> p == Drawn(EmptyFigure)
    ensures !IsEmpty(df) && "cidade" !in df.columns ==> p == KeyError("cidade")
    ensures !IsEmpty(df) && "cidade" in df.columns && "year" !in df.columns ==> p == KeyError("year")
    ensures p.KeyError? ==> p.column !in df.columns && p.column in ["cidade", "year", "index"]
    ensures p == Drawn(EmptyFigure) <==>
              || IsEmpty(df)
              || ("cidade" in df.columns && "year" in df.columns &&
                  (Selection(df.rows, cidade, from, to) == [] || HumidityColumn(df.columns) == None))
    ensures p.Drawn? && p.figure != EmptyFigure ==>
              var sel := Selection(df.rows, cidade, from, to);
              var months := MonthsPresent(sel);
              && HumidityColumn(df.columns).Some? && "index" in df.columns
              && |p.figure.traces| == 1
              && p.figure.traces[0].name == "Umidade Média"
              && p.figure.traces[0].x == Labels(MonthLabels(months))
              && p.figure.traces[0].y == MonthlyMeans(HumidityColumn(df.columns).value, months)
              && p.figure.categoryOrder == CalendarOrder
              && p.figure.title == Title("Umidade Média Mensal", cidade, from, to)
  {
    if IsEmpty(df) then Drawn(EmptyFigure)
    else if "cidade" !in df.columns then KeyError("cidade")
    else if "year" !in df.columns then KeyError("year")
    else
      var dff := Table(df.columns, Selection(df.rows, cidade, from, to));
      if IsEmpty(dff) then Drawn(EmptyFigure)
      else match HumidityColumn(dff.columns)
        case None => Drawn(EmptyFigure)
        case Some(column) =>
          if "index" !in dff.columns then KeyError("index")
          else
            var months := MonthsPresent(dff.rows);
            Drawn(Figure(
              [Trace("Umidade Média", Labels(MonthLabels(months)), MonthlyMeans(column, months))],
              Title("Umidade Média Mensal", cidade, from, to),
              CalendarOrder))
  }

  /**
   * A drawn humidity chart has one point per month present among the
   * selected dated rows, each month once, labelled by its name and placed
   * in calendar order.
   */
  lemma HumidityPointPerMonth(df: Table, cidade: string, from: int, to: int)
    requires CreateUmidityPlot(df, cidade, from, to).Drawn?
    requires CreateUmidityPlot(df, cidade, from, to).figure != EmptyFigure
    ensures var t := CreateUmidityPlot(df, cidade, from, to).figure.traces[0];
            var sel := Selection(df.rows, cidade, from, to);
            && t.x.Labels? && t.y.MonthlyMeans? && |t.x.labels| == |t.y.months|
            && (forall m :: m in t.y.months <==> exists r :: r in sel && r.index.Some? && r.index.value.month == m)
            && (forall i, j :: 0 <= i < j < |t.x.labels| ==> t.y.months[i] < t.y.months[j] && t.x.labels[i] != t.x.labels[j])
  {
    var sel := Selection(df.rows, cidade, from, to);
    MonthLabelsDistinct(MonthsPresent(sel));
  }
}
