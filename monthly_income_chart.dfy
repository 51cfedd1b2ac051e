/** Monthly income: the last twelve months of the report as bars, labelled with the month's
    short Spanish name. */
module MonthlyIncomeChart {
  import opened Wrappers
  import opened Bars

  datatype Row = Row(year: int, month: int, totalIncome: real)

  const MonthNames: seq<string> := ["Ene", "Feb", "Mar", "Abr", "May", "Jun", "Jul", "Ago", "Sep", "Oct", "Nov", "Dic"]

  /** `data.slice(-12)`: the last twelve rows, in order. */
  function LastRows(data: seq<Row>): (r: seq<Row>)
    ensures |r| == (if |data| < 12 then |data| else 12)
    ensures r == data[|data| - |r|..]
  {
    if |data| <= 12 then data else data[|data| - 12..]
  }

  /** JavaScript's `%`, which truncates toward zero: the remainder takes the sign of `a`. */
  function JsRem(a: int, b: int): (r: int)
    requires b > 0
    ensures -b < r < b
    ensures a >= 0 ==> r == a % b
    ensures a < 0 ==> r == -((-a) % b)
  {
    if a >= 0 then a % b else -((-a) % b)
  }

  /** `MONTH_NAMES[(month - 1) % 12]`: None (undefined) for a negative index. */
  function MonthLabel(month: int): (r: Option<string>)
    ensures r.None? <==> JsRem(month - 1, 12) < 0
    ensures r.Some? ==> r.value == MonthNames[JsRem(month - 1, 12)]
  {
    var k := JsRem(month - 1, 12);
    if k < 0 then None else Some(MonthNames[k])
  }

  /** Months 1 to 12 are named in order, month 13 wraps around to January, and month 0 has no
      label. */
  lemma MonthLabels(month: int)
    ensures 1 <= month <= 12 ==> MonthLabel(month) == Some(MonthNames[month - 1])
    ensures month >= 1 ==> MonthLabel(month) == MonthLabel(month + 12)
    ensures MonthLabel(13) == Some("Ene")
    ensures MonthLabel(0) == None
  {
  }

  /** A bar: the month's label and its height in percent. */
  datatype Bar = Bar(name: Option<string>, height: real)

  function Incomes(rows: seq<Row>): (r: seq<real>)
    ensures |r| == |rows| && forall i :: 0 <= i < |rows| ==> r[i] == rows[i].totalIncome
  {
    seq(|rows|, i requires 0 <= i < |rows| => rows[i].totalIncome)
  }

  function BarsOf(rows: seq<Row>): (r: seq<Bar>)
    ensures |r| == |rows|
    ensures forall i :: 0 <= i < |rows| ==>
              r[i] == Bar(MonthLabel(rows[i].month), Height(Percent(rows[i].totalIncome, MaxOf(Incomes(rows)))))
  {
    var m := MaxOf(Incomes(rows));
    seq(|rows|, i requires 0 <= i < |rows| => Bar(MonthLabel(rows[i].month), Height(Percent(rows[i].totalIncome, m))))
  }

  datatype View = LoadingText | ErrorText | NoData | Chart(bars: seq<Bar>)

  function Render(f: Fetch<Row>): (v: View)
    ensures v == LoadingText <==> f.isLoading
    ensures v == ErrorText <==> !f.isLoading && (f.error || f.data.None?)
    ensures v == NoData <==> HasRows(f) && f.data.value == []
    ensures v.Chart? ==> HasRows(f) && v.bars == BarsOf(LastRows(f.data.value))
  {
    if f.isLoading then LoadingText
    else if f.error || f.data.None? then ErrorText
    else
      var rows := LastRows(f.data.value);
      if |rows| == 0 then NoData else Chart(BarsOf(rows))
  }

  /** Every bar is at least 2% tall, and with no negative income at most 100%. */
  lemma BarHeights(rows: seq<Row>, k: int)
    requires 0 <= k < |rows|
    ensures BarsOf(rows)[k].height >= 2.0
    ensures (forall i :: 0 <= i < |rows| ==> rows[i].totalIncome >= 0.0) ==> BarsOf(rows)[k].height <= 100.0
  {
    if forall i :: 0 <= i < |rows| ==> rows[i].totalIncome >= 0.0 {
      HeightBounds(Incomes(rows), k);
    }
  }

  /** The chart shows the most recent twelve rows: bar i is row |data| - n + i. */
  lemma ChartKeepsLatest(data: seq<Row>, i: int)
    requires data != []
    ensures var v := Render(Fetch(false, false, Some(data)));
      v.Chart? && (0 <= i < |v.bars| ==>
        v.bars[i].name == MonthLabel(data[|data| - |v.bars| + i].month))
  {
  }
}
