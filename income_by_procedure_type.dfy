/** Income by procedure type: the first ten rows of the report, each with a bar as wide as its
    share of the largest income. */
module IncomeByProcedureType {
  import opened Wrappers
  import opened Bars

  datatype Row = Row(itemName: string, totalIncome: real)

  /** `data.slice(0, 10)`. */
  function TopRows(data: seq<Row>): (r: seq<Row>)
    ensures |r| == (if |data| < 10 then |data| else 10)
    ensures r == data[..|r|]
  {
    if |data| <= 10 then data else data[..10]
  }

  function Incomes(rows: seq<Row>): (r: seq<real>)
    ensures |r| == |rows| && forall i :: 0 <= i < |rows| ==> r[i] == rows[i].totalIncome
  {
    seq(|rows|, i requires 0 <= i < |rows| => rows[i].totalIncome)
  }

  /** A bar: the row's name and its width in percent. */
  datatype Bar = Bar(name: string, pct: real)

  function BarsOf(rows: seq<Row>): (r: seq<Bar>)
    ensures |r| == |rows|
    ensures forall i :: 0 <= i < |rows| ==>
              r[i] == Bar(rows[i].itemName, Percent(rows[i].totalIncome, MaxOf(Incomes(rows))))
  {
    var m := MaxOf(Incomes(rows));
    seq(|rows|, i requires 0 <= i < |rows| => Bar(rows[i].itemName, Percent(rows[i].totalIncome, m)))
  }

  datatype View = LoadingText | ErrorText | NoData | Chart(bars: seq<Bar>)

  function Render(f: Fetch<Row>): (v: View)
    ensures v == LoadingText <==> f.isLoading
    ensures v == ErrorText <==> !f.isLoading && (f.error || f.data.None?)
    ensures v == NoData <==> HasRows(f) && f.data.value == []
    ensures v.Chart? ==> HasRows(f) && v.bars == BarsOf(TopRows(f.data.value))
  {
    if f.isLoading then LoadingText
    else if f.error || f.data.None? then ErrorText
    else
      var rows := TopRows(f.data.value);
      if |rows| == 0 then NoData else Chart(BarsOf(rows))
  }

  /** The chart keeps the first rows in their order, one bar each, named after the row. */
  lemma ChartRows(data: seq<Row>)
    requires data != []
    ensures var v := Render(Fetch(false, false, Some(data)));
      v.Chart? && |v.bars| == (if |data| < 10 then |data| else 10)
      && forall i :: 0 <= i < |v.bars| ==> v.bars[i].name == data[i].itemName
  {
  }

  /** With no negative income every bar is between 0% and 100% wide, and the largest row of
      at least 1 fills its bar. */
  lemma ChartWidths(rows: seq<Row>, k: int)
    requires forall i :: 0 <= i < |rows| ==> rows[i].totalIncome >= 0.0
    requires 0 <= k < |rows|
    ensures 0.0 <= BarsOf(rows)[k].pct <= 100.0
    ensures rows[k].totalIncome >= 1.0 && (forall i :: 0 <= i < |rows| ==> rows[i].totalIncome <= rows[k].totalIncome) ==>
              BarsOf(rows)[k].pct == 100.0
  {
    var xs := Incomes(rows);
    PercentBounds(xs, k);
    if rows[k].totalIncome >= 1.0 && (forall i :: 0 <= i < |rows| ==> rows[i].totalIncome <= rows[k].totalIncome) {
      PercentOfMax(xs, k);
    }
  }
}
