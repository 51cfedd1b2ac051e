/** This week's income: one bar per day the report returns. */
module WeeklyIncomeChart {
  import opened Wrappers
  import opened Bars

  /** A day of the report; `date` is "YYYY-MM-DD". */
  datatype Row = Row(date: string, totalIncome: real)

  /** A bar: the date it stands for and its height in percent. */
  datatype Bar = Bar(date: string, height: real)

  function Incomes(rows: seq<Row>): (r: seq<real>)
    ensures |r| == |rows| && forall i :: 0 <= i < |rows| ==> r[i] == rows[i].totalIncome
  {
    seq(|rows|, i requires 0 <= i < |rows| => rows[i].totalIncome)
  }

  function BarsOf(rows: seq<Row>): (r: seq<Bar>)
    ensures |r| == |rows|
    ensures forall i :: 0 <= i < |rows| ==>
              r[i] == Bar(rows[i].date, Height(Percent(rows[i].totalIncome, MaxOf(Incomes(rows)))))
  {
    var m := MaxOf(Incomes(rows));
    seq(|rows|, i requires 0 <= i < |rows| => Bar(rows[i].date, Height(Percent(rows[i].totalIncome, m))))
  }

  datatype View = LoadingText | ErrorText | NoData | Chart(bars: seq<Bar>)

  function Render(f: Fetch<Row>): (v: View)
    ensures v == LoadingText <==> f.isLoading
    ensures v == ErrorText <==> !f.isLoading && (f.error || f.data.None?)
    ensures v == NoData <==> HasRows(f) && f.data.value == []
    ensures v.Chart? ==> HasRows(f) && v.bars == BarsOf(f.data.value)
  {
    if f.isLoading then LoadingText
    else if f.error || f.data.None? then ErrorText
    else if |f.data.value| == 0 then NoData
    else Chart(BarsOf(f.data.value))
  }

  /** With no negative income every bar is between 2% and 100% tall, and the best day of at
      least 1 reaches the top. */
  lemma BarHeights(rows: seq<Row>, k: int)
    requires forall i :: 0 <= i < |rows| ==> rows[i].totalIncome >= 0.0
    requires 0 <= k < |rows|
    ensures 2.0 <= BarsOf(rows)[k].height <= 100.0
    ensures rows[k].totalIncome >= 1.0 && (forall i :: 0 <= i < |rows| ==> rows[i].totalIncome <= rows[k].totalIncome) ==>
              BarsOf(rows)[k].height == 100.0
  {
    var xs := Incomes(rows);
    HeightBounds(xs, k);
    if rows[k].totalIncome >= 1.0 && (forall i :: 0 <= i < |rows| ==> rows[i].totalIncome <= rows[k].totalIncome) {
      PercentOfMax(xs, k);
    }
  }
}
