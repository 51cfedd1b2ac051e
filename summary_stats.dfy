/** The five summary cards of the statistics screen: this period's income, new patients,
    confirmed clinical records and procedures, each against the previous month, and the
    all-time balance. */
module SummaryStats {
  import opened Wrappers
  import opened Decimal

  /** `Number(value)`: a finite number, NaN, or an infinity. */
  datatype Num = Finite(x: real) | NaN | Infinity(negative: bool)

  /** `formatCopInput`: "" for a value that is not finite, and otherwise the value through
      `format` (`Intl.NumberFormat` for Colombian pesos, left uninterpreted). */
  function FormatCop(n: Num, format: real -> string): (r: string)
    ensures !n.Finite? ==> r == ""
    ensures n.Finite? ==> r == format(n.x)
  {
    match n
    case Finite(x) => format(x)
    case _ => ""
  }

  const BalanceLabel := "Balance Total"

  /** What a card shows under its value. */
  datatype Variation = NoLine | NoPrevious | Trend(up: bool, color: string, percent: real)

  /** `renderVariation`: nothing on the balance card, a notice when there is no previous month,
      and otherwise an arrow, up and green only for a strictly positive change. */
  function RenderVariation(title: string, variation: Option<real>): (r: Variation)
    ensures title == BalanceLabel <==> r == NoLine
    ensures title != BalanceLabel && variation.None? <==> r == NoPrevious
    ensures r.Trend? ==> variation.Some? && r.percent == variation.value
    ensures r.Trend? ==> (r.up <==> variation.value > 0.0)
    ensures r.Trend? ==> r.color == (if r.up then "text-green-600" else "text-red-500")
  {
    if title == BalanceLabel then NoLine
    else if variation.None? then NoPrevious
    else
      var up := variation.value > 0.0;
      Trend(up, if up then "text-green-600" else "text-red-500", variation.value)
  }

  const NoPreviousText := "Sin datos del mes anterior"

  /** The summary as the API returns it. */
  datatype Summary = Summary(thisMonthIncome: Num, incomeVariation: Option<real>,
                             thisMonthPatients: int, patientsVariation: Option<real>,
                             thisMonthSessions: int, sessionsVariation: Option<real>,
                             thisMonthProcedures: int, proceduresVariation: Option<real>,
                             totalIncome: Num)

  datatype Stat = Stat(text: string, value: string, variation: Option<real>)

  /** The cards in order. */
  function Stats(d: Summary, format: real -> string): (r: seq<Stat>)
    ensures |r| == 5
    ensures r[0].value == FormatCop(d.thisMonthIncome, format) && r[4].value == FormatCop(d.totalIncome, format)
    ensures r[4].text == BalanceLabel && r[4].variation == None
    ensures forall i :: 0 <= i < 4 ==> r[i].text != BalanceLabel
    ensures forall i, j :: 0 <= i < j < 5 ==> r[i].text != r[j].text
  {
    var r := [
      Stat("Ingresos Periodo Actual", FormatCop(d.thisMonthIncome, format), d.incomeVariation),
      Stat("Nuevos Pacientes", IntToDecimal(d.thisMonthPatients), d.patientsVariation),
      Stat("Regis. Cl\U{00ED}nicos Confirmados", IntToDecimal(d.thisMonthSessions), d.sessionsVariation),
      Stat("Procedimientos", IntToDecimal(d.thisMonthProcedures), d.proceduresVariation),
      Stat(BalanceLabel, FormatCop(d.totalIncome, format), None)
    ];
    assert |r[0].text| == 23 && |r[1].text| == 16 && |r[2].text| == 27 && |r[3].text| == 14 && |r[4].text| == 13;
    r
  }

  /** The balance card never shows a variation line, and every other card shows one: the
      notice when the API sends no variation, the trend otherwise. */
  lemma VariationLines(d: Summary, format: real -> string, i: int)
    requires 0 <= i < 5
    ensures var s := Stats(d, format)[i];
      (i == 4 <==> RenderVariation(s.text, s.variation) == NoLine)
      && (i < 4 && s.variation.None? ==> RenderVariation(s.text, s.variation) == NoPrevious)
  {
  }

  datatype View = LoadingText | ErrorText | Cards(stats: seq<Stat>)

  function Render(isLoading: bool, error: bool, data: Option<Summary>, format: real -> string): (v: View)
    ensures v == LoadingText <==> isLoading
    ensures v == ErrorText <==> !isLoading && (error || data.None?)
    ensures v.Cards? ==> data.Some? && v.stats == Stats(data.value, format)
  {
    if isLoading then LoadingText
    else if error || data.None? then ErrorText
    else Cards(Stats(data.value, format))
  }
}
