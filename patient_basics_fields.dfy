/** The patient basics step of the registration wizard: the age shown from the date of
    birth, its range warning, and the cellphone formatter applied on every keystroke. */
module PatientBasicsFields {
  import opened Wrappers
  import opened Strings

  /** A calendar day as the `Date` getters see it (the month may be 0- or 1-based, only
      differences are used). */
  datatype Day = Day(year: int, month: int, date: int)

  /** The date-of-birth input: empty, unparsable (`new Date` gives NaN), or a day. */
  datatype Birth = NoBirth | InvalidBirth | Born(day: Day)

  /** Lexicographic order on days. */
  predicate Before(a: Day, b: Day) {
    a.year < b.year || (a.year == b.year && (a.month < b.month || (a.month == b.month && a.date < b.date)))
  }

  /** The day on which someone born on `b` turns `k`. */
  function Anniversary(b: Day, k: int): Day {
    Day(b.year + k, b.month, b.date)
  }

  /** The `calculatedAge` expression: None is the empty string. */
  function CalculatedAge(dob: Birth, today: Day): Option<nat> {
    match dob
    case NoBirth => None
    case InvalidBirth => None
    case Born(b) =>
      var m := today.month - b.month;
      var age := today.year - b.year - (if m < 0 || (m == 0 && today.date < b.date) then 1 else 0);
      if age >= 0 then Some(age) else None
  }

  /** The computed age is the number of full years: the last anniversary is not after today
      and the next one is. */
  lemma AgeIsFullYears(b: Day, today: Day)
    requires CalculatedAge(Born(b), today).Some?
    ensures var a := CalculatedAge(Born(b), today).value;
      !Before(today, Anniversary(b, a)) && Before(today, Anniversary(b, a + 1))
  {
  }

  /** Conversely, any count of full years is the computed age. */
  lemma FullYearsIsAge(b: Day, today: Day, a: nat)
    requires !Before(today, Anniversary(b, a)) && Before(today, Anniversary(b, a + 1))
    ensures CalculatedAge(Born(b), today) == Some(a)
  {
  }

  /** No age is shown for a birth date after today. */
  lemma AgeEmptyIffUnborn(b: Day, today: Day)
    ensures CalculatedAge(Born(b), today).None? <==> Before(today, b)
  {
  }

  /** The red range warning: shown iff there is an age and it is outside 14..120. */
  predicate RangeWarning(age: Option<nat>) {
    age.Some? && (age.value < 14 || age.value > 120)
  }

  /** With no date, or one `new Date` cannot read, there is no age and no warning. */
  lemma NoDateNoAge(today: Day)
    ensures CalculatedAge(NoBirth, today).None? && CalculatedAge(InvalidBirth, today).None?
    ensures !RangeWarning(CalculatedAge(NoBirth, today)) && !RangeWarning(CalculatedAge(InvalidBirth, today))
  {
  }

  /** The grouping replace: `/(\d{3})(\d{3})(\d{0,4})/` on at most ten digits. */
  function Group(v: string): (r: string)
    requires IsDigits(v) && |v| <= 10
  {
    if |v| < 6 then v
    else if |v| == 6 then v[..3] + " " + v[3..6]
    else v[..3] + " " + v[3..6] + " " + v[6..]
  }

  /** The cellphone `onChange`: keep the digits, at most ten, then group them 3-3-4. */
  function FormatCellphone(input: string): (r: string)
    ensures |r| <= 12
    ensures forall i :: 0 <= i < |r| ==> IsDigit(r[i]) || r[i] == ' '
    ensures DigitsOf(r) == Take(DigitsOf(input), 10)
  {
    var v := Take(DigitsOf(input), 10);
    var r := Group(v);
    GroupDigits(v);
    r
  }

  lemma GroupDigits(v: string)
    requires IsDigits(v) && |v| <= 10
    ensures DigitsOf(Group(v)) == v
  {
    if |v| < 6 {
      DigitsOfDigits(v);
    } else {
      var x := v[..3] + " " + v[3..6];
      SpacedDigits(v[..3], v[3..6]);
      assert v[..3] + v[3..6] == v[..6];
      if |v| == 6 {
        assert v[..6] == v;
      } else {
        DigitsOfSpace(x, v[6..]);
        DigitsOfDigits(v[6..]);
        assert v[..6] + v[6..] == v;
      }
    }
  }

  /** Two digit strings joined by a space: the space is the only thing stripped. */
  lemma SpacedDigits(a: string, b: string)
    requires IsDigits(a) && IsDigits(b)
    ensures DigitsOf(a + " " + b) == a + b
  {
    DigitsOfSpace(a, b);
    DigitsOfDigits(a);
    DigitsOfDigits(b);
  }

  lemma DigitsOfSpace(a: string, b: string)
    ensures DigitsOf(a + " " + b) == DigitsOf(a) + DigitsOf(b)
  {
    DigitsOfNone(" ");
    DigitsOfAppend(a, " ");
    DigitsOfAppend(a + " ", b);
  }

  /** Formatting what the formatter produced changes nothing. */
  lemma FormatIdempotent(input: string)
    ensures FormatCellphone(FormatCellphone(input)) == FormatCellphone(input)
  {
    var v := Take(DigitsOf(input), 10);
    DigitsOfIdempotent(input);
  }

  /** The shape of the formatted number by the count of digits typed. */
  lemma FormatShape(input: string)
    ensures var v := Take(DigitsOf(input), 10); var r := FormatCellphone(input);
      (|v| < 6 ==> r == v)
      && (|v| == 6 ==> r == v[..3] + " " + v[3..])
      && (|v| > 6 ==> r == v[..3] + " " + v[3..6] + " " + v[6..])
  {
  }
}
