/** The "Nuevo registro clínico" modal of a patient's page: a two-step form (clinical
    evaluation, then procedure and prices) that creates an evaluation and then a procedure
    attached to it. */
module NewRecordModal {
  import opened Wrappers
  import opened Strings
  import opened Decimal
  import opened ItemLists
  import opened Responses
  import Bmi

  // ---------------------------------------------------------------------------
  // The values an `<input type="number">` can hold

  /** A non-empty value the browser leaves in a number input: an optional '-', then digits,
      digits '.' digits, or '.' digits (exponents are not modelled). Anything else the user
      types reads as "". */
  predicate NumberText(s: string) {
    var u := if s != [] && s[0] == '-' then s[1..] else s;
    var ip := DigitPrefix(u);
    var rest := u[|ip|..];
    (ip != "" && rest == "")
    || (rest != [] && rest[0] == '.' && rest[1..] != "" && IsDigits(rest[1..]))
  }

  /** The value of a number input: empty or a number text. */
  predicate NumberInput(s: string) {
    s == "" || NumberText(s)
  }

  /** Every number text is a number for parseFloat. */
  lemma NumberTextParses(s: string)
    requires NumberText(s)
    ensures ParseFloat(s).Some?
  {
    var u := if s != [] && s[0] == '-' then s[1..] else s;
    assert s != [];
    assert !IsWhitespace(s[0]) by {
      if s[0] != '-' {
        var ip := DigitPrefix(u);
        assert ip != "" ==> IsDigit(s[0]);
        assert ip == "" ==> s[0] == '.';
      }
    }
    assert TrimStart(s) == s;
    var ip := DigitPrefix(u);
    var rest := u[|ip|..];
    if ip == "" {
      DigitPrefixOfDigits(rest[1..]);
    }
    assert ParseUnsigned(u).Some?;
  }

  // ---------------------------------------------------------------------------
  // Step 1: the evaluation

  /** `parseFloat(x) <= 0`: false for NaN. */
  predicate AtMostZero(x: Option<real>) {
    x.Some? && x.value <= 0.0
  }

  /** The "Siguiente" handler's test: every field filled, the background not blank, and
      neither number at or below zero. */
  predicate StepGate(weight: string, height: string, medicalBackground: string) {
    weight != "" && height != "" && !IsBlank(medicalBackground)
    && !AtMostZero(ParseFloat(weight)) && !AtMostZero(ParseFloat(height))
  }

  /** Two positive numbers and a non-blank background always pass. */
  lemma StepGatePositive(weight: string, height: string, medicalBackground: string)
    requires ParsesPositive(weight) && ParsesPositive(height) && !IsBlank(medicalBackground)
    ensures StepGate(weight, height, medicalBackground)
  {
    assert weight != "" && height != "";
  }

  /** With the values a number input can hold, the test is exactly "both numbers above zero,
      background not blank". */
  lemma StepGateIff(weight: string, height: string, medicalBackground: string)
    requires NumberInput(weight) && NumberInput(height)
    ensures StepGate(weight, height, medicalBackground)
            <==> ParsesPositive(weight) && ParsesPositive(height) && !IsBlank(medicalBackground)
  {
    if weight != "" {
      NumberTextParses(weight);
    }
    if height != "" {
      NumberTextParses(height);
    }
    if ParsesPositive(weight) && ParsesPositive(height) && !IsBlank(medicalBackground) {
      StepGatePositive(weight, height, medicalBackground);
    }
  }

  const StepGateText := "Completa los campos de evaluación clínica"

  /** The "IMC calculado" preview, on `parseFloat(weight)` and `parseFloat(height)`: the
      `toFixed(2)` text of the index, or null. */
  function BmiValue(weight: Option<real>, height: Option<real>): (r: Option<string>)
    ensures r.Some? <==> Positive(weight) && Positive(height)
  {
    if Positive(weight) && Positive(height) then
      Some(Bmi.FixedText(Bmi.Hundredths(weight.value, height.value)))
    else None
  }

  // ---------------------------------------------------------------------------
  // Step 2: procedure, prices and submission

  /** An item is complete when its name is not blank and its price is not empty. */
  predicate ItemComplete(it: FormItem) {
    !IsBlank(it.itemName) && it.price != ""
  }

  /** The submit handler's test. */
  predicate SubmitComplete(notes: string, procedureDate: string, items: seq<FormItem>) {
    !IsBlank(notes) && procedureDate != "" && forall i :: 0 <= i < |items| ==> ItemComplete(items[i])
  }

  const SubmitGateText := "Completa todos los campos del procedimiento"

  /** `price.replace(/\./g, "").replace(",", ".")`: thousands points dropped, then the first
      comma made the decimal point. */
  function NormalisePrice(price: string): (r: string)
    ensures |r| <= |price|
  {
    ReplaceFirstChar(RemoveChar(price, '.'), ',', '.')
  }

  /** The normalised price has at most one '.', and only where the first ',' was. */
  lemma NormalisedPoint(price: string)
    ensures CountChar(NormalisePrice(price), '.') <= 1
    ensures ',' !in RemoveChar(price, '.') ==> '.' !in NormalisePrice(price)
  {
    var r := RemoveChar(price, '.');
    if ',' in r {
      ReplaceFirstCharAt(r, ',', '.');
      var k := FirstIndex(r, ',');
      assert '.' !in r[..k] && '.' !in r[k + 1..] by {
        assert forall c :: c in r[..k] ==> c in r;
        assert forall c :: c in r[k + 1..] ==> c in r;
      }
      CountCharAbsent(r[..k], '.');
      CountCharAbsent(r[k + 1..], '.');
      CountCharAppend(r[..k] + ['.'], r[k + 1..], '.');
      CountCharAppend(r[..k], ['.'], '.');
    } else {
      CountCharAbsent(r, '.');
    }
  }

  lemma {:induction false} RemoveDotsOfGrouped(s: string)
    requires forall i :: 0 <= i < |s| ==> IsDigit(s[i]) || s[i] == '.'
    ensures RemoveChar(s, '.') == DigitsOf(s)
  {
    if s != [] {
      RemoveDotsOfGrouped(s[1..]);
    }
  }

  /** Digits, a point and digits are a number-box value. */
  lemma NumberTextPoint(a: string, b: string)
    requires IsDigits(a) && IsDigits(b) && a != [] && b != []
    ensures NumberText(a + "." + b)
  {
    var s := a + "." + b;
    assert s == a + ("." + b);
    DigitPrefixStops(a, "." + b);
    assert s[|a|..] == "." + b;
    assert ("." + b)[1..] == b;
  }

  /** A digit string is a number-box value. */
  lemma NumberTextDigits(s: string)
    requires IsDigits(s) && s != []
    ensures NumberText(s)
  {
    DigitPrefixOfDigits(s);
  }

  /** A number-box value holds at most one point and no comma. */
  lemma NumberTextShape(s: string)
    requires NumberText(s)
    ensures CountChar(s, '.') <= 1 && ',' !in s
  {
    var pre := if s[0] == '-' then "-" else "";
    var u := s[|pre|..];
    var ip := DigitPrefix(u);
    var rest := u[|ip|..];
    assert u == ip + rest;
    PiecesShape(s, pre, ip, rest);
  }

  lemma PiecesShape(s: string, pre: string, ip: string, rest: string)
    requires s == pre + (ip + rest) && (pre == "" || pre == "-") && IsDigits(ip)
    requires rest == "" || (rest[0] == '.' && IsDigits(rest[1..]))
    ensures CountChar(s, '.') <= 1 && ',' !in s
  {
    assert s == (pre + ip) + rest;
    DigitsClean(ip);
    CountCharAppend(pre, ip, '.');
    assert CountChar(pre, '.') == 0;
    CountCharAppend(pre + ip, rest, '.');
    if rest != "" {
      var fp := rest[1..];
      assert rest == "." + fp;
      DigitsClean(fp);
      CountCharAppend(".", fp, '.');
    }
  }

  /** A digit string holds neither a point nor a comma. */
  lemma DigitsClean(d: string)
    requires IsDigits(d)
    ensures '.' !in d && ',' !in d && CountChar(d, '.') == 0
  {
    assert forall i :: 0 <= i < |d| ==> IsDigit(d[i]);
    CountCharAbsent(d, '.');
  }

  /** The price's points are deleted, not read: digits, a point and digits are sent as the
      digits run together. */
  lemma NormaliseDropsPoint(a: string, b: string)
    requires IsDigits(a) && IsDigits(b)
    ensures NormalisePrice(a + "." + b) == a + b
  {
    RemoveOnePoint(a + "." + b, a, b);
    assert ',' !in a + b by {
      assert IsDigits(a + b);
    }
  }

  lemma RemoveOnePoint(s: string, a: string, b: string)
    requires IsDigits(a) && IsDigits(b) && s == a + "." + b
    ensures RemoveChar(s, '.') == a + b
  {
    assert forall i :: 0 <= i < |s| ==> IsDigit(s[i]) || s[i] == '.' by {
      forall i | 0 <= i < |s| ensures IsDigit(s[i]) || s[i] == '.' {
        if i < |a| {
          assert s[i] == a[i];
        } else if i > |a| {
          assert s[i] == b[i - |a| - 1];
        }
      }
    }
    RemoveDotsOfGrouped(s);
    DigitsOfAppend(a + ".", b);
    DigitsOfAppend(a, ".");
    DigitsOfDigits(a);
    DigitsOfDigits(b);
  }

  /** A decimal price the box holds, such as "1500.5", is sent as its digits run together
      (15005): the box's decimal point is lost. */
  lemma DecimalPriceLosesPoint(a: string, b: string)
    requires IsDigits(a) && IsDigits(b) && a != [] && b != []
    ensures NumberText(a + "." + b)
    ensures ParseFloat(NormalisePrice(a + "." + b)) == Some(DecimalValue(a + b) as real)
  {
    NumberTextPoint(a, b);
    NormaliseDropsPoint(a, b);
    ParseFloatDigits(a + b);
  }

  /** "1500.5" is a number-box value and is sent as 15005. */
  lemma DecimalPriceExample()
    ensures NumberText("1500.5")
    ensures ParseFloat(NormalisePrice("1500.5")) == Some(15005.0)
  {
    assert "1500" + "." + "5" == "1500.5";
    assert DecimalValue("15005") == 15005 by {
      assert "15005"[..4] == "1500";
      assert "1500"[..3] == "150";
      assert "150"[..2] == "15";
      assert "15"[..1] == "1";
      assert "1"[..0] == "";
    }
    assert "1500" + "5" == "15005";
    DecimalPriceLosesPoint("1500", "5");
  }

  /** A number-box value without a point is sent unchanged. */
  lemma PointlessPriceKept(s: string)
    requires NumberInput(s) && '.' !in s
    ensures NormalisePrice(s) == s
  {
    if s != "" {
      NumberTextShape(s);
    }
    RemoveCharAbsent(s, '.');
  }

  /** The price normalisation the number box evidently calls for: a text with a comma is read
      the es-CO way as before, and a value the box holds (never one with a comma) is kept with
      its decimal point. */
  function KeptPointPrice(price: string): (r: string)
    ensures ',' in price ==> r == NormalisePrice(price)
    ensures NumberInput(price) ==> r == price
  {
    if ',' in price then
      assert !NumberText(price) by {
        if NumberText(price) {
          NumberTextShape(price);
        }
      }
      NormalisePrice(price)
    else price
  }

  /** With the corrected normalisation, "1500.5" and every digits-point-digits value are sent
      as the number the box holds. */
  lemma KeptPointPriceValue(a: string, b: string)
    requires IsDigits(a) && IsDigits(b) && a != [] && b != []
    ensures ParseFloat(KeptPointPrice(a + "." + b)) == Some(DecimalValue(a) as real + FractionValue(b))
  {
    NumberTextPoint(a, b);
    ParseFloatPoint(a, b);
  }

  /** parseFloat reads digits, a point and digits as the whole part plus the fraction. */
  lemma ParseFloatPoint(a: string, b: string)
    requires IsDigits(a) && IsDigits(b) && a != []
    ensures ParseFloat(a + "." + b) == Some(DecimalValue(a) as real + FractionValue(b))
  {
    var s := a + "." + b;
    assert s[0] == a[0];
    ParseFloatUnsigned(s);
    ParseUnsignedPoint(s, a, b);
  }

  lemma ParseUnsignedPoint(s: string, a: string, b: string)
    requires IsDigits(a) && IsDigits(b) && a != [] && s == a + "." + b
    ensures ParseUnsigned(s) == Some(DecimalValue(a) as real + FractionValue(b))
  {
    ParseUnsignedFraction(a, DecimalValue(a), b, DecimalValue(a) as real + FractionValue(b));
  }

  /** Below a million the es-CO grouped text of a price is a number-box value, and it is sent
      as that number of pesos (the box itself reads "1.500" as 1.5). */
  lemma GroupedPriceReadsBack(n: nat)
    requires n < 1000000
    ensures NumberInput(GroupThousands(n))
    ensures ParseFloat(NormalisePrice(GroupThousands(n))) == Some(n as real)
  {
    var g := GroupThousands(n);
    if n < 1000 {
      NumberTextDigits(NatToDecimal(n));
    } else {
      assert GroupThousands(n / 1000) == NatToDecimal(n / 1000);
      assert g == NatToDecimal(n / 1000) + "." + Pad3(n % 1000);
      NumberTextPoint(NatToDecimal(n / 1000), Pad3(n % 1000));
    }
    RemoveDotsOfGrouped(g);
    GroupThousandsDigits(n);
    assert ',' !in NatToDecimal(n) by {
      assert forall c :: c in NatToDecimal(n) ==> IsDigit(c);
    }
    ParseFloatNat(n);
  }

  /** From a million upwards the grouped text has two points, which no number box holds. */
  lemma GroupedMillionNotNumber(n: nat)
    requires n >= 1000000
    ensures !NumberInput(GroupThousands(n))
  {
    var m := n / 1000;
    var g1 := GroupThousands(m);
    assert g1 == GroupThousands(m / 1000) + "." + Pad3(m % 1000);
    CountCharAppend(GroupThousands(m / 1000) + ".", Pad3(m % 1000), '.');
    CountCharAppend(GroupThousands(m / 1000), ".", '.');
    CountCharAppend(g1 + ".", Pad3(n % 1000), '.');
    CountCharAppend(g1, ".", '.');
    if NumberText(GroupThousands(n)) {
      NumberTextShape(GroupThousands(n));
    }
  }

  /** An item as the procedure request carries it: the name trimmed, the price as parseFloat
      reads the normalised text (None is NaN, sent as null). */
  datatype SubmittedItem = SubmittedItem(itemName: string, price: Option<real>)

  function SubmittedItems(items: seq<FormItem>): (r: seq<SubmittedItem>)
    ensures |r| == |items|
    ensures forall i :: 0 <= i < |items| ==>
      r[i] == SubmittedItem(Trim(items[i].itemName), ParseFloat(NormalisePrice(items[i].price)))
  {
    seq(|items|, i requires 0 <= i < |items| =>
      SubmittedItem(Trim(items[i].itemName), ParseFloat(NormalisePrice(items[i].price))))
  }

  /** The two POST requests, with the form text they are built from. */
  datatype Request =
    | CreateEvaluation(patientId: int, weight: string, height: string, medicalBackground: string)
    | CreateProcedure(evaluationId: int, procedureDate: string, notes: string, items: seq<FormItem>)

  /** The JSON body of the evaluation request: the numbers as parseFloat reads them. */
  datatype EvaluationBody = EvaluationBody(patientId: int, weight: Option<real>, height: Option<real>,
                                           medicalBackground: string)

  function EvaluationJson(r: Request): (b: EvaluationBody)
    requires r.CreateEvaluation?
    ensures b.weight == ParseFloat(r.weight) && b.height == ParseFloat(r.height)
    ensures b.patientId == r.patientId && b.medicalBackground == r.medicalBackground
  {
    EvaluationBody(r.patientId, ParseFloat(r.weight), ParseFloat(r.height), r.medicalBackground)
  }

  /** The items of the procedure's JSON body. */
  function ProcedureItemsJson(r: Request): (items: seq<SubmittedItem>)
    requires r.CreateProcedure?
    ensures items == SubmittedItems(r.items)
  {
    SubmittedItems(r.items)
  }

  /** The parent callbacks, in the order they are called. */
  datatype Callback = OnSuccess | OnClose

  /** Everything a submission does outside the modal. */
  datatype Submission = Submission(sent: seq<Request>, toast: Toast, calls: seq<Callback>)

  const SuccessText := "Registro clínico creado correctamente"

  const EvaluationFallback := "Error al crear valoración"
  const ProcedureFallback := "Error al crear procedimiento"

  /** The evaluation request of the current form. */
  function EvaluationRequest(patientId: int, weight: string, height: string, medicalBackground: string): Request {
    CreateEvaluation(patientId, weight, height, medicalBackground)
  }

  /** The specification of the submit handler, given the two responses. */
  function Submit(patientId: int, weight: string, height: string, medicalBackground: string,
                  procedureDate: string, notes: string, items: seq<FormItem>,
                  evaluation: Response, procedure: Response): Submission
  {
    if !SubmitComplete(notes, procedureDate, items) then
      Submission([], ToastError(SubmitGateText), [])
    else
      var e := EvaluationRequest(patientId, weight, height, medicalBackground);
      if !evaluation.Ok? then
        Submission([e], ToastError(FailureText(evaluation, EvaluationFallback)), [])
      else
        var p := CreateProcedure(evaluation.id, procedureDate, notes, items);
        if !procedure.Ok? then
          Submission([e, p], ToastError(FailureText(procedure, ProcedureFallback)), [])
        else Submission([e, p], ToastSuccess(SuccessText), [OnSuccess, OnClose])
  }

  /** An incomplete procedure form sends nothing and only shows the gate's message. */
  lemma SubmitGateSendsNothing(patientId: int, weight: string, height: string, medicalBackground: string,
                               procedureDate: string, notes: string, items: seq<FormItem>,
                               evaluation: Response, procedure: Response)
    requires IsBlank(notes) || procedureDate == "" || exists i :: 0 <= i < |items| && !ItemComplete(items[i])
    ensures Submit(patientId, weight, height, medicalBackground, procedureDate, notes, items, evaluation, procedure)
            == Submission([], ToastError(SubmitGateText), [])
  {
  }

  /** The procedure request is sent only after the evaluation was created, and it carries
      the new evaluation's id; the evaluation request always goes first. */
  lemma ProcedureFollowsEvaluation(patientId: int, weight: string, height: string, medicalBackground: string,
                                   procedureDate: string, notes: string, items: seq<FormItem>,
                                   evaluation: Response, procedure: Response)
    ensures var s := Submit(patientId, weight, height, medicalBackground, procedureDate, notes, items, evaluation, procedure);
      |s.sent| <= 2
      && (|s.sent| >= 1 ==> s.sent[0] == EvaluationRequest(patientId, weight, height, medicalBackground))
      && (|s.sent| == 2 <==> SubmitComplete(notes, procedureDate, items) && evaluation.Ok?)
      && (|s.sent| == 2 ==> s.sent[1].CreateProcedure? && s.sent[1].evaluationId == evaluation.id
                            && s.sent[1].items == items)
  {
  }

  /** The parent is told of success, and then asked to close, exactly when both requests
      were created; otherwise no callback runs and an error toast is shown. */
  lemma SubmitCallbacks(patientId: int, weight: string, height: string, medicalBackground: string,
                        procedureDate: string, notes: string, items: seq<FormItem>,
                        evaluation: Response, procedure: Response)
    ensures var s := Submit(patientId, weight, height, medicalBackground, procedureDate, notes, items, evaluation, procedure);
      var ok := SubmitComplete(notes, procedureDate, items) && evaluation.Ok? && procedure.Ok?;
      (ok ==> s.calls == [OnSuccess, OnClose] && s.toast == ToastSuccess(SuccessText))
      && (!ok ==> s.calls == [] && s.toast.ToastError?)
  {
  }

  // ---------------------------------------------------------------------------
  // The modal's state

  class Modal {
    const patientId: int
    var step: int
    var isSubmitting: bool
    var weight: string
    var height: string
    var medicalBackground: string
    var procedureDate: string
    var notes: string
    var items: seq<FormItem>

    /** Step 1 or 2, no submission pending, and at least one item row. */
    ghost predicate Valid()
      reads this
    {
      (step == 1 || step == 2) && !isSubmitting && |items| >= 1
    }

    /** The modal opens on step 1 with one empty item and the date part of `now`, an ISO
        8601 timestamp. */
    constructor(patientId: int, now: string)
      ensures Valid()
      ensures this.patientId == patientId && step == 1 && !isSubmitting
      ensures weight == "" && height == "" && medicalBackground == ""
      ensures procedureDate == Take(now, 10) && notes == "" && items == [EmptyItem]
    {
      this.patientId := patientId;
      step := 1;
      isSubmitting := false;
      weight := "";
      height := "";
      medicalBackground := "";
      procedureDate := Take(now, 10);
      notes := "";
      items := [EmptyItem];
    }

    /** "Agregar ítem". */
    method AddItem()
      requires Valid()
      modifies this
      ensures Valid()
      ensures items == old(items) + [EmptyItem] && RemoveAt(items, |old(items)|) == old(items)
      ensures step == old(step) && isSubmitting == old(isSubmitting) && notes == old(notes)
      ensures procedureDate == old(procedureDate) && weight == old(weight) && height == old(height)
      ensures medicalBackground == old(medicalBackground)
    {
      items := items + [EmptyItem];
      AppendThenRemove(old(items), EmptyItem);
    }

    /** The trash button of row `i`, which is drawn only while there is more than one row. */
    method RemoveItem(i: int)
      requires Valid() && |items| > 1 && 0 <= i < |items|
      modifies this
      ensures Valid()
      ensures items == RemoveAt(old(items), i) && |items| == |old(items)| - 1
      ensures step == old(step) && isSubmitting == old(isSubmitting) && notes == old(notes)
      ensures procedureDate == old(procedureDate) && weight == old(weight) && height == old(height)
      ensures medicalBackground == old(medicalBackground)
    {
      items := RemoveAt(items, i);
    }

    /** Typing into the name or price of row `i`. */
    method UpdateItem(i: int, field: ItemField, value: string)
      requires Valid()
      modifies this
      ensures Valid()
      ensures items == UpdateField(old(items), i, field, value)
      ensures step == old(step) && isSubmitting == old(isSubmitting) && notes == old(notes)
      ensures procedureDate == old(procedureDate) && weight == old(weight) && height == old(height)
      ensures medicalBackground == old(medicalBackground)
    {
      items := UpdateField(items, i, field, value);
    }

    /** "Siguiente": move to step 2 when the evaluation passes the gate, else show its toast. */
    method Next() returns (toast: Option<Toast>)
      requires Valid() && step == 1
      modifies this
      ensures Valid()
      ensures StepGate(old(weight), old(height), old(medicalBackground)) ==> step == 2 && toast == None
      ensures !StepGate(old(weight), old(height), old(medicalBackground)) ==>
                step == 1 && toast == Some(ToastError(StepGateText))
      ensures isSubmitting == old(isSubmitting) && items == old(items) && notes == old(notes)
      ensures procedureDate == old(procedureDate) && weight == old(weight) && height == old(height)
      ensures medicalBackground == old(medicalBackground)
    {
      if !StepGate(weight, height, medicalBackground) {
        toast := Some(ToastError(StepGateText));
        return;
      }
      step := 2;
      toast := None;
    }

    /** "Atrás": always back to step 1, nothing else touched. */
    method Back()
      requires Valid() && step == 2
      modifies this
      ensures Valid() && step == 1
      ensures isSubmitting == old(isSubmitting) && items == old(items) && notes == old(notes)
      ensures procedureDate == old(procedureDate) && weight == old(weight) && height == old(height)
      ensures medicalBackground == old(medicalBackground)
    {
      step := 1;
    }

    /** "Guardar registro", given what the two requests come back with. The pending flag is
        raised for the requests and lowered in the `finally` block. */
    method HandleSubmit(evaluation: Response, procedure: Response) returns (s: Submission)
      requires Valid() && step == 2
      modifies this
      ensures Valid()
      ensures s == Submit(patientId, old(weight), old(height), old(medicalBackground), old(procedureDate),
                          old(notes), old(items), evaluation, procedure)
      ensures step == old(step) && items == old(items) && notes == old(notes)
      ensures procedureDate == old(procedureDate) && weight == old(weight) && height == old(height)
      ensures medicalBackground == old(medicalBackground)
    {
      if !SubmitComplete(notes, procedureDate, items) {
        s := Submission([], ToastError(SubmitGateText), []);
        return;
      }
      var e := EvaluationRequest(patientId, weight, height, medicalBackground);
      isSubmitting := true;
      if !evaluation.Ok? {
        s := Submission([e], ToastError(FailureText(evaluation, EvaluationFallback)), []);
      } else {
        var p := CreateProcedure(evaluation.id, procedureDate, notes, items);
        if !procedure.Ok? {
          s := Submission([e, p], ToastError(FailureText(procedure, ProcedureFallback)), []);
        } else {
          s := Submission([e, p], ToastSuccess(SuccessText), [OnSuccess, OnClose]);
        }
      }
      isSubmitting := false;
    }
  }
}
