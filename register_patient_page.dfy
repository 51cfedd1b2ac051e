/** The three-step patient registration wizard: step completion, the live BMI preview,
    price entry with thousands grouping, the sticky total, step navigation and the
    patient → evaluation → procedures submission. */
module RegisterPatientPage {
  import opened Wrappers
  import opened Strings
  import opened Decimal
  import Bmi
  import opened ProceduresSelector

  /** The text inputs of steps 1 and 2. */
  datatype PatientForm = PatientForm(
    firstName: string, lastName: string, age: string, cellphone: string,
    referrerName: string, biologicalSex: string,
    weightKg: string, heightM: string, medicalBackground: string)

  const EmptyForm := PatientForm("", "", "", "", "", "", "", "", "")

  /** Step 1 ("Datos del paciente"): every required field is non-blank. */
  predicate Step1Complete(f: PatientForm) {
    !IsBlank(f.firstName) && !IsBlank(f.lastName) && !IsBlank(f.age)
    && !IsBlank(f.cellphone) && !IsBlank(f.biologicalSex)
  }

  /** Step 2 ("Evaluación clínica"): weight and height parse above zero and there is a background. */
  predicate Step2Complete(f: PatientForm) {
    ParsesPositive(f.weightKg) && ParsesPositive(f.heightM) && !IsBlank(f.medicalBackground)
  }

  /** Step 3 ("Procedimientos"): at least one item and non-blank notes. */
  predicate Step3Complete(s: Selection) {
    |s.items| > 0 && !IsBlank(s.notes)
  }

  /** Step 1 is complete exactly when each of its fields has a non-whitespace character. */
  lemma Step1CompleteIff(f: PatientForm)
    ensures Step1Complete(f) <==>
      !AllWhitespace(f.firstName) && !AllWhitespace(f.lastName) && !AllWhitespace(f.age)
      && !AllWhitespace(f.cellphone) && !AllWhitespace(f.biologicalSex)
  {
    BlankIff(f.firstName);
    BlankIff(f.lastName);
    BlankIff(f.age);
    BlankIff(f.cellphone);
    BlankIff(f.biologicalSex);
  }

  /** Step 3 is complete exactly when something is selected and the notes have a non-whitespace character. */
  lemma Step3CompleteIff(s: Selection)
    ensures Step3Complete(s) <==> |s.items| > 0 && !AllWhitespace(s.notes)
  {
    BlankIff(s.notes);
  }

  const ValidationText: string := "\U{26A0}\U{FE0F}\U{200B} Complete todos los pasos antes de guardar el registro."

  /** The validation effect: the warning is shown on the last step while step 3 is incomplete. */
  function ValidationError(currentStep: int, s: Selection): (r: Option<string>)
    ensures r.Some? <==> currentStep == 2 && !Step3Complete(s)
    ensures r.Some? ==> r.value == ValidationText
  {
    if currentStep == 2 && !(|s.items| > 0 && !IsBlank(s.notes)) then Some(ValidationText) else None
  }

  /** The two BMI previews: the rounded value as text and its band label. */
  datatype BmiPreview = BmiPreview(value: string, status: string)

  /** The BMI effect, on `parseFloat(weightKg)` and `parseFloat(heightM)`. */
  function Preview(weight: Option<real>, height: Option<real>): BmiPreview {
    if Positive(weight) && Positive(height) then
      var b := Bmi.Hundredths(weight.value, height.value);
      BmiPreview(Bmi.HundredthsText(b), Bmi.BandLabel(b))
    else BmiPreview("", "")
  }

  /** The previews of the step 2 inputs. */
  function FormPreview(f: PatientForm): BmiPreview {
    Preview(ParseFloat(f.weightKg), ParseFloat(f.heightM))
  }

  /** Both previews are empty unless weight and height parse above zero. */
  lemma PreviewEmpty(weight: Option<real>, height: Option<real>)
    requires !(Positive(weight) && Positive(height))
    ensures Preview(weight, height) == BmiPreview("", "")
  {
  }

  /** With both above zero, the value text is `String(+bmi.toFixed(2))` of the rounded index
      (which reads back as that index, `Bmi.HundredthsTextValue`) and the status is that index's
      band label. */
  lemma PreviewShown(weight: Option<real>, height: Option<real>)
    requires Positive(weight) && Positive(height)
    ensures var b := Bmi.Hundredths(weight.value, height.value);
      Preview(weight, height).value == Bmi.HundredthsText(b)
      && Preview(weight, height).status == Bmi.Labels[Bmi.Band(b)]
      && Preview(weight, height).status != ""
  {
  }

  /** Step 2's numeric condition is exactly the condition for a BMI preview. */
  lemma Step2ShowsPreview(f: PatientForm)
    requires Step2Complete(f)
    ensures FormPreview(f).status != ""
  {
  }

  /** What `handlePriceChange` stores for a typed text: "" without digits, else the grouped number. */
  function FormatPrice(typed: string): (r: string)
    ensures DigitsOf(typed) == "" <==> r == ""
  {
    var raw := DigitsOf(typed);
    if raw == "" then "" else GroupThousands(DecimalValue(raw))
  }

  /** `Number(price.replace(/\D/g, "")) || 0`: the amount a price text stands for. */
  function PriceValue(price: string): nat {
    DecimalValue(DigitsOf(price))
  }

  /** The stored text is the typed number with separators: stripping them gives its decimal
      without leading zeros, and its value is the typed number. */
  lemma PriceRoundTrip(typed: string)
    ensures DigitsOf(typed) != "" ==> DigitsOf(FormatPrice(typed)) == NatToDecimal(DecimalValue(DigitsOf(typed)))
    ensures PriceValue(FormatPrice(typed)) == DecimalValue(DigitsOf(typed))
  {
    var raw := DigitsOf(typed);
    if raw != "" {
      GroupThousandsDigits(DecimalValue(raw));
      GroupThousandsValue(DecimalValue(raw));
    } else {
      assert DigitsOf("") == "";
    }
  }

  /** Reformatting a stored price leaves it as it is. */
  lemma FormatPriceIdempotent(typed: string)
    ensures FormatPrice(FormatPrice(typed)) == FormatPrice(typed)
  {
    var raw := DigitsOf(typed);
    if raw != "" {
      var n := DecimalValue(raw);
      GroupThousandsDigits(n);
      DecimalRoundTrip(n);
    }
  }

  /** The items after `handlePriceChange(name)` received `typed`. */
  function PriceChange(items: seq<ProcedureItem>, name: string, typed: string): (r: seq<ProcedureItem>)
    ensures |r| == |items|
    ensures forall i :: 0 <= i < |r| ==> r[i].itemName == items[i].itemName
    ensures forall i :: 0 <= i < |r| ==>
      r[i].price == if items[i].itemName == name then FormatPrice(typed) else items[i].price
  {
    if items == [] then []
    else
      var it := items[0];
      [if it.itemName == name then ProcedureItem(it.itemName, FormatPrice(typed)) else it]
      + PriceChange(items[1..], name, typed)
  }

  /** The sticky bar total: the sum of the price amounts. */
  function Total(items: seq<ProcedureItem>): nat {
    if items == [] then 0 else Total(items[..|items| - 1]) + PriceValue(items[|items| - 1].price)
  }

  /** The text of the sticky total: with its separators removed it is the decimal text of
      the total, it reads back as that total, and so as the sum of the amounts submitted. */
  function StickyTotalText(items: seq<ProcedureItem>): (r: string)
    ensures DigitsOf(r) == NatToDecimal(Total(items))
    ensures PriceValue(r) == Total(items) == SubmittedSum(SubmittedItems(items))
  {
    GroupThousandsDigits(Total(items));
    GroupThousandsValue(Total(items));
    SubmittedMatchesTotal(items);
    GroupThousands(Total(items))
  }

  /** Selecting a new procedure (empty price) leaves the total as it was. */
  lemma ToggleOnKeepsTotal(s: Selection, name: string)
    requires !IsSelected(s.items, name)
    ensures Total(Toggle(s, name).items) == Total(s.items)
  {
    var r := Toggle(s, name).items;
    assert r[..|r| - 1] == s.items;
    assert DigitsOf("") == "";
  }

  /** An item submitted with the procedures request. */
  datatype SubmittedItem = SubmittedItem(itemName: string, price: nat)

  /** The `procedureItems.map` of the procedures request body. */
  function SubmittedItems(items: seq<ProcedureItem>): (r: seq<SubmittedItem>)
    ensures |r| == |items|
    ensures forall i :: 0 <= i < |r| ==> r[i].itemName == items[i].itemName
  {
    if items == [] then []
    else SubmittedItems(items[..|items| - 1]) + [SubmittedItem(items[|items| - 1].itemName, PriceValue(items[|items| - 1].price))]
  }

  function SubmittedSum(s: seq<SubmittedItem>): nat {
    if s == [] then 0 else SubmittedSum(s[..|s| - 1]) + s[|s| - 1].price
  }

  /** The amounts sent to the server add up to the total shown in the sticky bar. */
  lemma {:induction false} SubmittedMatchesTotal(items: seq<ProcedureItem>)
    ensures SubmittedSum(SubmittedItems(items)) == Total(items)
  {
    if items != [] {
      var r := SubmittedItems(items);
      assert r[..|r| - 1] == SubmittedItems(items[..|items| - 1]);
      SubmittedMatchesTotal(items[..|items| - 1]);
    }
  }

  /** A typed price is submitted as the number typed. */
  lemma SubmittedPriceIsTyped(items: seq<ProcedureItem>, name: string, typed: string, i: nat)
    requires i < |items| && items[i].itemName == name
    ensures SubmittedItems(PriceChange(items, name, typed))[i].price == DecimalValue(DigitsOf(typed))
  {
    PriceRoundTrip(typed);
    SubmittedItemsAt(PriceChange(items, name, typed), i);
  }

  lemma {:induction false} SubmittedItemsAt(items: seq<ProcedureItem>, i: nat)
    requires i < |items|
    ensures SubmittedItems(items)[i].price == PriceValue(items[i].price)
  {
    if i < |items| - 1 {
      SubmittedItemsAt(items[..|items| - 1], i);
    }
  }

  /** A request the wizard sends. The numeric fields keep the form's text: their JSON body
      carries what `BodyNumbers` reads from it. */
  datatype Request =
    | CreatePatient(firstName: string, lastName: string, age: string, cellphone: string,
                    referrerName: string, biologicalSex: string)
    | CreateEvaluation(patientId: int, weight: string, height: string, medicalBackground: string)
    | CreateProcedures(evaluationId: int, procedureDate: string, notes: string, items: seq<SubmittedItem>)

  /** The outcome of a request: the created record's `data.id`, or a failure (a non-OK
      status, a network error or an unreadable body, which all end in the `catch`). */
  datatype Response = Created(id: int) | Failed

  function PatientRequest(f: PatientForm): Request {
    CreatePatient(f.firstName, f.lastName, f.age, f.cellphone, f.referrerName, f.biologicalSex)
  }

  /** The numbers of a request body: `parseInt(age)` (no radix) for a patient, `parseFloat` of the
      weight and the height for an evaluation (None is NaN, sent as null). */
  datatype NumericBody = AgeBody(age: Option<int>) | MeasuresBody(weight: Option<real>, height: Option<real>)

  function BodyNumbers(r: Request): (b: NumericBody)
    requires !r.CreateProcedures?
    ensures r.CreatePatient? ==> b == AgeBody(ParseInt(r.age))
    ensures r.CreateEvaluation? ==> b == MeasuresBody(ParseFloat(r.weight), ParseFloat(r.height))
  {
    match r
    case CreatePatient(_, _, age, _, _, _) => AgeBody(ParseInt(age))
    case CreateEvaluation(_, weight, height, _) => MeasuresBody(ParseFloat(weight), ParseFloat(height))
  }

  function EvaluationRequest(f: PatientForm, patientId: int): Request {
    CreateEvaluation(patientId, f.weightKg, f.heightM, f.medicalBackground)
  }

  function ProceduresRequest(s: Selection, date: string, evaluationId: int): Request {
    CreateProcedures(evaluationId, date, s.notes, SubmittedItems(s.items))
  }

  /** An evaluation built from a completed step 2 carries two positive numbers. */
  lemma EvaluationBodyPositive(f: PatientForm, patientId: int)
    requires Step2Complete(f)
    ensures var b := BodyNumbers(EvaluationRequest(f, patientId));
      Positive(b.weight) && Positive(b.height)
  {
  }

  /** The requests a valid submission sends, given the outcomes of the first two. */
  function SubmitRequests(f: PatientForm, s: Selection, date: string, patient: Response, evaluation: Response): seq<Request> {
    if patient.Failed? then [PatientRequest(f)]
    else if evaluation.Failed? then [PatientRequest(f), EvaluationRequest(f, patient.id)]
    else [PatientRequest(f), EvaluationRequest(f, patient.id), ProceduresRequest(s, date, evaluation.id)]
  }

  /** The chain stops at the first failure, and each later request carries the id the
      previous one returned. */
  lemma SubmitChain(f: PatientForm, s: Selection, date: string, patient: Response, evaluation: Response)
    ensures var rs := SubmitRequests(f, s, date, patient, evaluation);
      1 <= |rs| <= 3 && rs[0] == PatientRequest(f)
      && (|rs| == 1 <==> patient.Failed?)
      && (|rs| == 3 <==> patient.Created? && evaluation.Created?)
      && (|rs| >= 2 ==> rs[1].CreateEvaluation? && rs[1].patientId == patient.id)
      && (|rs| == 3 ==> rs[2].CreateProcedures? && rs[2].evaluationId == evaluation.id
                        && SubmittedSum(rs[2].items) == Total(s.items))
  {
    SubmittedMatchesTotal(s.items);
  }

  const SuccessText: string := "Registro guardado correctamente"
  const SubmitErrorText: string := "No se pudo guardar el registro."

  /** `Math.max(0, s - 1)` for "Anterior". */
  function PrevStep(step: int): (r: int)
    ensures r == if step > 0 then step - 1 else 0
  {
    if 0 > step - 1 then 0 else step - 1
  }

  /** `Math.min(2, s + 1)` for "Siguiente". */
  function NextStep(step: int): (r: int)
    ensures r == if step < 2 then step + 1 else 2
  {
    if 2 < step + 1 then 2 else step + 1
  }

  /** The navigation buttons are disabled while submitting, and "Anterior" on the first step;
      "Siguiente" is rendered only before the last step. */
  predicate PrevEnabled(step: int, isSubmitting: bool) { step != 0 && !isSubmitting }
  predicate NextEnabled(step: int, isSubmitting: bool) { step < 2 && !isSubmitting }

  /** A button that can be clicked moves exactly one step, so the clamps of `Math.max` and
      `Math.min` never act on a click; outside a submission the first step is the only one
      without "Anterior" and the last the only one without "Siguiente". */
  lemma EnabledNavigation(step: int, isSubmitting: bool)
    requires 0 <= step <= 2
    ensures PrevEnabled(step, isSubmitting) ==> PrevStep(step) == step - 1
    ensures NextEnabled(step, isSubmitting) ==> NextStep(step) == step + 1
    ensures !isSubmitting ==> (PrevEnabled(step, isSubmitting) <==> step != 0)
    ensures !isSubmitting ==> (NextEnabled(step, isSubmitting) <==> step != 2)
    ensures isSubmitting ==> !PrevEnabled(step, isSubmitting) && !NextEnabled(step, isSubmitting)
  {
  }

  /** Navigation never leaves the three steps. */
  lemma NavigationInRange(step: int)
    requires 0 <= step <= 2
    ensures 0 <= PrevStep(step) <= 2 && 0 <= NextStep(step) <= 2
    ensures PrevStep(NextStep(step)) == (if step < 2 then step else 1)
  {
  }

  class Wizard {
    var currentStep: int
    var form: PatientForm
    var selection: Selection
    var isSubmitting: bool
    var submitError: Option<string>
    var submitSuccess: Option<string>
    var hasTriedSubmit: bool
    /** The requests sent, oldest first. */
    ghost var requests: seq<Request>

    ghost predicate Valid()
      reads this
    {
      0 <= currentStep <= 2 && !isSubmitting
    }

    /** The warning shown above the form, as the validation effect keeps it. */
    function ValidationMessage(): Option<string>
      reads this
    {
      ValidationError(currentStep, selection)
    }

    constructor()
      ensures Valid()
      ensures currentStep == 0 && form == EmptyForm && selection == Selection([], "")
      ensures !isSubmitting && submitError.None? && submitSuccess.None? && !hasTriedSubmit
      ensures requests == []
    {
      currentStep := 0;
      form := EmptyForm;
      selection := Selection([], "");
      isSubmitting := false;
      submitError := None;
      submitSuccess := None;
      hasTriedSubmit := false;
      requests := [];
    }

    /** A click on "Anterior", which only an enabled button receives. */
    method Prev()
      requires Valid() && PrevEnabled(currentStep, isSubmitting)
      modifies this
      ensures Valid() && currentStep == PrevStep(old(currentStep)) && currentStep == old(currentStep) - 1
      ensures form == old(form) && selection == old(selection) && isSubmitting == old(isSubmitting)
      ensures submitError == old(submitError) && submitSuccess == old(submitSuccess)
      ensures hasTriedSubmit == old(hasTriedSubmit) && requests == old(requests)
    {
      currentStep := PrevStep(currentStep);
    }

    /** A click on "Siguiente", which is rendered and enabled only before the last step. */
    method Next()
      requires Valid() && NextEnabled(currentStep, isSubmitting)
      modifies this
      ensures Valid() && currentStep == NextStep(old(currentStep)) && currentStep == old(currentStep) + 1
      ensures form == old(form) && selection == old(selection) && isSubmitting == old(isSubmitting)
      ensures submitError == old(submitError) && submitSuccess == old(submitSuccess)
      ensures hasTriedSubmit == old(hasTriedSubmit) && requests == old(requests)
    {
      currentStep := NextStep(currentStep);
    }

    /** A click on one of the three sidebar steps. */
    method JumpTo(step: int)
      requires Valid() && 0 <= step <= 2
      modifies this
      ensures Valid() && currentStep == step
      ensures form == old(form) && selection == old(selection) && isSubmitting == old(isSubmitting)
      ensures submitError == old(submitError) && submitSuccess == old(submitSuccess)
      ensures hasTriedSubmit == old(hasTriedSubmit) && requests == old(requests)
    {
      currentStep := step;
    }

    /** `handlePriceChange(name)` with the input's new text. */
    method HandlePriceChange(name: string, typed: string)
      requires Valid()
      modifies this
      ensures Valid() && selection == Selection(PriceChange(old(selection.items), name, typed), old(selection.notes))
      ensures currentStep == old(currentStep) && form == old(form) && isSubmitting == old(isSubmitting)
      ensures submitError == old(submitError) && submitSuccess == old(submitSuccess)
      ensures hasTriedSubmit == old(hasTriedSubmit) && requests == old(requests)
    {
      selection := Selection(PriceChange(selection.items, name, typed), selection.notes);
    }

    /** `toggleItem(label)`: also clears the submit error. */
    method ToggleItem(name: string)
      requires Valid()
      modifies this
      ensures Valid() && selection == Toggle(old(selection), name) && submitError.None?
      ensures currentStep == old(currentStep) && form == old(form) && isSubmitting == old(isSubmitting)
      ensures submitSuccess == old(submitSuccess)
      ensures hasTriedSubmit == old(hasTriedSubmit) && requests == old(requests)
    {
      submitError := None;
      selection := Toggle(selection, name);
    }

    /** `handleFajaChange(value)`. */
    method HandleFajaChange(value: string)
      requires Valid()
      modifies this
      ensures Valid() && selection == Selection(old(selection.items), FajaChange(old(selection.notes), value))
      ensures currentStep == old(currentStep) && form == old(form) && isSubmitting == old(isSubmitting)
      ensures submitError == old(submitError) && submitSuccess == old(submitSuccess)
      ensures hasTriedSubmit == old(hasTriedSubmit) && requests == old(requests)
    {
      selection := Selection(selection.items, FajaChange(selection.notes, value));
    }

    /** `handlePiernaChange(interna, externa)`. */
    method HandlePiernaChange(interna: bool, externa: bool)
      requires Valid()
      modifies this
      ensures Valid() && selection == Selection(old(selection.items), PiernaChange(old(selection.notes), interna, externa))
      ensures currentStep == old(currentStep) && form == old(form) && isSubmitting == old(isSubmitting)
      ensures submitError == old(submitError) && submitSuccess == old(submitSuccess)
      ensures hasTriedSubmit == old(hasTriedSubmit) && requests == old(requests)
    {
      selection := Selection(selection.items, PiernaChange(selection.notes, interna, externa));
    }

    /** The `try` block of `handleSubmit`: the three requests in order, stopping at the first failure. */
    method SendChain(date: string, patient: Response, evaluation: Response, procedures: Response)
      returns (ok: bool)
      modifies this
      ensures requests == old(requests) + SubmitRequests(old(form), old(selection), date, patient, evaluation)
      ensures ok <==> patient.Created? && evaluation.Created? && procedures.Created?
      ensures currentStep == old(currentStep) && form == old(form) && selection == old(selection)
      ensures isSubmitting == old(isSubmitting) && submitError == old(submitError)
      ensures submitSuccess == old(submitSuccess) && hasTriedSubmit == old(hasTriedSubmit)
    {
      ok := false;
      var p := PatientRequest(form);
      ghost var sent := [p];
      if patient.Created? {
        var e := EvaluationRequest(form, patient.id);
        sent := [p, e];
        if evaluation.Created? {
          sent := [p, e, ProceduresRequest(selection, date, evaluation.id)];
          ok := procedures.Created?;
        }
      }
      assert sent == SubmitRequests(form, selection, date, patient, evaluation);
      requests := requests + sent;
    }

    /** The part of `handleSubmit` after the checks: the flag raised, the chain run, the
        outcome message set, the flag lowered. */
    method RunSubmit(date: string, patient: Response, evaluation: Response, procedures: Response)
      requires Valid()
      modifies this
      ensures Valid() && currentStep == old(currentStep) && form == old(form) && selection == old(selection)
      ensures hasTriedSubmit == old(hasTriedSubmit)
      ensures requests == old(requests) + SubmitRequests(old(form), old(selection), date, patient, evaluation)
      ensures if patient.Created? && evaluation.Created? && procedures.Created?
              then submitError.None? && submitSuccess == Some(SuccessText)
              else submitError == Some(SubmitErrorText) && submitSuccess == old(submitSuccess)
    {
      isSubmitting := true;
      var ok := SendChain(date, patient, evaluation, procedures);
      if !ok {
        submitError := Some(SubmitErrorText);
      } else {
        submitError := None;
        submitSuccess := Some(SuccessText);
      }
      isSubmitting := false;
    }

    /** `handleSubmit`, with today's date and the outcomes the three requests would have. */
    method HandleSubmit(date: string, patient: Response, evaluation: Response, procedures: Response)
      requires Valid()
      modifies this
      ensures Valid() && currentStep == old(currentStep) && form == old(form) && selection == old(selection)
      ensures old(currentStep) != 2 ==>
        hasTriedSubmit == old(hasTriedSubmit) && requests == old(requests)
        && submitError == old(submitError) && submitSuccess == old(submitSuccess)
      ensures old(currentStep) == 2 ==> hasTriedSubmit
      ensures old(currentStep) == 2 && !Step3Complete(old(selection)) ==>
        requests == old(requests) && ValidationMessage() == Some(ValidationText)
        && submitError == old(submitError) && submitSuccess == old(submitSuccess)
      ensures old(currentStep) == 2 && Step3Complete(old(selection)) ==>
        requests == old(requests) + SubmitRequests(old(form), old(selection), date, patient, evaluation)
        && (if patient.Created? && evaluation.Created? && procedures.Created?
            then submitError.None? && submitSuccess == Some(SuccessText)
            else submitError == Some(SubmitErrorText) && submitSuccess == old(submitSuccess))
    {
      if currentStep != 2 {
        return;
      }
      hasTriedSubmit := true;
      if !Step3Complete(selection) {
        return;
      }
      RunSubmit(date, patient, evaluation, procedures);
    }
  }
}
