/** The clinical record page of one evaluation: its status badge and actions, and the two
    edit dialogs (the evaluation, and one procedure with its priced items). */
module PatientRecordDetail {
  import opened Wrappers
  import opened Strings
  import opened Decimal
  import opened ItemLists
  import opened Responses
  import ExportButton

  // ---------------------------------------------------------------------------
  // Status

  const EnEspera := "EN_ESPERA"
  const Confirmado := "CONFIRMADO"
  const Cancelado := "CANCELADO"

  /** `evaluation.status ?? "EN_ESPERA"`: only a missing status is defaulted. */
  function EffectiveStatus(status: Option<string>): (r: string)
    ensures status.None? ==> r == EnEspera
    ensures status.Some? ==> r == status.value
  {
    status.GetOr(EnEspera)
  }

  /** One entry of the status table: the badge text and its colour classes. */
  datatype StatusStyle = StatusStyle(name: string, classes: string)

  const EnEsperaStyle := StatusStyle("En espera", "bg-yellow-100 text-yellow-700")

  /** `STATUS_CONFIG[status] ?? STATUS_CONFIG.EN_ESPERA`. */
  function StatusConfig(status: string): (r: StatusStyle)
    ensures status != Confirmado && status != Cancelado ==> r == EnEsperaStyle
  {
    if status == Confirmado then StatusStyle("Confirmado", "bg-emerald-100 text-emerald-700")
    else if status == Cancelado then StatusStyle("Cancelado", "bg-red-100 text-red-600")
    else EnEsperaStyle
  }

  /** The three known statuses have three different badges. */
  lemma StatusStylesDistinct()
    ensures StatusConfig(EnEspera).name != StatusConfig(Confirmado).name
    ensures StatusConfig(EnEspera).name != StatusConfig(Cancelado).name
    ensures StatusConfig(Confirmado).name != StatusConfig(Cancelado).name
  {
    assert StatusConfig(EnEspera).name[0] == 'E';
    assert StatusConfig(Confirmado).name[0] == 'C' && StatusConfig(Confirmado).name[1] == 'o';
    assert StatusConfig(Cancelado).name[0] == 'C' && StatusConfig(Cancelado).name[1] == 'a';
  }

  /** Which actions the page offers for an evaluation status. */
  datatype Actions = Actions(confirm: bool, cancel: bool, editEvaluation: bool)

  function ActionsFor(status: string): (r: Actions)
    ensures r.confirm <==> status != Confirmado
    ensures r.cancel <==> status != Cancelado
    ensures r.editEvaluation <==> status != Confirmado
  {
    Actions(status != Confirmado, status != Cancelado, status != Confirmado)
  }

  /** There is always a way to change the status: at least one of "Confirmar" and "Cancelar"
      is shown, and both are for a pending (or missing, or unknown) status. */
  lemma SomeActionShown(status: Option<string>)
    ensures var a := ActionsFor(EffectiveStatus(status)); a.confirm || a.cancel
    ensures EffectiveStatus(status) !in {Confirmado, Cancelado} ==>
              ActionsFor(EffectiveStatus(status)) == Actions(true, true, true)
  {
    assert Confirmado != Cancelado by {
      assert Confirmado[1] != Cancelado[1];
    }
  }

  /** The two status actions. */
  datatype Action = Confirmar | Cancelar

  // ---------------------------------------------------------------------------
  // Requests

  /** The item of a procedure update: its name and its price as a number (no id). */
  datatype SavedItem = SavedItem(itemName: string, price: real)

  /** Everything the page sends. */
  datatype Request =
    | ChangeStatus(evaluationId: int, action: Action)
    | UpdateEvaluation(evaluationId: int, weight: string, height: string, medicalBackground: string)
    | UpdateProcedure(procedureId: Option<int>, procedureDate: string, notes: string, items: seq<SavedItem>)

  /** The JSON body of an evaluation update: the two numbers are sent as parseFloat reads
      the dialog's text (NaN, here None, is sent as null). */
  datatype EvaluationBody = EvaluationBody(weight: Option<real>, height: Option<real>, medicalBackground: string)

  function EvaluationJson(r: Request): (b: EvaluationBody)
    requires r.UpdateEvaluation?
    ensures b.weight == ParseFloat(r.weight) && b.height == ParseFloat(r.height)
    ensures b.medicalBackground == r.medicalBackground
  {
    EvaluationBody(ParseFloat(r.weight), ParseFloat(r.height), r.medicalBackground)
  }

  /** What a handler does outside the page: the requests, the toast, and whether the record
      is reloaded (SWR's `mutate`). */
  datatype Outcome = Outcome(sent: seq<Request>, toast: Toast, reload: bool)

  /** `parseFloat(price) || 0`: NaN and zero both give 0. */
  function PriceOrZero(price: string): (r: real)
    ensures ParseFloat(price).None? ==> r == 0.0
    ensures ParseFloat(price).Some? ==> r == ParseFloat(price).value
  {
    match ParseFloat(price)
    case None => 0.0
    case Some(v) => v
  }

  function SavedItems(items: seq<FormItem>): (r: seq<SavedItem>)
    ensures |r| == |items|
    ensures forall i :: 0 <= i < |items| ==> r[i] == SavedItem(items[i].itemName, PriceOrZero(items[i].price))
  {
    seq(|items|, i requires 0 <= i < |items| => SavedItem(items[i].itemName, PriceOrZero(items[i].price)))
  }

  /** A left fold of `+` over a list of numbers, as `reduce((s, x) => s + x, 0)`. */
  function Sum(xs: seq<real>): real {
    if xs == [] then 0.0 else Sum(xs[..|xs| - 1]) + xs[|xs| - 1]
  }

  /** The sum is additive over concatenation. */
  lemma {:induction false} SumConcat(a: seq<real>, b: seq<real>)
    ensures Sum(a + b) == Sum(a) + Sum(b)
  {
    if b != [] {
      var b' := b[..|b| - 1];
      assert (a + b)[..|a + b| - 1] == a + b';
      SumConcat(a, b');
    } else {
      assert a + b == a;
    }
  }

  /** Dropping one element takes exactly that element out of the sum. */
  lemma SumRemove(xs: seq<real>, i: int)
    requires 0 <= i < |xs|
    ensures Sum(RemoveAt(xs, i)) == Sum(xs) - xs[i]
  {
    var a, x, b := xs[..i], xs[i], xs[i + 1..];
    assert xs == (a + [x]) + b;
    SumConcat(a + [x], b);
    SumConcat(a, b);
    SumConcat(a, [x]);
    SumSingle(x);
  }

  lemma SumSingle(x: real)
    ensures Sum([x]) == x
  {
    assert [x][..0] == [];
  }

  /** The rows' prices as numbers. */
  function Prices(items: seq<FormItem>): (r: seq<real>)
    ensures |r| == |items|
    ensures forall i :: 0 <= i < |items| ==> r[i] == PriceOrZero(items[i].price)
  {
    seq(|items|, i requires 0 <= i < |items| => PriceOrZero(items[i].price))
  }

  /** `liveTotal`: the running total under the item rows. */
  function LiveTotal(items: seq<FormItem>): real {
    Sum(Prices(items))
  }

  function SavedTotal(items: seq<SavedItem>): real {
    Sum(seq(|items|, i requires 0 <= i < |items| => items[i].price))
  }

  /** The total shown while editing is the total of the prices that are saved. */
  lemma LiveTotalIsSaved(items: seq<FormItem>)
    ensures LiveTotal(items) == SavedTotal(SavedItems(items))
  {
    var saved := SavedItems(items);
    assert Prices(items) == seq(|saved|, i requires 0 <= i < |saved| => saved[i].price);
  }

  /** The total grows by exactly the price of an appended row. */
  lemma LiveTotalAppend(items: seq<FormItem>, it: FormItem)
    ensures LiveTotal(items + [it]) == LiveTotal(items) + PriceOrZero(it.price)
  {
    var p := Prices(items + [it]);
    assert p[..|items|] == Prices(items);
  }

  /** An appended empty row adds nothing. */
  lemma LiveTotalAppendEmpty(items: seq<FormItem>)
    ensures LiveTotal(items + [EmptyItem]) == LiveTotal(items)
  {
    LiveTotalAppend(items, EmptyItem);
    assert ParseFloat("") == None by {
      assert TrimStart("") == "";
    }
  }

  /** Removing a row takes exactly its price out of the total. */
  lemma LiveTotalRemove(items: seq<FormItem>, i: int)
    requires 0 <= i < |items|
    ensures LiveTotal(RemoveAt(items, i)) == LiveTotal(items) - PriceOrZero(items[i].price)
  {
    var p := Prices(items);
    assert Prices(RemoveAt(items, i)) == RemoveAt(p, i);
    SumRemove(p, i);
  }

  // ---------------------------------------------------------------------------
  // What the server returned

  /** An item as stored: its id, name, and the `String(price)` text of its price. */
  datatype StoredItem = StoredItem(id: int, itemName: string, price: string)

  /** A stored procedure; the date and notes may be null, the date may carry a time part. */
  datatype StoredProcedure = StoredProcedure(id: int, procedureDate: Option<string>,
                                             notes: Option<string>, items: seq<StoredItem>)

  /** The stored evaluation fields the edit dialog starts from, each as the `String` text of
      the value, None when null. */
  datatype StoredEvaluation = StoredEvaluation(weight: Option<string>, height: Option<string>,
                                               medicalBackground: Option<string>)

  function ToFormItems(items: seq<StoredItem>): (r: seq<FormItem>)
    ensures |r| == |items|
    ensures forall i :: 0 <= i < |items| ==>
      r[i] == FormItem(Some(items[i].id), items[i].itemName, items[i].price)
  {
    seq(|items|, i requires 0 <= i < |items| => FormItem(Some(items[i].id), items[i].itemName, items[i].price))
  }

  const SaveEvalGateText := "Completa todos los campos"
  const SaveProcGateText := "Completa la fecha y al menos un item"
  const StatusFallback := "Error al cambiar estado"
  const SaveFallback := "Error al guardar"

  /** `handleSaveEval`'s test: no field is the empty string. Blank text passes. */
  predicate EvalGate(weight: string, height: string, medicalBackground: string) {
    weight != "" && height != "" && medicalBackground != ""
  }

  /** `handleSaveProc`'s test: a date and at least one row. Rows with empty names pass. */
  predicate ProcGate(procedureDate: string, items: seq<FormItem>) {
    procedureDate != "" && |items| > 0
  }

  /** The evaluation gate does not trim: a background of spaces is accepted. */
  lemma EvalGateDoesNotTrim()
    ensures EvalGate("70", "1.6", " ") && IsBlank(" ")
  {
    assert Trim(" ") == "";
  }

  /** The specification of the evaluation dialog's save. */
  function SaveEval(evaluationId: int, weight: string, height: string, medicalBackground: string,
                    res: Response): Outcome
  {
    if !EvalGate(weight, height, medicalBackground) then Outcome([], ToastError(SaveEvalGateText), false)
    else
      var sent := [UpdateEvaluation(evaluationId, weight, height, medicalBackground)];
      if res.Ok? then Outcome(sent, ToastSuccess("Evaluacion actualizada"), true)
      else Outcome(sent, ToastError(FailureText(res, SaveFallback)), false)
  }

  /** A save with an empty field sends nothing; otherwise exactly one PUT with the parsed
      numbers goes out, and the record is reloaded exactly when it was accepted. */
  lemma SaveEvalSends(evaluationId: int, weight: string, height: string, medicalBackground: string,
                      res: Response)
    ensures var o := SaveEval(evaluationId, weight, height, medicalBackground, res);
      (o.sent == [] <==> weight == "" || height == "" || medicalBackground == "")
      && (o.sent != [] ==> o.sent == [UpdateEvaluation(evaluationId, weight, height, medicalBackground)])
      && (o.reload <==> o.sent != [] && res.Ok?)
      && (o.toast.ToastSuccess? <==> o.reload)
  {
  }

  class Detail {
    const evaluationId: int
    var isChangingStatus: bool
    var showEditEval: bool
    var evalWeight: string
    var evalHeight: string
    var evalBackground: string
    var isSavingEval: bool
    var editingProcId: Option<int>
    var procDate: string
    var procNotes: string
    var procItems: seq<FormItem>
    var isSavingProc: bool

    /** No request is pending. */
    ghost predicate Valid()
      reads this
    {
      !isChangingStatus && !isSavingEval && !isSavingProc
    }

    constructor(evaluationId: int)
      ensures Valid() && this.evaluationId == evaluationId
      ensures !showEditEval && evalWeight == "" && evalHeight == "" && evalBackground == ""
      ensures editingProcId == None && procDate == "" && procNotes == "" && procItems == []
    {
      this.evaluationId := evaluationId;
      isChangingStatus := false;
      showEditEval := false;
      evalWeight := "";
      evalHeight := "";
      evalBackground := "";
      isSavingEval := false;
      editingProcId := None;
      procDate := "";
      procNotes := "";
      procItems := [];
      isSavingProc := false;
    }

    /** "Confirmar" or "Cancelar", given the PATCH response. */
    method HandleStatusChange(action: Action, res: Response) returns (o: Outcome)
      requires Valid()
      modifies this
      ensures Valid()
      ensures o.sent == [ChangeStatus(evaluationId, action)]
      ensures res.Ok? ==> o.reload && o.toast == ToastSuccess(
                if action == Confirmar then "Valoracion confirmada" else "Valoracion cancelada")
      ensures !res.Ok? ==> !o.reload && o.toast == ToastError(FailureText(res, StatusFallback))
      ensures showEditEval == old(showEditEval) && evalWeight == old(evalWeight)
      ensures evalHeight == old(evalHeight) && evalBackground == old(evalBackground)
      ensures editingProcId == old(editingProcId) && procDate == old(procDate)
      ensures procNotes == old(procNotes) && procItems == old(procItems)
    {
      isChangingStatus := true;
      var sent := [ChangeStatus(evaluationId, action)];
      if !res.Ok? {
        o := Outcome(sent, ToastError(FailureText(res, StatusFallback)), false);
      } else {
        var text := if action == Confirmar then "Valoracion confirmada" else "Valoracion cancelada";
        o := Outcome(sent, ToastSuccess(text), true);
      }
      isChangingStatus := false;
    }

    /** "Editar" on the evaluation: the dialog opens on the stored values, "" for null ones. */
    method OpenEditEval(ev: Option<StoredEvaluation>)
      requires Valid()
      modifies this
      ensures Valid() && showEditEval
      ensures ev.None? ==> evalWeight == "" && evalHeight == "" && evalBackground == ""
      ensures ev.Some? ==> evalWeight == ev.value.weight.GetOr("")
                           && evalHeight == ev.value.height.GetOr("")
                           && evalBackground == ev.value.medicalBackground.GetOr("")
      ensures editingProcId == old(editingProcId) && procDate == old(procDate)
      ensures procNotes == old(procNotes) && procItems == old(procItems)
    {
      if ev.None? {
        evalWeight, evalHeight, evalBackground := "", "", "";
      } else {
        var e := ev.value;
        evalWeight, evalHeight, evalBackground := e.weight.GetOr(""), e.height.GetOr(""), e.medicalBackground.GetOr("");
      }
      showEditEval := true;
    }

    /** "Guardar cambios" of the evaluation dialog, given the PUT response. On success the
        dialog closes. */
    method HandleSaveEval(res: Response) returns (o: Outcome)
      requires Valid()
      modifies this
      ensures Valid()
      ensures o == SaveEval(evaluationId, old(evalWeight), old(evalHeight), old(evalBackground), res)
      ensures showEditEval == (old(showEditEval) && !o.reload)
      ensures evalWeight == old(evalWeight) && evalHeight == old(evalHeight) && evalBackground == old(evalBackground)
      ensures editingProcId == old(editingProcId) && procDate == old(procDate)
      ensures procNotes == old(procNotes) && procItems == old(procItems)
    {
      var weight, height, background := evalWeight, evalHeight, evalBackground;
      if weight == "" || height == "" || background == "" {
        o := Outcome([], ToastError(SaveEvalGateText), false);
        return;
      }
      var sent := [UpdateEvaluation(evaluationId, weight, height, background)];
      isSavingEval := true;
      if !res.Ok? {
        o := Outcome(sent, ToastError(FailureText(res, SaveFallback)), false);
      } else {
        showEditEval := false;
        o := Outcome(sent, ToastSuccess("Evaluacion actualizada"), true);
      }
      isSavingEval := false;
    }

    /** "Editar procedimiento": the dialog opens on the stored procedure, with the date cut to
        its first ten characters and null fields as "". */
    method OpenEditProc(proc: StoredProcedure)
      requires Valid()
      modifies this
      ensures Valid() && editingProcId == Some(proc.id)
      ensures procDate == (match proc.procedureDate case None => "" case Some(d) => Take(d, 10))
      ensures procNotes == proc.notes.GetOr("") && procItems == ToFormItems(proc.items)
      ensures showEditEval == old(showEditEval) && evalWeight == old(evalWeight)
      ensures evalHeight == old(evalHeight) && evalBackground == old(evalBackground)
    {
      editingProcId := Some(proc.id);
      procDate := match proc.procedureDate case None => "" case Some(d) => Take(d, 10);
      procNotes := proc.notes.GetOr("");
      procItems := ToFormItems(proc.items);
    }

    /** Closing the procedure dialog empties its form. */
    method CloseEditProc()
      modifies this
      ensures editingProcId == None && procDate == "" && procNotes == "" && procItems == []
      ensures isChangingStatus == old(isChangingStatus) && isSavingEval == old(isSavingEval)
      ensures isSavingProc == old(isSavingProc)
      ensures showEditEval == old(showEditEval) && evalWeight == old(evalWeight)
      ensures evalHeight == old(evalHeight) && evalBackground == old(evalBackground)
    {
      editingProcId := None;
      procDate, procNotes, procItems := "", "", [];
    }

    /** "Agregar item": an empty row at the end; the total does not move. */
    method AddProcItem()
      requires Valid()
      modifies this
      ensures Valid() && procItems == old(procItems) + [EmptyItem]
      ensures LiveTotal(procItems) == LiveTotal(old(procItems))
      ensures editingProcId == old(editingProcId) && procDate == old(procDate) && procNotes == old(procNotes)
      ensures showEditEval == old(showEditEval) && evalWeight == old(evalWeight)
      ensures evalHeight == old(evalHeight) && evalBackground == old(evalBackground)
    {
      LiveTotalAppendEmpty(procItems);
      procItems := procItems + [EmptyItem];
    }

    /** The trash button of row `idx`. */
    method RemoveProcItem(idx: int)
      requires Valid()
      modifies this
      ensures Valid() && procItems == RemoveAt(old(procItems), idx)
      ensures editingProcId == old(editingProcId) && procDate == old(procDate) && procNotes == old(procNotes)
      ensures showEditEval == old(showEditEval) && evalWeight == old(evalWeight)
      ensures evalHeight == old(evalHeight) && evalBackground == old(evalBackground)
    {
      procItems := RemoveAt(procItems, idx);
    }

    /** Typing into the name or price of row `idx`. */
    method UpdateProcItem(idx: int, field: ItemField, value: string)
      requires Valid()
      modifies this
      ensures Valid() && procItems == UpdateField(old(procItems), idx, field, value)
      ensures editingProcId == old(editingProcId) && procDate == old(procDate) && procNotes == old(procNotes)
      ensures showEditEval == old(showEditEval) && evalWeight == old(evalWeight)
      ensures evalHeight == old(evalHeight) && evalBackground == old(evalBackground)
    {
      procItems := UpdateField(procItems, idx, field, value);
    }

    /** "Guardar cambios" of the procedure dialog, given the PUT response. On success the
        dialog is closed and emptied. */
    method HandleSaveProc(res: Response) returns (o: Outcome)
      requires Valid()
      modifies this
      ensures Valid()
      ensures !ProcGate(old(procDate), old(procItems)) ==>
                o == Outcome([], ToastError(SaveProcGateText), false)
                && editingProcId == old(editingProcId) && procDate == old(procDate)
                && procNotes == old(procNotes) && procItems == old(procItems)
      ensures ProcGate(old(procDate), old(procItems)) ==>
                o.sent == [UpdateProcedure(old(editingProcId), old(procDate), old(procNotes), SavedItems(old(procItems)))]
                && (res.Ok? ==> o.toast == ToastSuccess("Procedimiento actualizado") && o.reload
                                && editingProcId == None && procDate == "" && procNotes == "" && procItems == [])
                && (!res.Ok? ==> o.toast == ToastError(FailureText(res, SaveFallback)) && !o.reload
                                 && editingProcId == old(editingProcId) && procDate == old(procDate)
                                 && procNotes == old(procNotes) && procItems == old(procItems))
      ensures showEditEval == old(showEditEval) && evalWeight == old(evalWeight)
      ensures evalHeight == old(evalHeight) && evalBackground == old(evalBackground)
    {
      if procDate == "" || |procItems| == 0 {
        o := Outcome([], ToastError(SaveProcGateText), false);
        return;
      }
      isSavingProc := true;
      var sent := [UpdateProcedure(editingProcId, procDate, procNotes, SavedItems(procItems))];
      if !res.Ok? {
        o := Outcome(sent, ToastError(FailureText(res, SaveFallback)), false);
      } else {
        CloseEditProc();
        o := Outcome(sent, ToastSuccess("Procedimiento actualizado"), true);
      }
      isSavingProc := false;
    }
  }

  // ---------------------------------------------------------------------------
  // Export

  /** The file name the record's export button is given: `historia-clinica-paciente-${patientId}.pdf`. */
  function ExportFileName(patientId: int): string {
    "historia-clinica-paciente-" + IntToDecimal(patientId) + ".pdf"
  }

  /** The record's PDF is never saved under the button's default name, and two patients'
      records are saved under different names. */
  lemma ExportFileNames(a: int, b: int)
    ensures ExportButton.FileName(Some(ExportFileName(a))) != ExportButton.DefaultFileName
    ensures ExportFileName(a) == ExportFileName(b) ==> a == b
  {
    var prefix := "historia-clinica-paciente-";
    assert ExportFileName(a)[16] == prefix[16] == '-';
    assert ExportButton.DefaultFileName[16] == '.';
    if ExportFileName(a) == ExportFileName(b) {
      var da := IntToDecimal(a);
      var db := IntToDecimal(b);
      assert |da| == |db|;
      assert da == ExportFileName(a)[|prefix|..|prefix| + |da|];
      assert db == ExportFileName(b)[|prefix|..|prefix| + |db|];
      IntToDecimalInjective(a, b);
    }
  }
}
