/** The patient list: a search box whose trimmed text becomes the query string, a load that
    accepts the two payload shapes the API has used, and one row per patient. */
module PatientsPage {
  import opened Wrappers
  import opened Strings
  import opened Decimal
  import opened Json
  import opened Http
  import opened ClinicalImagesService

  /** `isApiListResponse`: a non-null object whose `data` is an array. Arrays are objects
      too, but have no `data` key. */
  predicate IsApiListResponse(payload: Json)
    ensures IsApiListResponse(payload) <==>
              payload.JObj? && "data" in payload.fields && payload.fields["data"].JArr?
  {
    TruthyValue(payload) && (payload.JArr? || payload.JObj?)
    && Get(payload, "data").Some? && Get(payload, "data").value.JArr?
  }

  /** `safeString`: a string property as it is, "" for anything else or a missing one. */
  function SafeString(v: Option<Json>): (r: string)
    ensures v.Some? && v.value.JStr? ==> r == v.value.s
    ensures !(v.Some? && v.value.JStr?) ==> r == ""
  {
    match v
    case Some(JStr(s)) => s
    case _ => ""
  }

  /** The list a payload yields: the payload itself when it is an array, its `data` when it is
      an object with an array there, and nothing otherwise. */
  function NormalisePayload(payload: Json): (r: seq<Json>)
    ensures payload.JArr? ==> r == payload.items
    ensures IsApiListResponse(payload) ==> r == payload.fields["data"].items
    ensures !payload.JArr? && !IsApiListResponse(payload) ==> r == []
  {
    if payload.JArr? then payload.items
    else if IsApiListResponse(payload) then payload.fields["data"].items
    else []
  }

  /** The two shapes carry the same list: a bare array and an object wrapping it in `data`. */
  lemma WrappedListAgrees(xs: seq<Json>, others: map<string, Json>)
    ensures NormalisePayload(JObj(others["data" := JArr(xs)])) == NormalisePayload(JArr(xs))
  {
  }

  /** A payload yields a non-empty list only in one of the two shapes. */
  lemma OnlyTwoShapes(payload: Json)
    ensures NormalisePayload(payload) != [] ==> payload.JArr? || IsApiListResponse(payload)
    ensures payload.JNull? || payload.JStr? || payload.JNum? || payload.JBool? ==> NormalisePayload(payload) == []
  {
  }

  /** The query string: "" for a blank search, otherwise "?search=" and the trimmed search
      through `encode` (`encodeURIComponent`, left uninterpreted). */
  function QueryString(search: string, encode: string -> string): (r: string)
    ensures r == "" <==> IsBlank(search)
    ensures !IsBlank(search) ==> r == "?search=" + encode(Trim(search))
  {
    var trimmed := Trim(search);
    if trimmed != "" then "?search=" + encode(trimmed) else ""
  }

  /** Whitespace around the search changes nothing: searching the trimmed text sends the same
      query. */
  lemma QueryStringTrimmed(search: string, encode: string -> string)
    ensures QueryString(Trim(search), encode) == QueryString(search, encode)
  {
    TrimIdempotent(search);
  }

  const PatientsPath := "/api/v1/patients"

  function PatientsUrl(env: Option<string>, search: string, encode: string -> string): (r: string)
    ensures IsBlank(search) ==> r == Interpolate(ApiBaseUrl(env)) + PatientsPath
    ensures !IsBlank(search) ==> r == Interpolate(ApiBaseUrl(env)) + PatientsPath + "?search=" + encode(Trim(search))
  {
    Interpolate(ApiBaseUrl(env)) + PatientsPath + QueryString(search, encode)
  }

  const NotOkText := "No se pudo cargar el listado de pacientes."
  const NetworkText := "Error de red cargando pacientes."

  /** The error a load leaves: one message for a response that is not OK, another for a
      failed request, and none for an OK response or a cancelled request. */
  function LoadError(res: Reply<Json>): (r: Option<string>)
    ensures r.None? <==> res.Aborted? || (res.Reply? && IsOk(res.status))
    ensures r == Some(NotOkText) <==> res.Reply? && !IsOk(res.status)
    ensures r == Some(NetworkText) <==> res.NetworkError?
  {
    match res
    case Reply(status, _) => if IsOk(status) then None else Some(NotOkText)
    case Aborted => None
    case NetworkError => Some(NetworkText)
  }

  /** The list after a load: replaced by the normalised payload on an OK response (a body
      that is not JSON counts as null), and kept otherwise. */
  function LoadedPatients(old_: seq<Json>, res: Reply<Json>): (r: seq<Json>)
    ensures !(res.Reply? && IsOk(res.status)) ==> r == old_
    ensures res.Reply? && IsOk(res.status) && res.body.None? ==> r == []
    ensures res.Reply? && IsOk(res.status) && res.body.Some? ==> r == NormalisePayload(res.body.value)
  {
    if res.Reply? && IsOk(res.status) then NormalisePayload(res.body.GetOr(JNull)) else old_
  }

  const Unnamed := "(sin nombre)"
  const Dash := "\U{2014}"

  /** First and last name, each "" unless it is a string, joined by a space and trimmed. */
  function FullName(row: Json): string {
    Trim(SafeString(Get(row, "first_name")) + " " + SafeString(Get(row, "last_name")))
  }

  /** The text of the name cell of an element that is not `null`: the full name, or
      "(sin nombre)" when it is empty. It is never empty and never starts or ends with
      whitespace. */
  function NameText(row: Json): (r: string)
    ensures r != "" && !IsWhitespace(r[0]) && !IsWhitespace(r[|r| - 1])
    ensures FullName(row) == "" ==> r == Unnamed
    ensures FullName(row) != "" ==> r == FullName(row)
  {
    TrimIdempotent(SafeString(Get(row, "first_name")) + " " + SafeString(Get(row, "last_name")));
    var full := FullName(row);
    if full != "" then full else Unnamed
  }

  /** The name cell: None for a `null` element of the list, where reading `p.first_name`
      throws; otherwise the name text. */
  function NameCell(row: Json): (r: Option<string>)
    ensures r.None? <==> row.JNull?
    ensures r.Some? ==> r.value != "" && !IsWhitespace(r.value[0]) && !IsWhitespace(r.value[|r.value| - 1])
    ensures !row.JNull? && FullName(row) == "" ==> r == Some(Unnamed)
    ensures !row.JNull? && FullName(row) != "" ==> r == Some(FullName(row))
  {
    if row.JNull? then None else Some(NameText(row))
  }

  /** A row whose names are both missing, or not strings, shows the placeholder name, unless
      it is `null`, where the render throws. */
  lemma NamelessRow(row: Json)
    requires !(Get(row, "first_name").Some? && Get(row, "first_name").value.JStr?)
    requires !(Get(row, "last_name").Some? && Get(row, "last_name").value.JStr?)
    ensures NameCell(row) == if row.JNull? then None else Some(Unnamed)
  {
    assert IsWhitespace(" "[0]);
    assert TrimStart(" ") == "";
  }

  /** A cell shown as `value || "—"`: the value when it is truthy, the dash otherwise. */
  function OrDash(v: Option<Json>): (r: Json)
    ensures TruthyField(v) ==> r == v.value
    ensures !TruthyField(v) ==> r == JStr(Dash)
  {
    if TruthyField(v) then v.value else JStr(Dash)
  }

  /** What the date cell holds: a text, or the elements `slice(0, 10)` keeps of an array,
      which React renders as children (how it renders them is not modelled). */
  datatype DateView = DateText(text: string) | DateItems(items: seq<Json>)

  /** The date cell: the first ten characters of `created_at`, or the dash when it is falsy.
      An array also has `slice`, and gives its first ten elements. None when the value is
      truthy but neither a string nor an array, where `slice` is not a function and the
      render throws. */
  function DateCell(row: Json): (r: Option<DateView>)
    ensures !TruthyField(Get(row, "created_at")) ==> r == Some(DateText(Dash))
    ensures TruthyField(Get(row, "created_at")) && Get(row, "created_at").value.JStr? ==>
              var c := Get(row, "created_at").value.s;
              r.Some? && r.value.DateText?
              && |r.value.text| == (if |c| < 10 then |c| else 10) && r.value.text == c[..|r.value.text|]
    ensures TruthyField(Get(row, "created_at")) && Get(row, "created_at").value.JArr? ==>
              var c := Get(row, "created_at").value.items;
              r.Some? && r.value.DateItems?
              && |r.value.items| == (if |c| < 10 then |c| else 10) && r.value.items == c[..|r.value.items|]
    ensures r.None? <==> TruthyField(Get(row, "created_at"))
                         && !Get(row, "created_at").value.JStr? && !Get(row, "created_at").value.JArr?
  {
    var c := Get(row, "created_at");
    if !TruthyField(c) then Some(DateText(Dash))
    else if c.value.JStr? then Some(DateText(Take(c.value.s, 10)))
    else if c.value.JArr? then Some(DateItems(if |c.value.items| <= 10 then c.value.items else c.value.items[..10]))
    else None
  }

  /** The counter beside the search box. */
  function CountText(isLoading: bool, n: nat): (r: string)
    ensures isLoading ==> r == "Cargando..."
    ensures !isLoading ==> r == NatToDecimal(n) + " resultado(s)"
  {
    if isLoading then "Cargando..." else NatToDecimal(n) + " resultado(s)"
  }

  /** The empty-table notice shows only once loading is over and the list is empty; the
      counter beside the search box then reads "0 resultado(s)". */
  predicate EmptyNotice(isLoading: bool, n: nat): (r: bool)
    ensures r ==> CountText(isLoading, n) == "0 resultado(s)"
  {
    n == 0 && !isLoading
  }

  class Page {
    const env: Option<string>
    const encode: string -> string
    var isLoading: bool
    var error: Option<string>
    var patients: seq<Json>
    var search: string

    constructor(env: Option<string>, encode: string -> string)
      ensures this.env == env && this.encode == encode
      ensures !isLoading && error == None && patients == [] && search == ""
    {
      this.env := env;
      this.encode := encode;
      isLoading := false;
      error := None;
      patients := [];
      search := "";
    }

    /** Typing in the search box. */
    method SetSearch(text: string)
      modifies this
      ensures search == text
      ensures isLoading == old(isLoading) && error == old(error) && patients == old(patients)
    {
      search := text;
    }

    /** One run of the load effect, given how its request ended; it returns the URL it
        fetched. */
    method Load(res: Reply<Json>) returns (url: string)
      modifies this
      ensures url == PatientsUrl(env, old(search), encode) && search == old(search)
      ensures !isLoading
      ensures error == LoadError(res)
      ensures patients == LoadedPatients(old(patients), res)
      ensures ShowsEmptyNotice() <==> LoadedPatients(old(patients), res) == []
    {
      url := PatientsUrl(env, search, encode);
      isLoading := true;
      error := None;
      if res.Reply? {
        if !IsOk(res.status) {
          error := Some(NotOkText);
        } else {
          var payload := res.body.GetOr(JNull);
          if payload.JArr? {
            patients := payload.items;
          } else if IsApiListResponse(payload) {
            patients := payload.fields["data"].items;
          } else {
            patients := [];
          }
        }
      } else if res.NetworkError? {
        error := Some(NetworkText);
      }
      isLoading := false;
    }

    /** The empty-table notice of the current state. */
    predicate ShowsEmptyNotice()
      reads this
    {
      EmptyNotice(isLoading, |patients|)
    }
  }
}
