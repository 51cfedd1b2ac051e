/** The list of a patient's clinical evaluations: one request per mount, carrying the
    anti-forgery header, and one card per evaluation with its status as a label. */
module PatientRecordsList {
  import opened Wrappers
  import opened Strings
  import opened Decimal
  import opened Json
  import opened Http
  import opened Cookies
  import opened ClinicalImagesService

  /** The request the list sends: its URL and its `X-XSRF-TOKEN` header. */
  datatype Request = Request(url: string, xsrf: string)

  /** `!apiBaseUrl`: the base is unset or empty once stripped. */
  predicate HasBase(env: Option<string>) {
    ApiBaseUrl(env).Some? && ApiBaseUrl(env).value != ""
  }

  /** The list of the patient's evaluations. A base made only of slashes is as good as none. */
  function RecordsUrl(env: Option<string>, patientId: int): (r: string)
    requires HasBase(env)
    ensures StripTrailing(env.value, '/') != "" && r == StripTrailing(env.value, '/') + "/api/v1/medical-evaluation/patient/" + IntToDecimal(patientId)
  {
    ApiBaseUrl(env).value + "/api/v1/medical-evaluation/patient/" + IntToDecimal(patientId)
  }

  /** The records an OK body yields: `data.data ?? []`. A missing or null `data` gives no
      records; a null body makes `data.data` throw, which the request's `catch` absorbs
      (None: the records stay as they were). */
  function OkRecords(body: Json): (r: Option<seq<Json>>)
    ensures r.None? <==> body.JNull?
    ensures body.JObj? && "data" in body.fields && body.fields["data"].JArr? ==> r == Some(body.fields["data"].items)
    ensures !body.JNull? && !(body.JObj? && "data" in body.fields && !body.fields["data"].JNull?) ==> r == Some([])
  {
    if body.JNull? then None
    else
      var d := Get(body, "data");
      if d.None? || d.value.JNull? then Some([])
      else if d.value.JArr? then Some(d.value.items)
      else Some([])
  }

  /** The records after the request ends: none on a 404, the body's on an OK response that
      reads, and the old ones after any error (a status that is neither, a body that is not
      JSON, a null body, a network error). */
  function AfterFetch(records: seq<Json>, res: Reply<Json>): (r: seq<Json>)
    ensures res.Reply? && res.status == 404 ==> r == []
    ensures res.Reply? && res.status != 404 && IsOk(res.status) && res.body.Some? && OkRecords(res.body.value).Some? ==>
              r == OkRecords(res.body.value).value
    ensures !res.Reply? || (!IsOk(res.status) && res.status != 404) ==> r == records
  {
    if res.Reply? && res.status == 404 then []
    else if res.Reply? && IsOk(res.status) && res.body.Some? && OkRecords(res.body.value).Some? then
      OkRecords(res.body.value).value
    else records
  }

  /** The status label: the first "_" becomes a space. */
  function StatusLabel(status: string): (r: string)
    ensures |r| == |status|
    ensures '_' !in status ==> r == status
  {
    ReplaceFirstChar(status, '_', ' ')
  }

  /** The three statuses an evaluation has, labelled. */
  lemma StatusLabels()
    ensures StatusLabel("EN_ESPERA") == "EN ESPERA"
    ensures StatusLabel("CONFIRMADO") == "CONFIRMADO"
    ensures StatusLabel("CANCELADO") == "CANCELADO"
  {
    var a, b := "EN", "ESPERA";
    TwoWords(a, b);
    assert a + "_" + b == "EN_ESPERA";
    assert a + " " + b == "EN ESPERA";
    assert '_' !in "CONFIRMADO";
    assert '_' !in "CANCELADO";
  }

  /** Two words joined by "_" are labelled with a space between them. */
  lemma TwoWords(a: string, b: string)
    requires '_' !in a
    ensures StatusLabel(a + "_" + b) == a + " " + b
  {
    var s := a + "_" + b;
    assert s[|a|] == '_';
    ReplaceFirstCharAt(s, '_', ' ');
    var k := FirstIndex(s, '_');
    assert k <= |a|;
    assert s[..k] == a[..k];
    assert k == |a|;
    assert s[..|a|] == a && s[|a| + 1..] == b;
  }

  /** The label differs from the status at the first "_" only, which it turns into a space. */
  lemma StatusLabelAt(status: string)
    requires '_' in status
    ensures var k := FirstIndex(status, '_');
      StatusLabel(status) == status[..k] + " " + status[k + 1..]
  {
    ReplaceFirstCharAt(status, '_', ' ');
  }

  /** Whether `statusConfig[record.status]` finds an entry: the record is an object whose
      status is one of the three keys. For any other record the lookup is `undefined`, and
      reading its `bg` throws while the list renders. */
  predicate KnownStatus(record: Json) {
    var st := Get(record, "status");
    st.Some? && st.value.JStr? && st.value.s in {"CONFIRMADO", "EN_ESPERA", "CANCELADO"}
  }

  /** What the list renders; RenderThrows is the error the render throws. */
  datatype View = LoadingText | NoRecords | Cards(records: seq<Json>) | RenderThrows

  function Render(loading: bool, records: seq<Json>): (v: View)
    ensures v == LoadingText <==> loading
    ensures v == NoRecords <==> !loading && records == []
    ensures v == RenderThrows <==> !loading && exists i :: 0 <= i < |records| && !KnownStatus(records[i])
    ensures v.Cards? ==> v.records == records && records != []
                         && forall i :: 0 <= i < |records| ==> KnownStatus(records[i])
  {
    if loading then LoadingText
    else if |records| == 0 then NoRecords
    else if exists i :: 0 <= i < |records| && !KnownStatus(records[i]) then RenderThrows
    else Cards(records)
  }

  class RecordsList {
    const env: Option<string>
    const patientId: int
    var records: seq<Json>
    var loading: bool

    constructor(env: Option<string>, patientId: int)
      ensures this.env == env && this.patientId == patientId && records == [] && loading
    {
      this.env := env;
      this.patientId := patientId;
      records := [];
      loading := true;
    }

    /** The mount effect, given the cookie string, the decoder and how the request ends; it
        returns the request it sent, if any. */
    method FetchRecords(cookie: string, decode: string -> string, res: Reply<Json>) returns (sent: Option<Request>)
      modifies this
      ensures !HasBase(env) ==> sent == None && records == old(records) && loading == old(loading)
      ensures HasBase(env) ==> sent == Some(Request(RecordsUrl(env, patientId), Header(cookie, decode)))
                               && records == AfterFetch(old(records), res) && !loading
    {
      var base := ApiBaseUrl(env);
      if base.None? || base.value == "" {
        return None;
      }
      var token := Token(cookie);
      var header := if token.Some? && token.value != "" then decode(token.value) else "";
      sent := Some(Request(base.value + "/api/v1/medical-evaluation/patient/" + IntToDecimal(patientId), header));
      if res.Reply? {
        if res.status == 404 {
          records := [];
          loading := false;
          return;
        }
        if IsOk(res.status) && res.body.Some? {
          var data := res.body.value;
          if !data.JNull? {
            var d := Get(data, "data");
            if d.None? || d.value.JNull? {
              records := [];
            } else if d.value.JArr? {
              records := d.value.items;
            } else {
              records := [];
            }
          }
        }
      }
      loading := false;
    }
  }
}
