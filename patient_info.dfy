/** The patient card at the top of a patient's pages: fetched once per patient id, with the
    anti-forgery header, and shown with dashes for missing contact data. */
module PatientInfo {
  import opened Wrappers
  import opened Decimal
  import opened Json
  import opened Http
  import opened Cookies
  import opened ClinicalImagesService

  /** The patient as the card reads it. */
  datatype Patient = Patient(id: int, firstName: string, lastName: string, cedula: string,
                             dateOfBirth: string, biologicalSex: string, cellphone: string)

  /** The cache key: no key at all (so no request) for a falsy patient id, otherwise the
      patient's URL. Here the base is not checked, so an unset base reads "undefined". */
  function Key(env: Option<string>, patientId: int): (r: Option<string>)
    ensures r.None? <==> patientId == 0
    ensures r.Some? ==> r.value == Interpolate(ApiBaseUrl(env)) + "/api/v1/patients/" + IntToDecimal(patientId)
  {
    if patientId == 0 then None
    else Some(Interpolate(ApiBaseUrl(env)) + "/api/v1/patients/" + IntToDecimal(patientId))
  }

  /** Different patients are fetched under different keys. */
  lemma KeyInjective(env: Option<string>, a: int, b: int)
    requires a != 0 && b != 0 && Key(env, a) == Key(env, b)
    ensures a == b
  {
    var p := Interpolate(ApiBaseUrl(env)) + "/api/v1/patients/";
    assert Key(env, a).value[|p|..] == IntToDecimal(a);
    assert Key(env, b).value[|p|..] == IntToDecimal(b);
    IntToDecimalInjective(a, b);
  }

  /** How the fetcher's promise ends: the parsed body, or a rejection with its message. */
  datatype Fetched = Resolved(body: Json) | Failed(message: string)

  const LoadFailure := "Error al cargar paciente"

  /** `fetcher`: the header it sends, and how it ends. A response that is not OK rejects
      with its own message; a body that is not JSON and a failed request reject too. */
  function Fetcher(cookie: string, decode: string -> string, res: Reply<Json>): (r: (string, Fetched))
    ensures r.0 == Header(cookie, decode)
    ensures r.1.Resolved? <==> res.Reply? && IsOk(res.status) && res.body.Some?
    ensures r.1.Resolved? ==> r.1.body == res.body.value
    ensures res.Reply? && !IsOk(res.status) ==> r.1 == Failed(LoadFailure)
  {
    var header := Header(cookie, decode);
    match res
    case Reply(status, body) =>
      if !IsOk(status) then (header, Failed(LoadFailure))
      else if body.None? then (header, Failed("invalid JSON"))
      else (header, Resolved(body.value))
    case Aborted => (header, Failed("aborted"))
    case NetworkError => (header, Failed("network error"))
  }

  /** What the cache hands the card: its data, whether an error is stored, and whether the
      first request is still in flight. */
  datatype Swr = Swr(data: Option<Patient>, error: bool, isLoading: bool)

  datatype Fields = Fields(name: string, cedula: string, birth: string, sex: string, cellphone: string)

  datatype View = Loading | ErrorText(text: string) | Card(id: int, fields: Fields)

  const Dash := "\U{2014}"

  /** `value || "—"`. */
  function OrDash(v: string): (r: string)
    ensures r != ""
    ensures v != "" ==> r == v
  {
    if v == "" then Dash else v
  }

  function Render(s: Swr): (v: View)
    ensures v == Loading <==> s.isLoading
    ensures v == ErrorText(LoadFailure) <==> !s.isLoading && (s.error || s.data.None?)
    ensures v.Card? ==> s.data.Some? && v.id == s.data.value.id
    ensures v.Card? ==> v.fields.cedula != "" && v.fields.cellphone != ""
  {
    if s.isLoading then Loading
    else if s.error || s.data.None? then ErrorText(LoadFailure)
    else
      var p := s.data.value;
      Card(p.id, Fields(p.firstName + " " + p.lastName, OrDash(p.cedula), p.dateOfBirth,
                        p.biologicalSex, OrDash(p.cellphone)))
  }

  /** The card shows the patient's cedula and cellphone as they are, and a dash for each
      that is empty. */
  lemma CardContacts(p: Patient)
    ensures var v := Render(Swr(Some(p), false, false));
      v.Card? && (v.fields.cedula == if p.cedula == "" then Dash else p.cedula)
      && (v.fields.cellphone == if p.cellphone == "" then Dash else p.cellphone)
  {
  }

  /** While a request is in flight the card says so, whatever error or data the cache holds. */
  lemma LoadingFirst(s: Swr)
    requires s.isLoading
    ensures Render(s) == Loading
  {
  }
}
