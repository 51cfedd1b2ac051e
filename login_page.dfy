/** The login screen: its decorative circles, its form record, and the submit sequence that
    fetches the anti-forgery cookie, posts the credentials, stores the user and moves on. */
module LoginPage {
  import opened Wrappers
  import opened Json
  import opened Http
  import opened ClinicalImagesService
  import opened Mulberry32

  /** The twelve circles behind the form, from the generator seeded with 246810. */
  function LoginStyles(): seq<Style> {
    Styles(246810, 12, 100.0, 50.0)
  }

  /** Each circle is 50 to 150 pixels across and placed inside the screen. */
  lemma LoginStylesBounds(i: int)
    requires 0 <= i < 12
    ensures |LoginStyles()| == 12
    ensures 50.0 <= LoginStyles()[i].size < 150.0
    ensures 0.0 <= LoginStyles()[i].left < 100.0 && 0.0 <= LoginStyles()[i].top < 100.0
  {
    StyleBounds(246810, 12, 100.0, 50.0, i);
  }

  /** A value of the form record: the text of an input, or the state of a checkbox. */
  datatype FormValue = Text(s: string) | Checked(b: bool)

  type FormData = map<string, FormValue>

  const Initial: FormData := map["email" := Text(""), "password" := Text(""), "rememberMe" := Checked(false)]

  /** The record holds the three fields the screen reads. */
  predicate HasFields(f: FormData) {
    "email" in f && "password" in f && "rememberMe" in f
  }

  /** `handleInputChange`: the input's `name` gets its `checked` state when it is a checkbox
      and its `value` otherwise; every other field keeps its value. */
  function InputChange(prev: FormData, name: string, isCheckbox: bool, value: string, checked: bool): (r: FormData)
    ensures name in r && r[name] == (if isCheckbox then Checked(checked) else Text(value))
    ensures r.Keys == prev.Keys + {name}
    ensures forall k :: k in prev && k != name ==> r[k] == prev[k]
  {
    prev[name := if isCheckbox then Checked(checked) else Text(value)]
  }

  /** A change never drops a field, so the record keeps the three fields it starts with. */
  lemma InputChangeKeepsFields(prev: FormData, name: string, isCheckbox: bool, value: string, checked: bool)
    requires HasFields(prev)
    ensures HasFields(InputChange(prev, name, isCheckbox, value, checked))
  {
  }

  /** Repeating a change changes nothing more, and changes to two different fields can be
      made in either order. */
  lemma InputChangeOrder(f: FormData, a: string, ca: bool, va: string, ka: bool,
                         b: string, cb: bool, vb: string, kb: bool)
    ensures InputChange(InputChange(f, a, ca, va, ka), a, ca, va, ka) == InputChange(f, a, ca, va, ka)
    ensures a != b ==>
      InputChange(InputChange(f, a, ca, va, ka), b, cb, vb, kb)
      == InputChange(InputChange(f, b, cb, vb, kb), a, ca, va, ka)
  {
  }

  /** The requests the screen sends. `email` and `password` are the fields as the body holds
      them: a field the record lacks is left out of the JSON (None). */
  datatype Request =
    | CsrfCookie(url: string)
    | Login(url: string, token: string, email: Option<FormValue>, password: Option<FormValue>)

  /** What the submit does beyond its own state, in order. */
  datatype Effect = Sent(request: Request) | UserSet(user: Option<Json>) | Pushed(path: string)

  const LoginFailed := "No se pudo iniciar sesi\U{00F3}n."
  const ConnectionFailed := "Error de conexi\U{00F3}n con el servidor."
  const DefaultNext := "/register-patient"

  function Field(f: FormData, key: string): (r: Option<FormValue>)
    ensures r.Some? <==> key in f
    ensures r.Some? ==> r.value == f[key]
  {
    if key in f then Some(f[key]) else None
  }

  function CsrfUrl(env: Option<string>): string {
    Interpolate(ApiBaseUrl(env)) + "/sanctum/csrf-cookie"
  }

  function LoginUrl(env: Option<string>): string {
    Interpolate(ApiBaseUrl(env)) + "/api/v1/login"
  }

  /** The login request: the token cookie, or "" when there is none, in the header, and the
      record's two fields in the body. */
  function LoginRequest(env: Option<string>, form: FormData, token: Option<string>): (r: Request)
    ensures r.Login? && r.url == LoginUrl(env) && r.token == token.GetOr("")
    ensures r.email == Field(form, "email") && r.password == Field(form, "password")
  {
    Login(LoginUrl(env), token.GetOr(""), Field(form, "email"), Field(form, "password"))
  }

  /** `params.get("next") || "/register-patient"`: an absent or empty parameter falls back. */
  function NextPath(next: Option<string>): (r: string)
    ensures r != ""
    ensures next.Some? && next.value != "" ==> r == next.value
    ensures next.None? || next.value == "" ==> r == DefaultNext
  {
    if next.Some? && next.value != "" then next.value else DefaultNext
  }

  /** `data`: the parsed body, or null when `res.json()` rejects. */
  function Data(body: Option<Json>): Json {
    body.GetOr(JNull)
  }

  /** `data?.message || "No se pudo iniciar sesión."`. */
  function RefusalMessage(data: Json): (r: Json)
    ensures TruthyValue(r)
    ensures TruthyField(Get(data, "message")) ==> r == data.fields["message"]
    ensures !TruthyField(Get(data, "message")) ==> r == JStr(LoginFailed)
  {
    var m := Get(data, "message");
    if TruthyField(m) then m.value else JStr(LoginFailed)
  }

  /** How the screen ends a submit: what it did and the error message it shows. */
  datatype Outcome = Outcome(effects: seq<Effect>, error: Option<Json>)

  /** What follows the login request: the reply decides the message, and only an OK reply
      with a body stores its user and navigates. Reading `user` of a null body throws, which
      the handler catches like any other exception. */
  function Reaction(res: Reply<Json>, next: Option<string>): Outcome {
    match res
    case Reply(status, body) =>
      var data := Data(body);
      if !IsOk(status) then Outcome([], Some(RefusalMessage(data)))
      else if data == JNull then Outcome([], Some(JStr(ConnectionFailed)))
      else Outcome([UserSet(Get(data, "user")), Pushed(NextPath(next))], None)
    case _ => Outcome([], Some(JStr(ConnectionFailed)))
  }

  /** The submit, given whether the cookie request throws, the token cookie that follows it,
      how the login request ends and the `next` query parameter. */
  function Submit(env: Option<string>, form: FormData, csrfThrows: bool, token: Option<string>,
                  res: Reply<Json>, next: Option<string>): Outcome
  {
    var csrf := Sent(CsrfCookie(CsrfUrl(env)));
    if csrfThrows then Outcome([csrf], Some(JStr(ConnectionFailed)))
    else
      var login := Sent(LoginRequest(env, form, token));
      var after := Reaction(res, next);
      Outcome([csrf, login] + after.effects, after.error)
  }

  predicate Navigates(es: seq<Effect>) {
    exists i :: 0 <= i < |es| && es[i].Pushed?
  }

  predicate SetsUser(es: seq<Effect>) {
    exists i :: 0 <= i < |es| && es[i].UserSet?
  }

  /** The screen shows an error exactly when it neither stores a user nor navigates; when it
      does both, the user is stored first and navigation is the last thing it does. */
  lemma ErrorIffStays(env: Option<string>, form: FormData, csrfThrows: bool, token: Option<string>,
                      res: Reply<Json>, next: Option<string>)
    ensures var o := Submit(env, form, csrfThrows, token, res, next);
      (o.error.Some? <==> !Navigates(o.effects))
      && (SetsUser(o.effects) <==> Navigates(o.effects))
      && (Navigates(o.effects) ==> |o.effects| == 4 && o.effects[2].UserSet? && o.effects[3].Pushed?)
  {
    var o := Submit(env, form, csrfThrows, token, res, next);
    if o.error.Some? {
      assert |o.effects| <= 2 && forall i :: 0 <= i < |o.effects| ==> o.effects[i].Sent?;
    } else {
      assert o.effects[2].UserSet? && o.effects[3].Pushed?;
    }
  }

  /** The cookie request always goes first; the login request follows unless it threw, and
      carries the token cookie (empty when there is none) and the record's two fields. */
  lemma RequestsSent(env: Option<string>, form: FormData, csrfThrows: bool, token: Option<string>,
                     res: Reply<Json>, next: Option<string>)
    ensures var o := Submit(env, form, csrfThrows, token, res, next);
      o.effects[0] == Sent(CsrfCookie(CsrfUrl(env)))
      && (csrfThrows <==> |o.effects| == 1)
      && (!csrfThrows ==> o.effects[1] == Sent(LoginRequest(env, form, token)))
  {
  }

  /** A response that is not OK shows the server's message when it has a truthy one, and the
      fallback otherwise. */
  lemma RefusedShowsMessage(env: Option<string>, form: FormData, token: Option<string>,
                            status: int, body: Option<Json>, next: Option<string>)
    requires !IsOk(status)
    ensures var o := Submit(env, form, false, token, Reply(status, body), next);
      o.error == Some(RefusalMessage(Data(body))) && !Navigates(o.effects) && !SetsUser(o.effects)
    ensures body.None? ==> Submit(env, form, false, token, Reply(status, body), next).error == Some(JStr(LoginFailed))
  {
    ErrorIffStays(env, form, false, token, Reply(status, body), next);
  }

  /** An OK response with a body stores its `user` property (undefined when it has none) and
      goes to `next`, or to patient registration. */
  lemma AcceptedNavigates(env: Option<string>, form: FormData, token: Option<string>,
                          status: int, data: Json, next: Option<string>)
    requires IsOk(status) && data != JNull
    ensures var o := Submit(env, form, false, token, Reply(status, Some(data)), next);
      o.error.None?
      && o.effects[2..] == [UserSet(Get(data, "user")), Pushed(NextPath(next))]
  {
  }

  /** Every exception, including an OK response whose body is null or not JSON, ends in the
      connection error. */
  lemma ThrownShowsConnectionError(env: Option<string>, form: FormData, csrfThrows: bool, token: Option<string>,
                                   res: Reply<Json>, next: Option<string>)
    requires csrfThrows || !res.Reply? || (IsOk(res.status) && Data(res.body) == JNull)
    ensures Submit(env, form, csrfThrows, token, res, next).error == Some(JStr(ConnectionFailed))
  {
  }

  /** With the record's fields present, the body carries the email and the password typed. */
  lemma CredentialsSent(env: Option<string>, form: FormData, token: Option<string>)
    requires HasFields(form)
    ensures LoginRequest(env, form, token).email == Some(form["email"])
    ensures LoginRequest(env, form, token).password == Some(form["password"])
  {
  }

  class Page {
    var formData: FormData
    var showPassword: bool
    var isLoading: bool
    var errorMessage: Option<Json>
    ghost var effects: seq<Effect>

    /** The record keeps the fields it starts with, so the login body always holds both. */
    ghost predicate Valid()
      reads this
    {
      HasFields(formData)
    }

    constructor()
      ensures Valid()
      ensures formData == Initial && !showPassword && !isLoading && errorMessage.None? && effects == []
    {
      formData := Initial;
      showPassword := false;
      isLoading := false;
      errorMessage := None;
      effects := [];
    }

    /** `handleInputChange` on the event's target. */
    method HandleInputChange(name: string, isCheckbox: bool, value: string, checked: bool)
      requires Valid()
      modifies this
      ensures Valid()
      ensures formData == InputChange(old(formData), name, isCheckbox, value, checked)
      ensures showPassword == old(showPassword) && isLoading == old(isLoading)
      ensures errorMessage == old(errorMessage) && effects == old(effects)
    {
      formData := formData[name := if isCheckbox then Checked(checked) else Text(value)];
    }

    /** The `try` block after the login request has gone out, the error already cleared. */
    method OnReply(res: Reply<Json>, next: Option<string>)
      requires errorMessage.None?
      modifies this
      ensures errorMessage == Reaction(res, next).error
      ensures effects == old(effects) + Reaction(res, next).effects
      ensures formData == old(formData) && showPassword == old(showPassword) && isLoading == old(isLoading)
    {
      if !res.Reply? {
        errorMessage := Some(JStr(ConnectionFailed));
        return;
      }
      var data := if res.body.Some? then res.body.value else JNull;
      if !IsOk(res.status) {
        errorMessage := Some(RefusalMessage(data));
      } else if data == JNull {
        errorMessage := Some(JStr(ConnectionFailed));
      } else {
        effects := effects + [UserSet(Get(data, "user")), Pushed(NextPath(next))];
      }
    }

    /** `handleSubmit`, step by step: loading is raised and the error cleared, the requests
        go out, and whatever path it takes loading is lowered at the end. */
    method HandleSubmit(env: Option<string>, csrfThrows: bool, token: Option<string>,
                        res: Reply<Json>, next: Option<string>)
      requires Valid()
      modifies this
      ensures Valid() && !isLoading
      ensures errorMessage == Submit(env, old(formData), csrfThrows, token, res, next).error
      ensures effects == old(effects) + Submit(env, old(formData), csrfThrows, token, res, next).effects
      ensures formData == old(formData) && showPassword == old(showPassword)
    {
      isLoading := true;
      errorMessage := None;
      var csrf := Sent(CsrfCookie(CsrfUrl(env)));
      if csrfThrows {
        effects := effects + [csrf];
        errorMessage := Some(JStr(ConnectionFailed));
      } else {
        var login := Sent(LoginRequest(env, formData, token));
        effects := effects + [csrf, login];
        OnReply(res, next);
      }
      isLoading := false;
    }
  }
}
