/** The session state every protected screen reads: who is logged in, whether the session has
    been checked, and whether a logout is under way. */
module AuthContext {
  import opened Wrappers

  /** The logged-in user as `/api/v1/me` returns it. The role is "ADMIN" or "REMITENTE". */
  datatype User = User(id: int, name: string, email: string, role: string, status: string)

  /** What a consumer of the context sees. */
  datatype AuthState = AuthState(user: Option<User>, loading: bool, authChecked: bool, isLoggingOut: bool)

  const Initial := AuthState(None, true, false, false)

  /** How the `/api/v1/me` request ends: an OK response and its body, a response that is not
      OK, or an exception (a network error, or a body that is not JSON). */
  datatype SessionResponse = SessionOk(body: User) | SessionRejected | SessionThrown

  /** The state a session check leaves: the user is the body exactly on an OK response, and
      in every case loading has ended and the check is recorded. */
  function AfterCheck(s: AuthState, res: SessionResponse): (r: AuthState)
    ensures r.user == (if res.SessionOk? then Some(res.body) else None)
    ensures !r.loading && r.authChecked && r.isLoggingOut == s.isLoggingOut
  {
    AuthState(if res.SessionOk? then Some(res.body) else None, false, true, s.isLoggingOut)
  }

  /** The requests the provider sends. */
  datatype AuthRequest = Me | Logout

  /** What the provider does, in order: a render of a new state, a request, or the console
      message of a failed logout. */
  datatype Event = Rendered(state: AuthState) | Sent(request: AuthRequest) | LoggedError

  /** `useAuth()`: the context inside a provider (`Some`), and an exception outside it. */
  datatype Hook = Context(state: AuthState) | Throws(message: string)

  const OutsideProvider := "useAuth must be used inside AuthProvider"

  function UseAuth(provided: Option<AuthState>): (r: Hook)
    ensures provided.None? <==> r == Throws(OutsideProvider)
    ensures provided.Some? ==> r == Context(provided.value)
  {
    match provided
    case None => Throws(OutsideProvider)
    case Some(s) => Context(s)
  }

  class AuthProvider {
    var user: Option<User>
    var loading: bool
    var authChecked: bool
    var isLoggingOut: bool
    /** Whether the mount effect has run. */
    var mounted: bool
    ghost var events: seq<Event>

    function State(): AuthState
      reads this
    {
      AuthState(user, loading, authChecked, isLoggingOut)
    }

    /** How many session checks have been sent. */
    ghost function Checks(): nat
      reads this
    {
      CountMe(events)
    }

    constructor()
      ensures State() == Initial && !mounted && events == []
    {
      user := None;
      loading := true;
      authChecked := false;
      isLoggingOut := false;
      mounted := false;
      events := [];
    }

    /** `checkSession`, given how its request ends. */
    method CheckSession(res: SessionResponse)
      modifies this
      ensures State() == AfterCheck(old(State()), res)
      ensures mounted == old(mounted)
      ensures events == old(events) + [Sent(Me), Rendered(State())]
    {
      if res.SessionOk? {
        user := Some(res.body);
      } else {
        user := None;
      }
      loading := false;
      authChecked := true;
      events := events + [Sent(Me), Rendered(State())];
    }

    /** The effect with no dependencies: it checks the session the first time only. */
    method Mount(res: SessionResponse)
      modifies this
      ensures mounted
      ensures old(mounted) ==> State() == old(State()) && events == old(events)
      ensures !old(mounted) ==> State() == AfterCheck(old(State()), res)
                                && events == old(events) + [Sent(Me), Rendered(State())]
    {
      if !mounted {
        mounted := true;
        CheckSession(res);
      }
    }

    /** `setUser`, as the login page calls it. */
    method SetUser(u: Option<User>)
      modifies this
      ensures State() == old(State()).(user := u) && mounted == old(mounted)
      ensures events == old(events) + [Rendered(State())]
    {
      user := u;
      events := events + [Rendered(State())];
    }

    /** `logout`: the flag is raised and the request goes out in the same tick, so the render
        of the raised flag follows the request; the user is cleared whether or not the request
        succeeds. The flag is never lowered again. */
    method DoLogout(thrown: bool)
      modifies this
      ensures State() == old(State()).(user := None, isLoggingOut := true) && mounted == old(mounted)
      ensures events == old(events)
                        + [Sent(Logout), Rendered(old(State()).(isLoggingOut := true))]
                        + (if thrown then [LoggedError] else [])
                        + [Rendered(State())]
    {
      isLoggingOut := true;
      events := events + [Sent(Logout), Rendered(State())];
      if thrown {
        events := events + [LoggedError];
      }
      user := None;
      events := events + [Rendered(State())];
    }
  }

  /** The number of session checks in a trace. */
  function CountMe(es: seq<Event>): nat {
    if es == [] then 0 else CountMe(es[..|es| - 1]) + (if es[|es| - 1] == Sent(Me) then 1 else 0)
  }

  lemma {:induction false} CountMeAppend(a: seq<Event>, b: seq<Event>)
    ensures CountMe(a + b) == CountMe(a) + CountMe(b)
  {
    if b == [] {
      assert a + b == a;
    } else {
      assert (a + b)[..|a + b| - 1] == a + b[..|b| - 1];
      CountMeAppend(a, b[..|b| - 1]);
    }
  }

  /** A provider that is mounted, and mounted again, checks the session once, and keeps the
      outcome of that first check. */
  method MountTwice(res1: SessionResponse, res2: SessionResponse) returns (p: AuthProvider)
    ensures p.Checks() == 1
    ensures p.State() == AfterCheck(Initial, res1)
  {
    p := new AuthProvider();
    p.Mount(res1);
    CountMeAppend([], [Sent(Me), Rendered(p.State())]);
    assert CountMe([Sent(Me), Rendered(p.State())]) == 1 by {
      assert [Sent(Me), Rendered(p.State())][..1] == [Sent(Me)];
      assert [Sent(Me)][..0] == [];
    }
    p.Mount(res2);
  }
}
