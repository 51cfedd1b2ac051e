/** The wrapper of every logged-in screen: what it renders for a session state, and its effect,
    which sends a visitor without a session back to the home page with a one-time alert. */
module AuthGuard {
  import opened Wrappers
  import opened AuthContext

  /** What a guard renders: nothing, the "Acceso Restringido" screen, or the wrapped page. */
  datatype View = Nothing | Restricted | Children

  function Render(s: AuthState): (v: View)
    ensures !s.authChecked ==> v == Nothing
    ensures v == Restricted <==> s.authChecked && s.user.None? && !s.isLoggingOut
    ensures v == Children <==> s.authChecked && (s.user.Some? || s.isLoggingOut)
  {
    if !s.authChecked then Nothing
    else if s.user.None? && !s.isLoggingOut then Restricted
    else Children
  }

  /** The effects a guard causes outside itself: a browser alert and a route replacement. */
  datatype Effect = Alert(message: string) | Replace(path: string)

  const AlertText := "\U{1F6AB} Solo personas autorizadas pueden acceder."

  /** The latch and the effects a run of the guard's effect leaves. */
  datatype Step = Step(shown: bool, effects: seq<Effect>)

  /** `showAlertOnce`: the alert goes out only while the latch is down, and raises it. */
  function ShowAlertOnce(shown: bool, message: string): (r: Step)
    ensures r.shown
    ensures shown ==> r.effects == []
    ensures !shown ==> r.effects == [Alert(message)]
  {
    if shown then Step(true, []) else Step(true, [Alert(message)])
  }

  /** One run of the effect, which reruns whenever the session state changes. */
  function RunEffect(shown: bool, s: AuthState): Step {
    if !s.authChecked || s.isLoggingOut then Step(shown, [])
    else if s.user.None? then
      var a := ShowAlertOnce(shown, AlertText);
      Step(a.shown, a.effects + [Replace("/")])
    else Step(shown, [])
  }

  /** The guard redirects exactly when the session has been checked, no logout is under way
      and nobody is logged in, which is exactly when it renders the restricted screen. */
  lemma RedirectIff(shown: bool, s: AuthState)
    ensures Replace("/") in RunEffect(shown, s).effects <==> s.authChecked && !s.isLoggingOut && s.user.None?
    ensures Replace("/") in RunEffect(shown, s).effects <==> Render(s) == Restricted
    ensures RunEffect(shown, s).effects == [] || RunEffect(shown, s).effects[|RunEffect(shown, s).effects| - 1] == Replace("/")
  {
  }

  /** How many alerts a list of effects holds. */
  function AlertCount(es: seq<Effect>): nat {
    if es == [] then 0 else AlertCount(es[..|es| - 1]) + (if es[|es| - 1].Alert? then 1 else 0)
  }

  lemma {:induction false} AlertCountAppend(a: seq<Effect>, b: seq<Effect>)
    ensures AlertCount(a + b) == AlertCount(a) + AlertCount(b)
  {
    if b == [] {
      assert a + b == a;
    } else {
      assert (a + b)[..|a + b| - 1] == a + b[..|b| - 1];
      AlertCountAppend(a, b[..|b| - 1]);
    }
  }

  /** A step respects the latch when it alerts at most once, never with the latch up, and
      leaves the latch up exactly when it was up or it alerted. */
  predicate Latched(shown: bool, st: Step) {
    AlertCount(st.effects) <= (if shown then 0 else 1)
    && (st.shown <==> shown || AlertCount(st.effects) == 1)
  }

  lemma EffectLatched(shown: bool, s: AuthState)
    ensures Latched(shown, RunEffect(shown, s))
  {
    var st := RunEffect(shown, s);
    if s.authChecked && !s.isLoggingOut && s.user.None? {
      var a := ShowAlertOnce(shown, AlertText);
      AlertCountAppend(a.effects, [Replace("/")]);
      assert AlertCount([Replace("/")]) == 0 by {
        assert [Replace("/")][..0] == [];
      }
      if !shown {
        assert AlertCount([Alert(AlertText)]) == 1 by {
          assert [Alert(AlertText)][..0] == [];
        }
      }
    }
  }

  /** The effect rerun on a sequence of session states, the latch carried from run to run. */
  function RunAll(step: (bool, AuthState) -> Step, shown: bool, states: seq<AuthState>): Step {
    if states == [] then Step(shown, [])
    else
      var before := RunAll(step, shown, states[..|states| - 1]);
      var last := step(before.shown, states[|states| - 1]);
      Step(last.shown, before.effects + last.effects)
  }

  /** However often the effect reruns, and on whatever states, a guard whose every step
      respects the latch alerts at most once. */
  lemma {:induction false} AlertAtMostOnce(step: (bool, AuthState) -> Step, shown: bool, states: seq<AuthState>)
    requires forall b: bool, s: AuthState :: Latched(b, step(b, s))
    ensures Latched(shown, RunAll(step, shown, states))
  {
    if states != [] {
      var before := RunAll(step, shown, states[..|states| - 1]);
      AlertAtMostOnce(step, shown, states[..|states| - 1]);
      var last := step(before.shown, states[|states| - 1]);
      assert Latched(before.shown, last);
      AlertCountAppend(before.effects, last.effects);
    }
  }

  /** The guard's own effect, rerun on any sequence of states, alerts at most once. */
  lemma GuardAlertsOnce(states: seq<AuthState>)
    ensures AlertCount(RunAll((b, s) => RunEffect(b, s), false, states).effects) <= 1
  {
    forall b: bool, s: AuthState
      ensures Latched(b, RunEffect(b, s))
    {
      EffectLatched(b, s);
    }
    AlertAtMostOnce((b, s) => RunEffect(b, s), false, states);
  }

  /** During and after a logout a checked session keeps showing the page, with or without
      the user, and the effect does nothing. */
  lemma LogoutShowsChildren(s: AuthState, shown: bool)
    requires s.authChecked
    ensures Render(s.(isLoggingOut := true)) == Children
    ensures Render(s.(user := None, isLoggingOut := true)) == Children
    ensures RunEffect(shown, s.(user := None, isLoggingOut := true)) == Step(shown, [])
  {
  }

  class Guard {
    /** The `alertShown` ref. */
    var alertShown: bool
    ghost var effects: seq<Effect>

    /** The latch is up exactly when the one alert has gone out. */
    ghost predicate Valid()
      reads this
    {
      AlertCount(effects) == (if alertShown then 1 else 0)
    }

    constructor()
      ensures Valid() && !alertShown && effects == []
    {
      alertShown := false;
      effects := [];
    }

    /** One run of the effect on the current session state. */
    method OnStateChange(s: AuthState)
      requires Valid()
      modifies this
      ensures Valid()
      ensures alertShown == RunEffect(old(alertShown), s).shown
      ensures effects == old(effects) + RunEffect(old(alertShown), s).effects
    {
      EffectLatched(alertShown, s);
      AlertCountAppend(effects, RunEffect(alertShown, s).effects);
      if !s.authChecked || s.isLoggingOut {
        return;
      }
      if s.user.None? {
        if !alertShown {
          alertShown := true;
          effects := effects + [Alert(AlertText)];
        }
        effects := effects + [Replace("/")];
      }
    }
  }
}
