/** The wrapper of the admin-only screens: the page is shown only to a user whose role is in
    the allowed list; anyone else is sent away, with a one-time alert for a logged-in user
    of the wrong role. */
module RoleGuard {
  import opened Wrappers
  import opened AuthContext
  import opened AuthGuard

  predicate Allowed(s: AuthState, allow: seq<string>) {
    s.user.Some? && s.user.value.role in allow
  }

  /** The page renders only for a checked session whose user has an allowed role; there is no
      restricted screen, only nothing. */
  function Render(s: AuthState, allow: seq<string>): (v: View)
    ensures v != Restricted
    ensures v == Children <==> s.authChecked && s.user.Some? && s.user.value.role in allow
  {
    if !s.authChecked || s.user.None? then Nothing
    else if s.user.value.role !in allow then Nothing
    else Children
  }

  /** One run of the guard's effect. */
  function RoleEffect(shown: bool, s: AuthState, allow: seq<string>): Step {
    if !s.authChecked || s.isLoggingOut then Step(shown, [])
    else if s.user.None? then Step(shown, [Replace("/")])
    else if s.user.value.role !in allow then
      var a := ShowAlertOnce(shown, AlertText);
      Step(a.shown, a.effects + [Replace("/dashboard")])
    else Step(shown, [])
  }

  /** The effect's four cases: idle before the check and while logging out; home with no
      alert for a visitor; an alert (the first time) and the dashboard for a wrong role; and
      no navigation at all for an allowed role. */
  lemma EffectCases(shown: bool, s: AuthState, allow: seq<string>)
    ensures !s.authChecked || s.isLoggingOut ==> RoleEffect(shown, s, allow) == Step(shown, [])
    ensures s.authChecked && !s.isLoggingOut && s.user.None? ==>
              RoleEffect(shown, s, allow) == Step(shown, [Replace("/")])
    ensures s.authChecked && !s.isLoggingOut && s.user.Some? && s.user.value.role !in allow ==>
              RoleEffect(shown, s, allow).shown
              && RoleEffect(shown, s, allow).effects == (if shown then [] else [Alert(AlertText)]) + [Replace("/dashboard")]
    ensures Allowed(s, allow) ==> RoleEffect(shown, s, allow) == Step(shown, [])
  {
  }

  /** Whenever the effect navigates away, the page is not shown; the converse fails only while
      the session is unchecked or a logout is under way. */
  lemma NavigatesOnlyWhenHidden(shown: bool, s: AuthState, allow: seq<string>)
    ensures RoleEffect(shown, s, allow).effects != [] ==> Render(s, allow) == Nothing
    ensures s.authChecked && !s.isLoggingOut && Render(s, allow) == Nothing ==> RoleEffect(shown, s, allow).effects != []
  {
  }

  lemma RoleEffectLatched(shown: bool, s: AuthState, allow: seq<string>)
    ensures Latched(shown, RoleEffect(shown, s, allow))
  {
    if s.authChecked && !s.isLoggingOut && s.user.None? {
      assert AlertCount([Replace("/")]) == 0 by {
        assert [Replace("/")][..0] == [];
      }
    } else if s.authChecked && !s.isLoggingOut && s.user.Some? && s.user.value.role !in allow {
      var a := ShowAlertOnce(shown, AlertText);
      AlertCountAppend(a.effects, [Replace("/dashboard")]);
      assert AlertCount([Replace("/dashboard")]) == 0 by {
        assert [Replace("/dashboard")][..0] == [];
      }
      if !shown {
        assert AlertCount([Alert(AlertText)]) == 1 by {
          assert [Alert(AlertText)][..0] == [];
        }
      }
    }
  }

  /** However often the effect reruns, the role guard alerts at most once. */
  lemma GuardAlertsOnce(allow: seq<string>, states: seq<AuthState>)
    ensures AlertCount(RunAll((b, s) => RoleEffect(b, s, allow), false, states).effects) <= 1
  {
    forall b: bool, s: AuthState
      ensures Latched(b, RoleEffect(b, s, allow))
    {
      RoleEffectLatched(b, s, allow);
    }
    AlertAtMostOnce((b, s) => RoleEffect(b, s, allow), false, states);
  }

  class Guard {
    const allow: seq<string>
    var alertShown: bool
    ghost var effects: seq<Effect>

    ghost predicate Valid()
      reads this
    {
      AlertCount(effects) == (if alertShown then 1 else 0)
    }

    constructor(allow: seq<string>)
      ensures Valid() && this.allow == allow && !alertShown && effects == []
    {
      this.allow := allow;
      alertShown := false;
      effects := [];
    }

    /** One run of the effect on the current session state. */
    method OnStateChange(s: AuthState)
      requires Valid()
      modifies this
      ensures Valid()
      ensures alertShown == RoleEffect(old(alertShown), s, allow).shown
      ensures effects == old(effects) + RoleEffect(old(alertShown), s, allow).effects
    {
      RoleEffectLatched(alertShown, s, allow);
      AlertCountAppend(effects, RoleEffect(alertShown, s, allow).effects);
      if !s.authChecked || s.isLoggingOut {
        return;
      }
      if s.user.None? {
        effects := effects + [Replace("/")];
        return;
      }
      if s.user.value.role !in allow {
        if !alertShown {
          alertShown := true;
          effects := effects + [Alert(AlertText)];
        }
        effects := effects + [Replace("/dashboard")];
      }
    }
  }
}
