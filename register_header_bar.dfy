/** The navigation bar at the top of the internal screens: one button per handler the screen
    passes, the statistics button for administrators only, and the current screen's button
    highlighted. */
module RegisterHeaderBar {
  import opened Wrappers
  import opened AuthContext

  datatype Tab = Register | Patients | Stats | Images

  /** Which handlers the screen passes, and the `active` prop when it passes one. */
  datatype Props = Props(onBackToRegister: bool, onPatients: bool, onStats: bool, onImages: bool,
                         active: Option<Tab>)

  /** `active = "register"`: the default of the destructured prop. */
  function ActiveTab(p: Props): (t: Tab)
    ensures p.active.None? ==> t == Register
    ensures p.active.Some? ==> t == p.active.value
  {
    p.active.GetOr(Register)
  }

  datatype Button = Button(text: string, tab: Tab, highlighted: bool)

  function TabLabel(t: Tab): string {
    match t
    case Register => "Registro"
    case Patients => "Pacientes"
    case Stats => "Estad\U{00ED}sticas"
    case Images => "Im\U{00E1}genes"
  }

  /** Whether the button of `t` is rendered. */
  predicate Shown(p: Props, user: Option<User>, t: Tab) {
    match t
    case Register => p.onBackToRegister
    case Patients => p.onPatients
    case Stats => user.Some? && user.value.role == "ADMIN" && p.onStats
    case Images => p.onImages
  }

  function ButtonFor(p: Props, t: Tab): Button {
    Button(TabLabel(t), t, ActiveTab(p) == t)
  }

  function Optional(p: Props, user: Option<User>, t: Tab): seq<Button> {
    if Shown(p, user, t) then [ButtonFor(p, t)] else []
  }

  /** The buttons in the order they appear. */
  function Buttons(p: Props, user: Option<User>): seq<Button> {
    Optional(p, user, Register) + Optional(p, user, Patients) + Optional(p, user, Stats) + Optional(p, user, Images)
  }

  /** The tabs of the rendered buttons, in order. */
  function TabsOf(bs: seq<Button>): (r: seq<Tab>)
    ensures |r| == |bs| && forall i :: 0 <= i < |bs| ==> r[i] == bs[i].tab
  {
    seq(|bs|, i requires 0 <= i < |bs| => bs[i].tab)
  }

  /** The position of a tab in the bar. */
  function Rank(t: Tab): nat {
    match t
    case Register => 0
    case Patients => 1
    case Stats => 2
    case Images => 3
  }

  /** A tab has a button exactly when its handler is passed (and, for statistics, the user is
      an administrator). */
  lemma ButtonsShown(p: Props, user: Option<User>)
    ensures forall t: Tab :: t in TabsOf(Buttons(p, user)) <==> Shown(p, user, t)
  {
    ButtonsTabs(p, user);
    var r := if Shown(p, user, Register) then [Register] else [];
    var q := if Shown(p, user, Patients) then [Patients] else [];
    var s := if Shown(p, user, Stats) then [Stats] else [];
    var m := if Shown(p, user, Images) then [Images] else [];
    forall t: Tab
      ensures t in r + q + s + m <==> Shown(p, user, t)
    {
    }
  }

  lemma ButtonsTabs(p: Props, user: Option<User>)
    ensures TabsOf(Buttons(p, user)) ==
      (if Shown(p, user, Register) then [Register] else [])
      + (if Shown(p, user, Patients) then [Patients] else [])
      + (if Shown(p, user, Stats) then [Stats] else [])
      + (if Shown(p, user, Images) then [Images] else [])
  {
    var a := Optional(p, user, Register);
    var b := Optional(p, user, Patients);
    var c := Optional(p, user, Stats);
    var d := Optional(p, user, Images);
    OptionalTabs(p, user, Register);
    OptionalTabs(p, user, Patients);
    OptionalTabs(p, user, Stats);
    OptionalTabs(p, user, Images);
    TabsOfConcat(a, b);
    TabsOfConcat(a + b, c);
    TabsOfConcat(a + b + c, d);
  }

  /** The buttons keep the bar's order, so no tab has two. */
  lemma ButtonsOrdered(p: Props, user: Option<User>)
    ensures Increasing(Buttons(p, user))
  {
    OptionalTabs(p, user, Register);
    OptionalTabs(p, user, Patients);
    OptionalTabs(p, user, Stats);
    OptionalTabs(p, user, Images);
    Ordered4(Optional(p, user, Register), Optional(p, user, Patients), Optional(p, user, Stats), Optional(p, user, Images));
  }

  /** Four runs of at most one button each, ranked 0 to 3, make an increasing bar. */
  lemma Ordered4(a: seq<Button>, b: seq<Button>, c: seq<Button>, d: seq<Button>)
    requires |a| <= 1 && forall i :: 0 <= i < |a| ==> Rank(a[i].tab) == 0
    requires |b| <= 1 && forall i :: 0 <= i < |b| ==> Rank(b[i].tab) == 1
    requires |c| <= 1 && forall i :: 0 <= i < |c| ==> Rank(c[i].tab) == 2
    requires |d| <= 1 && forall i :: 0 <= i < |d| ==> Rank(d[i].tab) == 3
    ensures Increasing(a + b + c + d)
  {
    Ordered(a, b, 1);
    Ordered(a + b, c, 2);
    Ordered(a + b + c, d, 3);
  }

  /** Strictly increasing ranks. */
  predicate Increasing(bs: seq<Button>) {
    forall i, j :: 0 <= i < j < |bs| ==> Rank(bs[i].tab) < Rank(bs[j].tab)
  }

  predicate RankedBelow(bs: seq<Button>, k: nat) {
    forall i :: 0 <= i < |bs| ==> Rank(bs[i].tab) < k
  }

  lemma OptionalTabs(p: Props, user: Option<User>, t: Tab)
    ensures TabsOf(Optional(p, user, t)) == if Shown(p, user, t) then [t] else []
    ensures |Optional(p, user, t)| <= 1
    ensures forall i :: 0 <= i < |Optional(p, user, t)| ==> Optional(p, user, t)[i].tab == t
  {
  }

  lemma TabsOfConcat(a: seq<Button>, b: seq<Button>)
    ensures TabsOf(a + b) == TabsOf(a) + TabsOf(b)
  {
  }

  /** Appending buttons ranked `k` to buttons ranked below `k`, in order, keeps the order. */
  lemma Ordered(a: seq<Button>, b: seq<Button>, k: nat)
    requires Increasing(a) && RankedBelow(a, k)
    requires |b| <= 1 && forall i :: 0 <= i < |b| ==> Rank(b[i].tab) == k
    ensures Increasing(a + b) && RankedBelow(a + b, k + 1)
  {
  }

  /** Every button is highlighted exactly when its tab is the active one, so at most one
      button is highlighted. */
  lemma ButtonsHighlight(p: Props, user: Option<User>)
    ensures forall i :: 0 <= i < |Buttons(p, user)| ==>
              (Buttons(p, user)[i].highlighted <==> Buttons(p, user)[i].tab == ActiveTab(p))
    ensures forall i, j :: 0 <= i < j < |Buttons(p, user)| ==>
              !(Buttons(p, user)[i].highlighted && Buttons(p, user)[j].highlighted)
  {
    var bs := Buttons(p, user);
    assert forall i :: 0 <= i < |bs| ==> bs[i] == ButtonFor(p, bs[i].tab);
    ButtonsOrdered(p, user);
  }

  /** The statistics button is hidden from every user who is not an administrator, even when
      the screen passes its handler. */
  lemma StatsForAdminsOnly(p: Props, u: User)
    requires u.role != "ADMIN"
    ensures forall i :: 0 <= i < |Buttons(p, Some(u))| ==> Buttons(p, Some(u))[i].tab != Stats
    ensures forall i :: 0 <= i < |Buttons(p, None)| ==> Buttons(p, None)[i].tab != Stats
  {
  }
}
