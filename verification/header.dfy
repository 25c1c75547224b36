/** The site header (src/components/layout/Header.tsx): mirroring the signed-in
    user from the auth client, the logout that always ends anonymous on the
    home route, the navigation actions offered to each state, the scroll flag
    and the mobile menu. */
module Header {

  import opened Wrappers
  import opened Gateway

  const Home := "/"
  const LoginRoute := "/login"
  const DashboardRoute := "/dashboard"
  const ScrollThreshold: real := 10.0

  /** The header's local state; `user` None is the anonymous state. */
  datatype HeaderState = HeaderState(user: Option<User>, menuOpen: bool, scrolled: bool)

  /** Observable actions: calls to `auth.signOut`, route changes, and the
      parent's `onOpenTrialForm` callback. */
  datatype Effect = CallSignOut | Navigate(route: string) | OpenTrialForm

  datatype Transition = Transition(state: HeaderState, effects: seq<Effect>)

  /** What `auth.signOut()` did; the header does not look at it. */
  datatype SignOutOutcome = SignedOutOk | SignOutThrew

  /** The `event` argument of the auth-state callback. */
  datatype AuthEvent = InitialSession | SignedIn | SignedOut | TokenRefreshed | UserUpdated | PasswordRecovery

  /** The `session` argument: absent, or a session whose `user` may be absent. */
  datatype Session = Session(user: Option<User>)

  function InitialHeader(): (s: HeaderState)
    ensures s.user == None && !s.menuOpen && !s.scrolled
  {
    HeaderState(None, false, false)
  }

  /** `handleLogout`: whether sign-out returns or throws, the user is cleared
      and the page goes home. */
  function Logout(s: HeaderState, signOut: SignOutOutcome): (r: Transition)
    ensures r.state == s.(user := None)
    ensures r.effects == [CallSignOut, Navigate(Home)]
  {
    match signOut
    case SignedOutOk => Transition(s.(user := None), [CallSignOut, Navigate(Home)])
    case SignOutThrew => Transition(s.(user := None), [CallSignOut, Navigate(Home)])
  }

  /** Resolving the current user (the body of `checkSession`, and the second
      half of the auth-state callback): a user from an error-free answer is
      adopted; an error, no user, or a throw logs out. */
  function Resolve(s: HeaderState, lookup: UserLookup, signOut: SignOutOutcome): (r: Transition)
    ensures ResolvedUser(lookup).Some? ==> r == Transition(s.(user := ResolvedUser(lookup)), [])
    ensures ResolvedUser(lookup).None? ==> r == Transition(s.(user := None), [CallSignOut, Navigate(Home)])
  {
    match ResolvedUser(lookup)
    case Some(u) => Transition(s.(user := Some(u)), [])
    case None => Logout(s, signOut)
  }

  /** The `onAuthStateChange` callback. A sign-out event or a session without
      a user forces the anonymous state and the home route without calling
      sign-out; anything else re-resolves the user. */
  function AuthChanged(s: HeaderState, event: AuthEvent, session: Option<Session>,
                       lookup: UserLookup, signOut: SignOutOutcome): (r: Transition)
    ensures event == SignedOut || session.None? || session.value.user.None? ==>
      r == Transition(s.(user := None), [Navigate(Home)])
    ensures event != SignedOut && session.Some? && session.value.user.Some? ==>
      r == Resolve(s, lookup, signOut)
  {
    if event == SignedOut || session.None? || session.value.user.None? then
      Transition(s.(user := None), [Navigate(Home)])
    else
      Resolve(s, lookup, signOut)
  }

  /** Every auth transition keeps the invariant that the header is anonymous
      exactly when the transition ended on the home route, and it touches
      only the user, never the menu or scroll flags. */
  lemma AnonymousIffSentHome(s: HeaderState, event: AuthEvent, session: Option<Session>,
                             lookup: UserLookup, signOut: SignOutOutcome)
    ensures var r := Resolve(s, lookup, signOut);
      (r.state.user == None <==> |r.effects| > 0 && r.effects[|r.effects| - 1] == Navigate(Home))
      && r.state.menuOpen == s.menuOpen && r.state.scrolled == s.scrolled
    ensures var r := AuthChanged(s, event, session, lookup, signOut);
      (r.state.user == None <==> |r.effects| > 0 && r.effects[|r.effects| - 1] == Navigate(Home))
      && r.state.menuOpen == s.menuOpen && r.state.scrolled == s.scrolled
  {
  }

  /** A sign-out event ends in the same place from any two prior states. */
  lemma SignedOutForgetsPrevious(s1: HeaderState, s2: HeaderState, session: Option<Session>,
                                 lookup1: UserLookup, lookup2: UserLookup, signOut: SignOutOutcome)
    requires s1.menuOpen == s2.menuOpen && s1.scrolled == s2.scrolled
    ensures AuthChanged(s1, SignedOut, session, lookup1, signOut) == AuthChanged(s2, SignedOut, session, lookup2, signOut)
  {
  }

  /** The buttons of the navigation bar. */
  datatype Action = LogIn | StartFreeTrial | LogOut | GoToDashboard

  datatype Layout = Desktop | Mobile

  /** The buttons rendered: Log Out and Dashboard for a user, Log In and Start
      Free Trial otherwise; on mobile only while the menu is open. */
  function VisibleActions(s: HeaderState, layout: Layout): (r: seq<Action>)
    ensures layout == Desktop || s.menuOpen ==>
      (LogOut in r <==> s.user.Some?) && (GoToDashboard in r <==> s.user.Some?)
      && (LogIn in r <==> s.user.None?) && (StartFreeTrial in r <==> s.user.None?)
    ensures layout == Mobile && !s.menuOpen ==> r == []
  {
    if layout == Mobile && !s.menuOpen then []
    else if s.user.Some? then [LogOut, GoToDashboard]
    else [LogIn, StartFreeTrial]
  }

  /** Clicking a rendered button. On mobile the menu closes first. The trial
      button calls the parent's callback when one was passed. */
  function Click(s: HeaderState, layout: Layout, action: Action, hasTrialCallback: bool,
                 signOut: SignOutOutcome): (r: Transition)
    requires action in VisibleActions(s, layout)
    ensures layout == Mobile ==> !r.state.menuOpen
    ensures layout == Desktop ==> r.state.menuOpen == s.menuOpen
    ensures action == LogOut ==> r.state.user == None && r.effects == [CallSignOut, Navigate(Home)]
    ensures action != LogOut ==> r.state.user == s.user
    // no button touches the scroll flag
    ensures r.state.scrolled == s.scrolled
    ensures action == LogIn ==> r.effects == [Navigate(LoginRoute)]
    ensures action == GoToDashboard ==> r.effects == [Navigate(DashboardRoute)]
    ensures action == StartFreeTrial ==> r.effects == (if hasTrialCallback then [OpenTrialForm] else [])
  {
    var s' := if layout == Mobile then s.(menuOpen := false) else s;
    match action
    case LogIn => Transition(s', [Navigate(LoginRoute)])
    case GoToDashboard => Transition(s', [Navigate(DashboardRoute)])
    case StartFreeTrial => Transition(s', if hasTrialCallback then [OpenTrialForm] else [])
    case LogOut => Logout(s', signOut)
  }

  /** A click on a mobile menu link (Benefits, Customers, FAQ): the menu closes. */
  function MenuLinkClicked(s: HeaderState): (r: HeaderState)
    ensures !r.menuOpen && r.user == s.user && r.scrolled == s.scrolled
  {
    s.(menuOpen := false)
  }

  /** `toggleMenu`. */
  function ToggleMenu(s: HeaderState): (r: HeaderState)
    ensures r.menuOpen != s.menuOpen && r.user == s.user && r.scrolled == s.scrolled
  {
    s.(menuOpen := !s.menuOpen)
  }

  /** Toggling twice restores the menu. */
  lemma ToggleTwiceRestores(s: HeaderState)
    ensures ToggleMenu(ToggleMenu(s)) == s
  {
  }

  /** The scroll listener: `isScrolled` follows `window.scrollY > 10`. */
  function Scrolled(s: HeaderState, scrollY: real): (r: HeaderState)
    ensures r.scrolled <==> scrollY > ScrollThreshold
    ensures r.user == s.user && r.menuOpen == s.menuOpen
  {
    s.(scrolled := scrollY > ScrollThreshold)
  }
}
