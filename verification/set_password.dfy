/** The password-set page (src/pages/SetPassword.tsx): extracting invite
    credentials from the landing URL with an ordered fallback, establishing
    the session only when none is valid, and validating the password form
    before the credential update. */
module SetPassword {

  import opened Wrappers
  import opened Text
  import opened Gateway

  /** A parsed query string (`URLSearchParams`): its pairs in order. */
  type Params = seq<(string, string)>

  /** `params.get(key)`: the value of the first pair named `key`, or null. */
  function Get(params: Params, key: string): (r: Option<string>)
    ensures r.Some? <==> exists k | 0 <= k < |params| :: params[k].0 == key
    ensures r.Some? ==> exists k | 0 <= k < |params| :: params[k] == (key, r.value)
    ensures r.Some? ==> exists k | 0 <= k < |params| :: params[k] == (key, r.value) && forall j | 0 <= j < k :: params[j].0 != key
  {
    if |params| == 0 then None
    else if params[0].0 == key then Some(params[0].1)
    else
      var r := Get(params[1..], key);
      assert forall k | 0 < k < |params| :: params[k] == params[1..][k - 1];
      r
  }

  /** The credentials carried by an invite link; refresh token and link type
      keep their `string | null` shape. */
  datatype Credentials = Credentials(accessToken: string, refreshToken: Option<string>, linkType: Option<string>)

  datatype Extraction = Extracted(credentials: Credentials) | ExtractionFailed(message: string)

  const InvalidTokenFormat := "Invalid token format"
  const NoAccessToken := "No access token found in URL"
  const SessionNotEstablished := "Failed to establish session"
  const InviteFallback := "Invalid or expired invite link"
  const PasswordsDiffer := "Passwords do not match"
  const PasswordTooShort := "Password must be at least 8 characters long"
  const UpdateFallback := "Failed to update password"
  const MinPasswordLength := 8
  const LoginRoute := "/login"
  const DashboardRoute := "/dashboard"

  /** Credentials read from one parameter set. */
  function CredentialsIn(params: Params): Credentials
    requires Truthy(Get(params, "access_token"))
  {
    Credentials(Get(params, "access_token").value, Get(params, "refresh_token"), Get(params, "type"))
  }

  /** The token-extraction part of `handleInviteLink`. `hash` and `search` are
      the parsed fragment and query; `atob` is base64 decoding (None when it
      throws) and `parse` is `new URLSearchParams(decoded)`. */
  function Extract(hash: Params, search: Params, atob: string -> Option<string>, parse: string -> Params): (r: Extraction)
    // a fragment access token wins, with the fragment's refresh token and type
    ensures Truthy(Get(hash, "access_token")) ==> r == Extracted(CredentialsIn(hash))
    // otherwise everything comes from the decoded `token` parameter
    ensures !Truthy(Get(hash, "access_token")) && r.Extracted? ==>
      var token := Get(search, "token");
      && Truthy(token) && atob(token.value).Some?
      && Truthy(Get(parse(atob(token.value).value), "access_token"))
      && r.credentials == CredentialsIn(parse(atob(token.value).value))
    // and a decoded token carrying an access token is extracted from it
    ensures !Truthy(Get(hash, "access_token")) && Truthy(Get(search, "token"))
            && atob(Get(search, "token").value).Some?
            && Truthy(Get(parse(atob(Get(search, "token").value).value), "access_token")) ==>
      r == Extracted(CredentialsIn(parse(atob(Get(search, "token").value).value)))
    // a token that does not decode is reported as such
    ensures !Truthy(Get(hash, "access_token")) && Truthy(Get(search, "token")) && atob(Get(search, "token").value) == None ==>
      r == ExtractionFailed(InvalidTokenFormat)
    // no token anywhere, or a decoded token without one, is a missing access token
    ensures !Truthy(Get(hash, "access_token")) && !Truthy(Get(search, "token")) ==>
      r == ExtractionFailed(NoAccessToken)
    ensures !Truthy(Get(hash, "access_token")) && Truthy(Get(search, "token"))
            && atob(Get(search, "token").value).Some?
            && !Truthy(Get(parse(atob(Get(search, "token").value).value), "access_token")) ==>
      r == ExtractionFailed(NoAccessToken)
    ensures r.ExtractionFailed? ==> r.message in {InvalidTokenFormat, NoAccessToken}
    // the extracted access token is never empty
    ensures r.Extracted? ==> r.credentials.accessToken != ""
  {
    if Truthy(Get(hash, "access_token")) then Extracted(CredentialsIn(hash))
    else
      var token := Get(search, "token");
      if !Truthy(token) then ExtractionFailed(NoAccessToken)
      else
        match atob(token.value)
        case None => ExtractionFailed(InvalidTokenFormat)
        case Some(decoded) =>
          var params := parse(decoded);
          if Truthy(Get(params, "access_token")) then Extracted(CredentialsIn(params))
          else ExtractionFailed(NoAccessToken)
  }

  /** With an access token in the fragment, the query string, the decoder and
      the parser are never consulted: any two choices of them give the same
      result. */
  lemma FragmentTokenIgnoresQuery(hash: Params, search1: Params, atob1: string -> Option<string>, parse1: string -> Params,
                                  search2: Params, atob2: string -> Option<string>, parse2: string -> Params)
    requires Truthy(Get(hash, "access_token"))
    ensures Extract(hash, search1, atob1, parse1) == Extract(hash, search2, atob2, parse2)
  {
  }

  /** When the fallback runs, the fragment's refresh token and type play no
      part: they are overridden by the decoded values even when those are null. */
  lemma FallbackOverridesFragment(hash1: Params, hash2: Params, search: Params, atob: string -> Option<string>, parse: string -> Params)
    requires !Truthy(Get(hash1, "access_token")) && !Truthy(Get(hash2, "access_token"))
    ensures Extract(hash1, search, atob, parse) == Extract(hash2, search, atob, parse)
  {
  }

  /** What `auth.setSession` did. */
  datatype SessionOutcome = SessionSet | NoSessionReturned | SessionFailed(thrown: Thrown)

  datatype InviteEffect = CallSetSession(accessToken: string, refreshToken: string) | RedirectLater(route: string)

  /** Result of `handleInviteLink`: the error shown (if any) and the calls made. */
  datatype InviteResult = InviteResult(error: Option<string>, effects: seq<InviteEffect>)

  /** `handleInviteLink` after extraction: check the current user, set the
      session from the credentials only when there is no valid user, and on any
      failure show the message and schedule the redirect to the login page. */
  function HandleInvite(extraction: Extraction, lookup: UserLookup, session: SessionOutcome): (r: InviteResult)
    // failures always end with the delayed redirect to login, success never
    ensures r.error.Some? <==> |r.effects| > 0 && r.effects[|r.effects| - 1] == RedirectLater(LoginRoute)
    ensures extraction.ExtractionFailed? ==> r == InviteResult(Some(extraction.message), [RedirectLater(LoginRoute)])
    // setSession is attempted iff credentials were found and there is no valid user,
    // with a missing refresh token passed as ""
    ensures (|r.effects| > 0 && r.effects[0].CallSetSession?) <==>
      extraction.Extracted? && !lookup.Threw? && ResolvedUser(lookup) == None
    ensures forall k | 0 < k < |r.effects| :: !r.effects[k].CallSetSession?
    ensures forall k | 0 <= k < |r.effects| && r.effects[k].CallSetSession? ::
      r.effects[k].accessToken == extraction.credentials.accessToken
      && r.effects[k].refreshToken == (if Truthy(extraction.credentials.refreshToken) then extraction.credentials.refreshToken.value else "")
    // a user already signed in means success without touching the session
    ensures extraction.Extracted? && ResolvedUser(lookup).Some? ==> r == InviteResult(None, [])
    // a lookup that throws fails at once with its message, before any setSession
    ensures extraction.Extracted? && lookup.Threw? ==>
      r == InviteResult(Some(MessageOr(lookup.thrown, InviteFallback)), [RedirectLater(LoginRoute)])
    // once setSession is attempted, the page succeeds iff it returned a session
    ensures extraction.Extracted? && lookup.Answered? && ResolvedUser(lookup).None? ==>
      (r.error == None <==> session == SessionSet)
    ensures extraction.Extracted? && lookup.Answered? && ResolvedUser(lookup).None? && session == NoSessionReturned ==>
      r.error == Some(SessionNotEstablished)
    ensures extraction.Extracted? && lookup.Answered? && ResolvedUser(lookup).None? && session.SessionFailed? ==>
      r.error == Some(MessageOr(session.thrown, InviteFallback))
    // overall: the invite is accepted iff credentials were found, the lookup
    // answered, and either a user was signed in or a session was set
    ensures r.error == None <==>
      extraction.Extracted? && lookup.Answered? && (ResolvedUser(lookup).Some? || session == SessionSet)
    // with no valid user: one setSession call, then the redirect only if it failed
    ensures extraction.Extracted? && lookup.Answered? && ResolvedUser(lookup).None? ==>
      r.effects == [CallSetSession(extraction.credentials.accessToken,
                                   if Truthy(extraction.credentials.refreshToken) then extraction.credentials.refreshToken.value else "")]
                   + (if session == SessionSet then [] else [RedirectLater(LoginRoute)])
    // at most one setSession call and one redirect
    ensures |r.effects| <= 2
  {
    match extraction
    case ExtractionFailed(msg) => InviteResult(Some(msg), [RedirectLater(LoginRoute)])
    case Extracted(c) =>
      match lookup
      case Threw(t) => InviteResult(Some(MessageOr(t, InviteFallback)), [RedirectLater(LoginRoute)])
      case Answered(_, _) =>
        if ResolvedUser(lookup).Some? then InviteResult(None, [])
        else
          var refresh := if Truthy(c.refreshToken) then c.refreshToken.value else "";
          var call := [CallSetSession(c.accessToken, refresh)];
          match session
          case SessionSet => InviteResult(None, call)
          case NoSessionReturned => InviteResult(Some(SessionNotEstablished), call + [RedirectLater(LoginRoute)])
          case SessionFailed(t) => InviteResult(Some(MessageOr(t, InviteFallback)), call + [RedirectLater(LoginRoute)])
  }

  /** The password form's state. */
  datatype PasswordForm = PasswordForm(password: string, confirm: string, error: Option<string>, loading: bool)

  /** What `auth.updateUser({ password })` did. */
  datatype UpdateOutcome = UpdatedUser | NoUserReturned | UpdateFailed(thrown: Thrown)

  datatype SubmitEffect = ClearError | CallUpdatePassword(password: string) | Navigate(route: string)

  datatype SubmitResult = SubmitResult(form: PasswordForm, effects: seq<SubmitEffect>)

  /** The local checks of `handleSubmit`, in the order the handler makes them:
      None when the submission may proceed. */
  function CheckPasswords(password: string, confirm: string): (r: Option<string>)
    ensures password != confirm ==> r == Some(PasswordsDiffer)
    ensures password == confirm && Utf16Length(password) < MinPasswordLength ==> r == Some(PasswordTooShort)
    ensures r == None <==> password == confirm && Utf16Length(password) >= MinPasswordLength
  {
    if password != confirm then Some(PasswordsDiffer)
    else if Utf16Length(password) < MinPasswordLength then Some(PasswordTooShort)
    else None
  }

  /** `handleSubmit` of the password form. */
  function SubmitPassword(f: PasswordForm, update: UpdateOutcome): (r: SubmitResult)
    ensures r.form.password == f.password && r.form.confirm == f.confirm
    // a rejected submission shows the check's message and calls nothing
    ensures CheckPasswords(f.password, f.confirm).Some? ==>
      r == SubmitResult(f.(error := CheckPasswords(f.password, f.confirm)), [])
    // an accepted one clears the error before the single update call
    ensures CheckPasswords(f.password, f.confirm) == None ==>
      r.effects == [ClearError, CallUpdatePassword(f.password)] + (if update == UpdatedUser then [Navigate(DashboardRoute)] else [])
      && !r.form.loading
    // a failed update shows its own message, or the fallback
    ensures CheckPasswords(f.password, f.confirm) == None && update == NoUserReturned ==> r.form.error == Some(UpdateFallback)
    ensures CheckPasswords(f.password, f.confirm) == None && update.UpdateFailed? ==>
      r.form.error == Some(MessageOr(update.thrown, UpdateFallback))
    // it ends on the dashboard iff the update returned a user
    ensures Navigate(DashboardRoute) in r.effects <==> CheckPasswords(f.password, f.confirm) == None && update == UpdatedUser
    ensures r.form.error == None <==> CheckPasswords(f.password, f.confirm) == None && update == UpdatedUser
  {
    match CheckPasswords(f.password, f.confirm)
    case Some(msg) => SubmitResult(f.(error := Some(msg)), [])
    case None =>
      var calls := [ClearError, CallUpdatePassword(f.password)];
      var done := f.(loading := false);
      match update
      case UpdatedUser => SubmitResult(done.(error := None), calls + [Navigate(DashboardRoute)])
      case NoUserReturned => SubmitResult(done.(error := Some(UpdateFallback)), calls)
      case UpdateFailed(t) => SubmitResult(done.(error := Some(MessageOr(t, UpdateFallback))), calls)
  }

  /** Exactly eight characters pass the length check; seven do not. */
  lemma LengthBoundary()
    ensures CheckPasswords("abcdefgh", "abcdefgh") == None
    ensures CheckPasswords("abcdefg", "abcdefg") == Some(PasswordTooShort)
    ensures CheckPasswords("abcdefg", "abcdefgh") == Some(PasswordsDiffer)
  {
  }

  /** The length counts UTF-16 code units: four characters outside the Basic
      Multilingual Plane already reach the minimum. */
  lemma AstralCharactersCountTwice()
    ensures CheckPasswords("\U{1F600}\U{1F600}\U{1F600}\U{1F600}", "\U{1F600}\U{1F600}\U{1F600}\U{1F600}") == None
  {
  }
}
