# TenderSync landing site: the decision logic of its components, in Dafny

The TenderSync site is a React front end talking straight to a hosted
auth-and-database client. Almost all of it is markup and pass-through calls. This
project models the small decision procedures inside its components and proves
what they promise:

- **Trial signup form** (`TrialForm`, `EmailRegex`). It covers the field validator, including the
  unanchored e-mail pattern `\S+@\S+\.\S+`. It covers the change handler and the submit handler's
  branches over the outcomes of the existing-trial lookup and of the insert.
- **Password-set page** (`SetPassword`). It covers the ordered extraction of invite credentials:
  first the URL fragment, then a base64-encoded `token` query parameter. It covers the decision to
  set the session, and the password form's local checks before the credential update.
- **CPV code selector** (`CpvCatalog`, `Arrays`). It covers the case-insensitive filter over
  code and description, and the "Add" action.
- **CPV code browser page** (`CpvSearch`). It covers the three-character guard on the server
  search, the debounced trigger, the hint, and how results replace the rows shown.
- **Modal hook** (`Modal`) and **landing page** (`Landing`). They cover the single modal record,
  which modal is visible, and the trial modal's form / thank-you sub-state.
- **Header** (`Header`). It covers the anonymous/authenticated machine driven by session checks,
  auth events and logout. It also covers the buttons offered in each state, the scroll flag
  and the mobile menu.

Every call into the hosted client becomes an input datatype describing what the
call returned or threw (`Gateway`, and the outcome types in each module). Each
handler is a pure function from the old state and those outcomes to the new
state and an ordered list of effects (calls made, routes navigated to, callbacks
invoked). `Text` holds the JavaScript string primitives the handlers use. It has
white space as `\s` sees it, `toLowerCase` on ASCII, `includes`, and
`length`. `length` counts UTF-16 code units, so a character outside the Basic
Multilingual Plane counts twice in the password minimum and in the search guard.

The invite-link parser has two strategies: the URL fragment, then a base64-encoded `token` query
parameter. It never reads a plain `access_token` from the query string.

## Model

| member | source | states |
|---|---|---|
| EmailRegex.ContainedBlockMatches | src/components/TrialForm.tsx:57 | any string containing a non-space, '@', a non-empty non-space run, '.', a non-space is accepted, wherever the block sits |
| EmailRegex.MatchHasBlock | src/components/TrialForm.tsx:57 | conversely every accepted string splits around such a block, so acceptance is exactly "contains such a block" |
| EmailRegex.PaddingKeepsMatch | src/components/TrialForm.tsx:57 | the pattern is unanchored: any prefix or suffix added to an accepted string keeps it accepted |
| EmailRegex.SurroundedAddressAccepted | src/components/TrialForm.tsx:57 | a sentence with an address inside it passes the e-mail check |
| EmailRegex.SpaceBeforeEveryAtRejected | src/components/TrialForm.tsx:57 | a string in which every '@' is at the start or follows white space is rejected |
| EmailRegex.NoDotAfterAtRejected | src/components/TrialForm.tsx:57 | a string in which every '.' after an '@' comes right after it is rejected |
| EmailRegex.MalformedRejected | src/components/TrialForm.tsx:57 | three examples: "a @b.c", "a@.c" and "a@b." are rejected |
| EmailRegex.NoAtRejected | src/components/TrialForm.tsx:57 | a string without '@' is rejected |
| EmailRegex.Scan | src/components/TrialForm.tsx:57 | a single left-to-right pass decides the pattern and agrees with its definition on every string |
| TrialForm.Initial | src/components/TrialForm.tsx:22-33 | the form starts empty except country "The Netherlands", with no errors, not submitting |
| TrialForm.Validate | src/components/TrialForm.tsx:52-75 | empty e-mail gives exactly "Email is required" and a non-empty unmatched one "Email is invalid"; an empty name, company name or description gives that field's error; telephone and country never get one; every stored error is non-empty |
| TrialForm.ValidIffComplete | src/components/TrialForm.tsx:52-75 | the form is valid (error map empty) iff the e-mail matches and every required field is non-empty |
| TrialForm.Change | src/components/TrialForm.tsx:35-50 | changing field f sets only f, blanks only f's error, keeps every other error, and always clears the general error |
| TrialForm.ChangeLastWins | src/components/TrialForm.tsx:35-50 | two changes to one field equal the second change alone |
| TrialForm.Submit | src/components/TrialForm.tsx:77-139 | the stored field errors are exactly the validator's; an invalid form makes no lookup or insert; a valid one makes one lookup and at most one insert, never retried; an existing trial stops before the insert with the dated message; an insert happens iff valid and nothing was found, and carries the form's values with source "TenderSync"; onSuccess is called iff the insert succeeded, exactly once and last; code 23505 gives the "already been used" message; every other failure gives the generic message |
| SetPassword.Get | src/pages/SetPassword.tsx:30-50 | `get` yields a value iff some pair has the key, and then the value of the first such pair |
| SetPassword.Extract | src/pages/SetPassword.tsx:24-66 | a fragment access token wins with the fragment's other values; otherwise, a `token` that decodes to a truthy access token is extracted, and all three values come from the decoded `token`; a token that does not decode gives "Invalid token format"; no token anywhere gives "No access token found in URL"; an extracted access token is never empty |
| SetPassword.FragmentTokenIgnoresQuery | src/pages/SetPassword.tsx:30-37 | with a fragment access token the result is the same for every query string, decoder and parser, so `token` is never consulted |
| SetPassword.FallbackOverridesFragment | src/pages/SetPassword.tsx:37-50 | once the fallback runs, the fragment's refresh token and type play no part in the result |
| SetPassword.HandleInvite | src/pages/SetPassword.tsx:64-102 | setSession is attempted iff credentials were found and there is no valid current user, with a missing refresh token passed as ""; a thrown lookup fails with its message before any setSession; with no valid user the effects are exactly the setSession call followed by the redirect only if it failed; after setSession the page succeeds iff a session came back, "Failed to establish session" when none did and the thrown message when it threw; overall it succeeds iff credentials were found, the lookup answered, and a user was signed in or a session was set; every failure schedules the redirect to /login, and success never does |
| SetPassword.CheckPasswords | src/pages/SetPassword.tsx:111-119 | a mismatch is reported before length; matching passwords of fewer than 8 UTF-16 units are too short; the checks pass iff the passwords match and are at least 8 long |
| SetPassword.SubmitPassword | src/pages/SetPassword.tsx:108-149 | a failed check shows its message and calls nothing; a passed one clears the error, calls the update exactly once, and makes no other call except the final navigation; it navigates to /dashboard iff the update returned a user, and the error is empty exactly then, otherwise it is "Failed to update password" or the thrown message |
| SetPassword.LengthBoundary | src/pages/SetPassword.tsx:111-119 | exactly eight characters pass, seven are too short, and a mismatch wins over shortness |
| SetPassword.AstralCharactersCountTwice | src/pages/SetPassword.tsx:116 | four characters outside the Basic Multilingual Plane already meet the minimum of 8 |
| Text.Utf16Length | src/pages/SetPassword.tsx:116 | a string's `length` lies between its character count and twice that, and is 0 only for "" |
| Text.BmpLength | src/pages/SetPassword.tsx:116 | for Basic-Multilingual-Plane text, `length` is the character count |
| Gateway.ResolvedUser | src/components/layout/Header.tsx:48-50 | a user lookup yields a user iff it answered without error and with a user |
| Arrays.Filter | src/components/auth/CPVCodeSelector.tsx:53 | `filter` keeps exactly the elements that pass the test and never grows the list |
| Arrays.FilterKeepsAll | src/components/auth/CPVCodeSelector.tsx:53 | a test every element passes leaves the list unchanged |
| Arrays.FilterSelects | src/components/auth/CPVCodeSelector.tsx:53 | `filter` returns, in order, exactly the elements at the positions whose elements pass the test |
| Arrays.FilterIdempotent | src/components/auth/CPVCodeSelector.tsx:53 | filtering twice with one test equals filtering once |
| Text.Lower | src/components/auth/CPVCodeSelector.tsx:54-55 | `toLowerCase` keeps the length and lower-cases each character in place |
| CpvCatalog.Filtered | src/components/auth/CPVCodeSelector.tsx:53-56 | a row is shown iff the lower-cased term occurs in its lower-cased code or lower-cased description |
| CpvCatalog.FilteredIsKeptSubsequence | src/components/auth/CPVCodeSelector.tsx:53-56 | the shown list is the order-preserving subsequence of the catalog made of exactly the passing rows |
| CpvCatalog.EmptyTermKeepsAll | src/components/auth/CPVCodeSelector.tsx:53-56 | the empty search term shows the whole catalog, in order |
| CpvCatalog.FilteredIdempotent | src/components/auth/CPVCodeSelector.tsx:53-56 | filtering the shown list again with the same term changes nothing |
| Text.ContainsEmpty | src/components/auth/CPVCodeSelector.tsx:54-55 | every string includes the empty string |
| CpvCatalog.Select | src/components/auth/CPVCodeSelector.tsx:89-97 | a row offers "Add" iff its code is not among the current codes, and clicking it passes exactly that code |
| CpvCatalog.SelectedCodeNotOfferedAgain | src/components/auth/CPVCodeSelector.tsx:90-92 | once the selected code is appended to the current codes, that row no longer offers "Add" |
| CpvCatalog.InitialSelector | src/components/auth/CPVCodeSelector.tsx:20-22 | the selector starts loading, with no rows and an empty term |
| CpvCatalog.CatalogLoaded | src/components/auth/CPVCodeSelector.tsx:24-47 | returned rows replace the catalog, a null answer keeps it, and loading ends either way |
| CpvSearch.InitialPage | src/pages/CPVCodes.tsx:6-8 | the page starts with no rows, not loading, with an empty term |
| CpvSearch.Search | src/pages/CPVCodes.tsx:10-29 | a term shorter than 3 returns with no query and no change; otherwise one query on table t_cpv_codes matching column EN against "%term%", ordered by CODE with limit 100 is sent; returned rows (or [] for null) replace the results, a failure keeps them, and loading is false afterwards |
| CpvSearch.Typed | src/pages/CPVCodes.tsx:50 | typing changes the term and nothing else |
| CpvSearch.DebounceElapsed | src/pages/CPVCodes.tsx:31-39 | the debounced effect sends a query iff the term is at least 3 long, and then it is the search for the current term; otherwise it leaves the page as it was |
| CpvSearch.HintAndSearchPartition | src/pages/CPVCodes.tsx:31-54 | the hint shows iff the term is non-empty and sends no query; a sent query means no hint; an empty term does neither |
| CpvSearch.ShortTermKeepsResults | src/pages/CPVCodes.tsx:11-35 | shortening the term below 3 leaves the previously shown rows in place |
| CpvSearch.ShortTermsExamples | src/pages/CPVCodes.tsx:11 | two letters never reach the server, three do, and two astral characters count as four |
| Modal.Initial | src/hooks/useModal.ts:9-10 | without a caller's state the hook starts closed with a null type and no payload |
| Modal.Open | src/hooks/useModal.ts:12-18 | opening yields an open modal of the given type with the given payload |
| Modal.Close | src/hooks/useModal.ts:20-25 | closing clears the open flag and keeps type and payload |
| Modal.SetData | src/hooks/useModal.ts:27-32 | setting data replaces only the payload |
| Modal.OpenForgetsPrevious | src/hooks/useModal.ts:12-18 | the state after opening does not depend on the state before |
| Modal.CloseIdempotent | src/hooks/useModal.ts:20-25 | closing twice is closing once, and closing a closed modal changes nothing |
| Modal.CloseCommutesWithSetData | src/hooks/useModal.ts:20-32 | closing and replacing the payload commute |
| Modal.CloseAfterOpen | src/hooks/useModal.ts:12-25 | closing right after opening keeps the opened type and payload |
| Landing.InitialLanding | src/pages/index.tsx:16-17 | the page starts with no modal open and the form not submitted |
| Landing.OpenTrialForm | src/pages/index.tsx:19-22 | opening the trial form opens the "trial-form" modal and resets the submitted flag |
| Landing.FormSucceeded | src/pages/index.tsx:24-26 | the trial form's success sets the submitted flag and leaves the modal record alone |
| Landing.Step | src/pages/index.tsx:19-63 | a trial button opens the trial form with the flag reset; the footer link opens the contact modal and keeps the flag; a close control hides the modal and keeps the flag; success sets the flag; only opening the trial form clears it |
| Landing.TrialTitle | src/pages/index.tsx:46 | the trial modal is titled "Request Received" iff the form was submitted, else "Start Your Free Trial" |
| Landing.TrialBody | src/pages/index.tsx:49-53 | the thank-you content shows exactly when the title is "Request Received" |
| Landing.AtMostOneModal | src/pages/index.tsx:43-63 | the trial and contact modals are never visible together |
| Landing.VisibilityFollowsLastModalEvent | src/pages/index.tsx:40-63 | after any sequence of page events, a modal is visible iff the last open/close event opened it |
| Landing.SubmittedMeansSucceededSinceOpen | src/pages/index.tsx:17-53 | after any sequence of page events, the submitted flag (and so the "Request Received" title of a visible trial modal) holds iff the form succeeded since the trial modal was last opened |
| Header.InitialHeader | src/components/layout/Header.tsx:12-14 | the header starts anonymous with the menu closed and not scrolled |
| Header.Logout | src/components/layout/Header.tsx:32-43 | logout ends anonymous with one sign-out call and navigation to "/", whether sign-out returns or throws |
| Header.Resolve | src/components/layout/Header.tsx:46-61 | a clean lookup with a user makes the header authenticated with that user and nothing else; an error, no user or a throw logs out to "/" |
| Header.AuthChanged | src/components/layout/Header.tsx:65-83 | a SIGNED_OUT event or a session without a user forces anonymous at "/" without calling sign-out; any other event re-resolves the user |
| Header.AnonymousIffSentHome | src/components/layout/Header.tsx:32-83 | after every auth transition the header is anonymous iff the transition ended by navigating to "/", and menu and scroll flags are untouched |
| Header.SignedOutForgetsPrevious | src/components/layout/Header.tsx:65-70 | a sign-out event ends the same way whoever was signed in before |
| Header.VisibleActions | src/components/layout/Header.tsx:121-214 | Log Out and Dashboard are offered iff a user is present, Log In and Start Free Trial iff not, on desktop and in the open mobile menu; the closed mobile menu offers nothing |
| Header.Click | src/components/layout/Header.tsx:121-214 | every mobile button closes the menu; Log Out logs out to "/", Log In goes to /login, Dashboard to /dashboard, and Start Free Trial calls the parent's callback when there is one; no click changes the scroll flag |
| Header.MenuLinkClicked | src/components/layout/Header.tsx:158-178 | a mobile menu link closes the menu and changes nothing else |
| Header.ToggleMenu | src/components/layout/Header.tsx:88-90 | toggling flips the menu flag and changes nothing else |
| Header.ToggleTwiceRestores | src/components/layout/Header.tsx:88-90 | toggling twice restores the state |
| Header.Scrolled | src/components/layout/Header.tsx:18-24 | the scrolled flag holds iff scrollY exceeds 10 |

## Left out

- Calls into the hosted auth/database client are not modelled: `getUser`, `setSession`, `updateUser`,
  `signOut`, `onAuthStateChange`, and table select/insert. Only their outcomes are inputs. This means
  the server-side `ILIKE` matching, the ordering and the row limit of the CPV search are not modelled;
  the search result is an input.
- URL parsing, `URLSearchParams` decoding and `atob` are not modelled. The fragment and query
  parameters are given already parsed. `atob` and the re-parse of its output are function
  parameters, and a failed decode is `None`.
- The duplicate-trial message's date is not modelled: the locale rendering of `created_at` is an
  opaque string input.
- `toLowerCase` is ASCII only: Unicode case mapping is not modelled.
- Timers are not modelled: the 3-second delay before the redirect to /login is an effect with no
  delay, and the 300 ms debounce is reduced to its guard.
- Asynchronous interleavings are not modelled; every handler runs to completion atomically. This
  leaves out:
  - the race between the trial lookup and the insert;
  - overlapping auth callbacks and session checks;
  - `closeModal` and `setModalData` reading a possibly stale state;
  - the in-flight `loading` / `isSubmitting` values, which the model only shows after the handler
    returns.
- Mount-time effects with no decision in them are not modelled: the selector's navigation to /cpv
  on mount, and the header's subscription teardown.
- The browser's own constraint validation is not modelled. The trial form's inputs are `required`
  and the e-mail input is `type="email"` (src/components/TrialForm.tsx:142-194,
  src/components/ui/Form.tsx:36,50), and nothing sets `noValidate`. In a browser an empty required
  field or an e-mail the browser rejects (such as "mail me at a@b.c, thanks") never reaches the
  submit handler. `TrialForm.Validate`, `TrialForm.Submit` and `EmailRegex.SurroundedAddressAccepted`
  describe the handler itself, not what a user can reach through the page.
- Console diagnostics are not modelled.
- Header.Scrolled: `scrollY` is a real number, not an IEEE double.
- The login page, the profile editor, the dashboard, the notice details, the CPV code lists and the
  contact form are not modelled. They hold no local decision logic beyond pass-through calls. The
  login page's trial-expiry check is unreachable, because the login form never calls its callback.
- Static and presentational components are not modelled.
