/** The landing page (src/pages/index.tsx): which of its two modals is
    visible, and the trial modal's form / thank-you sub-state. */
module Landing {

  import opened Wrappers
  import opened Modal

  const TrialForm := "trial-form"
  const ContactForm := "contact-form"
  const TrialFormTitle := "Start Your Free Trial"
  const ReceivedTitle := "Request Received"

  /** The page's state: the modal record (no payload is ever passed) and
      `formSubmitted`. */
  datatype LandingState = LandingState(modal: ModalState<()>, formSubmitted: bool)

  /** What the trial modal shows. */
  datatype TrialContent = ThankYou | TrialFormShown

  /** Things that change the page's state: the header/hero trial buttons, the
      footer's contact link, a modal's close control, and the trial form's
      `onSuccess` callback. */
  datatype Event = OpenTrial | OpenContact | CloseModal | TrialSucceeded

  function InitialLanding(): (s: LandingState)
    ensures !s.modal.isOpen && s.modal.kind == None && !s.formSubmitted
  {
    LandingState(Initial(None), false)
  }

  /** `handleOpenTrialForm`. */
  function OpenTrialForm(s: LandingState): (r: LandingState)
    ensures r.modal.isOpen && r.modal.kind == Some(TrialForm) && !r.formSubmitted
  {
    LandingState(Open(s.modal, TrialForm, None), false)
  }

  /** `handleFormSuccess`: the modal record is left alone. */
  function FormSucceeded(s: LandingState): (r: LandingState)
    ensures r.formSubmitted && r.modal == s.modal
  {
    s.(formSubmitted := true)
  }

  /** One page event: the trial buttons run `handleOpenTrialForm`, the footer
      link opens the contact modal, either modal's close control runs
      `closeModal`, and the trial form's success runs `handleFormSuccess`. */
  function Step(s: LandingState, e: Event): (r: LandingState)
    ensures e == OpenTrial ==> r == OpenTrialForm(s)
    // the contact modal opens over whatever was open, without touching the trial flag
    ensures e == OpenContact ==> r.modal.isOpen && r.modal.kind == Some(ContactForm) && r.formSubmitted == s.formSubmitted
    // closing hides both modals and keeps the trial flag
    ensures e == CloseModal ==> !r.modal.isOpen && r.modal.kind == s.modal.kind && r.formSubmitted == s.formSubmitted
    ensures e == TrialSucceeded ==> r == FormSucceeded(s)
    // only opening the trial form clears the flag
    ensures e != OpenTrial ==> s.formSubmitted ==> r.formSubmitted
  {
    match e
    case OpenTrial => OpenTrialForm(s)
    case OpenContact => s.(modal := Open(s.modal, ContactForm, None))
    case CloseModal => s.(modal := Close(s.modal))
    case TrialSucceeded => FormSucceeded(s)
  }

  function Run(s: LandingState, events: seq<Event>): LandingState
    decreases |events|
  {
    if |events| == 0 then s else Step(Run(s, events[..|events| - 1]), events[|events| - 1])
  }

  predicate TrialVisible(s: LandingState) {
    s.modal.isOpen && s.modal.kind == Some(TrialForm)
  }

  predicate ContactVisible(s: LandingState) {
    s.modal.isOpen && s.modal.kind == Some(ContactForm)
  }

  /** The trial modal's title and body. */
  function TrialTitle(s: LandingState): (t: string)
    ensures t == ReceivedTitle <==> s.formSubmitted
    ensures t == TrialFormTitle <==> !s.formSubmitted
  {
    if s.formSubmitted then ReceivedTitle else TrialFormTitle
  }

  function TrialBody(s: LandingState): (c: TrialContent)
    ensures c == ThankYou <==> TrialTitle(s) == ReceivedTitle
  {
    if s.formSubmitted then ThankYou else TrialFormShown
  }

  /** The two modals are never visible together. */
  lemma AtMostOneModal(s: LandingState)
    ensures !(TrialVisible(s) && ContactVisible(s))
  {
  }

  /** The most recent event that decided which modal is open, if any. */
  function LastModalEvent(events: seq<Event>): Option<Event>
    decreases |events|
  {
    if |events| == 0 then None
    else if events[|events| - 1] != TrialSucceeded then Some(events[|events| - 1])
    else LastModalEvent(events[..|events| - 1])
  }

  /** Whether the trial form reported success after the trial modal was last
      opened. */
  function SucceededSinceLastOpen(events: seq<Event>): bool
    decreases |events|
  {
    if |events| == 0 then false
    else if events[|events| - 1] == TrialSucceeded then true
    else if events[|events| - 1] == OpenTrial then false
    else SucceededSinceLastOpen(events[..|events| - 1])
  }

  /** From the initial page, the trial modal is visible exactly when the last
      open/close event was opening it, and the contact modal likewise. */
  lemma {:induction false} VisibilityFollowsLastModalEvent(events: seq<Event>)
    ensures TrialVisible(Run(InitialLanding(), events)) <==> LastModalEvent(events) == Some(OpenTrial)
    ensures ContactVisible(Run(InitialLanding(), events)) <==> LastModalEvent(events) == Some(OpenContact)
    decreases |events|
  {
    if |events| > 0 {
      VisibilityFollowsLastModalEvent(events[..|events| - 1]);
    }
  }

  /** From the initial page, `formSubmitted` holds exactly when the trial form
      succeeded after the trial modal was last opened, so an open trial modal
      shows "Request Received" only for a request made since it was opened. */
  lemma {:induction false} SubmittedMeansSucceededSinceOpen(events: seq<Event>)
    ensures Run(InitialLanding(), events).formSubmitted <==> SucceededSinceLastOpen(events)
    ensures TrialVisible(Run(InitialLanding(), events)) ==>
      (TrialTitle(Run(InitialLanding(), events)) == ReceivedTitle <==> SucceededSinceLastOpen(events))
    decreases |events|
  {
    if |events| > 0 {
      SubmittedMeansSucceededSinceOpen(events[..|events| - 1]);
    }
  }
}
