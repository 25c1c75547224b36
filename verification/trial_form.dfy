/** The trial-signup form (src/components/TrialForm.tsx): its six fields, the
    per-field validation, the change handler, and the submit handler's
    decisions over the outcomes of the existing-trial lookup and the insert into
    the trial-subscription table. */
module TrialForm {

  import opened Wrappers
  import opened EmailRegex

  datatype Field = Email | Name | Telephone | CompanyName | CompanyDescription | Country

  datatype FormData = FormData(
    email: string,
    name: string,
    telephone: string,
    companyName: string,
    companyDescription: string,
    country: string)
  {
    function Get(f: Field): string {
      match f
      case Email => email
      case Name => name
      case Telephone => telephone
      case CompanyName => companyName
      case CompanyDescription => companyDescription
      case Country => country
    }

    /** `{ ...prev, [f]: v }`. */
    function With(f: Field, v: string): (d: FormData)
      ensures d.Get(f) == v
      ensures forall g | g != f :: d.Get(g) == Get(g)
    {
      match f
      case Email => this.(email := v)
      case Name => this.(name := v)
      case Telephone => this.(telephone := v)
      case CompanyName => this.(companyName := v)
      case CompanyDescription => this.(companyDescription := v)
      case Country => this.(country := v)
    }
  }

  /** Field-level error texts; a field may map to "" once its error is cleared. */
  type Errors = map<Field, string>

  /** The component's local state. */
  datatype FormState = FormState(
    data: FormData,
    errors: Errors,
    submitting: bool,
    generalError: Option<string>)

  const DefaultCountry := "The Netherlands"
  const SourceApp := "TenderSync"
  const UniqueViolation := "23505"

  const EmailRequired := "Email is required"
  const EmailInvalid := "Email is invalid"
  const NameRequired := "Name is required"
  const CompanyNameRequired := "Company name is required"
  const CompanyDescriptionRequired := "Company description is required"
  const AlreadyUsed := "This email has already been used for a trial subscription."
  const SubmitFailed := "An error occurred while submitting the form. Please try again."
  const AlreadyRequestedPrefix := "You have already requested a Trial subscription on "

  function Initial(): (s: FormState)
    ensures s.data.country == DefaultCountry
    ensures forall f | f != Country :: s.data.Get(f) == ""
    ensures s.errors == map[] && !s.submitting && s.generalError == None
  {
    FormState(FormData("", "", "", "", "", DefaultCountry), map[], false, None)
  }

  /** The fields the form cannot be submitted without. */
  predicate Required(f: Field) {
    f in {Email, Name, CompanyName, CompanyDescription}
  }

  /** A form the validator lets through: every required field non-empty and the
      e-mail accepted by the pattern. */
  predicate Complete(d: FormData) {
    && (forall f | Required(f) :: d.Get(f) != "")
    && Matches(d.email)
  }

  /** `validateForm`: the error map it stores. */
  function Validate(d: FormData): (errs: Errors)
    ensures d.email == "" ==> Email in errs && errs[Email] == EmailRequired
    ensures d.email != "" && !Matches(d.email) ==> Email in errs && errs[Email] == EmailInvalid
    ensures Email in errs <==> d.email == "" || !Matches(d.email)
    ensures d.name == "" <==> Name in errs
    ensures d.companyName == "" <==> CompanyName in errs
    ensures d.companyDescription == "" <==> CompanyDescription in errs
    ensures Name in errs ==> errs[Name] == NameRequired
    ensures CompanyName in errs ==> errs[CompanyName] == CompanyNameRequired
    ensures CompanyDescription in errs ==> errs[CompanyDescription] == CompanyDescriptionRequired
    ensures Telephone !in errs && Country !in errs
    ensures forall f | f in errs :: errs[f] != ""
  {
    var e0: Errors := map[];
    var e1 := if d.email == "" then e0[Email := EmailRequired]
              else if !Matches(d.email) then e0[Email := EmailInvalid]
              else e0;
    var e2 := if d.name == "" then e1[Name := NameRequired] else e1;
    var e3 := if d.companyName == "" then e2[CompanyName := CompanyNameRequired] else e2;
    if d.companyDescription == "" then e3[CompanyDescription := CompanyDescriptionRequired] else e3
  }

  /** The validator's verdict (`Object.keys(newErrors).length === 0`) is
      exactly completeness, and an e-mail error is present iff the e-mail is
      missing or rejected by the pattern. */
  lemma ValidIffComplete(d: FormData)
    ensures Validate(d) == map[] <==> Complete(d)
    ensures Email in Validate(d) <==> !(d.email != "" && Matches(d.email))
  {
    var errs := Validate(d);
    if Complete(d) {
      forall f ensures f !in errs {
        if Required(f) {
          assert d.Get(f) != "";
        }
      }
      assert errs.Keys == {};
    } else {
      if d.email == "" || !Matches(d.email) {
        assert Email in errs;
      } else {
        var f :| Required(f) && d.Get(f) == "";
        assert f == Name || f == CompanyName || f == CompanyDescription;
      }
    }
  }

  /** `handleChange` for field `f` with value `v`: the field takes the value,
      that field's error (if shown) is blanked, and the general error goes. */
  function Change(s: FormState, f: Field, v: string): (r: FormState)
    ensures r.data.Get(f) == v
    ensures forall g | g != f :: r.data.Get(g) == s.data.Get(g)
    ensures f in r.errors ==> r.errors[f] == ""
    ensures f in r.errors <==> f in s.errors
    ensures forall g | g != f :: (g in r.errors <==> g in s.errors) && (g in s.errors ==> r.errors[g] == s.errors[g])
    ensures r.generalError == None && r.submitting == s.submitting
  {
    var errors := if f in s.errors && s.errors[f] != "" then s.errors[f := ""] else s.errors;
    s.(data := s.data.With(f, v), errors := errors, generalError := None)
  }

  /** Typing twice into the same field is the same as typing the second value. */
  lemma ChangeLastWins(s: FormState, f: Field, v: string, w: string)
    ensures Change(Change(s, f, v), f, w) == Change(s, f, w)
  {
  }

  /** What the existing-trial lookup (`select ... eq('email') maybeSingle()`)
      returned: an error (or a throw), no row, or a row whose `created_at` the
      handler renders as the opaque text `requestDate`. */
  datatype LookupOutcome = LookupFailed | NoTrial | ExistingTrial(requestDate: string)

  /** What the insert returned: success, or an error with an optional code;
      a thrown insert is an error without the unique-violation code. */
  datatype InsertOutcome = Inserted | InsertFailed(code: Option<string>)

  /** The row the handler inserts. */
  datatype TrialRow = TrialRow(
    email: string,
    name: string,
    telephone: string,
    companyName: string,
    companyDescription: string,
    country: string,
    sourceApp: string)

  /** Observable actions of a submit, in order. */
  datatype Effect = LookupTrial(email: string) | InsertTrial(row: TrialRow) | CallOnSuccess

  datatype Submission = Submission(state: FormState, effects: seq<Effect>)

  function RowOf(d: FormData): TrialRow {
    TrialRow(d.email, d.name, d.telephone, d.companyName, d.companyDescription, d.country, SourceApp)
  }

  /** `handleSubmit`. The lookup and insert outcomes are inputs; the insert
      outcome only matters when the handler gets as far as inserting. */
  function Submit(s: FormState, lookup: LookupOutcome, insert: InsertOutcome): (r: Submission)
    // the form never changes its own field values on submit
    ensures r.state.data == s.data
    // an invalid form shows its field errors and talks to nobody
    ensures !Complete(s.data) ==> r.effects == [] && r.state.errors != map[]
    // the errors stored are exactly the validator's
    ensures r.state.errors == Validate(s.data)
    // a valid form makes one lookup, at most one insert, and never retries
    ensures Complete(s.data) ==>
      r.effects == [LookupTrial(s.data.email)]
                   + (if lookup == NoTrial then [InsertTrial(RowOf(s.data))] + (if insert == Inserted then [CallOnSuccess] else []) else [])
    ensures !Complete(s.data) ==> r.state.generalError == s.generalError && r.state.submitting == s.submitting
    // a valid form first looks the e-mail up, and is not submitting afterwards
    ensures Complete(s.data) ==> |r.effects| > 0 && r.effects[0] == LookupTrial(s.data.email)
    ensures Complete(s.data) ==> r.state.errors == map[] && !r.state.submitting
    // an existing trial stops everything, naming the earlier request's date
    ensures Complete(s.data) && lookup.ExistingTrial? ==>
      r.effects == [LookupTrial(s.data.email)]
      && r.state.generalError == Some(AlreadyRequestedPrefix + lookup.requestDate)
    // an insert happens iff the form is valid and the lookup found nothing,
    // and what is inserted is the form's values tagged with the source label
    ensures InsertTrial(RowOf(s.data)) in r.effects <==> Complete(s.data) && lookup == NoTrial
    ensures forall k | 0 <= k < |r.effects| && r.effects[k].InsertTrial? ::
      r.effects[k].row == RowOf(s.data) && r.effects[k].row.sourceApp == SourceApp
    // onSuccess is called iff the insert was made and succeeded, and then exactly once, last
    ensures CallOnSuccess in r.effects <==> Complete(s.data) && lookup == NoTrial && insert == Inserted
    ensures CallOnSuccess in r.effects ==>
      r.effects == [LookupTrial(s.data.email), InsertTrial(RowOf(s.data)), CallOnSuccess]
      && r.state.generalError == None
    // a unique-constraint violation is reported as "already used"
    ensures Complete(s.data) && lookup == NoTrial && insert == InsertFailed(Some(UniqueViolation)) ==>
      r.state.generalError == Some(AlreadyUsed)
    // every other failure gets the generic message
    ensures Complete(s.data) && (lookup == LookupFailed || (lookup == NoTrial && insert.InsertFailed? && insert.code != Some(UniqueViolation))) ==>
      r.state.generalError == Some(SubmitFailed)
  {
    var errs := Validate(s.data);
    ValidIffComplete(s.data);
    if errs != map[] then
      Submission(s.(errors := errs), [])
    else
      var base := s.(errors := errs, submitting := false);
      var looked := [LookupTrial(s.data.email)];
      match lookup
      case LookupFailed =>
        Submission(base.(generalError := Some(SubmitFailed)), looked)
      case ExistingTrial(date) =>
        Submission(base.(generalError := Some(AlreadyRequestedPrefix + date)), looked)
      case NoTrial =>
        var inserted := looked + [InsertTrial(RowOf(s.data))];
        match insert
        case Inserted =>
          Submission(base.(generalError := None), inserted + [CallOnSuccess])
        case InsertFailed(code) =>
          var msg := if code == Some(UniqueViolation) then AlreadyUsed else SubmitFailed;
          Submission(base.(generalError := Some(msg)), inserted)
  }
}
