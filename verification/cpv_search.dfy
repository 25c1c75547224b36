/** The CPV code browser page (src/pages/CPVCodes.tsx): a server-side search
    by description that only runs for terms of at least three characters, a
    debounced effect that fires it, the hint under the search box, and how a
    search result replaces the rows shown. */
module CpvSearch {

  import opened Wrappers
  import opened Text
  import opened CpvCatalog

  const MinTermLength := 3
  const RowLimit := 100
  const Table := "t_cpv_codes"
  const SearchColumn := "EN"

  /** The query the page sends: rows of `table` whose `column` matches the
      `ILIKE` pattern, ordered by `orderBy`, at most `limit` of them. */
  datatype Query = Query(table: string, column: string, pattern: string, orderBy: string, limit: nat)

  /** What the query returned: its `data` (None for null), or an error/throw. */
  datatype SearchOutcome = Rows(data: Option<seq<CpvCode>>) | SearchFailed

  datatype PageState = PageState(codes: seq<CpvCode>, loading: bool, searchTerm: string)

  datatype SearchStep = SearchStep(state: PageState, query: Option<Query>)

  function InitialPage(): (s: PageState)
    ensures s.codes == [] && !s.loading && s.searchTerm == ""
  {
    PageState([], false, "")
  }

  /** The term is long enough to search for; `length` counts UTF-16 code units. */
  predicate Searchable(term: string) {
    Utf16Length(term) >= MinTermLength
  }

  /** `searchCPVCodes(term)` with the server's answer as input. */
  function Search(s: PageState, term: string, outcome: SearchOutcome): (r: SearchStep)
    // a short term returns at once: no query, no change
    ensures !Searchable(term) ==> r == SearchStep(s, None)
    // otherwise exactly one query, for the term as a substring of the description
    ensures Searchable(term) ==> r.query == Some(Query(Table, SearchColumn, "%" + term + "%", "CODE", RowLimit))
    // and loading is over when it returns
    ensures Searchable(term) ==> !r.state.loading
    // a result replaces the rows (null counts as none); a failure keeps them
    ensures Searchable(term) && outcome.Rows? ==> r.state.codes == outcome.data.GetOr([])
    ensures outcome.SearchFailed? ==> r.state.codes == s.codes
    ensures r.state.searchTerm == s.searchTerm
  {
    if !Searchable(term) then SearchStep(s, None)
    else
      var codes := match outcome
        case Rows(data) => data.GetOr([])
        case SearchFailed => s.codes;
      SearchStep(s.(codes := codes, loading := false), Some(Query(Table, SearchColumn, "%" + term + "%", "CODE", RowLimit)))
  }

  /** Typing updates the term only; the search waits for the debounce. */
  function Typed(s: PageState, term: string): (r: PageState)
    ensures r.searchTerm == term && r.codes == s.codes && r.loading == s.loading
  {
    s.(searchTerm := term)
  }

  /** The debounce timer for the current term elapsing: it calls the search
      only when the term is long enough. */
  function DebounceElapsed(s: PageState, outcome: SearchOutcome): (r: SearchStep)
    ensures r.query.Some? <==> Searchable(s.searchTerm)
    ensures !Searchable(s.searchTerm) ==> r.state == s
    // the search it runs is for the current term, not a stale one
    ensures Searchable(s.searchTerm) ==> r == Search(s, s.searchTerm, outcome)
    ensures r.query.Some? ==> r.query.value.pattern == "%" + s.searchTerm + "%"
  {
    if Searchable(s.searchTerm) then Search(s, s.searchTerm, outcome) else SearchStep(s, None)
  }

  /** "Please enter at least 3 characters" is shown under the box. */
  predicate HintShown(s: PageState) {
    0 < Utf16Length(s.searchTerm) < MinTermLength
  }

  /** Every term is in exactly one of three cases: empty (nothing happens),
      too short (the hint shows and no query is sent), or searchable (the
      query is sent and no hint shows). */
  lemma HintAndSearchPartition(s: PageState, outcome: SearchOutcome)
    ensures s.searchTerm == "" ==> !HintShown(s) && DebounceElapsed(s, outcome).query == None
    ensures HintShown(s) <==> s.searchTerm != "" && DebounceElapsed(s, outcome).query == None
    ensures DebounceElapsed(s, outcome).query.Some? ==> !HintShown(s) && s.searchTerm != ""
  {
  }

  /** Shortening the term below three characters keeps the rows of the last
      search on screen. */
  lemma ShortTermKeepsResults(s: PageState, term: string, outcome: SearchOutcome)
    requires !Searchable(term)
    ensures DebounceElapsed(Typed(s, term), outcome).state.codes == s.codes
  {
  }

  /** Two letters do not reach the server and three do; two characters outside
      the Basic Multilingual Plane count as four code units, so they do. */
  lemma ShortTermsExamples()
    ensures !Searchable("ab")
    ensures Searchable("abc")
    ensures Searchable("\U{1F600}\U{1F600}")
  {
  }
}
