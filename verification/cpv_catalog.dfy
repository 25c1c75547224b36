/** The CPV code selector (src/components/auth/CPVCodeSelector.tsx): the
    pre-fetched catalog, its case-insensitive client-side filter over code and
    description, and the per-row "Add" action. */
module CpvCatalog {

  import opened Wrappers
  import opened Text
  import Arrays

  /** A catalog row: a CPV code and its English description. */
  datatype CpvCode = CpvCode(code: string, description: string)

  /** The filter's test for one row: the lower-cased term occurs in the
      lower-cased code or in the lower-cased description. */
  predicate Keeps(term: string, row: CpvCode) {
    Contains(Lower(row.code), Lower(term)) || Contains(Lower(row.description), Lower(term))
  }

  /** `filteredCodes`: the catalog filtered with the test above. */
  function Filtered(codes: seq<CpvCode>, term: string): (r: seq<CpvCode>)
    ensures forall x :: x in r <==> x in codes && Keeps(term, x)
  {
    Arrays.Filter(codes, (row: CpvCode) => Keeps(term, row))
  }

  /** The filtered list is the order-preserving subsequence of the catalog made
      of exactly the rows that pass the test; `idx` gives their positions. */
  lemma FilteredIsKeptSubsequence(codes: seq<CpvCode>, term: string) returns (idx: seq<nat>)
    ensures |idx| == |Filtered(codes, term)|
    ensures forall k | 0 <= k < |idx| :: idx[k] < |codes| && Filtered(codes, term)[k] == codes[idx[k]]
    ensures forall k, l | 0 <= k < l < |idx| :: idx[k] < idx[l]
    ensures forall j | 0 <= j < |codes| :: j in idx <==> Keeps(term, codes[j])
  {
    idx := Arrays.FilterSelects(codes, (row: CpvCode) => Keeps(term, row));
  }

  /** The empty search term shows the whole catalog. */
  lemma EmptyTermKeepsAll(codes: seq<CpvCode>)
    ensures Filtered(codes, "") == codes
  {
    forall k | 0 <= k < |codes|
      ensures Keeps("", codes[k])
    {
      ContainsEmpty(Lower(codes[k].code));
    }
    Arrays.FilterKeepsAll(codes, (row: CpvCode) => Keeps("", row));
  }

  /** Filtering the filtered list again with the same term changes nothing. */
  lemma FilteredIdempotent(codes: seq<CpvCode>, term: string)
    ensures Filtered(Filtered(codes, term), term) == Filtered(codes, term)
  {
    Arrays.FilterIdempotent(codes, (row: CpvCode) => Keeps(term, row));
  }

  /** The "Add" button is rendered for a row iff its code is not selected yet. */
  predicate AddOffered(currentCodes: seq<string>, row: CpvCode) {
    row.code !in currentCodes
  }

  /** Clicking a row's "Add" button: the argument passed to `onSelect`, or
      None when the row shows no button. */
  function Select(currentCodes: seq<string>, row: CpvCode): (r: Option<string>)
    ensures r.Some? <==> forall k | 0 <= k < |currentCodes| :: currentCodes[k] != row.code
    ensures r.Some? ==> r.value == row.code
  {
    if AddOffered(currentCodes, row) then Some(row.code) else None
  }

  /** Once the parent appends a selected code, that row no longer offers "Add". */
  lemma SelectedCodeNotOfferedAgain(currentCodes: seq<string>, row: CpvCode)
    requires Select(currentCodes, row).Some?
    ensures Select(currentCodes + [Select(currentCodes, row).value], row) == None
  {
    var next := currentCodes + [row.code];
    assert next[|currentCodes|] == row.code;
  }

  /** The selector's local state. */
  datatype SelectorState = SelectorState(searchTerm: string, codes: seq<CpvCode>, loading: bool)

  function InitialSelector(): (s: SelectorState)
    ensures s.loading && s.codes == [] && s.searchTerm == ""
  {
    SelectorState("", [], true)
  }

  /** The catalog fetch on mount: `data` is the returned rows (None for null,
      which is also what an error or a throw leaves). */
  function CatalogLoaded(s: SelectorState, data: Option<seq<CpvCode>>): (r: SelectorState)
    ensures !r.loading && r.searchTerm == s.searchTerm
    ensures r.codes == (if data.Some? then data.value else s.codes)
  {
    s.(codes := data.GetOr(s.codes), loading := false)
  }
}
