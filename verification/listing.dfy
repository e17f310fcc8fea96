/**
 * The operator's appointment index (`index`, `search`, `filter` of
 * app/controllers/operator/appointments_controller.rb): which of today's
 * scheduled appointments of the unit are listed, in which order, and how
 * many per page.
 *
 * The caller supplies the candidate rows with the `today` and `scheduled`
 * scopes already applied. The full-text `search_for` scope is a parameter
 * `matches(query, appointment)`: its matching strategy is not part of this
 * model.
 */
module Listing {
  import opened Optional
  import A = Appointments
  import opened Ordering

  /** The five keys of `FILTERS`. */
  datatype Filter = Search | All | Waiting | CheckedIn | CheckedOut

  /** The string value `FILTERS` maps each key to. */
  function Keyword(f: Filter): string {
    match f
    case Search => "search"
    case All => "all"
    case Waiting => "waiting"
    case CheckedIn => "checked_in"
    case CheckedOut => "checked_out"
  }

  /** `FILTERS.values`. */
  const FilterValues: set<string> := {"search", "all", "waiting", "checked_in", "checked_out"}

  /** `(FILTERS.values & [s]).presence&.first`: the filter whose value is exactly `s`. */
  function ParseFilter(s: string): (r: Option<Filter>)
    ensures r.Some? <==> s in FilterValues
    ensures r.Some? ==> Keyword(r.value) == s
  {
    if s == "search" then Some(Search)
    else if s == "all" then Some(All)
    else if s == "waiting" then Some(Waiting)
    else if s == "checked_in" then Some(CheckedIn)
    else if s == "checked_out" then Some(CheckedOut)
    else None
  }

  lemma KeywordRoundTrip(f: Filter)
    ensures Keyword(f) in FilterValues
    ensures ParseFilter(Keyword(f)) == Some(f)
  {
  }

  /** Ruby's `NilClass#to_s` / `String#to_s` on the `filter` parameter. */
  function ToS(p: Option<string>): string {
    p.GetOr("")
  }

  /**
   * A character of Unicode's White_Space property: what `[[:space:]]` in
   * ActiveSupport's `String#blank?` matches in a UTF-8 string.
   */
  predicate IsSpace(c: char) {
    || '\t' <= c <= '\r'
    || c == ' ' || c == '\U{0085}' || c == '\U{00A0}' || c == '\U{1680}'
    || '\U{2000}' <= c <= '\U{200A}'
    || c == '\U{2028}' || c == '\U{2029}' || c == '\U{202F}' || c == '\U{205F}'
    || c == '\U{3000}'
  }

  /** `String#blank?`: empty or only whitespace. */
  predicate Blank(s: string) {
    forall i :: 0 <= i < |s| ==> IsSpace(s[i])
  }

  /** `present?` on the `search` parameter: given and not blank. */
  predicate Present(q: Option<string>) {
    q.Some? && !Blank(q.value)
  }

  /** The guard of `search`: the query is present and at least 3 characters long. */
  predicate SearchRequested(q: Option<string>) {
    Present(q) && |q.value| >= 3
  }

  /**
   * `@filter` after `filter(search(appointments))`: `search` runs first and
   * may set it to `'search'`; `||=` then keeps it, or takes the requested
   * keyword when it is one of `FILTERS.values`, or `'waiting'`.
   */
  function EffectiveFilter(search: Option<string>, filter: Option<string>): (r: Filter)
    ensures Keyword(r) in FilterValues
    ensures SearchRequested(search) ==> r == Search
    ensures !SearchRequested(search) && filter.Some? && filter.value in FilterValues ==>
              Keyword(r) == filter.value
    ensures !SearchRequested(search) && (filter.None? || filter.value !in FilterValues) ==>
              r == Waiting
  {
    if SearchRequested(search) then Search
    else ParseFilter(ToS(filter)).GetOr(Waiting)
  }

  /** The reception stages a filter is meant to show. */
  function StagesShown(f: Filter): set<A.Stage> {
    match f
    case Waiting => {A.Waiting, A.Suspended}
    case CheckedIn => {A.CheckedIn}
    case CheckedOut => {A.CheckedOut}
    case Search => {A.Waiting, A.Suspended, A.CheckedIn, A.CheckedOut}
    case All => {A.Waiting, A.Suspended, A.CheckedIn, A.CheckedOut}
  }

  /**
   * The scope chain each filter applies (the `case @filter` of `filter`).
   * On consistent records it keeps exactly the stages the filter shows.
   */
  function Keeps(f: Filter, a: A.Appointment): (r: bool)
    ensures A.Consistent(a) ==> (r <==> A.StageOf(a) in StagesShown(f))
  {
    match f
    case Waiting => !A.IsCheckedIn(a) && !A.IsCheckedOut(a)
    case CheckedIn => A.IsCheckedIn(a) && !A.IsCheckedOut(a)
    case CheckedOut => A.IsCheckedIn(a) && A.IsCheckedOut(a)
    case Search => true
    case All => true
  }

  /** A relation narrowed by a `where`: the rows satisfying `p`, each as often as in `s`. */
  function Where(p: A.Appointment -> bool, s: seq<A.Appointment>): (r: seq<A.Appointment>)
    ensures forall x :: multiset(r)[x] == if p(x) then multiset(s)[x] else 0
    decreases |s|
  {
    if |s| == 0 then []
    else
      assert s == [s[0]] + s[1..];
      (if p(s[0]) then [s[0]] else []) + Where(p, s[1..])
  }

  /** `.per([[10, per_page.to_i].max, 10_000].min)`; a missing `per_page` reads as 0. */
  function PerPage(n: int): (r: int)
    ensures 10 <= r <= 10000
    ensures 10 <= n <= 10000 ==> r == n
    ensures n < 10 ==> r == 10
    ensures n > 10000 ==> r == 10000
  {
    var atLeast := if n > 10 then n else 10;
    if atLeast < 10000 then atLeast else 10000
  }

  /** The permitted index parameters; `perPage` is already `to_i`-converted. */
  datatype IndexParams = IndexParams(search: Option<string>, filter: Option<string>, perPage: int)

  /** What the index renders: the effective filter, the ordered rows and the page size. */
  datatype Page = Page(filter: Filter, rows: seq<A.Appointment>, perPage: int)

  /** Whether a candidate row appears in the listing for these parameters. */
  predicate Listed(params: IndexParams, matches: (string, A.Appointment) -> bool, a: A.Appointment) {
    && Keeps(EffectiveFilter(params.search, params.filter), a)
    && (SearchRequested(params.search) ==> matches(params.search.value, a))
  }

  /** `search`: narrows by `search_for` only when the guard holds. */
  function SearchStep(q: Option<string>, matches: (string, A.Appointment) -> bool, s: seq<A.Appointment>)
    : (r: seq<A.Appointment>)
    ensures forall x :: multiset(r)[x] ==
              if !SearchRequested(q) || matches(q.value, x) then multiset(s)[x] else 0
  {
    if SearchRequested(q) then Where(a => matches(q.value, a), s) else s
  }

  /** The `index` action, up to the page offset. */
  function Index(candidates: seq<A.Appointment>, params: IndexParams,
                 matches: (string, A.Appointment) -> bool): (r: Page)
    ensures Sorted(r.rows)
    ensures forall x :: multiset(r.rows)[x] ==
              if Listed(params, matches, x) then multiset(candidates)[x] else 0
    ensures r.filter == EffectiveFilter(params.search, params.filter)
    ensures SearchRequested(params.search) ==> r.filter == Search
    ensures Keyword(r.filter) in FilterValues
    ensures r.perPage == PerPage(params.perPage)
    ensures 10 <= r.perPage <= 10000
  {
    var f := EffectiveFilter(params.search, params.filter);
    var searched := SearchStep(params.search, matches, candidates);
    var filtered := Where(a => Keeps(f, a), searched);
    Page(f, SortListing(filtered), PerPage(params.perPage))
  }

  /** A query that is blank or shorter than 3 characters never enters search mode. */
  lemma ShortOrBlankQueryNeverSearches(q: Option<string>, filter: Option<string>,
                                       matches: (string, A.Appointment) -> bool, s: seq<A.Appointment>)
    requires q.None? || Blank(q.value) || |q.value| < 3
    ensures !SearchRequested(q)
    ensures SearchStep(q, matches, s) == s
    ensures EffectiveFilter(q, filter) == ParseFilter(ToS(filter)).GetOr(Waiting)
  {
  }

  /**
   * On records that keep the reception invariant, the three state filters
   * select by stage and split the candidates: each row is in exactly one of
   * the `waiting`, `checked_in` and `checked_out` lists.
   */
  lemma FiltersFollowStages(a: A.Appointment)
    requires A.Consistent(a)
    ensures Keeps(Waiting, a) <==> A.StageOf(a) == A.Waiting || A.StageOf(a) == A.Suspended
    ensures Keeps(CheckedIn, a) <==> A.StageOf(a) == A.CheckedIn
    ensures Keeps(CheckedOut, a) <==> A.StageOf(a) == A.CheckedOut
    ensures Keeps(Waiting, a) || Keeps(CheckedIn, a) || Keeps(CheckedOut, a)
    ensures !(Keeps(Waiting, a) && Keeps(CheckedIn, a))
    ensures !(Keeps(Waiting, a) && Keeps(CheckedOut, a))
    ensures !(Keeps(CheckedIn, a) && Keeps(CheckedOut, a))
  {
  }

  /**
   * The `waiting` filter does not look at `active`: a suspended appointment
   * that is not checked in is listed as waiting.
   */
  lemma WaitingListsSuspended(candidates: seq<A.Appointment>, params: IndexParams,
                              matches: (string, A.Appointment) -> bool, a: A.Appointment)
    requires !SearchRequested(params.search) && params.filter == Some("waiting")
    requires a in candidates && A.StageOf(a) == A.Suspended
    ensures a in Index(candidates, params, matches).rows
  {
    assert multiset(candidates)[a] > 0;
  }

  /**
   * Requesting `filter=search` without a usable query applies neither
   * `search_for` nor a state scope: every candidate is listed.
   */
  lemma SearchKeywordWithoutQueryListsAll(candidates: seq<A.Appointment>, params: IndexParams,
                                          matches: (string, A.Appointment) -> bool)
    requires !SearchRequested(params.search) && params.filter == Some("search")
    ensures multiset(Index(candidates, params, matches).rows) == multiset(candidates)
  {
    var r := Index(candidates, params, matches).rows;
    assert forall x :: multiset(r)[x] == multiset(candidates)[x];
  }
}
