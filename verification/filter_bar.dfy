/**
 * The browse page's filter bar (src/features/polls/components/poll-filters.tsx): the sort and
 * filter choices, clearing and dismissing them, the badges and the result-count line.
 */
module FilterBar {
  import opened Wrappers
  import opened Text

  datatype SortOption = Newest | Oldest | MostVoted | LeastVoted

  datatype FilterOption = All | Public | Private | Expired | Active

  /** The value string each sort choice carries. */
  function SortName(sort: SortOption): string {
    match sort
    case Newest => "newest"
    case Oldest => "oldest"
    case MostVoted => "most-voted"
    case LeastVoted => "least-voted"
  }

  /** The value string each filter choice carries. */
  function FilterName(filter: FilterOption): string {
    match filter
    case All => "all"
    case Public => "public"
    case Private => "private"
    case Expired => "expired"
    case Active => "active"
  }

  /** The sort choice a select value names, if any. */
  function ParseSort(name: string): (r: Option<SortOption>)
    ensures r.Some? ==> SortName(r.value) == name
  {
    if name == "newest" then Some(Newest)
    else if name == "oldest" then Some(Oldest)
    else if name == "most-voted" then Some(MostVoted)
    else if name == "least-voted" then Some(LeastVoted)
    else None
  }

  /** The filter choice a select value names, if any. */
  function ParseFilter(name: string): (r: Option<FilterOption>)
    ensures r.Some? ==> FilterName(r.value) == name
  {
    if name == "all" then Some(All)
    else if name == "public" then Some(Public)
    else if name == "private" then Some(Private)
    else if name == "expired" then Some(Expired)
    else if name == "active" then Some(Active)
    else None
  }

  /** Every choice is named by its own value string, so the select round-trips it. */
  lemma NamesRoundTrip(sort: SortOption, filter: FilterOption)
    ensures ParseSort(SortName(sort)) == Some(sort)
    ensures ParseFilter(FilterName(filter)) == Some(filter)
  {
  }

  // ---------------------------------------------------------------------------
  // Filter state
  // ---------------------------------------------------------------------------

  /** What the browse page holds for the bar: the search text and the two choices. */
  datatype FilterState = FilterState(search: string, sort: SortOption, filter: FilterOption)

  /** The state the page starts in. */
  const Default := FilterState("", Newest, All)

  /** `hasActiveFilters`: some dimension differs from its default. */
  function HasActiveFilters(state: FilterState): (active: bool)
    ensures active <==> state != Default
  {
    state.search != "" || state.sort != Newest || state.filter != All
  }

  /** `clearFilters`: empty search, newest first, all polls. */
  function ClearFilters(state: FilterState): (r: FilterState)
    ensures r.search == "" && r.sort == Newest && r.filter == All
    ensures !HasActiveFilters(r)
  {
    Default
  }

  /** The search badge's dismiss button: only the search text is reset. */
  function DismissSearch(state: FilterState): (r: FilterState)
    ensures r.search == "" && r.sort == state.sort && r.filter == state.filter
  {
    state.(search := "")
  }

  /** The sort badge's dismiss button: only the sort is reset. */
  function DismissSort(state: FilterState): (r: FilterState)
    ensures r.sort == Newest && r.search == state.search && r.filter == state.filter
  {
    state.(sort := Newest)
  }

  /** The filter badge's dismiss button: only the filter is reset. */
  function DismissFilter(state: FilterState): (r: FilterState)
    ensures r.filter == All && r.search == state.search && r.sort == state.sort
  {
    state.(filter := All)
  }

  /** Dismissing every badge, in any order, amounts to clearing the filters. */
  lemma DismissingAllClears(state: FilterState)
    ensures DismissFilter(DismissSort(DismissSearch(state))) == ClearFilters(state)
    ensures DismissSearch(DismissSort(DismissFilter(state))) == ClearFilters(state)
    ensures DismissSort(DismissFilter(DismissSearch(state))) == ClearFilters(state)
  {
  }

  // ---------------------------------------------------------------------------
  // Badges and labels
  // ---------------------------------------------------------------------------

  /** A badge in the filter bar, holding the value it shows; `BadgeText` is what it reads. */
  datatype Badge = SearchBadge(query: string) | SortBadge(sort: SortOption) | FilterBadge(filter: FilterOption)

  datatype BadgeKind = Search | Sort | Filter

  function KindOf(badge: Badge): BadgeKind {
    match badge
    case SearchBadge(_) => BadgeKind.Search
    case SortBadge(_) => BadgeKind.Sort
    case FilterBadge(_) => BadgeKind.Filter
  }

  /** Where a badge of each kind sits in the badge row: search, then sort, then filter. */
  function Rank(kind: BadgeKind): nat {
    match kind
    case Search => 0
    case Sort => 1
    case Filter => 2
  }

  /** Some badge of `badges` is of the given kind. */
  predicate HasBadge(badges: seq<Badge>, kind: BadgeKind) {
    exists b :: b in badges && KindOf(b) == kind
  }

  /** The sort badge's text: the value with its first hyphen turned into a space. */
  function SortLabel(sort: SortOption): (r: string)
    ensures |r| == 6 + |SortName(sort)|
    ensures r[..6] == "Sort: "
    ensures forall i :: 0 <= i < |SortName(sort)| ==>
      r[6 + i] == if i == FirstIndex(SortName(sort), '-') then ' ' else SortName(sort)[i]
  {
    var name := SortName(sort);
    var shown := ReplaceFirst(name, '-', ' ');
    assert forall i :: 0 <= i < |name| ==> shown[i] == if i == FirstIndex(name, '-') then ' ' else name[i];
    "Sort: " + shown
  }

  /** Replacing the hyphen of two hyphenated words after a prefix leaves the words spaced. */
  lemma HyphenToSpace(prefix: string, first: string, second: string)
    requires '-' !in first
    ensures prefix + ReplaceFirst(first + ['-'] + second, '-', ' ') == prefix + first + " " + second
  {
    ReplaceFirstAt(first, second, '-', ' ');
    assert [' '] == " ";
    assert prefix + (first + [' '] + second) == prefix + first + [' '] + second;
  }

  /** A sort value of two hyphenated words shows as the two words with a space between. */
  lemma SortLabelOfTwoWords(sort: SortOption, first: string, second: string)
    requires SortName(sort) == first + ['-'] + second && '-' !in first
    ensures SortLabel(sort) == "Sort: " + first + " " + second
  {
    HyphenToSpace("Sort: ", first, second);
    assert SortLabel(sort) == "Sort: " + ReplaceFirst(first + ['-'] + second, '-', ' ');
  }

  /** The most-voted sort reads as the two words "most voted" on its badge. */
  lemma SortLabelOfMostVoted()
    ensures SortLabel(MostVoted) == "Sort: " + "most" + " " + "voted"
  {
    SortLabelOfTwoWords(MostVoted, "most", "voted");
  }

  /** The least-voted sort reads as "least voted". */
  lemma SortLabelOfLeastVoted()
    ensures SortLabel(LeastVoted) == "Sort: " + "least" + " " + "voted"
  {
    SortLabelOfTwoWords(LeastVoted, "least", "voted");
  }

  /** One-word sort values appear unchanged. */
  lemma SortLabelOfOneWord(sort: SortOption)
    requires sort == Newest || sort == Oldest
    ensures SortLabel(sort) == "Sort: " + SortName(sort)
  {
    ReplaceFirstOfAbsent(SortName(sort), '-', ' ');
  }

  /** The search badge's text: the query in quotes. */
  function SearchLabel(search: string): (r: string)
    ensures |r| == |search| + 10
    ensures r[..9] == "Search: \"" && r[9..|r| - 1] == search && r[|r| - 1] == '"'
  {
    "Search: \"" + search + "\""
  }

  /** The filter badge's text: the filter's value string. */
  function FilterLabel(filter: FilterOption): (r: string)
    ensures |r| == |FilterName(filter)| + 8
    ensures r[..8] == "Filter: " && r[8..] == FilterName(filter)
  {
    "Filter: " + FilterName(filter)
  }

  /** A badge of one kind belongs to `a + b` exactly when it belongs to one of the parts. */
  lemma HasBadgeAppend(a: seq<Badge>, b: seq<Badge>, kind: BadgeKind)
    ensures HasBadge(a + b, kind) <==> HasBadge(a, kind) || HasBadge(b, kind)
  {
    if HasBadge(a + b, kind) {
      var x :| x in a + b && KindOf(x) == kind;
      assert x in a || x in b;
    }
  }

  /** A row holding at most the one badge `x`, present when `shown` holds. */
  function BadgeIf(shown: bool, x: Badge): (r: seq<Badge>)
    ensures |r| == if shown then 1 else 0
    ensures forall kind :: HasBadge(r, kind) <==> shown && KindOf(x) == kind
    ensures forall b :: b in r <==> shown && b == x
  {
    if shown then
      assert x in [x];
      [x]
    else
      []
  }

  /** What a badge reads: its prefix, then the value it holds. */
  function BadgeText(b: Badge): (r: string)
    ensures b.SearchBadge? ==>
      |r| == |b.query| + 10 && r[..9] == "Search: \"" && r[9..|r| - 1] == b.query && r[|r| - 1] == '"'
    ensures b.SortBadge? ==> |r| == 6 + |SortName(b.sort)| && r[..6] == "Sort: "
    ensures b.SortBadge? ==> forall i :: 0 <= i < |SortName(b.sort)| ==>
      r[6 + i] == if i == FirstIndex(SortName(b.sort), '-') then ' ' else SortName(b.sort)[i]
    ensures b.FilterBadge? ==> |r| == 8 + |FilterName(b.filter)| && r[..8] == "Filter: " && r[8..] == FilterName(b.filter)
  {
    match b
    case SearchBadge(query) => SearchLabel(query)
    case SortBadge(sort) => SortLabel(sort)
    case FilterBadge(filter) => FilterLabel(filter)
  }

  /**
   * The badge row: shown only while filters are active, with one badge for each dimension that
   * differs from its default, in the order search, sort, filter.
   */
  function Badges(state: FilterState): (r: seq<Badge>)
    ensures |r| > 0 <==> HasActiveFilters(state)
    ensures |r| <= 3
    ensures forall i, j :: 0 <= i < j < |r| ==> Rank(KindOf(r[i])) < Rank(KindOf(r[j]))
    ensures HasBadge(r, BadgeKind.Search) <==> state.search != ""
    ensures HasBadge(r, BadgeKind.Sort) <==> state.sort != Newest
    ensures HasBadge(r, BadgeKind.Filter) <==> state.filter != All
    ensures forall b :: b in r ==>
      && (b.SearchBadge? ==> b.query == state.search)
      && (b.SortBadge? ==> b.sort == state.sort)
      && (b.FilterBadge? ==> b.filter == state.filter)
  {
    if !HasActiveFilters(state) then []
    else
      var search := BadgeIf(state.search != "", SearchBadge(state.search));
      var sort := BadgeIf(state.sort != Newest, SortBadge(state.sort));
      var filter := BadgeIf(state.filter != All, FilterBadge(state.filter));
      forall kind ensures HasBadge(search + sort + filter, kind)
        <==> HasBadge(search, kind) || HasBadge(sort, kind) || HasBadge(filter, kind)
      {
        HasBadgeAppend(search, sort, kind);
        HasBadgeAppend(search + sort, filter, kind);
      }
      search + sort + filter
  }

  /** Dismissing a badge removes that badge and leaves the others. */
  lemma DismissRemovesOnlyItsBadge(state: FilterState)
    ensures forall b :: b in Badges(DismissSearch(state)) <==> b in Badges(state) && !b.SearchBadge?
    ensures forall b :: b in Badges(DismissSort(state)) <==> b in Badges(state) && !b.SortBadge?
    ensures forall b :: b in Badges(DismissFilter(state)) <==> b in Badges(state) && !b.FilterBadge?
  {
  }

  /** The result-count line: "1 poll found", otherwise "<n> polls found". */
  function ResultsLabel(count: nat): (r: string)
    ensures |r| == |Decimal(count)| + (if count != 1 then 12 else 11)
    ensures r[..|Decimal(count)|] == Decimal(count)
    ensures r[|Decimal(count)|..|Decimal(count)| + 5] == " poll"
    ensures r[|r| - 6..] == " found"
    ensures r[|r| - 7] == 's' <==> count != 1
  {
    Decimal(count) + " poll" + (if count != 1 then "s" else "") + " found"
  }

  /** The count can be read back from the start of the result line. */
  lemma ResultsLabelShowsCount(count: nat)
    ensures ParseDecimal(ResultsLabel(count)[..|Decimal(count)|]) == count
  {
    ParseDecimalRoundTrip(count);
  }
}
