/**
 * The browse page (src/app/polls/page.tsx): how the fetched JSON becomes `Poll` records, and
 * the search, visibility/expiry filter and sort applied before the polls are shown.
 */
module Listing {
  import opened Wrappers
  import opened Domain
  import opened Text
  import opened FilterBar
  import PollsApi

  // ---------------------------------------------------------------------------
  // From the endpoint's JSON to Poll records
  // ---------------------------------------------------------------------------

  /** The endpoint's options, each tagged with the poll it belongs to and no voters. */
  function ToOptions(pollId: string, options: seq<WireOption>): (r: seq<PollOption>)
    ensures |r| == |options|
    ensures forall i :: 0 <= i < |r| ==>
      r[i].pollId == pollId && r[i].voters == [] && r[i].id == options[i].id
      && r[i].text == options[i].text && r[i].votes == options[i].votes
  {
    if |options| == 0 then []
    else
      var o := options[0];
      [PollOption(o.id, o.text, pollId, o.votes, [])] + ToOptions(pollId, options[1..])
  }

  /** The endpoint's view of an option, forgetting what the page adds. */
  function OptionToWire(o: PollOption): WireOption {
    WireOption(o.id, o.text, o.votes)
  }

  function OptionsToWire(options: seq<PollOption>): seq<WireOption> {
    if |options| == 0 then [] else [OptionToWire(options[0])] + OptionsToWire(options[1..])
  }

  /** Tagging options with their poll loses nothing the endpoint sent. */
  lemma {:induction false} ToOptionsRoundTrip(pollId: string, options: seq<WireOption>)
    ensures OptionsToWire(ToOptions(pollId, options)) == options
  {
    if |options| > 0 {
      ToOptionsRoundTrip(pollId, options[1..]);
      assert ToOptions(pollId, options)[1..] == ToOptions(pollId, options[1..]);
    }
  }

  /**
   * One fetched poll as a `Poll`: a missing vote total counts as 0, missing options as none,
   * the author is known only by id (empty name and email, created `now`), and the poll is
   * taken to have been last updated when it was created.
   */
  function ToPoll(w: WirePoll, now: Timestamp): (p: Poll)
    ensures p.id == w.id && p.title == w.title && p.description == w.description
    ensures p.isPublic == w.isPublic && p.allowMultipleVotes == w.allowMultipleVotes
    ensures p.expiresAt == w.expiresAt
    ensures p.totalVotes == (if w.totalVotes.Some? then w.totalVotes.value else 0)
    ensures p.createdAt == w.createdAt && p.updatedAt == p.createdAt
    ensures p.authorId == w.authorId && p.author.id == w.authorId
    ensures p.author.name == "" && p.author.email == "" && p.author.createdAt == now
    ensures w.options.None? ==> p.options == []
    ensures w.options.Some? ==> OptionsToWire(p.options) == w.options.value
    ensures forall i :: 0 <= i < |p.options| ==> p.options[i].pollId == w.id
  {
    var options := ToOptions(w.id, w.options.GetOr([]));
    ToOptionsRoundTrip(w.id, w.options.GetOr([]));
    Poll(
      w.id, w.title, w.description, options, w.authorId,
      User(w.authorId, "", "", None, now),
      w.isPublic, w.allowMultipleVotes, w.expiresAt,
      w.createdAt, w.createdAt, w.totalVotes.GetOr(0))
  }

  /** The page's poll list after a fetch; a reply without `data` gives an empty list. */
  function LoadPolls(data: Option<seq<WirePoll>>, now: Timestamp): (r: seq<Poll>)
    ensures data.None? ==> r == []
    ensures data.Some? ==> |r| == |data.value|
    ensures data.Some? ==> forall i :: 0 <= i < |r| ==> r[i] == ToPoll(data.value[i], now)
    decreases if data.Some? then |data.value| else 0
  {
    match data
    case None => []
    case Some(ws) =>
      if |ws| == 0 then [] else [ToPoll(ws[0], now)] + LoadPolls(Some(ws[1..]), now)
  }

  /**
   * What the page makes of the listing endpoint's payload: the i-th poll is the i-th poll row,
   * with no description, its vote total (0 when missing) and at most five options, which are the
   * first of its own option rows in row order, tagged with its id.
   */
  lemma EndpointPollsOnPage(
    polls: seq<PollsApi.PollStatsRow>, rows: seq<PollsApi.OptionStatsRow>, now: Timestamp, i: int)
    requires 0 <= i < |polls|
    ensures |LoadPolls(Some(PollsApi.Payload(polls, rows)), now)| == |polls|
    ensures var p := LoadPolls(Some(PollsApi.Payload(polls, rows)), now)[i];
      var group := PollsApi.RowsOf(rows, polls[i].pollId);
      && p.id == polls[i].pollId
      && p.description.None?
      && p.totalVotes == PollsApi.CountOrZero(polls[i].totalVotes)
      && |p.options| <= PollsApi.PreviewLimit
      && |p.options| <= |group|
      && forall j :: 0 <= j < |p.options| ==>
           && p.options[j].pollId == p.id
           && p.options[j].id == group[j].id
           && p.options[j].text == group[j].optionText
           && p.options[j].votes == group[j].voteCount
  {
    var w := PollsApi.Payload(polls, rows)[i];
    var p := LoadPolls(Some(PollsApi.Payload(polls, rows)), now)[i];
    assert p == ToPoll(w, now);
    assert w.options == Some(PollsApi.Preview(PollsApi.RowsOf(rows, polls[i].pollId)));
  }

  // ---------------------------------------------------------------------------
  // Search and filter
  // ---------------------------------------------------------------------------

  /** The search step: an empty query matches everything; otherwise the lowered query occurs in
    * the lowered title or in the lowered description, when there is one. */
  predicate MatchesSearch(p: Poll, query: string) {
    || query == ""
    || Contains(Lower(p.title), Lower(query))
    || (p.description.Some? && Contains(Lower(p.description.value), Lower(query)))
  }

  /** The filter step. Expired means an expiry at or before `now`. */
  predicate PassesFilter(p: Poll, filter: FilterOption, now: Timestamp) {
    match filter
    case All => true
    case Public => p.isPublic
    case Private => !p.isPublic
    case Active => p.expiresAt.None? || p.expiresAt.value > now
    case Expired => p.expiresAt.Some? && p.expiresAt.value <= now
  }

  /** The page's filter callback, with its early return for a failed search. */
  function Keep(p: Poll, query: string, filter: FilterOption, now: Timestamp): (keep: bool)
    ensures keep <==> MatchesSearch(p, query) && PassesFilter(p, filter, now)
  {
    if query != "" then
      var q := Lower(query);
      if !Contains(Lower(p.title), q) && !(p.description.Some? && Contains(Lower(p.description.value), q)) then
        false
      else
        PassesFilter(p, filter, now)
    else
      PassesFilter(p, filter, now)
  }

  /** `polls.filter(...)`: the kept polls, each as often as in the input, in input order. */
  function Select(polls: seq<Poll>, query: string, filter: FilterOption, now: Timestamp): (r: seq<Poll>)
    ensures |r| <= |polls|
    ensures forall p :: p in r <==> p in polls && Keep(p, query, filter, now)
    ensures forall p :: multiset(r)[p] == if Keep(p, query, filter, now) then multiset(polls)[p] else 0
  {
    if |polls| == 0 then []
    else
      assert polls == [polls[0]] + polls[1..];
      var rest := Select(polls[1..], query, filter, now);
      if Keep(polls[0], query, filter, now) then [polls[0]] + rest else rest
  }

  /** Selecting from two runs of polls one after the other selects from each in turn. */
  lemma {:induction false} SelectAppend(a: seq<Poll>, b: seq<Poll>, query: string, filter: FilterOption, now: Timestamp)
    ensures Select(a + b, query, filter, now) == Select(a, query, filter, now) + Select(b, query, filter, now)
  {
    if |a| == 0 {
      assert a + b == b;
    } else {
      assert (a + b)[0] == a[0];
      assert (a + b)[1..] == a[1..] + b;
      SelectAppend(a[1..], b, query, filter, now);
    }
  }

  /** With an empty query and no filter nothing is removed. */
  lemma {:induction false} EmptySearchKeepsEverything(polls: seq<Poll>, now: Timestamp)
    ensures Select(polls, "", All, now) == polls
  {
    if |polls| > 0 {
      EmptySearchKeepsEverything(polls[1..], now);
      assert Keep(polls[0], "", All, now);
      assert Select(polls, "", All, now) == [polls[0]] + Select(polls[1..], "", All, now);
      assert polls == [polls[0]] + polls[1..];
    }
  }

  /**
   * Two filters that split every poll between them split the search results the same way:
   * together they keep each search-passing poll exactly once.
   */
  lemma FiltersPartition(
    polls: seq<Poll>, query: string, f1: FilterOption, f2: FilterOption, now: Timestamp)
    requires forall p :: PassesFilter(p, f1, now) != PassesFilter(p, f2, now)
    ensures multiset(Select(polls, query, f1, now)) + multiset(Select(polls, query, f2, now))
      == multiset(Select(polls, query, All, now))
    ensures |Select(polls, query, f1, now)| + |Select(polls, query, f2, now)|
      == |Select(polls, query, All, now)|
  {
    var s1 := Select(polls, query, f1, now);
    var s2 := Select(polls, query, f2, now);
    var all := Select(polls, query, All, now);
    forall x ensures multiset(s1)[x] + multiset(s2)[x] == multiset(all)[x] {
      var m := MatchesSearch(x, query);
      assert PassesFilter(x, f1, now) != PassesFilter(x, f2, now);
      assert multiset(s1)[x] == if m && PassesFilter(x, f1, now) then multiset(polls)[x] else 0;
      assert multiset(s2)[x] == if m && PassesFilter(x, f2, now) then multiset(polls)[x] else 0;
      assert multiset(all)[x] == if m then multiset(polls)[x] else 0;
    }
    assert multiset(s1) + multiset(s2) == multiset(all);
    assert |multiset(s1)| + |multiset(s2)| == |multiset(all)|;
  }

  /** Public and private split the search results, as do active and expired. */
  lemma VisibilityAndExpiryPartition(polls: seq<Poll>, query: string, now: Timestamp)
    ensures |Select(polls, query, Public, now)| + |Select(polls, query, Private, now)|
      == |Select(polls, query, All, now)|
    ensures |Select(polls, query, Active, now)| + |Select(polls, query, Expired, now)|
      == |Select(polls, query, All, now)|
    ensures multiset(Select(polls, query, Active, now)) + multiset(Select(polls, query, Expired, now))
      == multiset(Select(polls, query, All, now))
  {
    FiltersPartition(polls, query, Public, Private, now);
    FiltersPartition(polls, query, Active, Expired, now);
  }

  // ---------------------------------------------------------------------------
  // Sort
  // ---------------------------------------------------------------------------

  /** The number each order sorts by, ascending. */
  function Key(order: SortOption, p: Poll): int {
    match order
    case Newest => -p.createdAt
    case Oldest => p.createdAt
    case MostVoted => -p.totalVotes
    case LeastVoted => p.totalVotes
  }

  /** The page's sort comparator: negative puts `a` first; it orders polls by their keys. */
  function Compare(order: SortOption, a: Poll, b: Poll): (r: int)
    ensures r == Key(order, a) - Key(order, b)
  {
    match order
    case Newest => b.createdAt - a.createdAt
    case Oldest => a.createdAt - b.createdAt
    case MostVoted => b.totalVotes - a.totalVotes
    case LeastVoted => a.totalVotes - b.totalVotes
  }

  /** Keys never decrease along `s`. */
  predicate Sorted(order: SortOption, s: seq<Poll>) {
    forall i, j :: 0 <= i < j < |s| ==> Key(order, s[i]) <= Key(order, s[j])
  }

  /** What each order means: the comparator never puts a later poll first, and the fields run accordingly. */
  lemma SortedMeaning(order: SortOption, s: seq<Poll>, i: int, j: int)
    requires Sorted(order, s) && 0 <= i < j < |s|
    ensures Compare(order, s[i], s[j]) <= 0
    ensures order == Newest ==> s[i].createdAt >= s[j].createdAt
    ensures order == Oldest ==> s[i].createdAt <= s[j].createdAt
    ensures order == MostVoted ==> s[i].totalVotes >= s[j].totalVotes
    ensures order == LeastVoted ==> s[i].totalVotes <= s[j].totalVotes
  {
  }

  /** Places `x` before the first poll the comparator does not put ahead of it. */
  function Insert(order: SortOption, x: Poll, s: seq<Poll>): (r: seq<Poll>)
    ensures |r| == |s| + 1
    ensures multiset(r) == multiset(s) + multiset{x}
  {
    if |s| == 0 then [x]
    else if Key(order, x) <= Key(order, s[0]) then [x] + s
    else
      assert s == [s[0]] + s[1..];
      [s[0]] + Insert(order, x, s[1..])
  }

  /** Every key in `s` is at least `m`. */
  predicate AllAtLeast(order: SortOption, s: seq<Poll>, m: int) {
    forall i :: 0 <= i < |s| ==> m <= Key(order, s[i])
  }

  lemma {:induction false} InsertAtLeast(order: SortOption, x: Poll, s: seq<Poll>, m: int)
    requires AllAtLeast(order, s, m) && m <= Key(order, x)
    ensures AllAtLeast(order, Insert(order, x, s), m)
  {
    if |s| > 0 && Key(order, x) > Key(order, s[0]) {
      InsertAtLeast(order, x, s[1..], m);
    }
  }

  /** Prepending a poll whose key is at most every key of a sorted list keeps it sorted. */
  lemma ConsSorted(order: SortOption, y: Poll, s: seq<Poll>)
    requires Sorted(order, s) && AllAtLeast(order, s, Key(order, y))
    ensures Sorted(order, [y] + s)
  {
    var r := [y] + s;
    forall i, j | 0 <= i < j < |r|
      ensures Key(order, r[i]) <= Key(order, r[j])
    {
      assert r[j] == s[j - 1];
      if i > 0 {
        assert r[i] == s[i - 1];
      }
    }
  }

  /** Inserting into a sorted list keeps it sorted. */
  lemma {:induction false} InsertSorted(order: SortOption, x: Poll, s: seq<Poll>)
    requires Sorted(order, s)
    ensures Sorted(order, Insert(order, x, s))
  {
    if |s| == 0 {
    } else if Key(order, x) <= Key(order, s[0]) {
      ConsSorted(order, x, s);
    } else {
      InsertSorted(order, x, s[1..]);
      InsertAtLeast(order, x, s[1..], Key(order, s[0]));
      ConsSorted(order, s[0], Insert(order, x, s[1..]));
    }
  }

  /** `Array.prototype.sort` with the page's comparator (a stable sort). */
  function SortPolls(order: SortOption, s: seq<Poll>): (r: seq<Poll>)
    ensures |r| == |s|
    ensures multiset(r) == multiset(s)
    ensures Sorted(order, r)
  {
    if |s| == 0 then []
    else
      assert s == [s[0]] + s[1..];
      var rest := SortPolls(order, s[1..]);
      InsertSorted(order, s[0], rest);
      Insert(order, s[0], rest)
  }

  /** The polls of `s` whose sort key is `k`, in their order in `s`. */
  function WithKey(order: SortOption, s: seq<Poll>, k: int): seq<Poll> {
    if |s| == 0 then []
    else (if Key(order, s[0]) == k then [s[0]] else []) + WithKey(order, s[1..], k)
  }

  lemma WithKeyCons(order: SortOption, y: Poll, s: seq<Poll>, k: int)
    ensures WithKey(order, [y] + s, k) == (if Key(order, y) == k then [y] else []) + WithKey(order, s, k)
  {
    assert ([y] + s)[0] == y;
    assert ([y] + s)[1..] == s;
  }

  lemma {:induction false} InsertKeepsTies(order: SortOption, x: Poll, s: seq<Poll>, k: int)
    decreases |s|, 1
    ensures WithKey(order, Insert(order, x, s), k)
      == (if Key(order, x) == k then [x] else []) + WithKey(order, s, k)
  {
    if |s| == 0 {
      assert Insert(order, x, s) == [x] + [];
      WithKeyCons(order, x, [], k);
    } else if Key(order, x) <= Key(order, s[0]) {
      assert Insert(order, x, s) == [x] + s;
      WithKeyCons(order, x, s, k);
    } else {
      InsertPastTies(order, x, s, k);
    }
  }

  /** Inserting past the head keeps the head in front. */
  lemma InsertPast(order: SortOption, x: Poll, s: seq<Poll>)
    requires |s| > 0 && Key(order, x) > Key(order, s[0])
    ensures Insert(order, x, s) == [s[0]] + Insert(order, x, s[1..])
  {
  }

  /** Two heads of which at most one is non-empty can be swapped. */
  lemma SwapHeads(a: seq<Poll>, b: seq<Poll>, tail: seq<Poll>)
    requires a == [] || b == []
    ensures a + (b + tail) == b + (a + tail)
  {
    if a == [] {
      assert a + (b + tail) == b + tail;
    } else {
      assert b + (a + tail) == a + tail;
    }
  }

  /** The case where `x` goes past the head of `s`: at most one of the two can have key `k`. */
  lemma {:induction false} InsertPastTies(order: SortOption, x: Poll, s: seq<Poll>, k: int)
    requires |s| > 0 && Key(order, x) > Key(order, s[0])
    ensures WithKey(order, Insert(order, x, s), k)
      == (if Key(order, x) == k then [x] else []) + WithKey(order, s, k)
    decreases |s|, 0
  {
    var rest := Insert(order, x, s[1..]);
    var hx := if Key(order, x) == k then [x] else [];
    var h0 := if Key(order, s[0]) == k then [s[0]] else [];
    InsertPast(order, x, s);
    InsertKeepsTies(order, x, s[1..], k);
    WithKeyCons(order, s[0], rest, k);
    WithKeyCons(order, s[0], s[1..], k);
    assert s == [s[0]] + s[1..];
    SwapHeads(h0, hx, WithKey(order, s[1..], k));
  }

  /** The sort is stable: polls that tie keep their relative order. */
  lemma {:induction false} SortIsStable(order: SortOption, s: seq<Poll>, k: int)
    ensures WithKey(order, SortPolls(order, s), k) == WithKey(order, s, k)
  {
    if |s| > 0 {
      SortIsStable(order, s[1..], k);
      InsertKeepsTies(order, s[0], SortPolls(order, s[1..]), k);
    }
  }

  // ---------------------------------------------------------------------------
  // The whole pipeline
  // ---------------------------------------------------------------------------

  /**
   * `filteredPolls`: the polls that pass the search and the filter, each as often as in the
   * input, ordered by the chosen sort.
   */
  function Browse(polls: seq<Poll>, state: FilterState, now: Timestamp): (r: seq<Poll>)
    ensures |r| <= |polls|
    ensures forall p :: multiset(r)[p]
                          == if MatchesSearch(p, state.search) && PassesFilter(p, state.filter, now)
                             then multiset(polls)[p] else 0
    ensures forall p :: p in r <==>
      p in polls && MatchesSearch(p, state.search) && PassesFilter(p, state.filter, now)
    ensures Sorted(state.sort, r)
  {
    var selected := Select(polls, state.search, state.filter, now);
    var r := SortPolls(state.sort, selected);
    assert multiset(r) == multiset(selected);
    forall p ensures p in r <==> p in selected {
      assert p in r <==> p in multiset(r);
      assert p in selected <==> p in multiset(selected);
    }
    r
  }

  /** Selecting the polls of one sort key commutes with the search and the filter. */
  lemma {:induction false} SelectWithKey(order: SortOption, s: seq<Poll>, k: int, query: string, filter: FilterOption, now: Timestamp)
    ensures WithKey(order, Select(s, query, filter, now), k) == Select(WithKey(order, s, k), query, filter, now)
  {
    if |s| > 0 {
      var head: seq<Poll> := if Key(order, s[0]) == k then [s[0]] else [];
      SelectWithKey(order, s[1..], k, query, filter, now);
      SelectAppend(head, WithKey(order, s[1..], k), query, filter, now);
      var kept := Select(s[1..], query, filter, now);
      if Keep(s[0], query, filter, now) {
        WithKeyCons(order, s[0], kept, k);
      }
    }
  }

  /**
   * Polls the sort ranks equal keep their input order: the kept polls with any one sort key
   * appear in the result exactly as they appear, filtered, in the input.
   */
  lemma BrowseKeepsTieOrder(polls: seq<Poll>, state: FilterState, now: Timestamp, k: int)
    ensures WithKey(state.sort, Browse(polls, state, now), k)
      == Select(WithKey(state.sort, polls, k), state.search, state.filter, now)
  {
    SortIsStable(state.sort, Select(polls, state.search, state.filter, now), k);
    SelectWithKey(state.sort, polls, k, state.search, state.filter, now);
  }

  /** Changing only the sort reorders the same polls. */
  lemma SortOnlyReorders(polls: seq<Poll>, state: FilterState, sort: SortOption, now: Timestamp)
    ensures multiset(Browse(polls, state.(sort := sort), now)) == multiset(Browse(polls, state, now))
  {
  }

  /** A poll kept under a non-empty query has the lowered query in its lowered title or description. */
  lemma KeptPollsMatchQuery(polls: seq<Poll>, state: FilterState, now: Timestamp, p: Poll)
    requires state.search != "" && p in Browse(polls, state, now)
    ensures Contains(Lower(p.title), Lower(state.search))
      || (p.description.Some? && Contains(Lower(p.description.value), Lower(state.search)))
  {
  }
}
