/** The dashboard's summary figures (src/app/dashboard/page.tsx). */
module Dashboard {
  import opened Domain
  import Listing
  import FilterBar

  datatype Stats = Stats(totalPolls: nat, totalVotes: int, activePolls: nat, totalViews: int)

  /** The votes of all polls together. */
  function SumVotes(polls: seq<Poll>): int {
    if |polls| == 0 then 0 else polls[0].totalVotes + SumVotes(polls[1..])
  }

  /** A poll is active when it never expires or expires strictly after `now`. */
  function IsActive(p: Poll, now: Timestamp): (active: bool)
    ensures active <==> Listing.PassesFilter(p, FilterBar.Active, now)
    ensures active <==> !Listing.PassesFilter(p, FilterBar.Expired, now)
  {
    p.expiresAt.None? || p.expiresAt.value > now
  }

  /** How many polls are active. */
  function CountActive(polls: seq<Poll>, now: Timestamp): (n: nat)
    ensures n <= |polls|
  {
    if |polls| == 0 then 0 else (if IsActive(polls[0], now) then 1 else 0) + CountActive(polls[1..], now)
  }

  lemma {:induction false} SumVotesAppend(a: seq<Poll>, b: seq<Poll>)
    ensures SumVotes(a + b) == SumVotes(a) + SumVotes(b)
  {
    if |a| == 0 {
      assert a + b == b;
    } else {
      assert (a + b)[1..] == a[1..] + b;
      SumVotesAppend(a[1..], b);
    }
  }

  lemma {:induction false} CountActiveAppend(a: seq<Poll>, b: seq<Poll>, now: Timestamp)
    ensures CountActive(a + b, now) == CountActive(a, now) + CountActive(b, now)
  {
    if |a| == 0 {
      assert a + b == b;
    } else {
      assert (a + b)[1..] == a[1..] + b;
      CountActiveAppend(a[1..], b, now);
    }
  }

  /**
   * The figures: the number of polls, the sum of their vote totals (a left-to-right `reduce`),
   * the number of active polls, and a mock view count of twice the votes.
   */
  method ComputeStats(polls: seq<Poll>, now: Timestamp) returns (stats: Stats)
    ensures stats.totalPolls == |polls|
    ensures stats.totalVotes == SumVotes(polls)
    ensures stats.activePolls == CountActive(polls, now)
    ensures stats.activePolls <= stats.totalPolls
    ensures stats.totalViews == 2 * stats.totalVotes
    ensures polls == [] ==> stats == Stats(0, 0, 0, 0)
  {
    var sum := 0;
    var active := 0;
    var i := 0;
    while i < |polls|
      invariant 0 <= i <= |polls|
      invariant sum == SumVotes(polls[..i])
      invariant active == CountActive(polls[..i], now)
    {
      SumVotesAppend(polls[..i], [polls[i]]);
      CountActiveAppend(polls[..i], [polls[i]], now);
      assert polls[..i + 1] == polls[..i] + [polls[i]];
      sum := sum + polls[i].totalVotes;
      if IsActive(polls[i], now) {
        active := active + 1;
      }
      i := i + 1;
    }
    assert polls[..|polls|] == polls;
    stats := Stats(|polls|, sum, active, sum * 2);
  }

  /** The dashboard's active count is what the browse page's "active" filter keeps with no search. */
  lemma {:induction false} ActiveMatchesBrowseFilter(polls: seq<Poll>, now: Timestamp)
    ensures CountActive(polls, now) == |Listing.Select(polls, "", FilterBar.Active, now)|
  {
    if |polls| > 0 {
      ActiveMatchesBrowseFilter(polls[1..], now);
    }
  }

  /** Active polls and the browse page's expired ones together are all the polls. */
  lemma ActiveAndExpiredCoverAll(polls: seq<Poll>, now: Timestamp)
    ensures CountActive(polls, now) + |Listing.Select(polls, "", FilterBar.Expired, now)| == |polls|
  {
    ActiveMatchesBrowseFilter(polls, now);
    Listing.VisibilityAndExpiryPartition(polls, "", now);
    Listing.EmptySearchKeepsEverything(polls, now);
  }

  /** With no negative vote totals, the vote and view figures are not negative either. */
  lemma {:induction false} VotesNonNegative(polls: seq<Poll>)
    requires forall i :: 0 <= i < |polls| ==> polls[i].totalVotes >= 0
    ensures SumVotes(polls) >= 0
  {
    if |polls| > 0 {
      VotesNonNegative(polls[1..]);
    }
  }
}
