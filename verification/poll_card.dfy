/**
 * What a poll card shows (src/features/polls/components/poll-card.tsx): its badges, the option
 * preview, the countdown and the author's initials.
 */
module PollCard {
  import opened Wrappers
  import opened Domain
  import opened Text
  import Listing
  import FilterBar

  /** How many options a card previews. */
  const PreviewCount := 3

  /** The card's notion of expiry: an expiry strictly before `now`. */
  function IsExpired(p: Poll, now: Timestamp): (expired: bool)
    ensures expired ==> Listing.PassesFilter(p, FilterBar.Expired, now)
    ensures expired ==> !Listing.PassesFilter(p, FilterBar.Active, now)
    ensures !expired ==> p.expiresAt.None? || p.expiresAt.value >= now
    ensures p.expiresAt == Some(now) ==> !expired
  {
    p.expiresAt.Some? && p.expiresAt.value < now
  }

  // ---------------------------------------------------------------------------
  // Initials
  // ---------------------------------------------------------------------------

  /** `words.map(n => n[0]).join('')`: the first character of each word; an empty word adds nothing. */
  function FirstLetters(words: seq<string>): string {
    if |words| == 0 then []
    else (if words[0] == "" then [] else [words[0][0]]) + FirstLetters(words[1..])
  }

  /**
   * A character-by-character reading of the same thing: each character that is not a space and
   * starts the string or follows a space. `atStart` says whether a word may start here.
   */
  function WordStarts(s: string, atStart: bool): string {
    if |s| == 0 then []
    else (if s[0] != ' ' && atStart then [s[0]] else []) + WordStarts(s[1..], s[0] == ' ')
  }

  lemma {:induction false} FirstLettersOfSplit(s: string)
    ensures FirstLetters(SplitOnSpace(s)) == WordStarts(s, true)
    ensures FirstLetters(SplitOnSpace(s)[1..]) == WordStarts(s, false)
  {
    if |s| > 0 {
      FirstLettersOfSplit(s[1..]);
      var rest := SplitOnSpace(s[1..]);
      if s[0] == ' ' {
        assert SplitOnSpace(s) == [""] + rest;
        assert SplitOnSpace(s)[1..] == rest;
      } else {
        var words := SplitOnSpace(s);
        assert words == [[s[0]] + rest[0]] + rest[1..];
        assert words[1..] == rest[1..];
        assert FirstLetters(words) == [s[0]] + FirstLetters(words[1..]);
      }
    }
  }

  /**
   * The avatar fallback: the upper-cased first character of each space-separated word of the
   * name, so exactly the name's word-starting characters, in order.
   */
  function Initials(name: string): (r: string)
    ensures r == Upper(WordStarts(name, true))
  {
    FirstLettersOfSplit(name);
    Upper(FirstLetters(SplitOnSpace(name)))
  }

  /** No more initials than characters, and none at all for an empty name. */
  lemma {:induction false} InitialsBound(name: string, atStart: bool)
    ensures |WordStarts(name, atStart)| <= |name|
    ensures name == "" ==> Initials(name) == ""
  {
    if |name| > 0 {
      InitialsBound(name[1..], name[0] == ' ');
    }
  }

  // ---------------------------------------------------------------------------
  // The card
  // ---------------------------------------------------------------------------

  datatype CardView = CardView(
    title: string,
    description: Option<string>,
    privateBadge: bool,
    expiredBadge: bool,
    preview: seq<PollOption>,
    moreOptions: Option<nat>,
    totalVotes: int,
    multipleVotesBadge: bool,
    showCountdown: bool,
    initials: string
  )

  /**
   * The card for `p` at time `now`: a description only when non-empty; the Private badge for a
   * non-public poll; the Expired badge once expired; the first three options in order, and
   * "+k more options" for the k that do not fit; the countdown only for a poll that has an
   * expiry and has not expired.
   */
  function Render(p: Poll, now: Timestamp): (v: CardView)
    ensures v.title == p.title && v.totalVotes == p.totalVotes
    ensures v.description.Some? <==> p.description.Some? && p.description.value != ""
    ensures v.description.Some? ==> v.description == p.description
    ensures v.privateBadge <==> !p.isPublic
    ensures v.expiredBadge <==> IsExpired(p, now)
    ensures v.multipleVotesBadge == p.allowMultipleVotes
    ensures |v.preview| == if |p.options| < PreviewCount then |p.options| else PreviewCount
    ensures forall i :: 0 <= i < |v.preview| ==> v.preview[i] == p.options[i]
    ensures v.moreOptions.Some? <==> |p.options| > PreviewCount
    ensures v.moreOptions.Some? ==> |v.preview| + v.moreOptions.value == |p.options|
    ensures v.showCountdown <==> p.expiresAt.Some? && !IsExpired(p, now)
    ensures v.initials == Upper(WordStarts(p.author.name, true))
  {
    var n := |p.options|;
    CardView(
      p.title,
      if p.description.Some? && p.description.value != "" then p.description else None,
      !p.isPublic,
      IsExpired(p, now),
      p.options[..if n < PreviewCount then n else PreviewCount],
      if n > PreviewCount then Some(n - PreviewCount) else None,
      p.totalVotes,
      p.allowMultipleVotes,
      p.expiresAt.Some? && !IsExpired(p, now),
      Initials(p.author.name))
  }

  /**
   * The browse page and the card disagree about a poll expiring exactly now: the "expired"
   * filter keeps it, yet its card shows no Expired badge and still counts down. At every other
   * time the two agree.
   */
  lemma ExpiryBoundary(p: Poll, now: Timestamp)
    ensures Listing.PassesFilter(p, FilterBar.Expired, now) <==> IsExpired(p, now) || p.expiresAt == Some(now)
    ensures p.expiresAt == Some(now) ==>
      && Listing.PassesFilter(p, FilterBar.Expired, now)
      && !Listing.PassesFilter(p, FilterBar.Active, now)
      && !Render(p, now).expiredBadge
      && Render(p, now).showCountdown
    ensures p.expiresAt != Some(now) ==>
      (Listing.PassesFilter(p, FilterBar.Expired, now) <==> Render(p, now).expiredBadge)
  {
  }

  /** A poll loaded on the browse page knows its author only by id, so its card shows no initials. */
  lemma FetchedPollsShowNoInitials(w: WirePoll, now: Timestamp)
    ensures Render(Listing.ToPoll(w, now), now).initials == ""
  {
    InitialsBound("", true);
  }
}
