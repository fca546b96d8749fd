/**
 * The create-poll and vote schemas (src/lib/validations/polls.ts): which payloads are accepted,
 * which issues a rejected payload reports, and the defaults an accepted payload is given.
 */
module Validation {
  import opened Wrappers
  import opened Domain

  const TitleMinLength := 1
  const TitleMaxLength := 200
  const DescriptionMaxLength := 1000
  const OptionTextMinLength := 1
  const OptionTextMaxLength := 100
  const MinOptions := 2
  const MaxOptions := 10

  /** A flag field as it reaches the schema: absent, a string, or a JSON boolean. */
  datatype FlagInput = Missing | Text(text: string) | Boolean(flag: bool)

  datatype FlagField = IsPublicField | AllowMultipleVotesField

  /** The create-poll form values before validation. */
  datatype CreateInput = CreateInput(
    title: string,
    description: Option<string>,
    options: seq<string>,
    isPublic: FlagInput,
    allowMultipleVotes: FlagInput,
    expiresAt: Option<Timestamp>
  )

  /** The parsed create-poll values: flags are strings with their defaults filled in. */
  datatype CreateData = CreateData(
    title: string,
    description: Option<string>,
    options: seq<string>,
    isPublic: string,
    allowMultipleVotes: string,
    expiresAt: Option<Timestamp>
  )

  /** One failed rule of the create-poll schema. */
  datatype Issue =
    | TitleRequired
    | TitleTooLong
    | DescriptionTooLong
    | TooFewOptions
    | TooManyOptions
    | OptionEmpty(index: nat)
    | OptionTooLong(index: nat)
    | FlagNotString(field: FlagField)

  datatype Outcome = Valid(data: CreateData) | Invalid(issues: seq<Issue>)

  /** The message the schema attaches to each issue. */
  function Message(issue: Issue): string {
    match issue
    case TitleRequired => "Title is required"
    case TitleTooLong => "Title must be less than 200 characters"
    case DescriptionTooLong => "Description must be less than 1000 characters"
    case TooFewOptions => "At least 2 options are required"
    case TooManyOptions => "Maximum 10 options allowed"
    case OptionEmpty(_) => "Option cannot be empty"
    case OptionTooLong(_) => "Option must be less than 100 characters"
    case FlagNotString(_) => "Expected string, received boolean"
  }

  // ---------------------------------------------------------------------------
  // The field rules
  // ---------------------------------------------------------------------------

  predicate TitleOk(title: string) {
    TitleMinLength <= |title| <= TitleMaxLength
  }

  predicate DescriptionOk(description: Option<string>) {
    description.None? || |description.value| <= DescriptionMaxLength
  }

  predicate OptionTextOk(text: string) {
    OptionTextMinLength <= |text| <= OptionTextMaxLength
  }

  predicate OptionsOk(options: seq<string>) {
    && MinOptions <= |options| <= MaxOptions
    && forall i :: 0 <= i < |options| ==> OptionTextOk(options[i])
  }

  predicate FlagOk(flag: FlagInput) {
    !flag.Boolean?
  }

  /** Every rule of the schema holds. */
  predicate AllRulesHold(input: CreateInput) {
    && TitleOk(input.title)
    && DescriptionOk(input.description)
    && OptionsOk(input.options)
    && FlagOk(input.isPublic)
    && FlagOk(input.allowMultipleVotes)
  }

  // ---------------------------------------------------------------------------
  // Which issues a payload has
  // ---------------------------------------------------------------------------

  /** `issue` is a failure of the title rule for `title`. */
  predicate TitleFails(title: string, issue: Issue) {
    || (issue == TitleRequired && |title| < TitleMinLength)
    || (issue == TitleTooLong && |title| > TitleMaxLength)
  }

  predicate DescriptionFails(description: Option<string>, issue: Issue) {
    issue == DescriptionTooLong && !DescriptionOk(description)
  }

  predicate OptionsFail(options: seq<string>, issue: Issue) {
    match issue
    case TooFewOptions => |options| < MinOptions
    case TooManyOptions => |options| > MaxOptions
    case OptionEmpty(i) => i < |options| && |options[i]| < OptionTextMinLength
    case OptionTooLong(i) => i < |options| && |options[i]| > OptionTextMaxLength
    case _ => false
  }

  predicate FlagFails(flag: FlagInput, field: FlagField, issue: Issue) {
    issue == FlagNotString(field) && flag.Boolean?
  }

  /** `issue` is a failure of one of the payload's field rules. */
  predicate Fails(input: CreateInput, issue: Issue) {
    || TitleFails(input.title, issue)
    || DescriptionFails(input.description, issue)
    || OptionsFail(input.options, issue)
    || FlagFails(input.isPublic, IsPublicField, issue)
    || FlagFails(input.allowMultipleVotes, AllowMultipleVotesField, issue)
  }

  // ---------------------------------------------------------------------------
  // Issue collection, field by field in schema order
  // ---------------------------------------------------------------------------

  function TitleIssues(title: string): (r: seq<Issue>)
    ensures r == [] <==> TitleOk(title)
    ensures forall x :: x in r <==> TitleFails(title, x)
  {
    (if |title| < TitleMinLength then [TitleRequired] else [])
    + (if |title| > TitleMaxLength then [TitleTooLong] else [])
  }

  function DescriptionIssues(description: Option<string>): (r: seq<Issue>)
    ensures r == [] <==> DescriptionOk(description)
    ensures forall x :: x in r <==> DescriptionFails(description, x)
  {
    match description
    case None => []
    case Some(d) => if |d| > DescriptionMaxLength then [DescriptionTooLong] else []
  }

  /** Issues of the option texts `options`, the first of which sits at position `offset`. */
  function ItemIssues(options: seq<string>, offset: nat): (r: seq<Issue>)
    ensures r == [] <==> forall i :: 0 <= i < |options| ==> OptionTextOk(options[i])
    ensures forall x :: x in r ==> x.OptionEmpty? || x.OptionTooLong?
    ensures forall i: nat :: OptionEmpty(i) in r <==>
      offset <= i < offset + |options| && |options[i - offset]| < OptionTextMinLength
    ensures forall i: nat :: OptionTooLong(i) in r <==>
      offset <= i < offset + |options| && |options[i - offset]| > OptionTextMaxLength
  {
    if |options| == 0 then []
    else
      var text := options[0];
      var here :=
        (if |text| < OptionTextMinLength then [OptionEmpty(offset)] else [])
        + (if |text| > OptionTextMaxLength then [OptionTooLong(offset)] else []);
      var rest := ItemIssues(options[1..], offset + 1);
      assert forall i :: 1 <= i < |options| ==> options[1..][i - 1] == options[i];
      here + rest
  }

  /** The array's length checks come before the per-item checks. */
  function OptionIssues(options: seq<string>): (r: seq<Issue>)
    ensures r == [] <==> OptionsOk(options)
    ensures forall x :: x in r <==> OptionsFail(options, x)
  {
    var lengths :=
      (if |options| < MinOptions then [TooFewOptions] else [])
      + (if |options| > MaxOptions then [TooManyOptions] else []);
    var items := ItemIssues(options, 0);
    forall x ensures x in lengths + items <==> OptionsFail(options, x) {
      if x.OptionEmpty? || x.OptionTooLong? {
        assert x !in lengths;
      }
    }
    lengths + items
  }

  function FlagIssues(flag: FlagInput, field: FlagField): (r: seq<Issue>)
    ensures r == [] <==> FlagOk(flag)
    ensures forall x :: x in r <==> FlagFails(flag, field, x)
  {
    if flag.Boolean? then [FlagNotString(field)] else []
  }

  /** Every issue of the payload, field by field in the schema's order. */
  function CreateIssues(input: CreateInput): (r: seq<Issue>)
    ensures r == [] <==> AllRulesHold(input)
    ensures forall x :: x in r <==> Fails(input, x)
  {
    TitleIssues(input.title)
    + DescriptionIssues(input.description)
    + OptionIssues(input.options)
    + FlagIssues(input.isPublic, IsPublicField)
    + FlagIssues(input.allowMultipleVotes, AllowMultipleVotesField)
  }

  /** A string flag, or `default` when absent. */
  function FlagValue(flag: FlagInput, default: string): string
    requires FlagOk(flag)
  {
    if flag.Text? then flag.text else default
  }

  /**
   * `createPollSchema.safeParse`: the payload is accepted exactly when every field rule holds;
   * an accepted payload keeps its values and fills the flag defaults ("true" for visibility,
   * "false" for multiple votes); a rejected one reports exactly the failed rules.
   */
  function ValidateCreate(input: CreateInput): (r: Outcome)
    ensures r.Valid? <==> AllRulesHold(input)
    ensures r.Valid? ==>
      && r.data.title == input.title
      && r.data.description == input.description
      && r.data.options == input.options
      && r.data.expiresAt == input.expiresAt
      && r.data.isPublic == (if input.isPublic.Missing? then "true" else input.isPublic.text)
      && r.data.allowMultipleVotes ==
           (if input.allowMultipleVotes.Missing? then "false" else input.allowMultipleVotes.text)
    ensures r.Invalid? ==> r.issues != [] && forall x :: x in r.issues <==> Fails(input, x)
  {
    var issues := CreateIssues(input);
    if issues == [] then
      Valid(CreateData(
        input.title,
        input.description,
        input.options,
        FlagValue(input.isPublic, "true"),
        FlagValue(input.allowMultipleVotes, "false"),
        input.expiresAt))
    else
      Invalid(issues)
  }

  /** Any single failing field rule rejects the whole payload and is reported. */
  lemma AnyFailingRuleRejects(input: CreateInput, issue: Issue)
    requires Fails(input, issue)
    ensures ValidateCreate(input).Invalid?
    ensures issue in ValidateCreate(input).issues
  {
  }

  /** Whether an expiry date is given never decides acceptance. */
  lemma ExpiresAtNeverDecides(input: CreateInput, expiresAt: Option<Timestamp>)
    ensures ValidateCreate(input.(expiresAt := expiresAt)).Valid? == ValidateCreate(input).Valid?
  {
  }

  /** Absent flags take their defaults: a public poll that allows one vote per voter. */
  lemma MissingFlagsDefault(input: CreateInput)
    requires AllRulesHold(input)
    requires input.isPublic.Missing? && input.allowMultipleVotes.Missing?
    ensures ValidateCreate(input).Valid?
    ensures ValidateCreate(input).data.isPublic == "true"
    ensures ValidateCreate(input).data.allowMultipleVotes == "false"
  {
  }

  // ---------------------------------------------------------------------------
  // Votes
  // ---------------------------------------------------------------------------

  datatype VoteInput = VoteInput(pollId: string, optionIds: seq<string>)

  /** The issue a rejected vote reports. */
  const VoteIssue := "Select at least one option"

  /**
   * `voteSchema.safeParse`: a vote is accepted, unchanged, exactly when it selects at least
   * one option; otherwise it reports the vote issue.
   */
  function ValidateVote(vote: VoteInput): (r: Result<VoteInput>)
    ensures r.Ok? <==> |vote.optionIds| >= 1
    ensures r.Ok? ==> r.value == vote
    ensures r.Fail? ==> r.message == VoteIssue && vote.optionIds == []
  {
    if |vote.optionIds| < 1 then Fail(VoteIssue) else Ok(vote)
  }
}
