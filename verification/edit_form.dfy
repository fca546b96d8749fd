/**
 * The edit-poll form (src/features/polls/components/edit-poll-form.tsx): loading a poll into
 * the form, the checks made on submit and the update payload built from the form.
 */
module EditForm {
  import opened Wrappers
  import opened Domain
  import opened Text
  import Validation

  /** The form's values; the two flags are held as the strings "true" and "false". */
  datatype FormState = FormState(
    title: string,
    description: string,
    options: seq<string>,
    isPublic: string,
    allowMultipleVotes: string,
    expiresAt: Option<Timestamp>
  )

  /** The form's values before a poll is loaded. */
  function Defaults(): FormState {
    FormState("", "", ["", ""], "true", "false", None)
  }

  /** The poll as the single-poll endpoint returns it; only option texts reach the form. */
  datatype LoadedPoll = LoadedPoll(
    title: string,
    description: Option<string>,
    isPublic: bool,
    allowMultipleVotes: bool,
    expiresAt: Option<Timestamp>,
    optionTexts: seq<string>
  )

  /** The update request body. */
  datatype Payload = Payload(
    title: string,
    description: Option<string>,
    options: seq<string>,
    isPublic: bool,
    allowMultipleVotes: bool,
    expiresAt: Option<Timestamp>
  )

  /** A checked submit: the payload to send, or the message shown instead. */
  datatype Submission = Send(payload: Payload) | Refuse(message: string)

  const TitleRequiredMessage := "Title is required"
  const TooFewOptionsMessage := "At least 2 options are required"

  /** The submit checks' toasts use the schema's own wording for the same two rules. */
  lemma ToastsUseSchemaWording()
    ensures TitleRequiredMessage == Validation.Message(Validation.TitleRequired)
    ensures TooFewOptionsMessage == Validation.Message(Validation.TooFewOptions)
  {
  }

  // ---------------------------------------------------------------------------
  // Flags as strings
  // ---------------------------------------------------------------------------

  /** How a loaded flag is written into the form. */
  function FlagText(b: bool): (s: string)
    ensures s == "true" || s == "false"
    ensures (s == "true") == b
  {
    if b then "true" else "false"
  }

  /** How a form flag is read back on submit: only the exact string "true" is true. */
  function FlagOf(s: string): (b: bool)
    ensures b ==> s == "true"
  {
    s == "true"
  }

  /** A flag survives being written into the form and read back. */
  lemma FlagRoundTrip(b: bool)
    ensures FlagOf(FlagText(b)) == b
  {
  }

  // ---------------------------------------------------------------------------
  // Loading
  // ---------------------------------------------------------------------------

  /** Milliseconds in one minute: the unit conversion applied to the timezone offset. */
  const MillisPerMinute := 60000

  /**
   * The expiry shown in the form for a stored expiry: the instant moved back by the browser's
   * timezone offset (`getTimezoneOffset`, minutes behind UTC, taken for that date), so that
   * the local clock reading of the result equals the UTC reading of the stored instant.
   */
  function ShiftedExpiry(expiresAt: Timestamp, offsetMinutes: int): (r: Timestamp)
    ensures offsetMinutes == 0 <==> r == expiresAt
    ensures offsetMinutes > 0 <==> r < expiresAt
    ensures r + offsetMinutes * MillisPerMinute == expiresAt
  {
    expiresAt - offsetMinutes * MillisPerMinute
  }

  /**
   * Fills the form from a loaded poll; `None` stands for a failed load, which closes the form.
   * A missing or empty description becomes "", and the expiry is only overwritten when the
   * poll has one, and then with the instant shifted by the browser's timezone offset.
   */
  function Load(form: FormState, loaded: Option<LoadedPoll>, offsetMinutes: int): (r: Option<FormState>)
    ensures loaded.None? <==> r.None?
    ensures r.Some? ==>
      && r.value.title == loaded.value.title
      && r.value.options == loaded.value.optionTexts
      && r.value.isPublic == FlagText(loaded.value.isPublic)
      && r.value.allowMultipleVotes == FlagText(loaded.value.allowMultipleVotes)
      && FlagOf(r.value.isPublic) == loaded.value.isPublic
      && FlagOf(r.value.allowMultipleVotes) == loaded.value.allowMultipleVotes
      && (r.value.description == "" <==> loaded.value.description.None? || loaded.value.description.value == "")
      && (loaded.value.description.Some? ==> r.value.description == loaded.value.description.value)
      && (loaded.value.expiresAt.None? ==> r.value.expiresAt == form.expiresAt)
      && (loaded.value.expiresAt.Some? ==>
            r.value.expiresAt.Some?
            && r.value.expiresAt.value + offsetMinutes * MillisPerMinute == loaded.value.expiresAt.value)
  {
    match loaded
    case None => None
    case Some(poll) =>
      Some(FormState(
        poll.title,
        poll.description.GetOr(""),
        poll.optionTexts,
        FlagText(poll.isPublic),
        FlagText(poll.allowMultipleVotes),
        if poll.expiresAt.Some? then Some(ShiftedExpiry(poll.expiresAt.value, offsetMinutes)) else form.expiresAt))
  }

  // ---------------------------------------------------------------------------
  // Submitting
  // ---------------------------------------------------------------------------

  /** `options.filter(Boolean)`: drops the empty strings and keeps everything else, in order. */
  function NonEmpty(options: seq<string>): (r: seq<string>)
    ensures |r| <= |options|
    ensures "" !in r
    ensures forall x :: x != "" ==> multiset(r)[x] == multiset(options)[x]
  {
    if |options| == 0 then []
    else
      assert options == [options[0]] + options[1..];
      (if options[0] == "" then [] else [options[0]]) + NonEmpty(options[1..])
  }

  /** Dropping empty options keeps the relative order of the others. */
  lemma {:induction false} NonEmptyAppend(a: seq<string>, b: seq<string>)
    ensures NonEmpty(a + b) == NonEmpty(a) + NonEmpty(b)
  {
    if |a| > 0 {
      assert (a + b)[1..] == a[1..] + b;
      NonEmptyAppend(a[1..], b);
    } else {
      assert a + b == b;
    }
  }

  /**
   * `onSubmit`: a blank title (after trimming) is refused first; then, with the empty options
   * dropped, fewer than two options are refused. Otherwise the payload carries the untrimmed
   * title, the non-empty options (whitespace-only ones included), an empty description as
   * absent, and the flags read back as booleans.
   */
  function Submit(form: FormState): (r: Submission)
    ensures IsBlank(form.title) ==> r == Refuse(TitleRequiredMessage)
    ensures !IsBlank(form.title) && |NonEmpty(form.options)| < 2 ==> r == Refuse(TooFewOptionsMessage)
    ensures r.Send? <==> !IsBlank(form.title) && |NonEmpty(form.options)| >= 2
    ensures r.Send? ==>
      && r.payload.title == form.title
      && r.payload.options == NonEmpty(form.options)
      && (r.payload.description.None? <==> form.description == "")
      && (r.payload.description.Some? ==> r.payload.description.value == form.description)
      && r.payload.isPublic == (form.isPublic == "true")
      && r.payload.allowMultipleVotes == (form.allowMultipleVotes == "true")
      && r.payload.expiresAt == form.expiresAt
  {
    if IsBlank(form.title) then
      Refuse(TitleRequiredMessage)
    else
      var valid := NonEmpty(form.options);
      if |valid| < 2 then
        Refuse(TooFewOptionsMessage)
      else
        Send(Payload(
          form.title,
          if form.description == "" then None else Some(form.description),
          valid,
          FlagOf(form.isPublic),
          FlagOf(form.allowMultipleVotes),
          form.expiresAt))
  }

  /** A whitespace-only option is not dropped on submit. */
  lemma {:induction false} WhitespaceOptionKept(form: FormState, i: nat)
    requires !IsBlank(form.title) && |NonEmpty(form.options)| >= 2
    requires i < |form.options| && form.options[i] != ""
    ensures form.options[i] in Submit(form).payload.options
  {
    assert form.options[i] in multiset(form.options);
  }

  /**
   * Loading a poll and submitting the form untouched sends the poll's own title, visibility
   * and multiple-vote setting back, with its non-empty options in their original order.
   */
  lemma LoadThenSubmit(form: FormState, poll: LoadedPoll, offsetMinutes: int)
    requires !IsBlank(poll.title) && |NonEmpty(poll.optionTexts)| >= 2
    ensures Load(form, Some(poll), offsetMinutes).Some?
    ensures Submit(Load(form, Some(poll), offsetMinutes).value).Send?
    ensures Submit(Load(form, Some(poll), offsetMinutes).value).payload.title == poll.title
    ensures Submit(Load(form, Some(poll), offsetMinutes).value).payload.options == NonEmpty(poll.optionTexts)
    ensures Submit(Load(form, Some(poll), offsetMinutes).value).payload.isPublic == poll.isPublic
    ensures Submit(Load(form, Some(poll), offsetMinutes).value).payload.allowMultipleVotes == poll.allowMultipleVotes
  {
  }

  /**
   * The expiry does not survive an untouched load and submit: it comes back moved by the
   * timezone offset, so it is unchanged exactly in a browser running at UTC; west of UTC
   * (a positive offset) it comes back earlier.
   */
  lemma LoadThenSubmitShiftsExpiry(form: FormState, poll: LoadedPoll, offsetMinutes: int)
    requires !IsBlank(poll.title) && |NonEmpty(poll.optionTexts)| >= 2
    requires poll.expiresAt.Some?
    ensures Submit(Load(form, Some(poll), offsetMinutes).value).payload.expiresAt
      == Some(poll.expiresAt.value - offsetMinutes * MillisPerMinute)
    ensures Submit(Load(form, Some(poll), offsetMinutes).value).payload.expiresAt == poll.expiresAt
      <==> offsetMinutes == 0
  {
    var loaded := Load(form, Some(poll), offsetMinutes).value;
    assert loaded.expiresAt == Some(ShiftedExpiry(poll.expiresAt.value, offsetMinutes));
    assert loaded.title == poll.title && loaded.options == poll.optionTexts;
    assert Submit(loaded).payload.expiresAt == loaded.expiresAt;
  }

  /** The form as first drawn, before any poll has loaded, is refused for its empty title. */
  lemma DefaultsRefused()
    ensures Submit(Defaults()) == Refuse(TitleRequiredMessage)
  {
    assert IsBlank(Defaults().title);
  }

  /** Loaded into the fresh form, a poll has an expiry in the form exactly when it has one. */
  lemma LoadIntoDefaults(poll: LoadedPoll, offsetMinutes: int)
    ensures Load(Defaults(), Some(poll), offsetMinutes).value.expiresAt.Some? <==> poll.expiresAt.Some?
  {
  }
}
