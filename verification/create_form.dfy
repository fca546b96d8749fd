/**
 * The create-poll form (src/features/polls/components/create-poll-form.tsx): its starting
 * values, its option-list editing and what the schema it is validated with makes of them.
 */
module CreateForm {
  import opened Wrappers
  import opened Domain
  import OptionList
  import Validation

  /** The form's values; the visibility flags are what the schema receives for them. */
  datatype FormState = FormState(
    title: string,
    description: string,
    options: seq<string>,
    isPublic: Validation.FlagInput,
    allowMultipleVotes: Validation.FlagInput,
    expiresAt: Option<Timestamp>
  )

  /**
   * The starting values exactly as the form declares them: the two flags are JSON booleans,
   * although the schema declares them as strings.
   */
  function InitialAsWritten(): (s: FormState)
    ensures s.options == ["", ""] && s.title == "" && s.description == ""
    ensures s.isPublic == Validation.Boolean(true)
    ensures s.allowMultipleVotes == Validation.Boolean(false)
  {
    FormState("", "", ["", ""], Validation.Boolean(true), Validation.Boolean(false), None)
  }

  /**
   * The starting values with the flags written as the strings the radio inputs produce:
   * public, one vote per voter, two empty options, empty title and description.
   */
  function Initial(): (s: FormState)
    ensures s.options == ["", ""] && s.title == "" && s.description == ""
    ensures s.isPublic == Validation.Text("true")
    ensures s.allowMultipleVotes == Validation.Text("false")
  {
    FormState("", "", ["", ""], Validation.Text("true"), Validation.Text("false"), None)
  }

  /** What the schema resolver is handed on submit; the description field is always present. */
  function ToInput(s: FormState): Validation.CreateInput {
    Validation.CreateInput(s.title, Some(s.description), s.options, s.isPublic, s.allowMultipleVotes, s.expiresAt)
  }

  /** The user types a title and the option texts and leaves everything else untouched. */
  function Fill(s: FormState, title: string, options: seq<string>): FormState {
    s.(title := title, options := options)
  }

  /** The untouched form is rejected: the title is missing and both options are empty. */
  lemma InitialRejected()
    ensures Validation.ValidateCreate(ToInput(Initial())).Invalid?
    ensures Validation.TitleRequired in Validation.ValidateCreate(ToInput(Initial())).issues
    ensures Validation.OptionEmpty(0) in Validation.ValidateCreate(ToInput(Initial())).issues
    ensures Validation.OptionEmpty(1) in Validation.ValidateCreate(ToInput(Initial())).issues
  {
    var input := ToInput(Initial());
    assert Validation.Fails(input, Validation.TitleRequired);
    assert Validation.Fails(input, Validation.OptionEmpty(0));
    assert Validation.Fails(input, Validation.OptionEmpty(1));
  }

  /**
   * With the declared starting values, no title and options the user types can pass the
   * schema: the untouched visibility flag is a boolean, not a string.
   */
  lemma AsWrittenDefaultsAlwaysRejected(title: string, options: seq<string>)
    ensures Validation.ValidateCreate(ToInput(Fill(InitialAsWritten(), title, options))).Invalid?
    ensures Validation.FlagNotString(Validation.IsPublicField)
      in Validation.ValidateCreate(ToInput(Fill(InitialAsWritten(), title, options))).issues
  {
    var input := ToInput(Fill(InitialAsWritten(), title, options));
    assert Validation.Fails(input, Validation.FlagNotString(Validation.IsPublicField));
  }

  /**
   * With string-valued defaults, a valid title and valid options are all the form needs:
   * it is accepted as a public poll with one vote per voter.
   */
  lemma FilledDefaultsAccepted(title: string, options: seq<string>)
    requires Validation.TitleOk(title) && Validation.OptionsOk(options)
    ensures Validation.ValidateCreate(ToInput(Fill(Initial(), title, options))).Valid?
    ensures Validation.ValidateCreate(ToInput(Fill(Initial(), title, options))).data.isPublic == "true"
    ensures Validation.ValidateCreate(ToInput(Fill(Initial(), title, options))).data.allowMultipleVotes == "false"
  {
  }

  /** Editing the option list from the starting state never leaves two to ten options. */
  lemma {:induction false} EditsFromInitialStayInBounds(edits: seq<OptionList.Edit>)
    ensures OptionList.InBounds(OptionList.Run(Initial().options, edits))
  {
    OptionList.RunKeepsBounds(Initial().options, edits);
  }
}
