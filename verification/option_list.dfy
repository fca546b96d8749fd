/**
 * The option-list editing both poll forms share: `addOption` and `removeOption` keep the
 * number of option inputs between two and ten.
 */
module OptionList {
  import Validation

  /** The number of option inputs is within the forms' limits. */
  predicate InBounds(options: seq<string>) {
    Validation.MinOptions <= |options| <= Validation.MaxOptions
  }

  /** `addOption`: below the maximum, one empty option joins at the end; at it, nothing changes. */
  function AddOption(options: seq<string>): (r: seq<string>)
    ensures options <= r
    ensures |r| == if |options| < Validation.MaxOptions then |options| + 1 else |options|
    ensures forall i :: |options| <= i < |r| ==> r[i] == ""
  {
    if |options| < Validation.MaxOptions then options + [""] else options
  }

  /**
   * `removeOption(index)`: above the minimum, the option at `index` goes and the others keep
   * their order; at the minimum, or for an index past the end, nothing changes.
   */
  function RemoveOption(options: seq<string>, index: nat): (r: seq<string>)
    ensures |options| > Validation.MinOptions && index < |options| ==>
      && |r| == |options| - 1
      && (forall i :: 0 <= i < index ==> r[i] == options[i])
      && (forall i :: index <= i < |r| ==> r[i] == options[i + 1])
    ensures |options| <= Validation.MinOptions || index >= |options| ==> r == options
    ensures multiset(r) <= multiset(options)
  {
    if |options| > Validation.MinOptions && index < |options| then
      assert options == options[..index] + [options[index]] + options[index + 1..];
      options[..index] + options[index + 1..]
    else
      options
  }

  /** Removing the option just added gives the list back. */
  lemma {:induction false} RemoveUndoesAdd(options: seq<string>)
    requires InBounds(options) && |options| < Validation.MaxOptions
    ensures RemoveOption(AddOption(options), |options|) == options
  {
    var added := AddOption(options);
    assert added[..|options|] == options;
  }

  /** A button press on the option list. */
  datatype Edit = Add | Remove(index: nat)

  function Step(options: seq<string>, edit: Edit): seq<string> {
    match edit
    case Add => AddOption(options)
    case Remove(index) => RemoveOption(options, index)
  }

  /** The option list after a series of button presses, in order. */
  function Run(options: seq<string>, edits: seq<Edit>): seq<string>
    decreases |edits|
  {
    if |edits| == 0 then options else Run(Step(options, edits[0]), edits[1..])
  }

  /** Each press keeps an in-bounds list in bounds. */
  lemma StepKeepsBounds(options: seq<string>, edit: Edit)
    requires InBounds(options)
    ensures InBounds(Step(options, edit))
  {
  }

  /** Any series of presses keeps an in-bounds list in bounds. */
  lemma {:induction false} RunKeepsBounds(options: seq<string>, edits: seq<Edit>)
    requires InBounds(options)
    ensures InBounds(Run(options, edits))
    decreases |edits|
  {
    if |edits| > 0 {
      StepKeepsBounds(options, edits[0]);
      RunKeepsBounds(Step(options, edits[0]), edits[1..]);
    }
  }

  /**
   * A list loaded with too many or too few options cannot be pushed further out of bounds:
   * presses keep the count between min(n, 2) and max(n, 10) for a starting count n.
   */
  lemma {:induction false} RunStaysBetween(options: seq<string>, edits: seq<Edit>)
    ensures |Run(options, edits)| >= if |options| < Validation.MinOptions then |options| else Validation.MinOptions
    ensures |Run(options, edits)| <= if |options| > Validation.MaxOptions then |options| else Validation.MaxOptions
    decreases |edits|
  {
    if |edits| > 0 {
      RunStaysBetween(Step(options, edits[0]), edits[1..]);
    }
  }
}
