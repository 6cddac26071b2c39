/**
 The field builder's editor state and the four handlers that change it.
 Each handler is one atomic transition from the state before the click to the
 state after it; what it would tell the user becomes a returned status.
 */
module FieldBuilder {
  import opened ChoiceList

  /** Visibility of the "Over Max" notice. */
  datatype Visibility = Hidden | Visible

  /** The outcome a handler reports: the failures stand for its alerts. */
  datatype Status =
    | Ok             // the handler went through ("Choice ... deleted" for "-")
    | EmptyChoice    // "choice cannot be empty"
    | Duplicate      // "duplicate choice"
    | OverMax        // the "Over Max" notice is shown and nothing is added
    | NotFound       // "Choice did not find"
    | LabelRequired  // "Label field is required"

  /** The id given to a default value that submit appends to the list. */
  const DefaultValueId: string := "DEFAULT_VALUE"

  class Builder {
    var choices: seq<Choice>
    var newChoice: string      // text of the add/remove input
    var defaultValue: string
    var warning: Visibility
    var multiSelect: bool
    var order: nat             // index of the selected order option
    var labelText: string

    /** The placeholder stays first and no two entries share a text. */
    ghost predicate Valid()
      reads this
    {
      WellFormed(choices)
    }

    /** At most MAX_CHOICES entries besides the placeholder. */
    ghost predicate WithinMax()
      reads this
    {
      |choices| <= MAX_CHOICES + 1
    }

    /** The state the component starts in. */
    constructor ()
      ensures Valid() && WithinMax()
      ensures choices == [Placeholder] && newChoice == "" && defaultValue == ""
      ensures warning == Hidden && !multiSelect && order == 0 && labelText == ""
    {
      choices := [Placeholder];
      newChoice := "";
      defaultValue := "";
      warning := Hidden;
      multiSelect := false;
      order := 0;
      labelText := "";
    }

    /** The Clear button: every field back to its initial value, whatever it was. */
    method HandleClear()
      modifies this
      ensures Valid() && WithinMax()
      ensures choices == [Placeholder] && newChoice == "" && defaultValue == ""
      ensures warning == Hidden && labelText == "" && order == 0 && !multiSelect
    {
      choices := [Placeholder];
      newChoice := "";
      defaultValue := "";
      warning := Hidden;
      labelText := "";
      order := 0;
      multiSelect := false;
    }

    /** Form submission: a default value missing from the list is appended
        first, and only then is the label checked. */
    method HandleSubmit() returns (status: Status)
      requires Valid()
      modifies this
      ensures Valid()
      ensures status == (if old(labelText) == "" then LabelRequired else Ok)
      ensures Contains(old(choices), old(defaultValue)) ==>
                choices == old(choices) && newChoice == old(newChoice)
      ensures !Contains(old(choices), old(defaultValue)) ==>
                choices == old(choices) + [Choice(old(defaultValue), DefaultValueId)] &&
                newChoice == ""
      ensures old(defaultValue) == "" ==> choices == old(choices)
      ensures defaultValue == old(defaultValue) && warning == old(warning)
      ensures multiSelect == old(multiSelect) && order == old(order) && labelText == old(labelText)
    {
      var seen := false;
      var i := 0;
      while i < |choices|
        invariant 0 <= i <= |choices|
        invariant !seen
        invariant forall k :: 0 <= k < i ==> choices[k].text != defaultValue
      {
        if choices[i].text == defaultValue {
          seen := true;
          break;
        }
        i := i + 1;
      }
      assert seen ==> choices[i].text == defaultValue;
      assert choices[0].text == "";
      if !seen {
        AppendWellFormed(choices, Choice(defaultValue, DefaultValueId));
        choices := choices + [Choice(defaultValue, DefaultValueId)];
        newChoice := "";
      }
      if labelText == "" {
        status := LabelRequired;
        return;
      }
      status := Ok;
    }

    /** The "+" button: append the typed text as a new entry with id `id`,
        unless it is empty, already present, or the list is already longer
        than MAX_CHOICES (placeholder included). */
    method AddNewChoice(id: string) returns (status: Status)
      requires Valid()
      modifies this
      ensures Valid()
      ensures old(WithinMax()) ==> WithinMax()
      ensures old(newChoice) == "" ==> status == EmptyChoice && unchanged(this)
      ensures old(newChoice) != "" && Contains(old(choices), old(newChoice)) ==>
                status == Duplicate && unchanged(this)
      ensures old(newChoice) != "" && !Contains(old(choices), old(newChoice)) &&
              |old(choices)| > MAX_CHOICES ==>
                status == OverMax && warning == Visible &&
                choices == old(choices) && newChoice == old(newChoice)
      ensures old(newChoice) != "" && !Contains(old(choices), old(newChoice)) &&
              |old(choices)| <= MAX_CHOICES ==>
                status == Ok && warning == Hidden &&
                choices == old(choices) + [Choice(old(newChoice), id)] &&
                newChoice == ""
      ensures defaultValue == old(defaultValue) && multiSelect == old(multiSelect)
      ensures order == old(order) && labelText == old(labelText)
    {
      if newChoice == "" {
        status := EmptyChoice;
        return;
      }
      var i := 0;
      while i < |choices|
        invariant 0 <= i <= |choices|
        invariant forall k :: 0 <= k < i ==> choices[k].text != newChoice
      {
        if choices[i].text == newChoice {
          status := Duplicate;
          return;
        }
        i := i + 1;
      }
      if |choices| > MAX_CHOICES {
        warning := Visible;
        status := OverMax;
        return;
      } else {
        warning := Hidden;
      }
      AppendWellFormed(choices, Choice(newChoice, id));
      choices := choices + [Choice(newChoice, id)];
      newChoice := "";
      status := Ok;
    }

    /** The "-" button: drop every entry whose text is the typed text. The
        notice and the typed text are left as they are. */
    method Remove() returns (status: Status)
      requires Valid()
      modifies this
      ensures Valid()
      ensures old(WithinMax()) ==> WithinMax()
      ensures old(newChoice) == "" ==> status == EmptyChoice && unchanged(this)
      ensures old(newChoice) != "" && !Contains(old(choices), old(newChoice)) ==>
                status == NotFound && unchanged(this)
      ensures old(newChoice) != "" && Contains(old(choices), old(newChoice)) ==>
                status == Ok &&
                choices == FilterOut(old(choices), old(newChoice)) &&
                exists i :: 0 < i < |old(choices)| && old(choices)[i].text == old(newChoice) &&
                            choices == old(choices)[..i] + old(choices)[i + 1..]
      ensures newChoice == old(newChoice) && warning == old(warning)
      ensures defaultValue == old(defaultValue) && multiSelect == old(multiSelect)
      ensures order == old(order) && labelText == old(labelText)
    {
      if newChoice == "" {
        status := EmptyChoice;
        return;
      }
      var originLength := |choices|;
      var newChoices := FilterOut(choices, newChoice);
      if originLength == |newChoices| {
        status := NotFound;
        return;
      }
      ghost var i :| 0 <= i < |choices| && choices[i].text == newChoice;
      assert i != 0;
      FilterOutUnique(choices, newChoice, i);
      FilterOutWellFormed(choices, newChoice);
      choices := newChoices;
      status := Ok;
    }
  }
}
