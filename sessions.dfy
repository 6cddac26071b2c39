/**
 Sessions of the field builder: what a user can do to the form, one event at
 a time, starting from a freshly mounted component. Typing into an input
 writes the matching field; the buttons call the handlers.
 */
module Sessions {
  import opened ChoiceList
  import opened FieldBuilder

  /** One user event on the form. */
  datatype Action =
    | TypeChoice(text: string)    // the add/remove input changes
    | TypeDefault(text: string)   // the default-value input changes
    | TypeLabel(text: string)     // the label input changes
    | ToggleMultiSelect(on: bool)
    | SelectOrder(index: nat)
    | ClickAdd(id: string)        // "+", with the id the clock would give
    | ClickRemove                 // "-"
    | ClickClear
    | ClickSubmit

  /** No event in `actions` submits the form. */
  predicate NoSubmit(actions: seq<Action>)
  {
    forall k :: 0 <= k < |actions| ==> !actions[k].ClickSubmit?
  }

  /** Runs `actions` in order against a fresh component and returns the final
      choice list. Whatever the events, the placeholder stays first and texts
      stay distinct; without a submit, at most MAX_CHOICES entries besides the
      placeholder are ever held. */
  method Replay(actions: seq<Action>) returns (cs: seq<Choice>)
    ensures WellFormed(cs)
    ensures NoSubmit(actions) ==> |cs| <= MAX_CHOICES + 1
  {
    var b := new Builder();
    var n := 0;
    while n < |actions|
      invariant 0 <= n <= |actions|
      invariant fresh(b)
      invariant b.Valid()
      invariant NoSubmit(actions[..n]) ==> b.WithinMax()
    {
      assert actions[..n + 1] == actions[..n] + [actions[n]];
      match actions[n] {
        case TypeChoice(t) => b.newChoice := t;
        case TypeDefault(t) => b.defaultValue := t;
        case TypeLabel(t) => b.labelText := t;
        case ToggleMultiSelect(on) => b.multiSelect := on;
        case SelectOrder(k) => b.order := k;
        case ClickAdd(id) => var _ := b.AddNewChoice(id);
        case ClickRemove => var _ := b.Remove();
        case ClickClear => b.HandleClear();
        case ClickSubmit => var _ := b.HandleSubmit();
      }
      n := n + 1;
    }
    assert actions[..n] == actions;
    cs := b.choices;
  }

  /** Adding the same text twice keeps one entry with that text. */
  method AddSameTextTwice() returns (first: Status, second: Status, cs: seq<Choice>)
    ensures first == Ok && second == Duplicate
    ensures cs == [Placeholder, Choice("x", "1")]
  {
    var b := new Builder();
    b.newChoice := "x";
    first := b.AddNewChoice("1");
    b.newChoice := "x";
    assert b.choices[1].text == "x";
    second := b.AddNewChoice("2");
    cs := b.choices;
  }

  /** A fresh component after "a" and "b" have been added with ids "1" and "2". */
  method TwoChoices() returns (b: Builder)
    ensures fresh(b) && b.Valid()
    ensures b.choices == [Placeholder, Choice("a", "1"), Choice("b", "2")]
    ensures b.newChoice == "" && b.defaultValue == "" && b.labelText == "" && b.warning == Hidden
  {
    b := new Builder();
    b.newChoice := "a";
    var s := b.AddNewChoice("1");
    b.newChoice := "b";
    s := b.AddNewChoice("2");
  }

  /** With two entries besides the placeholder, a third is refused and the
      notice is shown; removing an entry afterwards leaves the notice shown
      and the typed text in the input. */
  method OverMaxThenRemove() returns (added: Status, shown: Visibility, removed: Status,
                                      after: Visibility, typed: string, cs: seq<Choice>)
    ensures added == OverMax && shown == Visible
    ensures removed == Ok && after == Visible && typed == "a"
    ensures cs == [Placeholder, Choice("b", "2")]
  {
    var b := TwoChoices();
    b.newChoice := "c";
    added := b.AddNewChoice("3");
    shown := b.warning;
    b.newChoice := "a";
    ghost var before := b.choices;
    assert before[1].text == "a";
    FilterOutUnique(before, "a", 1);
    assert before[..1] + before[2..] == [Placeholder, Choice("b", "2")];
    removed := b.Remove();
    after := b.warning;
    typed := b.newChoice;
    cs := b.choices;
  }

  /** Submitting with an empty label is refused, but a missing default value
      has already been appended by then. */
  method SubmitWithoutLabel() returns (status: Status, cs: seq<Choice>)
    ensures status == LabelRequired
    ensures cs == [Placeholder, Choice("d", DefaultValueId)]
  {
    var b := new Builder();
    b.defaultValue := "d";
    status := b.HandleSubmit();
    cs := b.choices;
  }

  /** Submit appends a missing default value without the maximum test, so a
      list already at the maximum grows past it. */
  method SubmitPastMax() returns (status: Status, count: nat)
    ensures status == Ok
    ensures count == MAX_CHOICES + 2
  {
    var b := TwoChoices();
    b.defaultValue := "d";
    b.labelText := "L";
    status := b.HandleSubmit();
    count := |b.choices|;
  }

  /** A default value already in the list is not appended again. */
  method SubmitWithPresentDefault() returns (status: Status, cs: seq<Choice>)
    ensures status == Ok
    ensures cs == [Placeholder, Choice("A", "1")]
  {
    var b := new Builder();
    b.newChoice := "A";
    var s := b.AddNewChoice("1");
    b.defaultValue := "A";
    b.labelText := "L";
    assert b.choices[1].text == "A";
    status := b.HandleSubmit();
    cs := b.choices;
  }
}
