# Field builder choice-list editor, in Dafny

This project models the editor state of the `Builder` form component of
React-FieldBuilder and the four click handlers that change it:

- Clear resets the form.
- Submit appends a missing default value, then checks the label.
- "+" adds the typed choice.
- "-" removes the typed choice.

The component keeps seven pieces of state:

- the choice list, which starts as a single placeholder entry `{Choice: "", _id: "PLACEHOLDER"}`;
- the text typed into the add/remove input (`newChoice`);
- the default value;
- the visibility of the "Over Max" notice;
- the multi-select flag;
- the selected order;
- the label.

The model has three modules:

- `ChoiceList` (`choices.dfy`): a choice entry, the placeholder, `MAX_CHOICES = 2`, and the filter
  that "-" uses, with lemmas about it. The filter keeps order, removes exactly one entry when
  texts are distinct, and keeps texts distinct. There are also lemmas that filtering and guarded
  appends keep the list well formed: the placeholder stays first and no two texts are equal.
- `FieldBuilder` (`builder.dfy`): class `Builder` with the component's state as fields, a
  constructor for the initial state, and one method per handler. Each handler is a single atomic
  transition from the state before the click. Every handler except Clear returns a `Status`
  naming its outcome: the failure statuses stand for the alerts, `OverMax` for the "Over Max"
  notice, and `Ok` for success (for "-", the "deleted" alert). The membership tests of "+" and
  Submit are the source's linear-search loops.
- `Sessions` (`sessions.dfy`): `Replay` runs any sequence of user events against a freshly
  constructed component. Events are typing into the inputs, which writes the bound field, and
  clicking the buttons, which calls the handler. `Replay` proves that the list stays well formed
  whatever the events. Without a submit, it also proves the list never holds more than
  `MAX_CHOICES` entries besides the placeholder. Five fixed sessions pin down concrete
  behaviours of the code as written.

The model follows the code as written, including these behaviours:

- Submit appends a default value that is not in the list before it checks the label. It appends
  even when the label is empty, and it never tests the maximum. So a list already at the maximum
  grows past it (`Sessions.SubmitPastMax`). Submit sends nothing anywhere.
- "-" neither hides the "Over Max" notice nor clears the typed text (`Sessions.OverMaxThenRemove`).
- "+" refuses only when the list, placeholder included, is longer than `MAX_CHOICES`. That allows
  two real entries.
- Clear resets the list to the single placeholder.
- The order selection is an index that Clear sets to 0.

## Model

| member | source | states |
|---|---|---|
| `ChoiceList.FilterOut` | src/Builder/BuilderApp.js:95 | the filtered list is no longer than the input; an entry is kept exactly when it was in the input and its text differs from the removed text; the length is unchanged exactly when no entry had that text |
| `ChoiceList.FilterOutConcat` | src/Builder/BuilderApp.js:95 | filtering distributes over concatenation, so kept entries keep their original relative order |
| `ChoiceList.FilterOutAbsent` | src/Builder/BuilderApp.js:94-99 | filtering a text no entry has returns the list unchanged |
| `ChoiceList.FilterOutUnique` | src/Builder/BuilderApp.js:95 | on a list with distinct texts, filtering the text of entry i yields the list with exactly entry i cut out, one entry shorter |
| `ChoiceList.FilterOutDistinct` | src/Builder/BuilderApp.js:95 | filtering keeps texts pairwise distinct |
| `ChoiceList.FilterOutWellFormed` | src/Builder/BuilderApp.js:90-95 | filtering a non-empty text keeps the placeholder first and texts distinct |
| `ChoiceList.AppendWellFormed` | src/Builder/BuilderApp.js:66-82 | appending an entry whose text is absent keeps the placeholder first and texts distinct |
| `FieldBuilder.Builder.constructor` | src/Builder/BuilderApp.js:12-18 | initial state: list is the placeholder alone, inputs and label empty, notice hidden, multi-select off, order 0 |
| `FieldBuilder.Builder.HandleClear` | src/Builder/BuilderApp.js:20-33 | from any state: list back to the placeholder alone, typed text, default value and label empty, notice hidden, order 0, multi-select off |
| `FieldBuilder.Builder.HandleSubmit` | src/Builder/BuilderApp.js:38-56 | a default value absent from the list is appended as one entry with id DEFAULT_VALUE and the typed text is cleared, whether or not the label is empty; a present default (the empty default always matches the placeholder) leaves list and typed text unchanged; status is LabelRequired exactly when the label is empty; the other fields are unchanged; the list stays well formed |
| `FieldBuilder.Builder.AddNewChoice` | src/Builder/BuilderApp.js:61-84 | empty text: EmptyChoice, nothing changes; a text already present: Duplicate, nothing changes; otherwise a list longer than MAX_CHOICES: OverMax, notice visible, list and typed text unchanged; otherwise Ok, notice hidden, exactly one entry with the typed text and the given id appended at the end, typed text cleared; the list stays well formed and within the maximum |
| `FieldBuilder.Builder.Remove` | src/Builder/BuilderApp.js:89-102 | empty text: EmptyChoice, nothing changes; a text matching nothing: NotFound, nothing changes; otherwise Ok and the list is the filtered list, namely the old list with exactly the one non-placeholder entry of that text cut out; typed text and notice are never modified; the list stays well formed and within the maximum |
| `Sessions.Replay` | src/Builder/BuilderApp.js:12-102 | after any sequence of events from the initial state the placeholder is first and texts are distinct; without a submit the list holds at most MAX_CHOICES entries besides the placeholder |
| `Sessions.AddSameTextTwice` | src/Builder/BuilderApp.js:61-84 | adding "x" twice: first Ok, then Duplicate, and the list holds one "x" |
| `Sessions.OverMaxThenRemove` | src/Builder/BuilderApp.js:72-102 | a third real entry is refused with the notice visible; a later removal succeeds but leaves the notice visible and the typed text in place |
| `Sessions.SubmitWithoutLabel` | src/Builder/BuilderApp.js:38-56 | submit with an empty label reports LabelRequired after appending the missing default value |
| `Sessions.SubmitPastMax` | src/Builder/BuilderApp.js:47-55 | submit on a list at the maximum appends the missing default, leaving MAX_CHOICES + 1 real entries |
| `Sessions.SubmitWithPresentDefault` | src/Builder/BuilderApp.js:40-55 | a default value already in the list is not appended again and submit succeeds |

## Left out

- Rendering and form layout (src/Builder/BuilderApp.js:104-202) and the `SubmitButton` component: UI only.
- The `onChange` bindings of the inputs: each one only writes its field, so sessions write the field directly.
- `alert` and `console.log`: they become the returned `Status`, or are dropped.
- Id generation from the clock (src/Builder/BuilderApp.js:78): the id is a parameter of `AddNewChoice`, and no uniqueness is claimed, since two clicks in the same millisecond get the same id.
- The order selection stores a DOM element and Clear mutates its `selectedIndex`: it is modelled as an index that Clear sets to 0.
- React's asynchronous, batched state updates: each handler is one atomic update computed from the state before it.
- Remote submission or persistence: the code has none.
