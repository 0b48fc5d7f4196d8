# Form component: validators, state transitions and confirmation summary

This project models the logic of the React form component `Form`
(`src/components/Form.jsx`). The component keeps six pieces of state:

- `formData`, an object with eight fields. Six hold strings: name, email,
  password, comments, country and gender. Two hold booleans: the "Human"
  and "AI" checkboxes.
- the three validation messages `nameError`, `emailError` and `passwordError`.
- the two flags `showModal` (the confirmation dialog) and `showAlert`
  (the "fill all the fields" alert).

It reacts to three events:

- a change of an input revalidates that field and stores the new value;
- a submit (button or Enter key) raises the alert when some value is the
  empty string, and otherwise opens the dialog;
- closing the dialog hides it.

The dialog lists one row per field, with its label and its value as text.

The project has three modules:

- `Validators` (`validators.dfy`) restates the email and password
  regular expressions twice. The first form is literal: a split of the
  input for the email pattern, lookaheads for the password pattern. The
  second is a direct character-level characterization. A lemma proves the
  two agree. The name check's pattern is an unanchored character class:
  "some character is special". `NameError`'s own contract states the other
  direction: the error is empty iff every character is outside the class.
  JavaScript's `\s` is spelled out as the ECMAScript whitespace and
  line-terminator code points. `.` in a lookahead excludes line terminators.
- `FormLogic` (`form_logic.dfy`) holds the component state as a value and
  the transitions as pure functions. It also has the summary rows and the
  lemmas that relate several steps. `formData` is a key sequence, which
  keeps enumeration order, plus a map from key to `Value = Str | Bool`.
- `FormComponent` (`form_component.dfy`) is a class `Form` with the six
  state fields. Its methods are the handlers. Each method is proved to
  perform exactly one `FormLogic` transition and to change nothing outside
  its `modifies` frame.

The model follows the code where it differs from how the component is
sometimes described:

- the code does not re-run any validator on submit;
- the submit gate ignores the three error messages;
- the email pattern also forbids `@` inside each of its runs;
- there is no asynchronous or randomized submission, and no pending,
  success or failure state.

## Model

| member | source | states |
|---|---|---|
| Validators.NameError | src/components/Form.jsx:43-46 | the name error is "" exactly when no character is one of the 27 special characters, and is otherwise "Special characters are not allowed" |
| Validators.NameErrorAfterKeystroke | src/components/Form.jsx:44-45 | typing one more character raises the name error iff it was already raised or the new character is special |
| Validators.NameAllowsPunctuation | src/components/Form.jsx:44 | letters, digits, space, `-`, `.`, `,` and `/` are never rejected |
| Validators.NameExamples | src/components/Form.jsx:44-45 | "Bob!" is rejected; "Jean-Luc O." is accepted |
| Validators.EmailPatternCharacterized | src/components/Form.jsx:49 | the anchored pattern matches iff the input has no whitespace, exactly one `@` that is not first, and a `.` after it that is neither first nor last of the part after the `@` |
| Validators.EmailError | src/components/Form.jsx:48-51 | the email error is "" exactly for well-formed addresses as above, and is otherwise "Invalid Email" |
| Validators.EmailAccepts | src/components/Form.jsx:49-50 | "a@b.c" and "a@b.c.d" are accepted |
| Validators.EmailRejects | src/components/Form.jsx:49-50 | "a@b", "a@b@c.d", "@b.c" and "a b@c.d" are rejected |
| Validators.PasswordPatternCharacterized | src/components/Form.jsx:55 | the pattern with its two lookaheads matches iff the input has 6 to 16 characters, all letters, digits or `!@#$%^&*`, with at least one digit and at least one of those symbols |
| Validators.PasswordError | src/components/Form.jsx:53-60 | the password error is "" exactly for valid passwords as above, and is otherwise the fixed 6-16/digit/special message |
| Validators.PasswordAccepts | src/components/Form.jsx:54-59 | "abc123!" is accepted |
| Validators.PasswordRejects | src/components/Form.jsx:54-59 | "abc123" (no symbol), "abc!@#" (no digit) and "a1!" (too short) are rejected |
| FormLogic.InitialFormData | src/components/Form.jsx:10-19 | the eight keys in declaration order; the six string fields are "" and both checkboxes are false |
| FormLogic.NewValue | src/components/Form.jsx:41 | a checkbox stores `checked` as a boolean; any other input stores `value` as a string |
| FormLogic.Spread | src/components/Form.jsx:63 | the shallow merge sets only the named key; every other key keeps its value; the key order is unchanged for an existing key, and a new key is appended |
| FormLogic.Change | src/components/Form.jsx:39-64 | the changed key gets the new value and no other key changes; the key order is kept for an existing key and a new key is appended; only the changed field's own error is recomputed, to the validator's verdict on `value`; changes to other fields leave all three errors alone; neither flag changes |
| FormLogic.Submit | src/components/Form.jsx:66-76 | the alert is raised iff some value is exactly ""; the dialog opens iff every string value is non-empty, so booleans and error messages never matter; `formData` and the errors are untouched |
| FormLogic.Close | src/components/Form.jsx:78-80 | the dialog is hidden; the data, the errors and the alert are untouched |
| FormLogic.AlertElapsed | src/components/Form.jsx:70-72 | the alert is hidden; nothing else changes |
| FormLogic.InitialSubmitRaisesAlert | src/components/Form.jsx:10-19 | submitting the untouched form raises the alert and opens no dialog |
| FormLogic.CheckboxNeverBlocks | src/components/Form.jsx:41-75 | when no value is "", setting a checkbox keeps it so, because `false !== ""`; submitting then opens the dialog and leaves the alert flag as it was, shown or hidden |
| FormLogic.ChangeIdempotent | src/components/Form.jsx:39-64 | repeating a change has no further effect |
| FormLogic.ChangesCommute | src/components/Form.jsx:39-64 | changes to two different existing fields give the same state in either order |
| FormLogic.KeysOnlyGrow | src/components/Form.jsx:63 | after any sequence of events the original keys are still present, first and in order |
| FormLogic.OwnFieldsKeepKeys | src/components/Form.jsx:10-19 | while only the form's own fields change, `formData` keeps exactly the eight declared keys in declaration order |
| FormLogic.FillStoresValues | src/components/Form.jsx:63 | editing distinct existing fields one after another leaves each with its new value and every other field as it was |
| FormLogic.Step | src/components/Form.jsx:39-80 | every event (a change, a submit, closing the dialog, the alert timer) keeps `formData` well formed: each key listed once, exactly the keys that hold a value |
| FormLogic.Run | src/components/Form.jsx:39-80 | any sequence of events keeps `formData` well formed |
| FormLogic.Summary | src/components/Form.jsx:188-197 | the dialog's table has one row per key of `formData`, in key order, with the key's label and its value as text |
| FormLogic.Render | src/components/Form.jsx:192-194 | a boolean is shown as "true"/"false" and a string verbatim |
| FormLogic.Rows | src/components/Form.jsx:188-197 | one row per key, in key order, labelled from the label table, with the value rendered as text |
| FormLogic.LabelsInOrder | src/components/Form.jsx:82-91 | the eight keys are labelled Name, Email, Password, Comments, Country, Gender, Human and AI |
| FormLogic.SummaryOfFields | src/components/Form.jsx:188-195 | for the eight declared keys the dialog has exactly eight rows, in declaration order, each with its label and value text |
| FormLogic.InitialSummary | src/components/Form.jsx:10-19 | the untouched form's summary is six empty strings followed by "false" twice |
| FormLogic.FillThenSubmit | src/components/Form.jsx:63-75 | setting every key of `formData` once, in any order, to a value other than "" and then submitting opens the dialog, leaves the alert flag alone, keeps the key order, and leaves each key holding the value it was given |
| FormLogic.FillEveryFieldThenSubmit | src/components/Form.jsx:66-76 | filling every field with something other than "" and submitting opens the dialog even while errors show; the dialog echoes exactly the values entered |
| FormComponent.Form.constructor | src/components/Form.jsx:10-25 | mounting gives the initial data, three empty errors and both flags false |
| FormComponent.Form.HandleChange | src/components/Form.jsx:39-64 | updates the fields exactly as `Change`; only `formData` and the three errors are in its frame |
| FormComponent.Form.HandleSubmit | src/components/Form.jsx:66-76 | updates the fields exactly as `Submit`; only the two flags are in its frame |
| FormComponent.Form.CloseModal | src/components/Form.jsx:78-80 | `showModal` becomes false, as `Close`; nothing else is in its frame |
| FormComponent.Form.AlertTimeout | src/components/Form.jsx:70-72 | `showAlert` becomes false, as `AlertElapsed`; nothing else is in its frame |
| FormComponent.Form.SummaryRows | src/components/Form.jsx:188-197 | the dialog's rows for the current `formData`, one per key in order |

## Left out

- Rendering (JSX, CSS, icons, the bootstrap `Modal`, `Alert` and `Button`)
  is not modelled. Only the content of the dialog's table is modelled.
- The document-level `keypress` listener and its registration in
  `useEffect` (lines 27-37) are not modelled. Enter triggers the same
  submit handler as the button.
- `event.preventDefault()` is a browser call and is not modelled.
- The one-second delay of the alert timer is not modelled.
  `AlertTimeout`/`AlertElapsed` may fire at any point. So a timer started
  by an earlier submit can hide a later alert early; the model allows this
  but does not order timers.
- React's batching of state updates and stale closures are not modelled.
  Each handler is one atomic step.
- The select and radio inputs offer only fixed options. The handler does
  not check this, so the model accepts any string from any input.
- `FormLogic.Spread` appends every new key at the end. JavaScript would
  enumerate array-index-like names (`"0"`, `"1"`, …) first. The form's own
  inputs never produce a new key.
- JavaScript regular expressions without the `u` flag work on UTF-16 code
  units, while Dafny's `char` is a Unicode scalar value. Every character the
  patterns name is in the Basic Multilingual Plane, and any other character
  is matched by a negated class in every unit. So the accepted sets agree.
  Code-unit lengths are not modelled.
- A second variant of the form, with a required-name rule and an
  asynchronous, randomly failing submission, is not part of this model;
  it is not in `src/components/Form.jsx`.
