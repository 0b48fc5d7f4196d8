/** The state of the form component as values, and its transitions as pure
    functions: the change handler, the submit handler, closing the
    confirmation dialog and the alert's timer running out. The class in
    FormComponent is proved to follow these functions step by step. */
module FormLogic {
  import opened Validators

  /** A field value: checkboxes hold a boolean, every other input a string. */
  datatype Value = Str(s: string) | Bool(b: bool)

  /** The `formData` object: its own keys in enumeration order, and the value
      under each key. */
  datatype FormData = FormData(keys: seq<string>, values: map<string, Value>)

  /** Keys are listed once each, and exactly the keys that have a value. */
  ghost predicate WellFormed(fd: FormData) {
    && (forall i, j :: 0 <= i < j < |fd.keys| ==> fd.keys[i] != fd.keys[j])
    && (forall k :: k in fd.values <==> k in fd.keys)
  }

  /** The eight fields, in the order they are declared and rendered. */
  const FieldKeys: seq<string> :=
    ["textInput", "emailInput", "passwordInput", "textareaInput",
     "selectInput", "genderInput", "humanInput", "aiInput"]

  lemma FieldKeysDistinct()
    ensures forall i, j :: 0 <= i < j < |FieldKeys| ==> FieldKeys[i] != FieldKeys[j]
  {
  }

  /** The mounted state of `formData`: the six string fields empty, both
      checkboxes unchecked. */
  function InitialFormData(): (fd: FormData)
    ensures WellFormed(fd) && fd.keys == FieldKeys
    ensures forall i :: 0 <= i < |FieldKeys| ==> fd.values[FieldKeys[i]] == if i < 6 then Str("") else Bool(false)
  {
    FieldKeysDistinct();
    FormData(FieldKeys, map k | k in FieldKeys :: if k == "humanInput" || k == "aiInput" then Bool(false) else Str(""))
  }

  /** The object spread `{...fd, [name]: v}`: the value under `name` is
      replaced, or added as a new last key; nothing else changes. */
  function Spread(fd: FormData, name: string, v: Value): (r: FormData)
    requires WellFormed(fd)
    ensures WellFormed(r)
    ensures name in r.values && r.values[name] == v
    ensures forall k :: k != name ==> (k in r.values <==> k in fd.values)
    ensures forall k :: k != name && k in fd.values ==> r.values[k] == fd.values[k]
    ensures name in fd.values ==> r.keys == fd.keys
    ensures name !in fd.values ==> r.keys == fd.keys + [name]
  {
    FormData(if name in fd.values then fd.keys else fd.keys + [name], fd.values[name := v])
  }

  /** Whether some value of `formData` is strictly equal to the empty string. */
  predicate SomeValueEmpty(fd: FormData) {
    exists k :: k in fd.values && fd.values[k] == Str("")
  }

  // ---------------------------------------------------------------------------
  // Component state and transitions

  datatype FormState = FormState(
    formData: FormData,
    nameError: string,
    emailError: string,
    passwordError: string,
    showModal: bool,
    showAlert: bool)

  function Initial(): (st: FormState)
    ensures WellFormed(st.formData)
  {
    FormState(InitialFormData(), "", "", "", false, false)
  }

  /** The parts of a change event's target that the change handler reads. */
  datatype ChangeEvent = ChangeEvent(name: string, value: string, inputType: string, checked: bool)

  /** The value stored for a change: `checked` for a checkbox, else `value`. */
  function NewValue(ev: ChangeEvent): (v: Value)
    ensures v.Bool? <==> ev.inputType == "checkbox"
    ensures v.Bool? ==> v.b == ev.checked
    ensures v.Str? ==> v.s == ev.value
  {
    if ev.inputType == "checkbox" then Bool(ev.checked) else Str(ev.value)
  }

  /** The change handler: store the new value under the event's name and
      revalidate that field only, from the event's `value`. */
  function Change(st: FormState, ev: ChangeEvent): (r: FormState)
    requires WellFormed(st.formData)
    ensures WellFormed(r.formData)
    ensures ev.name in r.formData.values && r.formData.values[ev.name] == NewValue(ev)
    ensures forall k :: k != ev.name ==> (k in r.formData.values <==> k in st.formData.values)
    ensures forall k :: k != ev.name && k in st.formData.values ==> r.formData.values[k] == st.formData.values[k]
    ensures ev.name in st.formData.values ==> r.formData.keys == st.formData.keys
    ensures ev.name !in st.formData.values ==> r.formData.keys == st.formData.keys + [ev.name]
    ensures ev.name == "textInput" ==>
              (r.nameError == "" <==> forall k :: 0 <= k < |ev.value| ==> ev.value[k] !in SpecialChars)
              && (r.nameError != "" ==> r.nameError == NameErrorMessage)
    ensures ev.name == "emailInput" ==>
              (r.emailError == "" <==> WellFormedEmail(ev.value))
              && (r.emailError != "" ==> r.emailError == InvalidEmailMessage)
    ensures ev.name == "passwordInput" ==>
              (r.passwordError == "" <==> ValidPassword(ev.value))
              && (r.passwordError != "" ==> r.passwordError == PasswordErrorMessage)
    ensures ev.name != "textInput" ==> r.nameError == st.nameError
    ensures ev.name != "emailInput" ==> r.emailError == st.emailError
    ensures ev.name != "passwordInput" ==> r.passwordError == st.passwordError
    ensures r.showModal == st.showModal && r.showAlert == st.showAlert
  {
    st.(formData := Spread(st.formData, ev.name, NewValue(ev)),
        nameError := if ev.name == "textInput" then NameError(ev.value) else st.nameError,
        emailError := if ev.name == "emailInput" then EmailError(ev.value) else st.emailError,
        passwordError := if ev.name == "passwordInput" then PasswordError(ev.value) else st.passwordError)
  }

  /** The submit handler: raise the alert when some value is the empty
      string, otherwise open the confirmation dialog. The error strings are
      not consulted, and a checkbox value never equals the empty string, so
      the dialog opens exactly when every string value is non-empty. */
  function Submit(st: FormState): (r: FormState)
    ensures r.formData == st.formData
    ensures r.nameError == st.nameError && r.emailError == st.emailError && r.passwordError == st.passwordError
    ensures r.showAlert <==> st.showAlert || exists k :: k in st.formData.values && st.formData.values[k] == Str("")
    ensures r.showModal <==> st.showModal || forall k :: k in st.formData.values && st.formData.values[k].Str? ==> st.formData.values[k].s != ""
    ensures r.showModal == st.showModal || r.showAlert == st.showAlert
  {
    if SomeValueEmpty(st.formData) then st.(showAlert := true) else st.(showModal := true)
  }

  /** Closing the confirmation dialog. */
  function Close(st: FormState): (r: FormState)
    ensures !r.showModal
    ensures r.formData == st.formData && r.showAlert == st.showAlert
    ensures r.nameError == st.nameError && r.emailError == st.emailError && r.passwordError == st.passwordError
  {
    st.(showModal := false)
  }

  /** The alert's one-second timer running out; the delay itself is not
      modelled. */
  function AlertElapsed(st: FormState): (r: FormState)
    ensures !r.showAlert
    ensures r.formData == st.formData && r.showModal == st.showModal
    ensures r.nameError == st.nameError && r.emailError == st.emailError && r.passwordError == st.passwordError
  {
    st.(showAlert := false)
  }

  /** Everything that can happen to the component: an input changes, the
      form is submitted (button or Enter key), the dialog is closed, or the
      alert's timer fires. */
  datatype Action = Edit(ev: ChangeEvent) | PressSubmit | Dismiss | AlertTimeout

  function Step(st: FormState, a: Action): (r: FormState)
    requires WellFormed(st.formData)
    ensures WellFormed(r.formData)
  {
    match a
    case Edit(ev) => Change(st, ev)
    case PressSubmit => Submit(st)
    case Dismiss => Close(st)
    case AlertTimeout => AlertElapsed(st)
  }

  /** The state after a sequence of actions. */
  function Run(st: FormState, actions: seq<Action>): (r: FormState)
    requires WellFormed(st.formData)
    ensures WellFormed(r.formData)
    decreases |actions|
  {
    if actions == [] then st else Run(Step(st, actions[0]), actions[1..])
  }

  // ---------------------------------------------------------------------------
  // Confirmation summary

  /** The `fieldLabels` object. */
  const FieldLabels: map<string, string> :=
    map["textInput" := "Name", "emailInput" := "Email", "passwordInput" := "Password",
        "textareaInput" := "Comments", "selectInput" := "Country", "genderInput" := "Gender",
        "humanInput" := "Human", "aiInput" := "AI"]

  /** The label cell of a row; a key without a label renders as nothing. */
  function Label(key: string): string {
    if key in FieldLabels then FieldLabels[key] else ""
  }

  /** The value cell of a row: a boolean as "true"/"false", a string verbatim. */
  function Render(v: Value): (t: string)
    ensures v.Bool? ==> (t == "true" <==> v.b) && (t == "false" <==> !v.b)
    ensures v.Str? ==> t == v.s
  {
    match v
    case Bool(b) => if b then "true" else "false"
    case Str(s) => s
  }

  datatype Row = Row(fieldLabel: string, text: string)

  /** The table rows for the given keys, in order. */
  function Rows(keys: seq<string>, values: map<string, Value>): (rows: seq<Row>)
    requires forall k :: k in keys ==> k in values
    ensures |rows| == |keys|
    ensures forall i :: 0 <= i < |keys| ==> rows[i].fieldLabel == Label(keys[i]) && rows[i].text == Render(values[keys[i]])
    decreases |keys|
  {
    if keys == [] then [] else [Row(Label(keys[0]), Render(values[keys[0]]))] + Rows(keys[1..], values)
  }

  /** The confirmation dialog's table: one row per key of `formData`. */
  function Summary(fd: FormData): (rows: seq<Row>)
    requires WellFormed(fd)
    ensures |rows| == |fd.keys|
    ensures forall i :: 0 <= i < |rows| ==> rows[i] == Row(Label(fd.keys[i]), Render(fd.values[fd.keys[i]]))
  {
    Rows(fd.keys, fd.values)
  }

  // ---------------------------------------------------------------------------
  // Properties

  /** Submitting the untouched form raises the alert and opens no dialog. */
  lemma InitialSubmitRaisesAlert()
    ensures Submit(Initial()).showAlert
    ensures !Submit(Initial()).showModal
  {
    assert Initial().formData.values["textInput"] == Str("");
  }

  /** Setting a checkbox can never make submission blocked: when no value
      is the empty string, it stays so, and submitting opens the dialog and
      leaves the alert flag as it was (shown or hidden). */
  lemma CheckboxNeverBlocks(st: FormState, name: string, b: bool)
    requires WellFormed(st.formData)
    requires !SomeValueEmpty(st.formData)
    ensures var r := Change(st, ChangeEvent(name, "on", "checkbox", b));
            && !SomeValueEmpty(r.formData)
            && Submit(r).showModal
            && Submit(r).showAlert == st.showAlert
  {
  }

  /** Repeating the same change has no further effect. */
  lemma ChangeIdempotent(st: FormState, ev: ChangeEvent)
    requires WellFormed(st.formData)
    ensures Change(Change(st, ev), ev) == Change(st, ev)
  {
  }

  /** Changes to two different existing fields can be made in either order. */
  lemma ChangesCommute(st: FormState, e1: ChangeEvent, e2: ChangeEvent)
    requires WellFormed(st.formData)
    requires e1.name != e2.name && e1.name in st.formData.values && e2.name in st.formData.values
    ensures Change(Change(st, e1), e2) == Change(Change(st, e2), e1)
  {
  }

  /** No field is ever removed, and the declared keys stay first, in order,
      whatever happens to the component. */
  lemma {:induction false} KeysOnlyGrow(st: FormState, actions: seq<Action>)
    requires WellFormed(st.formData)
    ensures st.formData.keys <= Run(st, actions).formData.keys
    decreases |actions|
  {
    if actions != [] {
      var next := Step(st, actions[0]);
      assert st.formData.keys <= next.formData.keys;
      KeysOnlyGrow(next, actions[1..]);
    }
  }

  /** Editing only the form's own fields keeps exactly the eight keys, in
      declaration order. */
  lemma {:induction false} OwnFieldsKeepKeys(st: FormState, actions: seq<Action>)
    requires WellFormed(st.formData) && st.formData.keys == FieldKeys
    requires forall i :: 0 <= i < |actions| && actions[i].Edit? ==> actions[i].ev.name in FieldKeys
    ensures Run(st, actions).formData.keys == FieldKeys
    decreases |actions|
  {
    if actions != [] {
      var next := Step(st, actions[0]);
      assert next.formData.keys == FieldKeys;
      forall i | 0 <= i < |actions[1..]| && actions[1..][i].Edit?
        ensures actions[1..][i].ev.name in FieldKeys
      {
        assert actions[1..][i] == actions[i + 1];
      }
      OwnFieldsKeepKeys(next, actions[1..]);
    }
  }

  /** The labels of the eight fields, in declaration order. */
  const FieldLabelTexts: seq<string> :=
    ["Name", "Email", "Password", "Comments", "Country", "Gender", "Human", "AI"]

  lemma LabelsInOrder()
    ensures forall i :: 0 <= i < |FieldKeys| ==> Label(FieldKeys[i]) == FieldLabelTexts[i]
  {
  }

  /** For the form's own eight keys the dialog shows eight rows, in
      declaration order, each labelled from the label table and showing the
      field's value as text. */
  lemma SummaryOfFields(fd: FormData)
    requires WellFormed(fd) && fd.keys == FieldKeys
    ensures |Summary(fd)| == |FieldKeys|
    ensures forall i :: 0 <= i < |FieldKeys| ==> Summary(fd)[i] == Row(FieldLabelTexts[i], Render(fd.values[FieldKeys[i]]))
  {
    LabelsInOrder();
  }

  /** The summary of the eight fields holding the given values. */
  lemma SummaryEchoes(fd: FormData, vals: seq<Value>)
    requires WellFormed(fd) && fd.keys == FieldKeys && |vals| == |FieldKeys|
    requires forall i :: 0 <= i < |FieldKeys| ==> fd.values[FieldKeys[i]] == vals[i]
    ensures |Summary(fd)| == |FieldKeys|
    ensures forall i :: 0 <= i < |FieldKeys| ==> Summary(fd)[i] == Row(FieldLabelTexts[i], Render(vals[i]))
  {
    SummaryOfFields(fd);
  }

  /** The untouched form's summary. */
  lemma InitialSummary()
    ensures Summary(InitialFormData()) ==
      [Row("Name", ""), Row("Email", ""), Row("Password", ""), Row("Comments", ""),
       Row("Country", ""), Row("Gender", ""), Row("Human", "false"), Row("AI", "false")]
  {
    SummaryOfFields(InitialFormData());
  }

  /** Running a session in two halves. */
  lemma {:induction false} RunAppend(st: FormState, xs: seq<Action>, ys: seq<Action>)
    requires WellFormed(st.formData)
    ensures Run(st, xs + ys) == Run(Run(st, xs), ys)
    decreases |xs|
  {
    if xs != [] {
      assert (xs + ys)[0] == xs[0];
      assert (xs + ys)[1..] == xs[1..] + ys;
      RunAppend(Step(st, xs[0]), xs[1..], ys);
    } else {
      assert xs + ys == ys;
    }
  }

  /** The change the matching input reports when the user sets `v` under
      `key`: a checkbox reports `checked`, a text input its `value`. */
  function EditTo(key: string, v: Value): Action {
    match v
    case Str(s) => Edit(ChangeEvent(key, s, "text", false))
    case Bool(b) => Edit(ChangeEvent(key, "on", "checkbox", b))
  }

  /** Setting each key in turn to the value at the same position. */
  function FillActions(keys: seq<string>, vals: seq<Value>): (acts: seq<Action>)
    requires |keys| == |vals|
    decreases |keys|
  {
    if keys == [] then [] else [EditTo(keys[0], vals[0])] + FillActions(keys[1..], vals[1..])
  }

  /** Editing distinct existing fields one after the other leaves each with
      the value given to it and every other field as it was; the key order
      and the two flags do not change. */
  lemma {:induction false} FillStoresValues(st: FormState, keys: seq<string>, vals: seq<Value>)
    requires WellFormed(st.formData) && |keys| == |vals|
    requires forall i, j :: 0 <= i < j < |keys| ==> keys[i] != keys[j]
    requires forall i :: 0 <= i < |keys| ==> keys[i] in st.formData.values
    ensures var r := Run(st, FillActions(keys, vals));
            && r.formData.keys == st.formData.keys
            && (forall k :: k in r.formData.values <==> k in st.formData.values)
            && (forall i :: 0 <= i < |keys| ==> r.formData.values[keys[i]] == vals[i])
            && (forall k :: k in st.formData.values && k !in keys ==> r.formData.values[k] == st.formData.values[k])
            && r.showModal == st.showModal && r.showAlert == st.showAlert
    decreases |keys|
  {
    if keys != [] {
      var acts := FillActions(keys, vals);
      var next := Step(st, acts[0]);
      assert acts[1..] == FillActions(keys[1..], vals[1..]);
      assert next.formData.values[keys[0]] == vals[0];
      FillStoresValues(next, keys[1..], vals[1..]);
      var r := Run(st, acts);
      assert r == Run(next, acts[1..]);
      forall i | 0 <= i < |keys|
        ensures r.formData.values[keys[i]] == vals[i]
      {
        if i > 0 {
          assert keys[1..][i - 1] == keys[i];
        } else {
          assert keys[0] !in keys[1..];
        }
      }
    }
  }

  /** Filling every field with a value other than the empty string and then
      submitting opens the dialog, whatever the validation errors say, and
      the dialog echoes exactly the values entered: strings verbatim,
      checkboxes as "true"/"false". */
  lemma FillEveryFieldThenSubmit(st: FormState, vals: seq<Value>)
    requires WellFormed(st.formData) && st.formData.keys == FieldKeys
    requires |vals| == |FieldKeys| && forall i :: 0 <= i < |vals| ==> vals[i] != Str("")
    ensures var r := Run(st, FillActions(FieldKeys, vals) + [PressSubmit]);
            && r.showModal && r.showAlert == st.showAlert
            && |Summary(r.formData)| == |FieldKeys|
            && forall i :: 0 <= i < |FieldKeys| ==> Summary(r.formData)[i] == Row(FieldLabelTexts[i], Render(vals[i]))
  {
    var r := FillThenSubmit(st, FieldKeys, vals);
    SummaryEchoes(r.formData, vals);
  }

  /** Setting every key of `formData`, each exactly once and in any order,
      to a value other than the empty string and then submitting opens the
      dialog, leaves the alert flag alone and keeps the key order. */
  lemma FillThenSubmit(st: FormState, keys: seq<string>, vals: seq<Value>) returns (r: FormState)
    requires WellFormed(st.formData) && |vals| == |keys|
    requires forall i, j :: 0 <= i < j < |keys| ==> keys[i] != keys[j]
    requires forall k :: k in st.formData.values <==> k in keys
    requires forall i :: 0 <= i < |vals| ==> vals[i] != Str("")
    ensures r == Run(st, FillActions(keys, vals) + [PressSubmit])
    ensures r.showModal && r.showAlert == st.showAlert
    ensures WellFormed(r.formData) && r.formData.keys == st.formData.keys
    ensures forall i :: 0 <= i < |keys| ==> r.formData.values[keys[i]] == vals[i]
  {
    var acts := FillActions(keys, vals);
    var filled := FilledWithoutEmpty(st, keys, vals);
    r := Submit(filled);
    RunAppend(st, acts, [PressSubmit]);
    assert Run(filled, [PressSubmit]) == Run(r, []);
  }

  lemma FilledWithoutEmpty(st: FormState, keys: seq<string>, vals: seq<Value>) returns (filled: FormState)
    requires WellFormed(st.formData) && |vals| == |keys|
    requires forall i, j :: 0 <= i < j < |keys| ==> keys[i] != keys[j]
    requires forall k :: k in st.formData.values <==> k in keys
    requires forall i :: 0 <= i < |vals| ==> vals[i] != Str("")
    ensures filled == Run(st, FillActions(keys, vals))
    ensures WellFormed(filled.formData) && filled.formData.keys == st.formData.keys
    ensures forall i :: 0 <= i < |keys| ==> filled.formData.values[keys[i]] == vals[i]
    ensures !SomeValueEmpty(filled.formData) && filled.showAlert == st.showAlert
  {
    FillStoresValues(st, keys, vals);
    filled := Run(st, FillActions(keys, vals));
  }
}
