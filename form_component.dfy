/** The form component itself: its six pieces of state as fields, and its
    three handlers (plus the alert timer's callback) as methods that update
    those fields, each proved to perform one step of the transitions in
    FormLogic. */
module FormComponent {
  import opened Validators
  import opened FormLogic

  class Form {
    var formData: FormData
    var nameError: string
    var emailError: string
    var passwordError: string
    var showModal: bool
    var showAlert: bool

    ghost predicate Valid()
      reads this
    {
      WellFormed(formData)
    }

    /** The component's state as a value. */
    function State(): FormState
      reads this
    {
      FormState(formData, nameError, emailError, passwordError, showModal, showAlert)
    }

    /** Mounting: the initial values of every piece of state. */
    constructor ()
      ensures Valid()
      ensures State() == Initial()
      ensures formData.keys == FieldKeys
      ensures nameError == "" && emailError == "" && passwordError == ""
      ensures !showModal && !showAlert
    {
      formData := InitialFormData();
      nameError, emailError, passwordError := "", "", "";
      showModal, showAlert := false, false;
    }

    /** The change handler: revalidate the changed field if it has a
        validator, then replace `formData` with a copy in which the changed
        key holds the new value. */
    method HandleChange(ev: ChangeEvent)
      requires Valid()
      modifies this`formData, this`nameError, this`emailError, this`passwordError
      ensures Valid()
      ensures State() == Change(old(State()), ev)
      ensures ev.name in formData.values && formData.values[ev.name] == NewValue(ev)
      ensures forall k :: k != ev.name && k in old(formData.values) ==> k in formData.values && formData.values[k] == old(formData.values[k])
      ensures ev.name in old(formData.values) ==> formData.keys == old(formData.keys)
      ensures ev.name !in old(formData.values) ==> formData.keys == old(formData.keys) + [ev.name]
      ensures ev.name != "textInput" ==> nameError == old(nameError)
      ensures ev.name != "emailInput" ==> emailError == old(emailError)
      ensures ev.name != "passwordInput" ==> passwordError == old(passwordError)
    {
      var newValue := NewValue(ev);
      if ev.name == "textInput" {
        nameError := NameError(ev.value);
      }
      if ev.name == "emailInput" {
        emailError := EmailError(ev.value);
      }
      if ev.name == "passwordInput" {
        passwordError := PasswordError(ev.value);
      }
      formData := Spread(formData, ev.name, newValue);
    }

    /** The submit handler (the submit button and the Enter key): raise the
        alert if some value is the empty string, else open the dialog. */
    method HandleSubmit()
      requires Valid()
      modifies this`showModal, this`showAlert
      ensures Valid()
      ensures State() == Submit(old(State()))
      ensures SomeValueEmpty(formData) ==> showAlert && showModal == old(showModal)
      ensures !SomeValueEmpty(formData) ==> showModal && showAlert == old(showAlert)
    {
      if SomeValueEmpty(formData) {
        showAlert := true;
        return;
      }
      showModal := true;
    }

    /** Closing the confirmation dialog. */
    method CloseModal()
      requires Valid()
      modifies this`showModal
      ensures Valid()
      ensures State() == Close(old(State()))
      ensures !showModal
    {
      showModal := false;
    }

    /** The alert timer's callback, which hides the alert. */
    method AlertTimeout()
      requires Valid()
      modifies this`showAlert
      ensures Valid()
      ensures State() == AlertElapsed(old(State()))
      ensures !showAlert
    {
      showAlert := false;
    }

    /** The rows of the confirmation dialog's table. */
    function SummaryRows(): (rows: seq<Row>)
      reads this
      requires Valid()
      ensures |rows| == |formData.keys|
      ensures forall i :: 0 <= i < |rows| ==> rows[i] == Row(Label(formData.keys[i]), Render(formData.values[formData.keys[i]]))
    {
      Summary(formData)
    }
  }
}
