/** The sign-up form: its field update and the validation chain in front of `register`. */
module SignUp {
  import opened Wrappers
  import opened Text

  /** A form field holds the text of an input or the state of a checkbox. */
  datatype FieldValue = Text(text: string) | Flag(checked: bool)

  type Form = map<string, FieldValue>

  const InitialForm: Form :=
    map["fullName" := Text(""), "email" := Text(""), "password" := Text(""), "terms" := Flag(false)]

  /** JavaScript truthiness of `formData[name]`; a missing field is `undefined`. */
  predicate Truthy(form: Form, name: string)
  {
    name in form && match form[name]
                    case Text(t) => t != ""
                    case Flag(b) => b
  }

  /** `formData.password.length < 8`, counting UTF-16 units; a value without a
      length never compares below 8. */
  predicate ShortPassword(form: Form)
  {
    "password" in form && form["password"].Text? && Utf16Length(form["password"].text) < 8
  }

  /** `handleChange`: the named field becomes `checked` for a checkbox and `value` otherwise. */
  function HandleChange(form: Form, name: string, value: string, kind: string, checked: bool): (r: Form)
    ensures r.Keys == form.Keys + {name}
    ensures r[name] == (if kind == "checkbox" then Flag(checked) else Text(value))
    ensures forall k :: k in form && k != name ==> r[k] == form[k]
  {
    form[name := if kind == "checkbox" then Flag(checked) else Text(value)]
  }

  const FillMessage: string := "Please fill in all fields"
  const TermsMessage: string := "Please accept the terms and conditions"
  const LengthMessage: string := "Password must be at least 8 characters long"

  datatype SubmitOutcome =
    | Rejected(message: string)
    | Register(fullName: FieldValue, email: FieldValue, password: FieldValue)

  predicate Filled(form: Form)
  {
    Truthy(form, "fullName") && Truthy(form, "email") && Truthy(form, "password")
  }

  /** `handleSubmit`: empty fields, then the terms box, then the password length;
      `register` receives the three values only when all three checks pass. */
  function HandleSubmit(form: Form): (r: SubmitOutcome)
    ensures !Filled(form) <==> r == Rejected(FillMessage)
    ensures Filled(form) && !Truthy(form, "terms") <==> r == Rejected(TermsMessage)
    ensures Filled(form) && Truthy(form, "terms") && ShortPassword(form) <==> r == Rejected(LengthMessage)
    ensures r.Register? <==> Filled(form) && Truthy(form, "terms") && !ShortPassword(form)
    ensures r.Register? ==>
      r == Register(form["fullName"], form["email"], form["password"])
  {
    if !Filled(form) then Rejected(FillMessage)
    else if !Truthy(form, "terms") then Rejected(TermsMessage)
    else if ShortPassword(form) then Rejected(LengthMessage)
    else Register(form["fullName"], form["email"], form["password"])
  }

  /** A password that reaches `register` as text has at least eight UTF-16 units,
      which may be as few as four characters. */
  lemma RegisteredPasswordIsLong(form: Form)
    requires HandleSubmit(form).Register? && form["password"].Text?
    ensures Utf16Length(HandleSubmit(form).password.text) >= 8
    ensures |HandleSubmit(form).password.text| >= 4
  {
  }

  /** Four characters outside the Basic Multilingual Plane are eight UTF-16 units,
      so such a password passes the length check. */
  lemma WidePasswordRegisters()
    ensures var pw := "\U{1F600}\U{1F600}\U{1F600}\U{1F600}";
      var f := map["fullName" := Text("A"), "email" := Text("a@b"), "password" := Text(pw), "terms" := Flag(true)];
      |pw| == 4 && HandleSubmit(f) == Register(Text("A"), Text("a@b"), Text(pw))
  {
    var pw := "\U{1F600}\U{1F600}\U{1F600}\U{1F600}";
    assert Utf16Length(pw) == 8;
  }

  /** Typing into the fields and ticking the box takes the blank form to `register`. */
  lemma FilledFormRegisters(name: string, email: string, password: string)
    requires name != "" && email != "" && Utf16Length(password) >= 8
    ensures var f := HandleChange(HandleChange(HandleChange(HandleChange(InitialForm,
                       "fullName", name, "text", false), "email", email, "email", false),
                       "password", password, "password", false), "terms", "", "checkbox", true);
      HandleSubmit(f) == Register(Text(name), Text(email), Text(password))
  {
  }

  /** The blank form is refused for its empty fields. */
  lemma InitialFormRejected()
    ensures HandleSubmit(InitialForm) == Rejected(FillMessage)
  {
  }
}
