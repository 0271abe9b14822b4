/** The profile form: the weight field's text-to-number rule and the checks made before saving. */
module EditProfile {
  import opened Wrappers
  import opened Text
  import opened JsNumber

  /** The form's data, handed to `onSave` as it stands. */
  datatype UserData = UserData(name: string, email: string, phone: string, currentWeight: real)

  /** Why saving was refused. */
  datatype ProfileError = NameRequired | EmailRequired | WeightNotPositive

  /** The form opened with the given props, absent ones taking their defaults. */
  function InitialForm(userName: string, userEmail: Option<string>, userPhone: Option<string>,
                       userWeight: Option<real>): (r: UserData)
    ensures r.name == userName
    ensures userEmail.None? ==> r.email == "john.doe@example.com"
    ensures userPhone.None? ==> r.phone == "+1 234 567 8900"
    ensures userWeight.None? ==> r.currentWeight == 75.0
    ensures userEmail.Some? ==> r.email == userEmail.value
    ensures userPhone.Some? ==> r.phone == userPhone.value
    ensures userWeight.Some? ==> r.currentWeight == userWeight.value
  {
    UserData(userName,
             if userEmail.Some? then userEmail.value else "john.doe@example.com",
             if userPhone.Some? then userPhone.value else "+1 234 567 8900",
             if userWeight.Some? then userWeight.value else 75.0)
  }

  /** The weight field's `parseFloat(text) || 0`: whatever cannot be read counts as 0. */
  function WeightFromText(text: string): (w: real)
    ensures ParseFloat(text).None? ==> w == 0.0
    ensures ParseFloat(text).Some? ==> w == ParseFloat(text).value
  {
    OrZero(ParseFloat(text))
  }

  /** The form after the weight field was edited to `text`; nothing else changes. */
  function WithWeightText(form: UserData, text: string): (r: UserData)
    ensures r.(currentWeight := form.currentWeight) == form
    ensures r.currentWeight == WeightFromText(text)
  {
    form.(currentWeight := WeightFromText(text))
  }

  /** `handleSave`: a blank name, then a blank email, then a weight not above 0 are refused in
      that order; otherwise the form is saved unchanged. */
  function HandleSave(form: UserData): (r: Result<UserData, ProfileError>)
    ensures r == Err(NameRequired) <==> IsBlank(form.name)
    ensures r == Err(EmailRequired) <==> !IsBlank(form.name) && IsBlank(form.email)
    ensures r == Err(WeightNotPositive) <==> !IsBlank(form.name) && !IsBlank(form.email) && form.currentWeight <= 0.0
    ensures r.Ok? ==> r.value == form
  {
    if IsBlank(form.name) then Err(NameRequired)
    else if IsBlank(form.email) then Err(EmailRequired)
    else if form.currentWeight <= 0.0 then Err(WeightNotPositive)
    else Ok(form)
  }

  /** A weight text that cannot be read is stored as 0 and so never saved. */
  lemma UnreadableWeightNeverSaved(form: UserData, text: string)
    requires ParseFloat(text).None?
    ensures HandleSave(WithWeightText(form, text)).Err?
    ensures !IsBlank(form.name) && !IsBlank(form.email) ==> HandleSave(WithWeightText(form, text)) == Err(WeightNotPositive)
  {
  }

  /** After editing the weight text, the form saves exactly when name and email are filled in and
      the text reads as a positive number. */
  lemma SavedWeightIsPositive(form: UserData, text: string)
    ensures HandleSave(WithWeightText(form, text)).Ok? <==>
              !IsBlank(form.name) && !IsBlank(form.email) && ParseFloat(text).Some? && ParseFloat(text).value > 0.0
  {
  }

  /** The defaults for email and weight pass their checks: the form opened without them saves
      exactly when the name is filled in. */
  lemma DefaultsSave(userName: string, userPhone: Option<string>)
    ensures HandleSave(InitialForm(userName, None, userPhone, None)).Ok? <==> !IsBlank(userName)
  {
    var email := "john.doe@example.com";
    assert !IsSpace(email[0]);
    assert TrimStart(email) == email;
    assert TrimEnd(email) != [] by {
      assert !IsSpace(email[|email| - 1]);
    }
  }
}
