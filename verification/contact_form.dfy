/** The contact form of src/components/ContactModal.jsx: its initial state, the phone and
    country handlers, and the payload its submit hands to the contacts service. */
module ContactForm {
  import opened Wrappers
  import opened Records
  import Strings
  import Countries
  import Phone

  /** The nine `formData` fields. */
  datatype Form = Form(
    name: Value, email: Value, phone: Value, company: Value, title: Value, address: Value,
    notes: Value, countryCode: Value, countryName: Value)

  /** The form together with the separately kept local number. */
  datatype State = State(form: Form, local: string)

  /** `countries.find(c => c.code === v)` for a form value (see `Countries.FindLookup`). */
  function FindValue(v: Value): (r: Option<Countries.Country>)
    ensures v.Str? ==> r == Countries.Lookup(v.s)
    ensures !v.Str? ==> r.None?
  {
    match v
    case Str(code) => Countries.Lookup(code)
    case _ => None
  }

  /** The dial code the form's country contributes, `''` for an unknown country. */
  function DialOfValue(v: Value): (d: string)
    ensures v.Str? ==> d == Phone.DialOf(v.s)
  {
    match v
    case Str(code) => Phone.DialOf(code)
    case _ => ""
  }

  /** The initial `formData`: each field from the contact when truthy, else its default. */
  function InitForm(contact: Option<Record>): (f: Form)
    ensures contact.None? ==> f == Form(Str(""), Str(""), Str(""), Str(""), Str(""), Str(""),
      Str(""), Str("US"), Str("United States"))
    ensures Defaults(GetIn(contact, "name"), f.name, Str(""))
    ensures Defaults(GetIn(contact, "email"), f.email, Str(""))
    ensures Defaults(GetIn(contact, "phone"), f.phone, Str(""))
    ensures Defaults(GetIn(contact, "company"), f.company, Str(""))
    ensures Defaults(GetIn(contact, "title"), f.title, Str(""))
    ensures Defaults(GetIn(contact, "address"), f.address, Str(""))
    ensures Defaults(GetIn(contact, "notes"), f.notes, Str(""))
    ensures Defaults(GetIn(contact, "country_code"), f.countryCode, Str("US"))
    ensures Defaults(GetIn(contact, "country_name"), f.countryName, Str("United States"))
  {
    Form(
      Or(GetIn(contact, "name"), Str("")),
      Or(GetIn(contact, "email"), Str("")),
      Or(GetIn(contact, "phone"), Str("")),
      Or(GetIn(contact, "company"), Str("")),
      Or(GetIn(contact, "title"), Str("")),
      Or(GetIn(contact, "address"), Str("")),
      Or(GetIn(contact, "notes"), Str("")),
      Or(GetIn(contact, "country_code"), Str("US")),
      Or(GetIn(contact, "country_name"), Str("United States")))
  }

  /** `getLocalNumber(contact?.phone || '')` against the initial form's country. A phone
      that is truthy but not a string makes `replace` throw, which gives `None`. */
  function InitLocal(f: Form): (r: Option<string>)
    ensures f.phone.Str? ==> r == Some(Phone.Strip(DialOfValue(f.countryCode), f.phone.s))
    ensures r.None? <==> Truthy(Some(f.phone)) && !f.phone.Str?
  {
    match f.phone
    case Str(s) => Some(Phone.Strip(DialOfValue(f.countryCode), s))
    case Num(n) => if n == 0 then Some("") else None
    case Null => Some("")
  }

  /** The modal's state when it opens, `None` when the initial render throws. */
  function Init(contact: Option<Record>): (r: Option<State>)
    ensures r.Some? ==> r.value.form == InitForm(contact)
    ensures r.Some? <==> InitLocal(InitForm(contact)).Some?
    ensures r.Some? ==> r.value.local == InitLocal(InitForm(contact)).value
    ensures contact.None? ==> r == Some(State(InitForm(None), ""))
  {
    var f := InitForm(contact);
    match InitLocal(f)
    case None => None
    case Some(local) => Some(State(f, local))
  }

  /** The state after a phone edit, and whether the handler threw. */
  datatype PhoneEdit = PhoneEdit(state: State, threw: bool)

  /** `handlePhoneChange`: the digits of the input become the local number; the phone is the
      form country's dial code and those digits, or `''` when there are none. With digits and
      a country missing from the table, `country.dial_code` throws after the local number was
      set, and the phone is left as it was. */
  function PhoneChange(st: State, input: string): (r: PhoneEdit)
    ensures r.state.local == Strings.DigitsOnly(input)
    ensures r.threw <==> r.state.local != "" && FindValue(st.form.countryCode).None?
    ensures r.threw ==> r.state.form == st.form
    ensures !r.threw ==> r.state.form == st.form.(phone := r.state.form.phone)
    ensures r.state.local == "" ==> r.state.form.phone == Str("")
    ensures !r.threw && r.state.local != "" ==>
      r.state.form.phone == Str(Phone.Compose(FindValue(st.form.countryCode).value.dialCode, r.state.local))
  {
    var local := Strings.DigitsOnly(input);
    if local == "" then PhoneEdit(State(st.form.(phone := Str("")), local), false)
    else
      match FindValue(st.form.countryCode)
      case None => PhoneEdit(State(st.form, local), true)
      case Some(c) => PhoneEdit(State(st.form.(phone := Str(Phone.Compose(c.dialCode, local))), local), false)
  }

  /** `handleCountryChange` for a code offered by the country select: code, name and phone
      follow the new country, the phone rebuilt from the local number; all else is kept. */
  function CountryChange(st: State, code: string): (r: State)
    requires Countries.IsCode(code)
    ensures r.local == st.local
    ensures r.form.countryCode == Str(code)
    ensures r.form.countryName == Str(Countries.Lookup(code).value.name)
    ensures r.form.phone == Str(Phone.Compose(Phone.DialOf(code), st.local))
    ensures r.form == st.form.(countryCode := r.form.countryCode, countryName := r.form.countryName,
      phone := r.form.phone)
  {
    var c := Countries.Lookup(code).value;
    State(st.form.(countryCode := Str(code), countryName := Str(c.name),
      phone := Str(Phone.Compose(c.dialCode, st.local))), st.local)
  }

  /** The form as the object the submit spreads. */
  function ToRecord(f: Form): (r: Record)
    ensures r.Keys == {"name", "email", "phone", "company", "title", "address", "notes",
      "country_code", "country_name"}
  {
    map["name" := f.name, "email" := f.email, "phone" := f.phone, "company" := f.company,
      "title" := f.title, "address" := f.address, "notes" := f.notes,
      "country_code" := f.countryCode, "country_name" := f.countryName]
  }

  /** `{ ...formData, user_id, country_code, country_name }`: the form's fields with the user
      and the country's table name added. */
  function Payload(f: Form, userId: Value, countryName: string): (p: Record)
    ensures p.Keys == ToRecord(f).Keys + {"user_id"}
    ensures p["user_id"] == userId && p["country_name"] == Str(countryName)
    ensures p["country_code"] == f.countryCode && p["phone"] == f.phone
    ensures p["name"] == f.name && p["email"] == f.email && p["company"] == f.company
    ensures p["title"] == f.title && p["address"] == f.address && p["notes"] == f.notes
  {
    Merge(ToRecord(f), map["user_id" := userId, "country_code" := f.countryCode,
      "country_name" := Str(countryName)])
  }

  /** `handleSubmit`: the payload goes to `update(contact.id, …)` for an existing contact and
      to `add` otherwise. A missing user or a country outside the table throws before the
      service call, and the catch shows the error toast. */
  function Submit(f: Form, contact: Option<Record>, userId: Option<Value>): (r: Save)
    ensures r.Reject? <==> userId.None? || FindValue(f.countryCode).None?
    ensures r.Reject? ==> r.reason == if contact.Some? then "Error updating contact" else "Error creating contact"
    ensures !r.Reject? ==> r.payload == Payload(f, userId.value, FindValue(f.countryCode).value.name)
    ensures r.Update? <==> !r.Reject? && contact.Some?
    ensures r.Update? ==> r.id == GetIn(contact, "id")
  {
    var failed := if contact.Some? then "Error updating contact" else "Error creating contact";
    if userId.None? then Reject(failed)
    else
      match FindValue(f.countryCode)
      case None => Reject(failed)
      case Some(c) =>
        var payload := Payload(f, userId.value, c.name);
        if contact.Some? then Update(GetIn(contact, "id"), payload) else Add(payload)
  }

  // ---------------------------------------------------------------- properties

  /** A new contact's form opens with the United States selected and no phone; the local
      number it shows is empty. */
  lemma NewContactDefaults()
    ensures Init(None).Some?
    ensures Init(None).value.form.countryCode == Str("US")
    ensures Init(None).value.form.countryName == Str("United States")
    ensures Init(None).value.local == ""
    ensures FindValue(Init(None).value.form.countryCode) == Some(Countries.Country("US", "United States", "+1"))
  {
    Countries.FindUS();
  }

  /** After a phone edit in a table country, `getLocalNumber` of the new phone is the local
      number the edit stored. */
  lemma PhoneChangeRoundTrip(st: State, input: string)
    requires FindValue(st.form.countryCode).Some?
    ensures var r := PhoneChange(st, input);
      r.state.form.phone.Str? && Phone.LocalNumber(st.form.countryCode.s, r.state.form.phone.s) == r.state.local
  {
    var r := PhoneChange(st, input);
    Phone.RoundTrip(st.form.countryCode.s, r.state.local);
  }

  /** A country change rebuilds the phone from the local number only: two states with the same
      form except for the phone and the same local number end up identical. */
  lemma CountryChangeIgnoresOldPhone(st: State, other: Value, code: string)
    requires Countries.IsCode(code)
    ensures CountryChange(st, code) == CountryChange(State(st.form.(phone := other), st.local), code)
  {
  }

  /** After a country change, `getLocalNumber` of the rebuilt phone under the new country is
      the unchanged local number, when that number is digits. */
  lemma CountryChangeRoundTrip(st: State, code: string)
    requires Countries.IsCode(code) && Strings.AllDigits(st.local)
    ensures Phone.LocalNumber(code, CountryChange(st, code).form.phone.s) == st.local
  {
    Phone.RoundTrip(code, st.local);
  }
}
