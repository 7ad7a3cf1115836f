/** The second contact form, the `ContactModal` defined inside src/pages/Contacts.jsx. It keeps
    the country code without a country name, has no fallback for a country missing from the
    table, and refuses to submit without a phone. As written it reads and submits the code under
    `countryCode`, while src/services/databaseService.js stores and saves `country_code`; the
    model reads and writes the key as a parameter, and the rest of the model uses
    `country_code`. */
module InlineContactForm {
  import opened Wrappers
  import opened Records
  import Strings
  import Countries
  import Phone
  import ContactForm

  /** The eight `formData` fields. */
  datatype Form = Form(
    name: Value, email: Value, phone: Value, notes: Value, countryCode: Value, company: Value,
    title: Value, address: Value)

  datatype State = State(form: Form, local: string)

  /** The form value is the code of a table country. */
  predicate IsTableCode(v: Value) {
    v.Str? && Countries.IsCode(v.s)
  }

  /** The key the modal reads and writes the country code under, as written. */
  const WrittenKey := "countryCode"

  /** The key the contacts service stores and saves the country code under. */
  const StoredKey := "country_code"

  /** The initial `formData`, reading the country code under `key`: each field from the
      contact when truthy, else its default. */
  function InitFormFrom(contact: Option<Record>, key: string): (f: Form)
    ensures contact.None? ==> f == Form(Str(""), Str(""), Str(""), Str(""), Str("US"), Str(""),
      Str(""), Str(""))
    ensures Defaults(GetIn(contact, "name"), f.name, Str(""))
    ensures Defaults(GetIn(contact, "email"), f.email, Str(""))
    ensures Defaults(GetIn(contact, "phone"), f.phone, Str(""))
    ensures Defaults(GetIn(contact, "notes"), f.notes, Str(""))
    ensures Defaults(GetIn(contact, key), f.countryCode, Str("US"))
    ensures Defaults(GetIn(contact, "company"), f.company, Str(""))
    ensures Defaults(GetIn(contact, "title"), f.title, Str(""))
    ensures Defaults(GetIn(contact, "address"), f.address, Str(""))
  {
    Form(
      Or(GetIn(contact, "name"), Str("")),
      Or(GetIn(contact, "email"), Str("")),
      Or(GetIn(contact, "phone"), Str("")),
      Or(GetIn(contact, "notes"), Str("")),
      Or(GetIn(contact, key), Str("US")),
      Or(GetIn(contact, "company"), Str("")),
      Or(GetIn(contact, "title"), Str("")),
      Or(GetIn(contact, "address"), Str("")))
  }

  /** The initial `formData` as written: the country code is read from `countryCode`. */
  function InitFormAsWritten(contact: Option<Record>): (f: Form)
    ensures Defaults(GetIn(contact, WrittenKey), f.countryCode, Str("US"))
  {
    InitFormFrom(contact, WrittenKey)
  }

  /** The initial `formData` reading the stored `country_code`, the key the service saves. */
  function InitForm(contact: Option<Record>): (f: Form)
    ensures Defaults(GetIn(contact, StoredKey), f.countryCode, Str("US"))
    ensures f.(countryCode := InitFormAsWritten(contact).countryCode) == InitFormAsWritten(contact)
  {
    InitFormFrom(contact, StoredKey)
  }

  /** The key the country code is read and sent under: `countryCode` as written, else the
      stored `country_code`. */
  function CodeKey(asWritten: bool): string {
    if asWritten then WrittenKey else StoredKey
  }

  /** The initial `formData` as written or with the corrected key. */
  function Initial(contact: Option<Record>, asWritten: bool): Form {
    if asWritten then InitFormAsWritten(contact) else InitForm(contact)
  }

  /** What the first render needs of the contact: an empty phone, or a string phone under a
      table country. */
  predicate CanOpen(contact: Option<Record>, asWritten: bool) {
    var f := Initial(contact, asWritten);
    f.phone == Str("") || (f.phone.Str? && IsTableCode(f.countryCode))
  }

  /** The state when the modal opens: the local number is `getLocalNumber(contact?.phone || '')`. */
  function Init(contact: Option<Record>, asWritten: bool): (r: State)
    requires CanOpen(contact, asWritten)
    ensures r.form == Initial(contact, asWritten)
    ensures r.form.phone == Str("") ==> r.local == ""
    ensures r.form.phone != Str("") ==>
      r.local == Phone.InlineLocalNumber(r.form.countryCode.s, r.form.phone.s)
    ensures contact.None? ==> r == State(InitForm(None), "")
  {
    var f := Initial(contact, asWritten);
    if f.phone == Str("") then State(f, "")
    else State(f, Phone.InlineLocalNumber(f.countryCode.s, f.phone.s))
  }

  /** The state after a phone edit, and whether the handler threw. */
  datatype PhoneEdit = PhoneEdit(state: State, threw: bool)

  /** `handlePhoneChange`: digits only, then dial code and digits, or `''` when there are
      none; with digits and no table country `country.dial_code` throws after the local number
      was set, leaving the form as it was. */
  function PhoneChange(st: State, input: string): (r: PhoneEdit)
    ensures r.state.local == Strings.DigitsOnly(input)
    ensures r.threw <==> r.state.local != "" && !IsTableCode(st.form.countryCode)
    ensures r.threw ==> r.state.form == st.form
    ensures !r.threw ==> r.state.form == st.form.(phone := r.state.form.phone)
    ensures r.state.local == "" ==> r.state.form.phone == Str("")
    ensures !r.threw && r.state.local != "" ==>
      r.state.form.phone == Str(Phone.Compose(Phone.DialOf(st.form.countryCode.s), r.state.local))
  {
    var local := Strings.DigitsOnly(input);
    if local == "" then PhoneEdit(State(st.form.(phone := Str("")), local), false)
    else if IsTableCode(st.form.countryCode) then
      var dial := Countries.Lookup(st.form.countryCode.s).value.dialCode;
      PhoneEdit(State(st.form.(phone := Str(Phone.Compose(dial, local))), local), false)
    else PhoneEdit(State(st.form, local), true)
  }

  /** `handleCountryChange` for a code offered by the select: the code and the phone rebuilt
      from the local number change, nothing else. */
  function CountryChange(st: State, code: string): (r: State)
    requires Countries.IsCode(code)
    ensures r.local == st.local
    ensures r.form.countryCode == Str(code)
    ensures r.form.phone == Str(Phone.Compose(Phone.DialOf(code), st.local))
    ensures r.form == st.form.(countryCode := r.form.countryCode, phone := r.form.phone)
  {
    var dial := Countries.Lookup(code).value.dialCode;
    State(st.form.(countryCode := Str(code), phone := Str(Phone.Compose(dial, st.local))), st.local)
  }

  /** The form as the object handed to the service, with the country code under `key`. */
  function RecordWith(f: Form, key: string): (r: Record)
    requires key !in {"name", "email", "phone", "notes", "company", "title", "address"}
    ensures r.Keys == {"name", "email", "phone", "notes", key, "company", "title", "address"}
    ensures r["name"] == f.name && r["email"] == f.email && r["phone"] == f.phone
    ensures r["notes"] == f.notes && r["company"] == f.company && r["title"] == f.title
    ensures r["address"] == f.address && r[key] == f.countryCode
  {
    map["name" := f.name, "email" := f.email, "phone" := f.phone, "notes" := f.notes,
      key := f.countryCode, "company" := f.company, "title" := f.title,
      "address" := f.address]
  }

  /** The submitted object as written: the code travels as `countryCode`, which the service
      does not read. */
  function ToRecordAsWritten(f: Form): (r: Record)
    ensures r.Keys == {"name", "email", "phone", "notes", WrittenKey, "company", "title", "address"}
    ensures StoredKey !in r && r[WrittenKey] == f.countryCode
  {
    RecordWith(f, WrittenKey)
  }

  /** The submitted object with the code under `country_code`, the key the service saves. */
  function ToRecord(f: Form): (r: Record)
    ensures r.Keys == {"name", "email", "phone", "notes", StoredKey, "company", "title", "address"}
    ensures WrittenKey !in r && r[StoredKey] == f.countryCode
    ensures r - {StoredKey} == ToRecordAsWritten(f) - {WrittenKey}
  {
    RecordWith(f, StoredKey)
  }

  /** `handleSubmit`: an empty phone is refused before any service call; otherwise the form
      goes to `update(contact.id, …)` for an existing contact and to `add` for a new one. */
  function Submit(f: Form, contact: Option<Record>, asWritten: bool): (r: Save)
    ensures r.Reject? <==> !Truthy(Some(f.phone))
    ensures r.Reject? ==> r.reason == "Please enter a valid phone number"
    ensures !r.Reject? ==> r.payload == if asWritten then ToRecordAsWritten(f) else ToRecord(f)
    ensures r.Update? <==> !r.Reject? && contact.Some?
    ensures r.Update? ==> r.id == GetIn(contact, "id")
  {
    if !Truthy(Some(f.phone)) then Reject("Please enter a valid phone number")
    else if contact.Some? then Update(GetIn(contact, "id"), RecordWith(f, CodeKey(asWritten)))
    else Add(RecordWith(f, CodeKey(asWritten)))
  }

  // ---------------------------------------------------------------- properties

  /** As written, a stored contact of Canada opens on the United States, and a save sends no
      `country_code`; reading and writing `country_code` keeps Canada. */
  lemma StoredCountryCounterexample(f: Form)
    ensures var stored := map["name" := Str("Ann"), StoredKey := Str("CA")];
      InitFormAsWritten(Some(stored)).countryCode == Str("US")
      && InitForm(Some(stored)).countryCode == Str("CA")
    ensures Get(ToRecordAsWritten(f), StoredKey).None?
    ensures Get(ToRecord(f), StoredKey) == Some(f.countryCode)
  {
    var stored := map["name" := Str("Ann"), StoredKey := Str("CA")];
    assert WrittenKey !in stored;
  }

  /** As written, a stored contact with a phone and a code off the table still opens, on the
      United States, since the absent `countryCode` falls back to `US`; read under
      `country_code` the same contact cannot open. */
  lemma UnknownStoredCodeOpensAsWritten()
    ensures var stored := map["phone" := Str("+15550100"), StoredKey := Str("ZZ")];
      CanOpen(Some(stored), true) && Init(Some(stored), true).form.countryCode == Str("US")
      && !CanOpen(Some(stored), false)
  {
    var stored := map["phone" := Str("+15550100"), StoredKey := Str("ZZ")];
    assert WrittenKey !in stored;
    assert Countries.CodeIndex("US") == Some(0);
    assert Countries.CodeIndex("ZZ").None?;
  }

  /** Saving under `country_code` and reopening keeps every field of a form whose fields are
      all set. */
  lemma SaveReopen(f: Form)
    requires Truthy(Some(f.name)) && Truthy(Some(f.email)) && Truthy(Some(f.phone))
    requires Truthy(Some(f.notes)) && Truthy(Some(f.countryCode)) && Truthy(Some(f.company))
    requires Truthy(Some(f.title)) && Truthy(Some(f.address))
    ensures InitForm(Some(ToRecord(f))) == f
  {
  }

  /** Both modals compose the same phone from the same country and input. */
  lemma SameComposition(st: State, other: ContactForm.State, input: string, code: string)
    requires Countries.IsCode(code)
    requires st.form.countryCode == Str(code) && other.form.countryCode == Str(code)
    requires st.local == other.local
    ensures PhoneChange(st, input).state.form.phone == ContactForm.PhoneChange(other, input).state.form.phone
    ensures CountryChange(st, code).form.phone == ContactForm.CountryChange(other, code).form.phone
  {
  }

  /** An edit that leaves no digits clears the phone, and the submit then refuses. */
  lemma NoDigitsRejected(st: State, input: string, contact: Option<Record>, asWritten: bool)
    requires forall i :: 0 <= i < |input| ==> !Strings.IsDigit(input[i])
    ensures Submit(PhoneChange(st, input).state.form, contact, asWritten).Reject?
  {
  }

  /** After any phone edit in a table country the local number is recovered from the phone. */
  lemma PhoneChangeRoundTrip(st: State, input: string)
    requires IsTableCode(st.form.countryCode)
    ensures var r := PhoneChange(st, input);
      r.state.form.phone.Str? &&
      Phone.InlineLocalNumber(st.form.countryCode.s, r.state.form.phone.s) == r.state.local
  {
    Phone.InlineRoundTrip(st.form.countryCode.s, PhoneChange(st, input).state.local);
  }
}
