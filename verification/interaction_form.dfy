/** The interaction form of src/components/InteractionModal.jsx: its initial state and what
    its submit hands to the interactions service. */
module InteractionForm {
  import opened Wrappers
  import opened Records
  import Strings

  /** The nine `formData` fields; `kind` is `type`. */
  datatype Form = Form(
    contactId: Value, kind: Value, date: Value, duration: Value, summary: Value, notes: Value,
    followUpDate: Value, followUpNotes: Value, status: Value)

  /** `v?.split('T')[0]`: `None` for `undefined` (an absent or `null` field), the date part of
      a string. */
  function DatePart(v: Option<Value>): (r: Option<Value>)
    requires v.None? || !v.value.Num?
    ensures v.Some? && v.value.Str? ==> r == Some(Str(Strings.Before(v.value.s, 'T')))
    ensures v.None? || v.value.Null? ==> r.None?
  {
    match v
    case Some(Str(s)) => Some(Str(Strings.Before(s, 'T')))
    case _ => None
  }

  /** The date fields hold no number, on which `split` would throw during the first render. */
  predicate CanOpen(x: Option<Record>) {
    var d, u := GetIn(x, "interaction_date"), GetIn(x, "follow_up_date");
    (d.None? || !d.value.Num?) && (u.None? || !u.value.Num?)
  }

  /** The initial `formData`: each field from the interaction when truthy, else its default;
      the date defaults to the date part of `now`, the duration to 30 minutes. */
  function InitForm(x: Option<Record>, nowIso: string): (f: Form)
    requires CanOpen(x)
    ensures x.None? ==> f == Form(Str(""), Str("meeting"), Str(Strings.Before(nowIso, 'T')), Num(30),
      Str(""), Str(""), Str(""), Str(""), Str("completed"))
    ensures Defaults(GetIn(x, "contact_id"), f.contactId, Str(""))
    ensures Defaults(GetIn(x, "type"), f.kind, Str("meeting"))
    ensures Defaults(DatePart(GetIn(x, "interaction_date")), f.date, Str(Strings.Before(nowIso, 'T')))
    ensures Defaults(GetIn(x, "duration"), f.duration, Num(30))
    ensures Defaults(GetIn(x, "summary"), f.summary, Str(""))
    ensures Defaults(GetIn(x, "notes"), f.notes, Str(""))
    ensures Defaults(DatePart(GetIn(x, "follow_up_date")), f.followUpDate, Str(""))
    ensures Defaults(GetIn(x, "follow_up_notes"), f.followUpNotes, Str(""))
    ensures Defaults(GetIn(x, "status"), f.status, Str("completed"))
    ensures f.date.Str? && 'T' !in f.date.s
    ensures f.followUpDate.Str? && 'T' !in f.followUpDate.s
  {
    Form(
      Or(GetIn(x, "contact_id"), Str("")),
      Or(GetIn(x, "type"), Str("meeting")),
      Or(DatePart(GetIn(x, "interaction_date")), Str(Strings.Before(nowIso, 'T'))),
      Or(GetIn(x, "duration"), Num(30)),
      Or(GetIn(x, "summary"), Str("")),
      Or(GetIn(x, "notes"), Str("")),
      Or(DatePart(GetIn(x, "follow_up_date")), Str("")),
      Or(GetIn(x, "follow_up_notes"), Str("")),
      Or(GetIn(x, "status"), Str("completed")))
  }

  /** The form as the object handed to the service. */
  function ToRecord(f: Form): (r: Record)
    ensures r.Keys == {"contact_id", "type", "interaction_date", "duration", "summary", "notes",
      "follow_up_date", "follow_up_notes", "status"}
  {
    map["contact_id" := f.contactId, "type" := f.kind, "interaction_date" := f.date,
      "duration" := f.duration, "summary" := f.summary, "notes" := f.notes,
      "follow_up_date" := f.followUpDate, "follow_up_notes" := f.followUpNotes, "status" := f.status]
  }

  /** `handleSubmit`: without a contact nothing is saved; an interaction with a truthy id is
      updated, anything else is added. */
  function Submit(f: Form, x: Option<Record>): (r: Save)
    ensures r.Reject? <==> !Truthy(Some(f.contactId))
    ensures r.Reject? ==> r.reason == "Please select a contact"
    ensures !r.Reject? ==> r.payload == ToRecord(f)
    ensures r.Update? <==> !r.Reject? && Truthy(GetIn(x, "id"))
    ensures r.Update? ==> r.id == GetIn(x, "id")
  {
    if !Truthy(Some(f.contactId)) then Reject("Please select a contact")
    else if Truthy(GetIn(x, "id")) then Update(GetIn(x, "id"), ToRecord(f))
    else Add(ToRecord(f))
  }

  // ---------------------------------------------------------------- properties

  /** A new interaction's form cannot be saved until a contact is chosen. */
  lemma NewFormNeedsContact(nowIso: string)
    ensures Submit(InitForm(None, nowIso), None).Reject?
  {
  }

  /** An interaction record without an id is added again rather than updated. */
  lemma IdlessInteractionAdded(f: Form, x: Record)
    requires Truthy(Some(f.contactId)) && !Truthy(Get(x, "id"))
    ensures Submit(f, Some(x)).Add?
  {
  }

  /** Reopening the form on what was submitted shows the same form, when the chosen values
      are set, the text fields are strings, and the dates carry no time part. */
  lemma ReopenRoundTrip(f: Form, nowIso: string)
    requires Truthy(Some(f.contactId)) && Truthy(Some(f.kind)) && Truthy(Some(f.duration))
    requires Truthy(Some(f.status))
    requires f.date.Str? && f.date.s != "" && 'T' !in f.date.s
    requires f.followUpDate.Str? && 'T' !in f.followUpDate.s
    requires f.summary.Str? && f.notes.Str? && f.followUpNotes.Str?
    ensures CanOpen(Some(ToRecord(f)))
    ensures InitForm(Some(ToRecord(f)), nowIso) == f
  {
    Strings.BeforeAbsent(f.date.s, 'T');
    Strings.BeforeAbsent(f.followUpDate.s, 'T');
  }
}
