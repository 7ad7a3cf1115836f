/** The task form of src/components/TaskModal.jsx: its initial state, the reload after the
    contacts arrive, the contact select, and the payload its submit hands to the tasks
    service. */
module TaskForm {
  import opened Wrappers
  import opened Records
  import Seqs
  import Strings

  /** The eight `formData` fields. */
  datatype Form = Form(
    title: Value, description: Value, dueDate: Value, priority: Value, status: Value,
    contactId: Value, contactName: Value, notes: Value)

  /** `new Date(v).toISOString()`, `None` when the date is invalid and the call throws. */
  type Iso = Value -> Option<string>

  /** `task?.due_date ? new Date(task.due_date).toISOString().split('T')[0] : ''`: the date
      part of the stored due date, `''` without one, `None` when the conversion throws. */
  function DueDatePart(task: Option<Record>, iso: Iso): (r: Option<Value>)
    ensures !Truthy(GetIn(task, "due_date")) ==> r == Some(Str(""))
    ensures Truthy(GetIn(task, "due_date")) ==>
      (r.None? <==> iso(GetIn(task, "due_date").value).None?)
    ensures Truthy(GetIn(task, "due_date")) && r.Some? ==>
      r.value.Str? && Strings.IsPrefix(r.value.s, iso(GetIn(task, "due_date").value).value)
      && 'T' !in r.value.s
    ensures Truthy(GetIn(task, "due_date")) && r.Some? ==>
      r.value == Str(Strings.Before(iso(GetIn(task, "due_date").value).value, 'T'))
  {
    var v := GetIn(task, "due_date");
    if !Truthy(v) then Some(Str(""))
    else
      match iso(v.value)
      case None => None
      case Some(s) => Some(Str(Strings.Before(s, 'T')))
  }

  /** The initial `formData`, `None` when the due date conversion throws: each field from the
      task when truthy, else its default (`medium` priority, `pending` status). */
  function InitForm(task: Option<Record>, iso: Iso): (r: Option<Form>)
    ensures r.Some? <==> DueDatePart(task, iso).Some?
    ensures task.None? ==> r == Some(Form(Str(""), Str(""), Str(""), Str("medium"), Str("pending"),
      Str(""), Str(""), Str("")))
    ensures r.Some? ==> Some(r.value.dueDate) == DueDatePart(task, iso)
    ensures r.Some? ==> Defaults(GetIn(task, "title"), r.value.title, Str(""))
    ensures r.Some? ==> Defaults(GetIn(task, "description"), r.value.description, Str(""))
    ensures r.Some? ==> Defaults(GetIn(task, "priority"), r.value.priority, Str("medium"))
    ensures r.Some? ==> Defaults(GetIn(task, "status"), r.value.status, Str("pending"))
    ensures r.Some? ==> Defaults(GetIn(task, "contact_id"), r.value.contactId, Str(""))
    ensures r.Some? ==> Defaults(GetIn(task, "contact_name"), r.value.contactName, Str(""))
    ensures r.Some? ==> Defaults(GetIn(task, "notes"), r.value.notes, Str(""))
  {
    match DueDatePart(task, iso)
    case None => None
    case Some(due) =>
      Some(Form(
        Or(GetIn(task, "title"), Str("")),
        Or(GetIn(task, "description"), Str("")),
        due,
        Or(GetIn(task, "priority"), Str("medium")),
        Or(GetIn(task, "status"), Str("pending")),
        Or(GetIn(task, "contact_id"), Str("")),
        Or(GetIn(task, "contact_name"), Str("")),
        Or(GetIn(task, "notes"), Str(""))))
  }

  /** The effect that runs once the contacts are loaded: for an existing task it sets the form
      from the task again; for a new task it leaves the form alone. */
  function Reload(current: Form, task: Option<Record>, iso: Iso): (r: Option<Form>)
    ensures task.None? ==> r == Some(current)
    ensures task.Some? ==> r == InitForm(task, iso)
  {
    if task.Some? then InitForm(task, iso) else Some(current)
  }

  /** The matcher of `contacts.find(c => c.id === value)`. */
  function HasId(value: string): Record -> bool {
    (c: Record) => Get(c, "id") == Some(Str(value))
  }

  /** `handleContactChange`: the id and name of the first contact whose id is the chosen
      value, or `''` for both when none is; every other field is kept. */
  function ContactChange(f: Form, contacts: seq<Record>, value: string): (r: Form)
    ensures r == f.(contactId := r.contactId, contactName := r.contactName)
    ensures Seqs.Find(contacts, HasId(value)).None? ==> r.contactId == Str("") && r.contactName == Str("")
    ensures Seqs.Find(contacts, HasId(value)).Some? ==>
      r.contactId == Or(Get(Seqs.Find(contacts, HasId(value)).value, "id"), Str(""))
    ensures Seqs.Find(contacts, HasId(value)).Some? ==>
      r.contactName == Or(Get(Seqs.Find(contacts, HasId(value)).value, "name"), Str(""))
  {
    var selected := Seqs.Find(contacts, HasId(value));
    f.(contactId := Or(GetIn(selected, "id"), Str("")), contactName := Or(GetIn(selected, "name"), Str("")))
  }

  /** `taskData`: the eight form fields, the user, and both timestamps set to now. */
  function Payload(f: Form, userId: Value, nowIso: string): (p: Record)
    ensures p.Keys == {"title", "description", "due_date", "priority", "status", "contact_id",
      "contact_name", "notes", "user_id", "created_at", "updated_at"}
    ensures p["title"] == f.title && p["description"] == f.description && p["due_date"] == f.dueDate
    ensures p["priority"] == f.priority && p["status"] == f.status && p["notes"] == f.notes
    ensures p["contact_id"] == f.contactId && p["contact_name"] == f.contactName
    ensures p["user_id"] == userId && p["created_at"] == Str(nowIso) && p["updated_at"] == Str(nowIso)
  {
    map["title" := f.title, "description" := f.description, "due_date" := f.dueDate,
      "priority" := f.priority, "status" := f.status, "contact_id" := f.contactId,
      "contact_name" := f.contactName, "notes" := f.notes, "user_id" := userId,
      "created_at" := Str(nowIso), "updated_at" := Str(nowIso)]
  }

  /** `handleSubmit`: `update(task.id, …)` for an existing task, `add` otherwise; without a
      signed-in user `user.id` throws before either. */
  function Submit(f: Form, task: Option<Record>, userId: Option<Value>, nowIso: string): (r: Save)
    ensures r.Reject? <==> userId.None?
    ensures !r.Reject? ==> r.payload == Payload(f, userId.value, nowIso)
    ensures r.Update? <==> userId.Some? && task.Some?
    ensures r.Update? ==> r.id == GetIn(task, "id")
  {
    if userId.None? then Reject(if task.Some? then "Error updating task" else "Error creating task")
    else if task.Some? then Update(GetIn(task, "id"), Payload(f, userId.value, nowIso))
    else Add(Payload(f, userId.value, nowIso))
  }

  // ---------------------------------------------------------------- properties

  /** Edits made before the contacts arrive are lost for an existing task: the reload
      replaces any form with the task's own. */
  lemma ReloadDiscardsEdits(edited: Form, task: Record, iso: Iso)
    requires InitForm(Some(task), iso).Some?
    ensures Reload(edited, Some(task), iso) == InitForm(Some(task), iso)
    ensures Reload(InitForm(Some(task), iso).value, Some(task), iso) == InitForm(Some(task), iso)
  {
  }

  /** Reopening the form on the submitted payload shows the submitted form again, when the
      text fields are strings, priority and status are set, and the due date is empty or a
      date that converts to itself followed by a time. */
  lemma ReopenRoundTrip(f: Form, userId: Value, nowIso: string, iso: Iso, time: string)
    requires f.title.Str? && f.description.Str? && f.contactId.Str? && f.contactName.Str? && f.notes.Str?
    requires Truthy(Some(f.priority)) && Truthy(Some(f.status))
    requires f.dueDate == Str("") ||
      (f.dueDate.Str? && 'T' !in f.dueDate.s && iso(f.dueDate) == Some(f.dueDate.s + "T" + time))
    ensures InitForm(Some(Payload(f, userId, nowIso)), iso) == Some(f)
  {
    var p := Payload(f, userId, nowIso);
    if f.dueDate != Str("") {
      Strings.BeforeSeparator(f.dueDate.s, 'T', time);
      assert f.dueDate.s + "T" + time == f.dueDate.s + ['T'] + time;
    }
    assert DueDatePart(Some(p), iso) == Some(f.dueDate);
  }

  /** Choosing the empty option of the select, when no contact has the empty id, clears the
      contact. */
  lemma ClearContact(f: Form, contacts: seq<Record>)
    requires forall i :: 0 <= i < |contacts| ==> Get(contacts[i], "id") != Some(Str(""))
    ensures ContactChange(f, contacts, "").contactId == Str("")
    ensures ContactChange(f, contacts, "").contactName == Str("")
  {
  }

  /** Choosing a contact with a non-empty id selects it, by id and name. */
  lemma ChooseContact(f: Form, contacts: seq<Record>, i: nat)
    requires i < |contacts| && Get(contacts[i], "id").Some? && contacts[i]["id"].Str?
    requires contacts[i]["id"].s != ""
    requires forall j :: 0 <= j < i ==> Get(contacts[j], "id") != Get(contacts[i], "id")
    ensures ContactChange(f, contacts, contacts[i]["id"].s).contactId == contacts[i]["id"]
    ensures ContactChange(f, contacts, contacts[i]["id"].s).contactName == Or(Get(contacts[i], "name"), Str(""))
  {
    Seqs.FindIndexAt(contacts, HasId(contacts[i]["id"].s), i);
  }
}
