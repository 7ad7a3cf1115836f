/** The `localStorage`-backed services of src/services/localStorage.js: `contactsService` and
    `tasksService`, each a list of records kept as JSON under one storage key. The JSON text
    round trip is taken to be the identity, and the generated ids and timestamps are
    parameters. */
module LocalStore {
  import opened Wrappers
  import opened Records
  import Seqs

  /** The two storage slots, `None` when nothing is stored under the key. */
  datatype Store = Store(contacts: Option<seq<Record>>, tasks: Option<seq<Record>>)

  /** A store write together with the record the call returns. */
  datatype Written = Written(store: Store, record: Record)

  /** `getItem(key)` followed by `JSON.parse`, or `[]` for an empty slot. */
  function Load(slot: Option<seq<Record>>): seq<Record> {
    match slot
    case None => []
    case Some(xs) => xs
  }

  /** `record.id === id`, where `None` stands for `undefined`. */
  predicate HasId(r: Record, id: Option<Value>) {
    Get(r, "id") == id
  }

  /** The matcher `record => record.id === id`. */
  function IdIs(id: Option<Value>): Record -> bool {
    (r: Record) => HasId(r, id)
  }

  /** The matcher `record => record.id !== id` of `delete`. */
  function IdIsNot(id: Option<Value>): Record -> bool {
    (r: Record) => !HasId(r, id)
  }

  // ---------------------------------------------------------------- contactsService

  /** `contactsService.getAll()`. */
  function ContactsGetAll(st: Store): (r: seq<Record>)
    ensures st.contacts.None? ==> r == []
  {
    Load(st.contacts)
  }

  /** `contactsService.add(contact)`: `{ id: generateId(), ...contact, createdAt }` appended. */
  function ContactsAdd(st: Store, contact: Record, genId: string, nowIso: string): (r: Written)
    ensures ContactsGetAll(r.store) == ContactsGetAll(st) + [r.record]
    ensures r.store.tasks == st.tasks
    ensures r.record.Keys == contact.Keys + {"id", "createdAt"}
    ensures r.record["createdAt"] == Str(nowIso)
    ensures "id" in contact ==> r.record["id"] == contact["id"]
    ensures "id" !in contact ==> r.record["id"] == Str(genId)
    ensures forall k :: k in contact && k != "createdAt" ==> r.record[k] == contact[k]
  {
    var created := Merge(Merge(map["id" := Str(genId)], contact), map["createdAt" := Str(nowIso)]);
    var xs := ContactsGetAll(st) + [created];
    Written(st.(contacts := Some(xs)), created)
  }

  /** `contactsService.update(id, fields)`: merges the fields into the first record with the id
      and returns it, or returns `null` without writing when there is none. */
  function ContactsUpdate(st: Store, id: Option<Value>, fields: Record): (r: Option<Written>)
    ensures Seqs.FindIndex(ContactsGetAll(st), IdIs(id)).None? <==> r.None?
    ensures r.Some? ==>
      var xs, ys, i := ContactsGetAll(st), ContactsGetAll(r.value.store),
        Seqs.FindIndex(ContactsGetAll(st), IdIs(id)).value;
      && |ys| == |xs|
      && ys[i] == Merge(xs[i], fields) == r.value.record
      && (forall j :: 0 <= j < |xs| && j != i ==> ys[j] == xs[j])
      && r.value.store.tasks == st.tasks
  {
    var xs := ContactsGetAll(st);
    match Seqs.FindIndex(xs, IdIs(id))
    case None => None
    case Some(i) =>
      var merged := Merge(xs[i], fields);
      Some(Written(st.(contacts := Some(xs[i := merged])), merged))
  }

  /** `contactsService.delete(id)`: keeps the records whose id differs, in order. */
  function ContactsDelete(st: Store, id: Option<Value>): (r: Store)
    ensures Seqs.IsSubseq(ContactsGetAll(r), ContactsGetAll(st))
    ensures forall x :: x in ContactsGetAll(r) <==> x in ContactsGetAll(st) && !HasId(x, id)
    ensures |ContactsGetAll(r)| == Seqs.Count(ContactsGetAll(st), IdIsNot(id))
    ensures r.tasks == st.tasks
  {
    var xs := ContactsGetAll(st);
    assert forall x :: x in Seqs.Filter(xs, IdIsNot(id)) <==> x in xs && !HasId(x, id) by {
      forall x ensures x in Seqs.Filter(xs, IdIsNot(id)) <==> x in xs && !HasId(x, id) {
        Seqs.FilterMember(xs, IdIsNot(id), x);
      }
    }
    st.(contacts := Some(Seqs.Filter(xs, IdIsNot(id))))
  }

  // ---------------------------------------------------------------- tasksService

  /** `tasksService.getAll()`. */
  function TasksGetAll(st: Store): (r: seq<Record>)
    ensures st.tasks.None? ==> r == []
  {
    Load(st.tasks)
  }

  /** `tasksService.add(task)`: `{ ...task, id: Date.now().toString(), createdAt }` appended;
      `clockId` is the clock reading as a string. */
  function TasksAdd(st: Store, task: Record, clockId: string, nowIso: string): (r: Written)
    ensures TasksGetAll(r.store) == TasksGetAll(st) + [r.record]
    ensures r.store.contacts == st.contacts
    ensures r.record.Keys == task.Keys + {"id", "createdAt"}
    ensures r.record["id"] == Str(clockId) && r.record["createdAt"] == Str(nowIso)
    ensures forall k :: k in task && k != "id" && k != "createdAt" ==> r.record[k] == task[k]
  {
    var created := Merge(task, map["id" := Str(clockId), "createdAt" := Str(nowIso)]);
    Written(st.(tasks := Some(TasksGetAll(st) + [created])), created)
  }

  /** `tasksService.update(id, fields)`: like the contacts update, but an unknown id throws
      `Task not found` and writes nothing. */
  function TasksUpdate(st: Store, id: Option<Value>, fields: Record): (r: Result<Written>)
    ensures Seqs.FindIndex(TasksGetAll(st), IdIs(id)).None? <==> r == Failure("Task not found")
    ensures r.Success? ==>
      var xs, ys, i := TasksGetAll(st), TasksGetAll(r.value.store),
        Seqs.FindIndex(TasksGetAll(st), IdIs(id)).value;
      && |ys| == |xs|
      && ys[i] == Merge(xs[i], fields) == r.value.record
      && (forall j :: 0 <= j < |xs| && j != i ==> ys[j] == xs[j])
      && r.value.store.contacts == st.contacts
  {
    var xs := TasksGetAll(st);
    match Seqs.FindIndex(xs, IdIs(id))
    case None => Failure("Task not found")
    case Some(i) =>
      var merged := Merge(xs[i], fields);
      Success(Written(st.(tasks := Some(xs[i := merged])), merged))
  }

  /** `tasksService.delete(id)`. */
  function TasksDelete(st: Store, id: Option<Value>): (r: Store)
    ensures Seqs.IsSubseq(TasksGetAll(r), TasksGetAll(st))
    ensures forall x :: x in TasksGetAll(r) <==> x in TasksGetAll(st) && !HasId(x, id)
    ensures |TasksGetAll(r)| == Seqs.Count(TasksGetAll(st), IdIsNot(id))
    ensures r.contacts == st.contacts
  {
    var xs := TasksGetAll(st);
    assert forall x :: x in Seqs.Filter(xs, IdIsNot(id)) <==> x in xs && !HasId(x, id) by {
      forall x ensures x in Seqs.Filter(xs, IdIsNot(id)) <==> x in xs && !HasId(x, id) {
        Seqs.FilterMember(xs, IdIsNot(id), x);
      }
    }
    st.(tasks := Some(Seqs.Filter(xs, IdIsNot(id))))
  }

  /** `tasksService.getById(id)`: the first task with the id, or `Task not found`. */
  function TasksGetById(st: Store, id: Option<Value>): (r: Result<Record>)
    ensures r.Success? <==> exists i :: 0 <= i < |TasksGetAll(st)| && HasId(TasksGetAll(st)[i], id)
    ensures r.Failure? ==> r.error == "Task not found"
    ensures r.Success? ==> HasId(r.value, id)
    ensures r.Success? ==> exists i :: (0 <= i < |TasksGetAll(st)| && TasksGetAll(st)[i] == r.value
      && forall j :: 0 <= j < i ==> !HasId(TasksGetAll(st)[j], id))
  {
    match Seqs.FindIndex(TasksGetAll(st), IdIs(id))
    case None => Failure("Task not found")
    case Some(i) => Success(TasksGetAll(st)[i])
  }

  // ---------------------------------------------------------------- properties

  /** Deleting an id no contact carries leaves the list as it was. */
  lemma ContactsDeleteMissing(st: Store, id: Option<Value>)
    requires forall i :: 0 <= i < |ContactsGetAll(st)| ==> !HasId(ContactsGetAll(st)[i], id)
    ensures ContactsGetAll(ContactsDelete(st, id)) == ContactsGetAll(st)
  {
    Seqs.FilterAll(ContactsGetAll(st), IdIsNot(id));
  }

  /** Deleting the same contact id twice is the same as deleting it once. */
  lemma ContactsDeleteIdempotent(st: Store, id: Option<Value>)
    ensures ContactsDelete(ContactsDelete(st, id), id) == ContactsDelete(st, id)
  {
    var once := ContactsDelete(st, id);
    Seqs.FilterAll(ContactsGetAll(once), IdIsNot(id));
  }

  /** Deleting an id no task carries leaves the list as it was. */
  lemma TasksDeleteMissing(st: Store, id: Option<Value>)
    requires forall i :: 0 <= i < |TasksGetAll(st)| ==> !HasId(TasksGetAll(st)[i], id)
    ensures TasksGetAll(TasksDelete(st, id)) == TasksGetAll(st)
  {
    Seqs.FilterAll(TasksGetAll(st), IdIsNot(id));
  }

  /** After `delete(id)` no task with the id is left for `getById` to find. */
  lemma TasksDeleteThenGet(st: Store, id: Option<Value>)
    ensures TasksGetById(TasksDelete(st, id), id) == Failure("Task not found")
  {
    var ys := TasksGetAll(TasksDelete(st, id));
    forall i | 0 <= i < |ys|
      ensures !HasId(ys[i], id)
    {
      assert ys[i] in ys;
    }
  }

  /** A task added under a fresh clock id is what `getById` then returns for that id. */
  lemma TasksAddThenGet(st: Store, task: Record, clockId: string, nowIso: string)
    requires forall i :: 0 <= i < |TasksGetAll(st)| ==> !HasId(TasksGetAll(st)[i], Some(Str(clockId)))
    ensures TasksGetById(TasksAdd(st, task, clockId, nowIso).store, Some(Str(clockId)))
      == Success(TasksAdd(st, task, clockId, nowIso).record)
  {
    var w := TasksAdd(st, task, clockId, nowIso);
    var xs := TasksGetAll(st);
    var ys := TasksGetAll(w.store);
    assert ys[|xs|] == w.record;
    Seqs.FindIndexAt(ys, IdIs(Some(Str(clockId))), |xs|);
  }

  /** After a successful update that leaves the id field alone, `getById` returns the merged
      record. */
  lemma TasksUpdateThenGet(st: Store, id: Option<Value>, fields: Record)
    requires "id" !in fields
    requires TasksUpdate(st, id, fields).Success?
    ensures TasksGetById(TasksUpdate(st, id, fields).value.store, id)
      == Success(TasksUpdate(st, id, fields).value.record)
  {
    var w := TasksUpdate(st, id, fields).value;
    var xs, ys := TasksGetAll(st), TasksGetAll(w.store);
    var i := Seqs.FindIndex(xs, IdIs(id)).value;
    assert HasId(ys[i], id);
    forall j | 0 <= j < i
      ensures !IdIs(id)(ys[j])
    {
      assert ys[j] == xs[j];
    }
    Seqs.FindIndexAt(ys, IdIs(id), i);
  }
}
