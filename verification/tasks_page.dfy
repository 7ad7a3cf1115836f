/** The list logic of src/pages/Tasks.jsx: search, priority and status filters, and sort. */
module TasksPage {
  import opened Wrappers
  import Seqs
  import Strings
  import Sorting
  import Listing
  import opened Entities

  /** The `filters` state. */
  datatype Filters = Filters(priority: string, status: string, sortBy: string, sortOrder: string)

  /** The filters when the page opens: all priorities and statuses, by due date, ascending. */
  function DefaultFilters(): (f: Filters)
    ensures f.priority == "all" && f.status == "all"
    ensures f.sortBy == "dueDate" && f.sortOrder == "asc"
  {
    Filters("all", "all", "dueDate", "asc")
  }

  /** Which fields the list reads for the contact name and the due date. */
  datatype Fields = Fields(contactName: Task -> Option<string>, dueDate: Task -> Option<int>)

  /** The keys the page reads as written: `contactName` and `dueDate`. */
  function AsWritten(): Fields {
    Fields((t: Task) => t.camelContactName, (t: Task) => t.camelDueDate)
  }

  /** The keys stored tasks carry: `contact_name` and `due_date`. */
  function Corrected(): Fields {
    Fields((t: Task) => t.contactName, (t: Task) => t.dueDate)
  }

  /** `s?.toLowerCase().includes(term)`: an absent text matches nothing. */
  predicate TextMatches(s: Option<string>, lowerTerm: string) {
    s.Some? && Strings.Contains(Strings.Lower(s.value), lowerTerm)
  }

  /** The search box: title, description or contact name contain the term, ignoring case. */
  predicate MatchesSearch(fields: Fields, t: Task, term: string) {
    var lt := Strings.Lower(term);
    Strings.Contains(Strings.Lower(t.title), lt)
    || TextMatches(t.description, lt)
    || TextMatches(fields.contactName(t), lt)
  }

  /** A select filter: `'all'`, or exactly the chosen value. */
  predicate Selects(choice: string, v: Option<string>) {
    choice == "all" || v == Some(choice)
  }

  function Keeps(fields: Fields, term: string, f: Filters): Task -> bool {
    (t: Task) => MatchesSearch(fields, t, term) && Selects(f.priority, t.priority) && Selects(f.status, t.status)
  }

  /** The direction of the list. */
  function Order(f: Filters): int {
    Sorting.Direction(f.sortOrder)
  }

  /** `{ high: 3, medium: 2, low: 1 }[priority]`; any other priority gives NaN. */
  function Rank(p: Option<string>): (r: Option<int>)
    ensures r.Some? <==> p == Some("high") || p == Some("medium") || p == Some("low")
    ensures r.Some? ==> 1 <= r.value <= 3
    ensures p == Some("high") ==> r == Some(3)
    ensures p == Some("medium") ==> r == Some(2)
    ensures p == Some("low") ==> r == Some(1)
  {
    if p == Some("high") then Some(3)
    else if p == Some("medium") then Some(2)
    else if p == Some("low") then Some(1)
    else None
  }

  function PriorityRank(): Task -> Option<int> {
    (t: Task) => Rank(t.priority)
  }

  function Title(): Task -> string {
    (t: Task) => t.title
  }

  /** The comparator of the list; an unknown sort key makes every pair tie. */
  function Comparator(fields: Fields, f: Filters): (Task, Task) -> int {
    if f.sortBy == "dueDate" then Sorting.ByKey(fields.dueDate, Order(f))
    else if f.sortBy == "priority" then Sorting.ByKey(PriorityRank(), Order(f))
    else if f.sortBy == "title" then Sorting.ByText(Title(), Order(f))
    else (a: Task, b: Task) => 0
  }

  /** `filteredTasks`, reading the given keys: exactly the matching tasks, each as often as in
      the list. */
  function Filtered(tasks: seq<Task>, term: string, f: Filters, fields: Fields): (r: seq<Task>)
    ensures forall t :: t in r <==>
      t in tasks && MatchesSearch(fields, t, term) && Selects(f.priority, t.priority) && Selects(f.status, t.status)
    ensures forall t :: Keeps(fields, term, f)(t) ==> multiset(r)[t] == multiset(tasks)[t]
    ensures |r| == Seqs.Count(tasks, Keeps(fields, term, f))
  {
    Listing.FilterSort(tasks, Keeps(fields, term, f), Comparator(fields, f))
  }

  /** `filteredTasks` as written, reading `contactName` and `dueDate`. */
  function FilteredTasksAsWritten(tasks: seq<Task>, term: string, f: Filters): (r: seq<Task>)
    ensures forall t :: t in r <==> t in tasks && Keeps(AsWritten(), term, f)(t)
  {
    Filtered(tasks, term, f, AsWritten())
  }

  /** `filteredTasks` reading the keys stored tasks carry. */
  function FilteredTasks(tasks: seq<Task>, term: string, f: Filters): (r: seq<Task>)
    ensures forall t :: t in r <==> t in tasks && Keeps(Corrected(), term, f)(t)
  {
    Filtered(tasks, term, f, Corrected())
  }

  /** Sorting by title orders the titles in the chosen direction. */
  lemma SortedByTitle(tasks: seq<Task>, term: string, f: Filters, fields: Fields)
    requires f.sortBy == "title"
    ensures Listing.TextsInOrder(Filtered(tasks, term, f, fields), Title(), Order(f))
  {
    Listing.TextOrder(tasks, Keeps(fields, term, f), Title(), Order(f));
  }

  /** Sorting by priority orders the ranks in the chosen direction, when every listed task has
      one of the three priorities. */
  lemma SortedByPriority(tasks: seq<Task>, term: string, f: Filters, fields: Fields)
    requires f.sortBy == "priority"
    requires forall i :: 0 <= i < |tasks| && Keeps(fields, term, f)(tasks[i]) ==> Rank(tasks[i].priority).Some?
    ensures Sorting.KeysInOrder(Filtered(tasks, term, f, fields), PriorityRank(), Order(f))
  {
    Listing.KeyOrder(tasks, Keeps(fields, term, f), PriorityRank(), Order(f));
  }

  /** Reading `due_date`, sorting by due date orders the dates in the chosen direction when
      every listed task has a valid one. */
  lemma SortedByDueDate(tasks: seq<Task>, term: string, f: Filters)
    requires f.sortBy == "dueDate"
    requires forall i :: 0 <= i < |tasks| && Keeps(Corrected(), term, f)(tasks[i]) ==> tasks[i].dueDate.Some?
    ensures Sorting.KeysInOrder(FilteredTasks(tasks, term, f), (t: Task) => t.dueDate, Order(f))
  {
    Listing.KeyOrder(tasks, Keeps(Corrected(), term, f), Corrected().dueDate, Order(f));
  }

  /** As written, sorting stored tasks by due date compares NaN with NaN, so the list keeps
      the order the service returned. */
  lemma DueDateSortIgnoredAsWritten(tasks: seq<Task>, term: string, f: Filters)
    requires f.sortBy == "dueDate"
    requires forall i :: 0 <= i < |tasks| ==> Stored(tasks[i])
    ensures FilteredTasksAsWritten(tasks, term, f) == Seqs.Filter(tasks, Keeps(AsWritten(), term, f))
  {
    var keep := Keeps(AsWritten(), term, f);
    var cmp := Comparator(AsWritten(), f);
    var kept := Seqs.Filter(tasks, keep);
    forall i, j | 0 <= i < j < |kept|
      ensures cmp(kept[i], kept[j]) == 0
    {
      Seqs.FilterMember(tasks, keep, kept[i]);
      Seqs.FilterMember(tasks, keep, kept[j]);
    }
    Sorting.TiesKeepOrder(kept, cmp);
  }

  /** As written, a stored task is found only by its title or description. */
  lemma ContactNameIgnoredAsWritten(t: Task, term: string)
    requires Stored(t)
    ensures MatchesSearch(AsWritten(), t, term) <==>
      Strings.Contains(Strings.Lower(t.title), Strings.Lower(term)) || TextMatches(t.description, Strings.Lower(term))
  {
  }

  /** A task for contact "Acme" is found by "acme" when `contact_name` is read, but not as
      written. */
  lemma ContactSearchCounterexample()
    ensures var t := Task("Call", None, Some("Acme"), None, Some("high"), Some("pending"), None, None, None);
      MatchesSearch(Corrected(), t, "acme") && !MatchesSearch(AsWritten(), t, "acme")
  {
    var t := Task("Call", None, Some("Acme"), None, Some("high"), Some("pending"), None, None, None);
    assert Strings.Lower("Acme") == "acme";
    assert Strings.Lower("acme") == "acme";
    assert Strings.OccursAt("acme", "acme", 0);
    assert Strings.Lower("Call") == "call";
    assert "call"[0..4] == "call" && "call"[0] != "acme"[0];
    assert forall j: nat :: !Strings.OccursAt("call", "acme", j);
  }

  /** With an empty search and both selects on `'all'` every task is listed. */
  lemma EmptySearchListsAll(tasks: seq<Task>, f: Filters, fields: Fields)
    requires f.priority == "all" && f.status == "all"
    ensures multiset(Filtered(tasks, "", f, fields)) == multiset(tasks)
  {
    forall i | 0 <= i < |tasks|
      ensures Keeps(fields, "", f)(tasks[i])
    {
      Strings.ContainsEmpty(Strings.Lower(tasks[i].title));
    }
    Listing.KeepsAll(tasks, Keeps(fields, "", f), Comparator(fields, f));
  }
}
