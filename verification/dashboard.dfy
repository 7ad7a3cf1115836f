/** `calculateStats` of src/pages/Dashboard.jsx: the dashboard's counters and its five most
    recent tasks and contacts. */
module Dashboard {
  import opened Wrappers
  import Seqs
  import Sorting
  import Reports
  import opened Entities

  /** The overdue counter as written: it reads `task.dueDate`, which stored tasks lack. */
  function OverdueAsWritten(tasks: seq<Task>, now: int): (n: nat)
    ensures n <= |tasks|
  {
    Seqs.Count(tasks, (t: Task) => t.camelDueDate.Some? && t.camelDueDate.value < now && t.status != Some("completed"))
  }

  /** As written the dashboard reports no overdue task for any list of stored tasks. */
  lemma OverdueAlwaysZeroAsWritten(tasks: seq<Task>, now: int)
    requires forall i :: 0 <= i < |tasks| ==> Stored(tasks[i])
    ensures OverdueAsWritten(tasks, now) == 0
  {
    Seqs.CountNone(tasks, (t: Task) => t.camelDueDate.Some? && t.camelDueDate.value < now && t.status != Some("completed"));
  }

  /** A pending task due before now counts as overdue when `due_date` is read, but not as
      written. */
  lemma OverdueCounterexample()
    ensures var t := Task("Call", None, None, None, Some("high"), Some("pending"), Some(0), None, None);
      OverdueAsWritten([t], 1) == 0 && Overdue([t], 1) == 1
  {
    var t := Task("Call", None, None, None, Some("high"), Some("pending"), Some(0), None, None);
    assert [t][1..] == [];
  }

  /** The overdue counter reading the stored `due_date`: tasks due before now and not
      completed. */
  function Overdue(tasks: seq<Task>, now: int): (n: nat)
    ensures n <= |tasks|
  {
    Seqs.Count(tasks, Reports.Overdue(now))
  }

  /** `tasks.filter(task => task.status === 'completed').length`. */
  function Completed(tasks: seq<Task>): (n: nat)
    ensures n <= |tasks|
  {
    Seqs.Count(tasks, Reports.HasStatus("completed"))
  }

  /** `s.sort((a, b) => new Date(b.created_at) - new Date(a.created_at)).slice(0, 5)`. */
  function Recent<T(==,!new)>(s: seq<T>, created: T -> Option<int>): (r: seq<T>)
    ensures |r| == if |s| < 5 then |s| else 5
    ensures multiset(r) <= multiset(s)
    ensures forall k :: 0 <= k < |r| ==> r[k] in s
  {
    var t := Sorting.SortBy(s, Sorting.ByKey(created, -1));
    var r := Seqs.Take(t, 5);
    assert t == r + t[|r|..];
    assert multiset(t) == multiset(r) + multiset(t[|r|..]);
    assert forall k :: 0 <= k < |r| ==> r[k] in s by {
      forall k | 0 <= k < |r| ensures r[k] in s {
        assert r[k] in multiset(s);
      }
    }
    r
  }

  /** An element that a prefix holds fewer times than the whole sits after the prefix. */
  lemma LeftOutIndex<T>(t: seq<T>, n: nat, x: T)
    requires n <= |t| && multiset(t[..n])[x] < multiset(t)[x]
    ensures exists m :: n <= m < |t| && t[m] == x
  {
    assert t == t[..n] + t[n..];
    assert multiset(t) == multiset(t[..n]) + multiset(t[n..]);
    Seqs.MultisetIndex(t[n..], x);
    var m :| 0 <= m < |t[n..]| && t[n..][m] == x;
    assert t[n + m] == x;
  }

  /** When every element has a valid creation date, the recent list runs from newest to
      oldest and nothing left out is newer than anything kept. */
  lemma RecentNewest<T(!new)>(s: seq<T>, created: T -> Option<int>)
    requires forall i :: 0 <= i < |s| ==> created(s[i]).Some?
    ensures Sorting.KeysInOrder(Recent(s, created), created, -1)
    ensures forall x, k :: x in s && multiset(Recent(s, created))[x] < multiset(s)[x] && 0 <= k < |Recent(s, created)| ==>
      created(x).value <= created(Recent(s, created)[k]).value
  {
    var t := Sorting.SortBy(s, Sorting.ByKey(created, -1));
    var r := Recent(s, created);
    Sorting.SortByKeyOrdered(s, created, -1);
    assert r == t[..|r|];
    forall x, k | x in s && multiset(r)[x] < multiset(s)[x] && 0 <= k < |r|
      ensures created(x).value <= created(r[k]).value
    {
      LeftOutIndex(t, |r|, x);
      var m :| |r| <= m < |t| && t[m] == x;
      assert t[m] in multiset(s);
      Seqs.MultisetIndex(s, t[m]);
      assert t[k] in multiset(s);
      Seqs.MultisetIndex(s, t[k]);
    }
  }

  /** The `dashboardStats` object, with `due_date` read for the overdue counter. */
  datatype Summary<C> = Summary(
    totalContacts: nat, totalTasks: nat, overdue: nat, completed: nat,
    recentTasks: seq<Task>, recentContacts: seq<C>)

  function TaskCreated(): Task -> Option<int> {
    (t: Task) => t.createdAt
  }

  /** The dashboard stats for the given lists and clock reading. */
  function Summarize<C(==,!new)>(contacts: seq<C>, created: C -> Option<int>, tasks: seq<Task>, now: int)
    : (r: Summary<C>)
    ensures r.totalContacts == |contacts| && r.totalTasks == |tasks|
    ensures r.overdue + r.completed <= r.totalTasks
    ensures |r.recentTasks| <= 5 && multiset(r.recentTasks) <= multiset(tasks)
    ensures |r.recentContacts| <= 5 && multiset(r.recentContacts) <= multiset(contacts)
  {
    Seqs.CountDisjoint(tasks, Reports.Overdue(now), Reports.HasStatus("completed"));
    Summary(|contacts|, |tasks|, Overdue(tasks, now), Completed(tasks),
      Recent(tasks, TaskCreated()), Recent(contacts, created))
  }

  /** The dashboard and the reports page agree on the totals, the overdue tasks and the
      completed tasks, for the same lists and clock reading. */
  lemma AgreesWithReports<C(!new)>(contacts: seq<C>, created: C -> Option<int>, tasks: seq<Task>,
                                   now: int, weekStart: int, s: Reports.Stats)
    requires Reports.Counts(s, |contacts|, tasks, weekStart, now)
    ensures var d := Summarize(contacts, created, tasks, now);
      d.totalContacts == s.totalContacts && d.totalTasks == s.totalTasks &&
      d.overdue == s.overdue && d.completed == s.completed
  {
  }
}
