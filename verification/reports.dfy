/** `calculateStats` of src/pages/Reports.jsx: the counters of the reports page. */
module Reports {
  import opened Wrappers
  import Seqs
  import opened Entities

  /** The `stats` object; the status buckets are `pending`, `in_progress` and `completed`. */
  datatype Stats = Stats(
    totalContacts: nat, totalTasks: nat,
    pending: nat, inProgress: nat, completed: nat,
    high: nat, medium: nat, low: nat,
    thisWeek: nat, overdue: nat)

  /** The stats shown before the first calculation: every counter zero. */
  function InitialStats(): (s: Stats)
    ensures s.totalContacts == s.totalTasks == 0
    ensures s.pending == s.inProgress == s.completed == 0
    ensures s.high == s.medium == s.low == 0
    ensures s.thisWeek == s.overdue == 0
  {
    Stats(0, 0, 0, 0, 0, 0, 0, 0, 0, 0)
  }

  function HasStatus(status: string): Task -> bool {
    (t: Task) => t.status == Some(status)
  }

  function HasPriority(priority: string): Task -> bool {
    (t: Task) => t.priority == Some(priority)
  }

  /** `dueDate >= weekStart && dueDate <= now`. */
  predicate DueThisWeek(t: Task, weekStart: int, now: int) {
    t.dueDate.Some? && weekStart <= t.dueDate.value <= now
  }

  function ThisWeek(weekStart: int, now: int): Task -> bool {
    (t: Task) => DueThisWeek(t, weekStart, now)
  }

  function Overdue(now: int): Task -> bool {
    (t: Task) => IsOverdue(t, now)
  }

  /** The counters the stats should hold: for each bucket, how many tasks fall in it. */
  ghost predicate Counts(s: Stats, contacts: nat, tasks: seq<Task>, weekStart: int, now: int) {
    && s.totalContacts == contacts
    && s.totalTasks == |tasks|
    && s.pending == Seqs.Count(tasks, HasStatus("pending"))
    && s.inProgress == Seqs.Count(tasks, HasStatus("in_progress"))
    && s.completed == Seqs.Count(tasks, HasStatus("completed"))
    && s.high == Seqs.Count(tasks, HasPriority("high"))
    && s.medium == Seqs.Count(tasks, HasPriority("medium"))
    && s.low == Seqs.Count(tasks, HasPriority("low"))
    && s.thisWeek == Seqs.Count(tasks, ThisWeek(weekStart, now))
    && s.overdue == Seqs.Count(tasks, Overdue(now))
  }

  /** One counter after adding one more task. */
  function Bump(n: nat, b: bool): nat {
    if b then n + 1 else n
  }

  /** The counters after the `forEach` body has seen one more task. */
  function Step(s: Stats, t: Task, weekStart: int, now: int): Stats {
    Stats(s.totalContacts, s.totalTasks,
      Bump(s.pending, t.status == Some("pending")),
      Bump(s.inProgress, t.status == Some("in_progress")),
      Bump(s.completed, t.status == Some("completed")),
      Bump(s.high, t.priority == Some("high")),
      Bump(s.medium, t.priority == Some("medium")),
      Bump(s.low, t.priority == Some("low")),
      Bump(s.thisWeek, DueThisWeek(t, weekStart, now)),
      Bump(s.overdue, IsOverdue(t, now)))
  }

  /** Counting one element more. */
  lemma CountSnoc(s: seq<Task>, t: Task, p: Task -> bool)
    ensures Seqs.Count(s + [t], p) == Seqs.Count(s, p) + (if p(t) then 1 else 0)
  {
    Seqs.CountAppend(s, [t], p);
  }

  /** `calculateStats`, with the two reads of the clock and the start of the week as
      parameters: totals are the list lengths, and every bucket counts its tasks. */
  method CalculateStats(contacts: nat, tasks: seq<Task>, weekStart: int, now: int) returns (s: Stats)
    ensures Counts(s, contacts, tasks, weekStart, now)
  {
    s := Stats(contacts, |tasks|, 0, 0, 0, 0, 0, 0, 0, 0);
    var i := 0;
    while i < |tasks|
      invariant 0 <= i <= |tasks|
      invariant s.totalContacts == contacts && s.totalTasks == |tasks|
      invariant s.pending == Seqs.Count(tasks[..i], HasStatus("pending"))
      invariant s.inProgress == Seqs.Count(tasks[..i], HasStatus("in_progress"))
      invariant s.completed == Seqs.Count(tasks[..i], HasStatus("completed"))
      invariant s.high == Seqs.Count(tasks[..i], HasPriority("high"))
      invariant s.medium == Seqs.Count(tasks[..i], HasPriority("medium"))
      invariant s.low == Seqs.Count(tasks[..i], HasPriority("low"))
      invariant s.thisWeek == Seqs.Count(tasks[..i], ThisWeek(weekStart, now))
      invariant s.overdue == Seqs.Count(tasks[..i], Overdue(now))
    {
      var t := tasks[i];
      assert tasks[..i + 1] == tasks[..i] + [t];
      CountSnoc(tasks[..i], t, HasStatus("pending"));
      CountSnoc(tasks[..i], t, HasStatus("in_progress"));
      CountSnoc(tasks[..i], t, HasStatus("completed"));
      CountSnoc(tasks[..i], t, HasPriority("high"));
      CountSnoc(tasks[..i], t, HasPriority("medium"));
      CountSnoc(tasks[..i], t, HasPriority("low"));
      CountSnoc(tasks[..i], t, ThisWeek(weekStart, now));
      CountSnoc(tasks[..i], t, Overdue(now));
      s := Step(s, t, weekStart, now);
      i := i + 1;
    }
    assert tasks[..|tasks|] == tasks;
  }

  /** The three status buckets never hold more than all tasks, and hold exactly all of them
      when every task has one of the three statuses. */
  lemma StatusBuckets(s: Stats, contacts: nat, tasks: seq<Task>, weekStart: int, now: int)
    requires Counts(s, contacts, tasks, weekStart, now)
    ensures s.pending + s.inProgress + s.completed <= s.totalTasks
    ensures (forall i :: 0 <= i < |tasks| ==>
               tasks[i].status in {Some("pending"), Some("in_progress"), Some("completed")})
      ==> s.pending + s.inProgress + s.completed == s.totalTasks
  {
    var p, q, u := HasStatus("pending"), HasStatus("in_progress"), HasStatus("completed");
    var neither := (t: Task) => !p(t) && !q(t);
    Seqs.CountPartition3(tasks, p, q, neither);
    Seqs.CountMonotonic(tasks, u, neither);
    if forall i :: 0 <= i < |tasks| ==>
         tasks[i].status in {Some("pending"), Some("in_progress"), Some("completed")} {
      Seqs.CountMonotonic(tasks, neither, u);
    }
  }

  /** The three priority buckets never hold more than all tasks, and hold exactly all of them
      when every task has one of the three priorities. */
  lemma PriorityBuckets(s: Stats, contacts: nat, tasks: seq<Task>, weekStart: int, now: int)
    requires Counts(s, contacts, tasks, weekStart, now)
    ensures s.high + s.medium + s.low <= s.totalTasks
    ensures (forall i :: 0 <= i < |tasks| ==>
               tasks[i].priority in {Some("high"), Some("medium"), Some("low")})
      ==> s.high + s.medium + s.low == s.totalTasks
  {
    var p, q, u := HasPriority("high"), HasPriority("medium"), HasPriority("low");
    var neither := (t: Task) => !p(t) && !q(t);
    Seqs.CountPartition3(tasks, p, q, neither);
    Seqs.CountMonotonic(tasks, u, neither);
    if forall i :: 0 <= i < |tasks| ==>
         tasks[i].priority in {Some("high"), Some("medium"), Some("low")} {
      Seqs.CountMonotonic(tasks, neither, u);
    }
  }

  /** A completed task is never overdue: the two counters never exceed the total together. */
  lemma OverdueNotCompleted(s: Stats, contacts: nat, tasks: seq<Task>, weekStart: int, now: int)
    requires Counts(s, contacts, tasks, weekStart, now)
    ensures s.overdue + s.completed <= s.totalTasks
  {
    Seqs.CountDisjoint(tasks, Overdue(now), HasStatus("completed"));
  }
}
