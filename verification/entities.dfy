/** Tasks and interactions as the list pages, the dashboard and the reports read them from the
    database service. A field that is absent or `null` is `None`; a date field holds the time
    `new Date(field)` stands for, in milliseconds, and is `None` when that date is invalid. */
module Entities {
  import opened Wrappers

  /** A task. The task form and the database service write `due_date` and `contact_name`;
      the tasks list and the dashboard read `dueDate` and `contactName`, which stored tasks
      do not have, so both sets of keys are kept. */
  datatype Task = Task(
    title: string,
    description: Option<string>,
    /** `contact_name` */
    contactName: Option<string>,
    /** `contactName` */
    camelContactName: Option<string>,
    priority: Option<string>,
    status: Option<string>,
    /** `new Date(task.due_date)` */
    dueDate: Option<int>,
    /** `new Date(task.dueDate)` */
    camelDueDate: Option<int>,
    /** `new Date(task.created_at)` */
    createdAt: Option<int>)

  /** A task as the task form and the database service store it: without the camel-case keys. */
  predicate Stored(t: Task) {
    t.camelContactName.None? && t.camelDueDate.None?
  }

  /** `dueDate < now && task.status !== 'completed'` for a task's stored due date: an invalid
      date compares false. */
  predicate IsOverdue(t: Task, now: int) {
    t.dueDate.Some? && t.dueDate.value < now && t.status != Some("completed")
  }

  /** An interaction joined with its contact's name (`interaction.contacts?.name`). */
  datatype Interaction = Interaction(
    summary: Option<string>,
    contactName: Option<string>,
    /** `type` */
    kind: string,
    status: string,
    /** `new Date(interaction.interaction_date)` */
    date: Option<int>)
}
