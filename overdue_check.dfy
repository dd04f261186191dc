/**
 * `check_and_send_overdue_emails()`: one pass over all tasks, scheduling a
 * reminder one hour or half an hour before a task's allocated hours run out.
 * Scheduling an email is modelled as appending to the list of reminders sent.
 */
module OverdueCheck {
  import opened Wrappers

  datatype Task = Task(id: nat, assignedTo: Option<nat>, allocatedHours: real, consumedHours: real)
  {
    function Remaining(): real {
      allocatedHours - consumedHours
    }
  }

  /** The arguments of one `send_overdue_task_email.delay(task_id, assigned_to_id, hours_before)`. */
  datatype Reminder = Reminder(taskId: nat, assignedTo: Option<nat>, hoursBefore: real)

  /** The reminder a task with `remaining` hours left is due, if any. */
  function Bucket(remaining: real): (r: Option<real>)
    ensures r == Some(1.0) <==> 0.5 < remaining <= 1.0
    ensures r == Some(0.5) <==> 0.0 < remaining <= 0.5
    ensures r == None <==> remaining <= 0.0 || remaining > 1.0
  {
    if 0.5 < remaining <= 1.0 then Some(1.0)
    else if 0.0 < remaining <= 0.5 then Some(0.5)
    else None
  }

  /** What one task contributes to a run. */
  function ReminderFor(t: Task): seq<Reminder> {
    match Bucket(t.Remaining())
    case Some(h) => [Reminder(t.id, t.assignedTo, h)]
    case None => []
  }

  /** Everything a run over `tasks` schedules, in task order. */
  function Reminders(tasks: seq<Task>): seq<Reminder> {
    if tasks == [] then [] else Reminders(tasks[..|tasks| - 1]) + ReminderFor(tasks[|tasks| - 1])
  }

  /** The tasks due a reminder. */
  function Due(tasks: seq<Task>): nat {
    if tasks == [] then 0
    else Due(tasks[..|tasks| - 1]) + (if Bucket(tasks[|tasks| - 1].Remaining()).Some? then 1 else 0)
  }

  /** `check_and_send_overdue_emails()` over the task table `tasks`. */
  method CheckAndSendOverdueEmails(tasks: seq<Task>) returns (sent: seq<Reminder>)
    ensures sent == Reminders(tasks)
  {
    sent := [];
    var i := 0;
    while i < |tasks|
      invariant 0 <= i <= |tasks|
      invariant sent == Reminders(tasks[..i])
    {
      var task := tasks[i];
      var remaining := task.allocatedHours - task.consumedHours;
      if 0.5 < remaining <= 1.0 {
        sent := sent + [Reminder(task.id, task.assignedTo, 1.0)];
      } else if 0.0 < remaining <= 0.5 {
        sent := sent + [Reminder(task.id, task.assignedTo, 0.5)];
      }
      assert tasks[..i + 1][..i] == tasks[..i];
      i := i + 1;
    }
    assert tasks[..i] == tasks;
  }

  /** At most one reminder per task: exactly one for each task that is due, none for the others. */
  lemma {:induction false} OneReminderPerDueTask(tasks: seq<Task>)
    ensures |Reminders(tasks)| == Due(tasks) <= |tasks|
  {
    if tasks != [] {
      OneReminderPerDueTask(tasks[..|tasks| - 1]);
    }
  }

  /** Every due task gets its reminder, addressed to its assignee with its bucket. */
  lemma {:induction false} DueTaskReminded(tasks: seq<Task>, i: int)
    requires 0 <= i < |tasks| && Bucket(tasks[i].Remaining()).Some?
    ensures Reminder(tasks[i].id, tasks[i].assignedTo, Bucket(tasks[i].Remaining()).value) in Reminders(tasks)
  {
    if i < |tasks| - 1 {
      DueTaskReminded(tasks[..|tasks| - 1], i);
    }
  }

  /** Every reminder comes from a task in the run, which was due exactly that reminder. */
  lemma {:induction false} ReminderHasItsTask(tasks: seq<Task>, r: Reminder)
    requires r in Reminders(tasks)
    ensures exists t :: t in tasks && r == Reminder(t.id, t.assignedTo, r.hoursBefore)
                        && Bucket(t.Remaining()) == Some(r.hoursBefore)
  {
    var last := tasks[|tasks| - 1];
    if r in Reminders(tasks[..|tasks| - 1]) {
      ReminderHasItsTask(tasks[..|tasks| - 1], r);
      var t :| t in tasks[..|tasks| - 1] && r == Reminder(t.id, t.assignedTo, r.hoursBefore)
                && Bucket(t.Remaining()) == Some(r.hoursBefore);
      assert t in tasks;
    } else {
      assert last in tasks;
    }
  }
}
