/**
 What each lifecycle call writes, column by column, and where the states of runs and tasks come from:
 over every run of calls a status names the call that gave it.
 */
module TaskOutcomes {
  import opened Prelude
  import opened TaskLifecycle
  import opened TaskLifecycleProofs
  import opened TaskTickets
  import opened TaskRecovery

  // ---------- the calls that end a run ----------

  /** Tickets and stages are as they were; exactly these events were added. */
  ghost predicate OnlyWork(t: Tables, u: Tables, kind: string, task: string, run: string) {
    u == t.(tasks := u.tasks, runs := u.runs, events := t.events + multiset{Event(kind, task, run)})
  }

  /** The run ended with this status, and its task with this status, result and failure. */
  ghost predicate EndedAs(t: Tables, u: Tables, run: string, status: RunStatus, taskStatus: TaskStatus, result: Option<string>,
                          failure: Option<string>, kind: string)
  {
    run in t.runs && run in u.runs && u.runs - {run} == t.runs - {run} && u.runs[run].status == status &&
    u.runs[run].task == t.runs[run].task && u.runs[run].mode == t.runs[run].mode && u.runs[run].snapshot == t.runs[run].snapshot &&
    var id := t.runs[run].task;
    OnlyWork(t, u, kind, id, run) && u.tasks.Keys == t.tasks.Keys && u.tasks - {id} == t.tasks - {id} &&
    (id in t.tasks ==> (
      u.tasks[id].status == taskStatus && u.tasks[id].result == result && u.tasks[id].failure == failure &&
      u.tasks[id].record == t.tasks[id].record && u.tasks[id].project == t.tasks[id].project && u.tasks[id].run == t.tasks[id].run))
  }

  ghost predicate Refused(t: Tables, r: Reply, e: TaskError) { r == Reply(t, Err(e)) }

  /** Completing: run and task are completed, with this result and without failure. */
  lemma {:induction false} CompleteStores(t: Tables, run: string, result: string)
    ensures var r := CompleteRun(t, run, result);
      if run in t.runs then r.result.Ok? && EndedAs(t, r.tables, run, RunCompleted, Completed, Some(result), None, "run_completed")
      else Refused(t, r, UnknownRun)
  {
  }

  /** Failing: run and task are failed, with this failure and without result. */
  lemma {:induction false} FailStores(t: Tables, run: string, failure: string)
    ensures var r := FailRun(t, run, failure);
      if run in t.runs then r.result.Ok? && EndedAs(t, r.tables, run, RunFailed, Failed, None, Some(failure), "run_failed")
      else Refused(t, r, UnknownRun)
  {
  }

  /** Canceling a run: run and task are canceled, without result and failure. */
  lemma {:induction false} CancelRunStores(t: Tables, run: string)
    ensures var r := CancelRun(t, run);
      if run in t.runs then r.result.Ok? && EndedAs(t, r.tables, run, RunCanceled, Canceled, None, None, "run_canceled")
      else Refused(t, r, UnknownRun)
  {
  }

  // ---------- the calls that start, claim, retry and cancel ----------

  /** A queued run of this task and mode became the current one. */
  ghost predicate QueuedAs(t: Tables, u: Tables, id: string, mode: string, newRun: string) {
    id in t.tasks && newRun !in t.runs && u.runs == t.runs[newRun := TaskRun(id, RunQueued, mode, None)] &&
    u.tasks == t.tasks[id := t.tasks[id].(run := Some(newRun), status := Queued, failure := None)] &&
    OnlyWork(t, u, "run_queued", id, newRun)
  }

  /** Starting is for routed tasks that wait, failed or were canceled; it queues a run unless one is active. */
  lemma {:induction false} StartStores(t: Tables, id: string, mode: string, newRun: string)
    ensures var r := StartTask(t, id, mode, newRun);
      if id !in t.tasks then Refused(t, r, UnknownTask)
      else if t.tasks[id].project == UNBOUND then Refused(t, r, NoRoute)
      else if t.tasks[id].status !in {AwaitingStart, Failed, Canceled} then Refused(t, r, WrongState)
      else if HasActiveRun(t, id) then r == Reply(t, Ok(()))
      else if newRun in t.runs then Refused(t, r, IntegrityError)
      else r.result.Ok? && QueuedAs(t, r.tables, id, mode, newRun)
  {
  }

  /** Claiming is for queued runs: the run runs on the snapshot it has or on its ticket's current one, and its task runs. */
  lemma {:induction false} ClaimStores(t: Tables, run: string)
    requires TicketInv(t)
    ensures var r := ClaimRun(t, run);
      if run !in t.runs then Refused(t, r, UnknownRun)
      else if !t.runs[run].status.RunQueued? then Refused(t, r, WrongState)
      else r.result.Ok? && Claimed(t, r.tables, run)
  {
    if run in t.runs {
      assert RunLinked(t.runs[run], t.tasks, t.snapshots);
      var record := t.tasks[t.runs[run].task].record;
      assert OwnSnapshot(t.snapshots, t.records[record].snapshot, record);
    }
  }

  ghost predicate Claimed(t: Tables, u: Tables, run: string) {
    run in t.runs && run in u.runs && t.runs[run].task in t.tasks &&
    var id := t.runs[run].task;
    t.tasks[id].record in t.records && OnlyWork(t, u, "run_started", id, run) &&
    u.tasks == t.tasks[id := t.tasks[id].(status := Running)] && u.runs - {run} == t.runs - {run} &&
    u.runs[run].status.RunRunning? && u.runs[run].task == id && u.runs[run].mode == t.runs[run].mode &&
    u.runs[run].snapshot.Some? && u.runs[run].snapshot.value in t.snapshots &&
    u.runs[run].snapshot == if t.runs[run].snapshot.Some? then t.runs[run].snapshot else t.records[t.tasks[id].record].snapshot
  }

  /** Retrying is for the failed current run of a failed task: both are queued again, without result and failure. */
  lemma {:induction false} RetryStores(t: Tables, id: string, run: string)
    ensures var r := RetryDelivery(t, id, run);
      if id !in t.tasks || run !in t.runs || t.runs[run].task != id then Refused(t, r, UnknownTask)
      else if t.tasks[id].run != Some(run) then Refused(t, r, NotCurrent)
      else if !t.tasks[id].status.Failed? || !t.runs[run].status.RunFailed? then Refused(t, r, WrongState)
      else r.result.Ok? && EndedAs(t, r.tables, run, RunQueued, Queued, None, None, "delivery_retry_queued")
  {
  }

  /** A waiting or queued task is canceled with its current run, a running one is asked to cancel, any other refuses. */
  lemma {:induction false} CancelTaskStores(t: Tables, id: string)
    ensures var r := CancelTask(t, id);
      if id !in t.tasks then Refused(t, r, UnknownTask)
      else if t.tasks[id].status.Running? then
        r.result.Ok? && r.tables.tasks == t.tasks[id := t.tasks[id].(status := CancelRequested)] && r.tables.runs == t.runs &&
        OnlyWork(t, r.tables, "cancel_requested", id, "")
      else if t.tasks[id].status.AwaitingStart? || t.tasks[id].status.Queued? then
        r.result.Ok? && r.tables.tasks == t.tasks[id := t.tasks[id].(status := Canceled)] &&
        OnlyWork(t, r.tables, "task_canceled", id, "") && r.tables.runs.Keys == t.runs.Keys &&
        forall x | x in t.runs :: r.tables.runs[x] == if t.tasks[id].run == Some(x) then t.runs[x].(status := RunCanceled) else t.runs[x]
      else Refused(t, r, WrongState)
  {
  }

  /** A new stage runs; finishing writes its status and failure, and no other stage. */
  lemma {:induction false} StagesStore(t: Tables, run: string, stage: nat, status: StageStatus, failure: Option<string>)
    ensures StartStage(t, run).tables ==
      t.(stages := t.stages[t.nextStage := Stage(run, StageRunning, None)], nextStage := t.nextStage + 1)
    ensures var u := FinishStage(t, stage, status, failure).tables;
      u == t.(stages := u.stages) && u.stages - {stage} == t.stages - {stage} && u.stages.Keys == t.stages.Keys &&
      (stage in t.stages ==> u.stages[stage] == Stage(t.stages[stage].run, status, failure))
  {
  }

  // ---------- ingest ----------

  /** The task row as the ticket leaves it, before a run is made for it. */
  ghost predicate Marked(k: Task, ticket: Ticket, project: Option<string>, mode: string, failure: Option<string>) {
    k.failure == failure && k.project == (if project.None? || project.value == "" then UNBOUND else project.value) &&
    (k.status.Failed? <==> failure.Some?) && (k.status.Canceled? <==> failure.None? && !ticket.eligible) &&
    (k.status.Queued? <==> failure.None? && ticket.eligible && mode == "automatic") &&
    (k.status.AwaitingStart? <==> failure.None? && ticket.eligible && mode != "automatic")
  }

  /**
   What becomes of a task that takes a ticket: failed with the routing failure, canceled when the ticket is not
   eligible, else queued with a run in automatic mode and waiting otherwise.
   */
  ghost predicate Treated(t: Tables, u: Tables, id: string, ticket: Ticket, project: Option<string>, mode: string,
                          failure: Option<string>, newRun: string)
  {
    id in u.tasks && Marked(u.tasks[id], ticket, project, mode, failure) &&
    if u.tasks[id].status.Queued? && !HasActiveRun(t, id) then
      newRun !in t.runs && u.tasks[id].run == Some(newRun) && u.runs == t.runs[newRun := TaskRun(id, RunQueued, mode, None)]
    else u.runs == t.runs
  }

  lemma {:induction false} CreateRunStores(t: Tables, id: string, mode: string, newRun: string)
    requires id in t.tasks
    ensures var r := CreateRun(t, id, mode, newRun);
      if HasActiveRun(t, id) then r == Reply(t, Ok(()))
      else if newRun in t.runs then Refused(t, r, IntegrityError) else r.result.Ok? && QueuedAs(t, r.tables, id, mode, newRun)
  {
  }

  /** A marked task that is queued gets its run. */
  lemma {:induction false} MarkedIsTreated(t: Tables, v: Tables, id: string, ticket: Ticket, project: Option<string>, mode: string,
                                           failure: Option<string>, newRun: string)
    requires id in v.tasks && v.runs == t.runs && Marked(v.tasks[id], ticket, project, mode, failure)
    ensures var r := if v.tasks[id].status.Queued? then CreateRun(v, id, mode, newRun) else Reply(v, Ok(()));
      r.result.Ok? ==> (
        Treated(t, r.tables, id, ticket, project, mode, failure, newRun) && r.tables.tasks - {id} == v.tasks - {id} &&
        r.tables.tasks[id].record == v.tasks[id].record && r.tables.tasks[id].result == v.tasks[id].result)
  {
    CreateRunStores(v, id, mode, newRun);
    assert HasActiveRun(v, id) <==> HasActiveRun(t, id);
  }

  lemma {:induction false} NewTaskIsTreated(t: Tables, record: nat, ticket: Ticket, project: Option<string>, mode: string,
                                            failure: Option<string>, newRun: string)
    requires IngestNew(t, record, ticket, project, mode, failure, newRun).result.Ok?
    ensures var u, id := IngestNew(t, record, ticket, project, mode, failure, newRun).tables, TaskIdOf(ticket);
      id !in t.tasks && Treated(t, u, id, ticket, project, mode, failure, newRun) && u.tasks - {id} == t.tasks &&
      u.tasks[id].record == record && u.tasks[id].result.None?
  {
    var id := TaskIdOf(ticket);
    var k := Task(record, Binding(project), FirstStatus(ticket, mode, failure), None, failure, None);
    var v := Logged(t.(tasks := t.tasks[id := k]), "ticket_ingested", id, "");
    MarkedIsTreated(t, v, id, ticket, project, mode, failure, newRun);
  }

  lemma {:induction false} KnownTaskIsTreated(t: Tables, id: string, isNew: bool, ticket: Ticket, project: Option<string>, mode: string,
                                              failure: Option<string>, newRun: string)
    requires id in t.tasks && IngestKnown(t, id, isNew, ticket, project, mode, failure, newRun).result.Ok?
    ensures var u := IngestKnown(t, id, isNew, ticket, project, mode, failure, newRun).tables;
      if (isNew || (t.tasks[id].project == UNBOUND && project.Some?)) && t.tasks[id].status !in {Queued, Running, CancelRequested} then
        Treated(t, u, id, ticket, project, mode, failure, newRun) && u.tasks - {id} == t.tasks - {id} &&
        u.tasks[id].record == t.tasks[id].record && u.tasks[id].result == t.tasks[id].result
      else u.tasks == t.tasks && u.runs == t.runs
  {
    var k := t.tasks[id].(project := Binding(project), status := FirstStatus(ticket, mode, failure), failure := failure);
    var u := Logged(t, "ticket_updated", id, "");
    MarkedIsTreated(t, u.(tasks := u.tasks[id := k]), id, ticket, project, mode, failure, newRun);
  }

  /** The ticket's task before the call. */
  ghost predicate TaskOfTicket(t: Tables, id: string, ticket: Ticket) {
    id in t.tasks && IsRecord(t, t.tasks[id].record, ticket.provider, ticket.external)
  }

  /** The ticket's content is stored for it already. */
  ghost predicate KnownContent(t: Tables, ticket: Ticket) {
    exists i: nat, s: nat :: IsRecord(t, i, ticket.provider, ticket.external) && IsSnapshot(t, s, i, ticket.payload)
  }

  lemma {:induction false} SnapshotIsNew(t: Tables, ticket: Ticket)
    requires TicketInv(t)
    ensures var (t1, i) := RecordTicket(t, ticket);
      i in t1.records && (SnapshotTicket(t1, i, ticket.payload).1 <==> !KnownContent(t, ticket))
  {
    RecordTicketKeeps(t, ticket);
    var (t1, i) := RecordTicket(t, ticket);
    if KnownContent(t, ticket) {
      var j: nat, s: nat :| IsRecord(t, j, ticket.provider, ticket.external) && IsSnapshot(t, s, j, ticket.payload);
      assert SameTicket(t1.records, i, j);
      assert IsSnapshot(t1, s, i, ticket.payload);
    } else if FindRecord(t, ticket.provider, ticket.external).Some? {
      assert IsRecord(t, i, ticket.provider, ticket.external);
      forall s: nat ensures !IsSnapshot(t1, s, i, ticket.payload) {
        assert !IsSnapshot(t, s, i, ticket.payload);
      }
    } else {
      forall s: nat ensures !IsSnapshot(t1, s, i, ticket.payload) {
        assert s in t.snapshots ==> t.snapshots[s].record in t.records;
      }
    }
  }

  lemma {:induction false} HalfKeepsTasks(t: Tables, ticket: Ticket)
    requires TicketInv(t)
    ensures var (t1, i) := RecordTicket(t, ticket);
      i in t1.records && (
      var t2 := SnapshotTicket(t1, i, ticket.payload).0;
      t2.tasks == t.tasks && t2.runs == t.runs && Settled(t2, i, ticket) && TicketInv(t2) &&
      forall id :: IsTaskOf(t2, id, i) <==> TaskOfTicket(t, id, ticket))
  {
    TicketHalfKeeps(t, ticket);
    IngestSettles(t, ticket);
    TasksOfRecord(t, ticket);
  }

  lemma {:induction false} TasksOfRecord(t: Tables, ticket: Ticket)
    requires TicketInv(t)
    ensures var (t1, i) := RecordTicket(t, ticket);
      i in t1.records && t1.tasks == t.tasks && t1.runs == t.runs && forall id :: IsTaskOf(t1, id, i) <==> TaskOfTicket(t, id, ticket)
  {
    RecordTicketKeeps(t, ticket);
    var (t1, i) := RecordTicket(t, ticket);
    forall id ensures IsTaskOf(t1, id, i) <==> TaskOfTicket(t, id, ticket) {
      if TaskOfTicket(t, id, ticket) {
        assert SameTicket(t1.records, i, t.tasks[id].record);
      }
    }
  }

  /**
   The ticket's task, new or known. A known one takes the ticket only when its content or its route is new and
   it rests, and is left alone otherwise; no other task changes.
   */
  ghost predicate TaskAfterIngest(t: Tables, u: Tables, id: string, isNew: bool, ticket: Ticket, project: Option<string>, mode: string,
                                  failure: Option<string>, newRun: string)
  {
    id in u.tasks && u.tasks - {id} == t.tasks - {id} &&
    if id !in t.tasks then id == TaskIdOf(ticket) && Treated(t, u, id, ticket, project, mode, failure, newRun) && u.tasks[id].result.None?
    else if (isNew || (t.tasks[id].project == UNBOUND && project.Some?)) && t.tasks[id].status !in {Queued, Running, CancelRequested} then
      Treated(t, u, id, ticket, project, mode, failure, newRun) && u.tasks[id].result == t.tasks[id].result
    else u.tasks == t.tasks && u.runs == t.runs
  }

  lemma {:induction false} SameBefore(t: Tables, s: Tables, u: Tables, id: string, isNew: bool, ticket: Ticket, project: Option<string>,
                                      mode: string, failure: Option<string>, newRun: string)
    requires s.tasks == t.tasks && s.runs == t.runs && TaskAfterIngest(s, u, id, isNew, ticket, project, mode, failure, newRun)
    ensures TaskAfterIngest(t, u, id, isNew, ticket, project, mode, failure, newRun)
  {
    assert HasActiveRun(s, id) <==> HasActiveRun(t, id);
  }

  /**
   What an ingest leaves: the ticket's record with its columns and its content as current snapshot, and its one
   task after it took the ticket or was left alone.
   */
  lemma {:induction false} IngestStores(t: Tables, ticket: Ticket, project: Option<string>, mode: string,
                                        failure: Option<string>, newRun: string)
    returns (record: nat, id: string)
    requires TicketInv(t) && Ingest(t, ticket, project, mode, failure, newRun).result.Ok?
    ensures var u := Ingest(t, ticket, project, mode, failure, newRun).tables;
      Settled(u, record, ticket) && IsTaskOf(u, id, record) && (id in t.tasks <==> exists k :: TaskOfTicket(t, k, ticket)) &&
      TaskAfterIngest(t, u, id, !KnownContent(t, ticket), ticket, project, mode, failure, newRun)
  {
    HalfKeepsTasks(t, ticket);
    SnapshotIsNew(t, ticket);
    IngestHalves(t, ticket, project, mode, failure, newRun);
    var (t1, i) := RecordTicket(t, ticket);
    var (t2, isNew) := SnapshotTicket(t1, i, ticket.payload);
    record := i;
    id := SecondHalfStores(t2, isNew, i, ticket, project, mode, failure, newRun);
    var u := SecondHalf(t2, isNew, i, ticket, project, mode, failure, newRun).tables;
    SameBefore(t, t2, u, id, isNew, ticket, project, mode, failure, newRun);
    assert IsTaskOf(t2, id, i) <==> TaskOfTicket(t, id, ticket);
    if k :| TaskOfTicket(t, k, ticket) {
      assert IsTaskOf(t2, k, i);
    }
  }

  lemma {:induction false} SecondHalfStores(t: Tables, isNew: bool, record: nat, ticket: Ticket, project: Option<string>, mode: string,
                                            failure: Option<string>, newRun: string)
    returns (id: string)
    requires Settled(t, record, ticket) && SecondHalf(t, isNew, record, ticket, project, mode, failure, newRun).result.Ok?
    ensures var u := SecondHalf(t, isNew, record, ticket, project, mode, failure, newRun).tables;
      Settled(u, record, ticket) && IsTaskOf(u, id, record) && TaskAfterIngest(t, u, id, isNew, ticket, project, mode, failure, newRun)
    ensures if id in t.tasks then IsTaskOf(t, id, record) else forall k :: !IsTaskOf(t, k, record)
  {
    match FindTask(t, record)
    case None =>
      id := TaskIdOf(ticket);
      NewTaskIsTreated(t, record, ticket, project, mode, failure, newRun);
    case Some(k) =>
      id := k;
      KnownTaskIsTreated(t, id, isNew, ticket, project, mode, failure, newRun);
      IngestKnownIsWork(t, id, isNew, ticket, project, mode, failure, newRun);
  }

  // ---------- the events of a recovery ----------

  /** What the recovery logs about a run. */
  function Notice(t: Tables, r: string, frozen: set<string>): Event
    requires r in t.runs
  {
    Event(if r in frozen then "delivery_recovery_queued" else "run_interrupted", t.runs[r].task, r)
  }

  /** One event for every recovered run, saying what became of it, and none else. */
  lemma {:induction false} RecoveryLogs(t: Tables, rows: seq<string>, n: nat, frozen: set<string>, e: Event)
    requires InterruptedRows(rows, t) && n <= |rows|
    ensures RowSet(rows[..n]) <= t.runs.Keys
    ensures Recovering(t, rows, n, frozen).0.events[e] ==
      t.events[e] + if e.run in RowSet(rows[..n]) && e == Notice(t, e.run, frozen) then 1 else 0
  {
    if n == 0 {
      assert RowSet(rows[..0]) == {};
    } else {
      RecoveryLogs(t, rows, n - 1, frozen, e);
      TurnSoFar(t, rows, n - 1, frozen);
    }
  }
}
