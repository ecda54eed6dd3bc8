/**
 `TaskStore` and `RecoveryService` themselves: the tables as fields, each method its SQL statements
 in their order, proved to compute the transition of the same name in TaskLifecycle.
 */
module TaskStores {
  import opened Prelude
  import L = TaskLifecycle
  import opened TaskLifecycle
  import opened TaskLifecycleProofs
  import opened TaskTickets
  import opened TaskRecovery
  import opened TaskOutcomes

  class TaskStore {
    var records: map<nat, Record>
    var nextRecord: nat
    var snapshots: map<nat, Snapshot>
    var nextSnapshot: nat
    var tasks: map<string, Task>
    var runs: map<string, TaskRun>
    var stages: map<nat, Stage>
    var nextStage: nat
    var events: multiset<Event>

    function Db(): Tables
      reads this
    {
      Tables(records, nextRecord, snapshots, nextSnapshot, tasks, runs, stages, nextStage, events)
    }

    ghost predicate Valid()
      reads this
    {
      TicketInv(Db())
    }

    /** Every task is in step with its current run. */
    ghost predicate Agrees()
      reads this
    {
      Agreement(tasks, runs)
    }

    constructor ()
      ensures Valid() && Agrees() && Db() == EMPTY
    {
      records, nextRecord, snapshots, nextSnapshot := map[], 1, map[], 1;
      tasks, runs, stages, nextStage, events := map[], map[], map[], 1, multiset{};
    }

    method Rollback(saved: Tables)
      modifies this
      ensures Db() == saved
    {
      records, nextRecord, snapshots, nextSnapshot := saved.records, saved.nextRecord, saved.snapshots, saved.nextSnapshot;
      tasks, runs, stages, nextStage, events := saved.tasks, saved.runs, saved.stages, saved.nextStage, saved.events;
    }

    method LogEvent(kind: string, task: string, run: string)
      modifies this`events
      ensures Db() == Logged(old(Db()), kind, task, run)
    {
      events := events + multiset{Event(kind, task, run)};
    }

    // ---------- ingest ----------

    /** Finds the ticket's record and updates its columns, or inserts it. */
    method SaveRecord(ticket: Ticket) returns (record: nat)
      requires Valid()
      modifies this`records, this`nextRecord
      ensures (Db(), record) == RecordTicket(old(Db()), ticket)
    {
      var rows := set i | i in records && records[i].provider == ticket.provider && records[i].external == ticket.external;
      if rows == {} {
        assert forall i: nat :: IsRecord(Db(), i, ticket.provider, ticket.external) ==> i in rows;
        record := nextRecord;
        records := records[record := Record(ticket.provider, ticket.external, ticket.title, ticket.eligible, ticket.version, None)];
        nextRecord := nextRecord + 1;
      } else {
        record :| record in rows;
        assert IsRecord(Db(), record, ticket.provider, ticket.external);
        assert SameTicket(records, record, FindRecord(Db(), ticket.provider, ticket.external).value);
        records := records[record := records[record].(title := ticket.title, eligible := ticket.eligible, version := ticket.version)];
      }
    }

    /** Finds the content's snapshot or inserts it, and makes it the record's current one. */
    method SaveSnapshot(record: nat, content: string) returns (isNew: bool)
      requires record in records && SnapshotsInv(snapshots, nextSnapshot, records)
      modifies this`records, this`snapshots, this`nextSnapshot
      ensures (Db(), isNew) == SnapshotTicket(old(Db()), record, content)
    {
      var rows := set s | s in snapshots && snapshots[s].record == record && snapshots[s].content == content;
      isNew := rows == {};
      var snapshot := nextSnapshot;
      if isNew {
        assert forall s: nat :: IsSnapshot(Db(), s, record, content) ==> s in rows;
        snapshots := snapshots[snapshot := Snapshot(record, content)];
        nextSnapshot := nextSnapshot + 1;
      } else {
        snapshot :| snapshot in rows;
        assert IsSnapshot(Db(), snapshot, record, content);
        assert SameContent(snapshots, snapshot, FindSnapshot(Db(), record, content).value);
      }
      records := records[record := records[record].(snapshot := Some(snapshot))];
    }

    method SelectTask(record: nat) returns (id: Option<string>)
      requires TasksInv(tasks, records)
      ensures id == FindTask(Db(), record)
    {
      var rows := set k | k in tasks && tasks[k].record == record;
      if rows == {} {
        assert forall k :: IsTaskOf(Db(), k, record) ==> k in rows;
        return None;
      }
      var k :| k in rows;
      assert IsTaskOf(Db(), k, record);
      assert SameRecord(tasks, k, FindTask(Db(), record).value);
      return Some(k);
    }

    method CreateRun(task: string, mode: string, newRun: string) returns (r: Result<(), TaskError>)
      requires task in tasks
      modifies this`runs, this`tasks, this`events
      ensures Reply(Db(), r) == L.CreateRun(old(Db()), task, mode, newRun)
    {
      var existing := set x | x in runs && runs[x].task == task && (runs[x].status.RunQueued? || runs[x].status.RunRunning?);
      if existing != {} {
        assert exists x :: x in existing;
        return Ok(());
      }
      assert !HasActiveRun(Db(), task) by {
        assert forall x | x in runs && runs[x].task == task && Active(runs[x]) :: x in existing;
      }
      if newRun in runs {
        return Err(IntegrityError);
      }
      runs := runs[newRun := TaskRun(task, RunQueued, mode, None)];
      tasks := tasks[task := tasks[task].(run := Some(newRun), status := Queued, failure := None)];
      LogEvent("run_queued", task, newRun);
      r := Ok(());
    }

    method InsertTask(record: nat, ticket: Ticket, project: Option<string>, mode: string, failure: Option<string>, newRun: string)
      returns (r: Result<(), TaskError>)
      modifies this`runs, this`tasks, this`events
      ensures Reply(Db(), r) == IngestNew(old(Db()), record, ticket, project, mode, failure, newRun)
    {
      var id := TaskIdOf(ticket);
      if id in tasks {
        return Err(IntegrityError);
      }
      var status := AwaitingStart;
      if failure.Some? {
        status := Failed;
      } else if !ticket.eligible {
        status := Canceled;
      } else if mode == "automatic" {
        status := Queued;
      }
      tasks := tasks[id := Task(record, Binding(project), status, None, failure, None)];
      LogEvent("ticket_ingested", id, "");
      r := Ok(());
      if status == Queued {
        r := CreateRun(id, mode, newRun);
      }
    }

    method UpdateTask(id: string, isNew: bool, ticket: Ticket, project: Option<string>, mode: string, failure: Option<string>,
                      newRun: string)
      returns (r: Result<(), TaskError>)
      requires id in tasks
      modifies this`runs, this`tasks, this`events
      ensures Reply(Db(), r) == IngestKnown(old(Db()), id, isNew, ticket, project, mode, failure, newRun)
    {
      LogEvent("ticket_updated", id, "");
      r := Ok(());
      var task := tasks[id];
      var routeRecovered := task.project == UNBOUND && project.Some?;
      if (isNew || routeRecovered) && task.status != Queued && task.status != Running && task.status != CancelRequested {
        if failure.Some? {
          tasks := tasks[id := task.(project := Binding(project), status := Failed, failure := failure)];
        } else if !ticket.eligible {
          tasks := tasks[id := task.(project := Binding(project), status := Canceled, failure := None)];
        } else {
          var next := if mode == "automatic" then Queued else AwaitingStart;
          tasks := tasks[id := task.(project := Binding(project), status := next, failure := None)];
          if next == Queued {
            r := CreateRun(id, mode, newRun);
          }
        }
      }
    }

    /** The statements of `ingest`; on an error their writes are still there to be rolled back. */
    method IngestLocked(ticket: Ticket, project: Option<string>, mode: string, failure: Option<string>, newRun: string)
      returns (r: Result<(), TaskError>)
      requires Valid()
      modifies this
      ensures
        var (t1, record) := RecordTicket(old(Db()), ticket);
        var (t2, isNew) := SnapshotTicket(t1, record, ticket.payload);
        Reply(Db(), r) == SecondHalf(t2, isNew, record, ticket, project, mode, failure, newRun)
    {
      TicketHalfKeeps(Db(), ticket);
      RecordTicketSaves(Db(), ticket);
      var record := SaveRecord(ticket);
      var isNew := SaveSnapshot(record, ticket.payload);
      var task := SelectTask(record);
      if task.None? {
        r := InsertTask(record, ticket, project, mode, failure, newRun);
      } else {
        r := UpdateTask(task.value, isNew, ticket, project, mode, failure, newRun);
      }
    }

    method Ingest(ticket: Ticket, project: Option<string>, mode: string, failure: Option<string>, newRun: string)
      returns (r: Result<(), TaskError>)
      requires Valid()
      modifies this
      ensures Valid() && Reply(Db(), r) == L.Ingest(old(Db()), ticket, project, mode, failure, newRun)
      ensures old(Agrees()) ==> Agrees()
      ensures r.Err? ==> Db() == old(Db())
    {
      CallKeeps(Db(), OpIngest(ticket, project, mode, failure, newRun));
      IngestKeeps(Db(), ticket, project, mode, failure, newRun);
      IngestHalves(Db(), ticket, project, mode, failure, newRun);
      var saved := Db();
      r := IngestLocked(ticket, project, mode, failure, newRun);
      if r.Err? {
        Rollback(saved);
      }
    }

    // ---------- the other lifecycle calls ----------

    /** A task that waits, failed or was canceled gets a queued run; no other task and no existing run changes. */
    method StartTask(id: string, mode: string, newRun: string) returns (r: Result<(), TaskError>)
      modifies this
      ensures Reply(Db(), r) == L.StartTask(old(Db()), id, mode, newRun)
      ensures r.Err? ==> Db() == old(Db())
      ensures r.Ok? ==> tasks - {id} == old(tasks) - {id} && HasActiveRun(Db(), id)
      ensures forall x | x in old(runs) :: x in runs && runs[x] == old(runs)[x]
      ensures old(Valid()) ==> Valid()
      ensures old(Agrees()) ==> Agrees()
    {
      CallKeeps(Db(), OpStart(id, mode, newRun));
      if id !in tasks {
        return Err(UnknownTask);
      }
      if tasks[id].project == UNBOUND {
        return Err(NoRoute);
      }
      if tasks[id].status != AwaitingStart && tasks[id].status != Failed && tasks[id].status != Canceled {
        return Err(WrongState);
      }
      StartedHasRun(Db(), id, mode, newRun);
      var saved := Db();
      r := CreateRun(id, mode, newRun);
      if r.Err? {
        Rollback(saved);
      }
    }

    /** Only the failed current run and its failed task are queued again; the run keeps its snapshot. */
    method RetryFrozenDelivery(id: string, run: string) returns (r: Result<(), TaskError>)
      modifies this`runs, this`tasks, this`events
      ensures Reply(Db(), r) == L.RetryDelivery(old(Db()), id, run)
      ensures r.Err? ==> Db() == old(Db())
      ensures r.Ok? ==> run in old(runs) && runs == old(runs)[run := old(runs)[run].(status := RunQueued)]
      ensures r.Ok? ==> tasks - {id} == old(tasks) - {id} && id in tasks && tasks[id].run == Some(run) && tasks[id].status.Queued?
      ensures old(Valid()) ==> Valid()
      ensures old(Agrees()) ==> Agrees()
    {
      CallKeeps(Db(), OpRetry(id, run));
      r := RetryRows(id, run);
    }

    method RetryRows(id: string, run: string) returns (r: Result<(), TaskError>)
      modifies this`runs, this`tasks, this`events
      ensures Reply(Db(), r) == L.RetryDelivery(old(Db()), id, run)
    {
      if id !in tasks || run !in runs || runs[run].task != id {
        return Err(UnknownTask);
      }
      if tasks[id].run != Some(run) {
        return Err(NotCurrent);
      }
      if tasks[id].status != Failed || runs[run].status != RunFailed {
        return Err(WrongState);
      }
      runs := runs[run := runs[run].(status := RunQueued)];
      tasks := tasks[id := tasks[id].(status := Queued, result := None, failure := None)];
      LogEvent("delivery_retry_queued", id, run);
      r := Ok(());
    }

    /** A task that is not running is canceled with its current run; a running one is only asked to cancel. */
    method CancelTask(id: string) returns (r: Result<(), TaskError>)
      modifies this`runs, this`tasks, this`events
      ensures Reply(Db(), r) == L.CancelTask(old(Db()), id)
      ensures r.Err? ==> Db() == old(Db())
      ensures r.Ok? ==> CanceledOnly(old(Db()), Db(), id)
      ensures old(Valid()) ==> Valid()
      ensures old(Agrees()) ==> Agrees()
    {
      CallKeeps(Db(), OpCancelTask(id));
      CancelTouches(Db(), id);
      r := CancelRows(id);
    }

    method CancelRows(id: string) returns (r: Result<(), TaskError>)
      modifies this`runs, this`tasks, this`events
      ensures Reply(Db(), r) == L.CancelTask(old(Db()), id)
    {
      if id !in tasks {
        return Err(UnknownTask);
      }
      var status := tasks[id].status;
      if status == AwaitingStart || status == Queued {
        tasks := tasks[id := tasks[id].(status := Canceled)];
        var current := tasks[id].run;
        if current.Some? && current.value in runs {
          runs := runs[current.value := runs[current.value].(status := RunCanceled)];
        }
        LogEvent("task_canceled", id, "");
      } else if status == Running {
        tasks := tasks[id := tasks[id].(status := CancelRequested)];
        LogEvent("cancel_requested", id, "");
      } else {
        return Err(WrongState);
      }
      r := Ok(());
    }

    /** A reachable store never reports a ticket without a snapshot. */
    method ClaimRun(run: string) returns (r: Result<(), TaskError>)
      requires Valid()
      modifies this`runs, this`tasks, this`events
      ensures Valid() && Reply(Db(), r) == L.ClaimRun(old(Db()), run) && r != Err(NoSnapshot)
      ensures r.Ok? <==> run in old(runs) && old(runs)[run].status.RunQueued?
      ensures old(Agrees()) ==> Agrees()
    {
      CallKeeps(Db(), OpClaim(run));
      ClaimOutcomeIn(Db(), run);
      r := ClaimLocked(run);
    }

    method ClaimLocked(run: string) returns (r: Result<(), TaskError>)
      modifies this`runs, this`tasks, this`events
      ensures Reply(Db(), r) == L.ClaimRun(old(Db()), run)
    {
      if run !in runs || runs[run].task !in tasks || tasks[runs[run].task].record !in records {
        return Err(UnknownRun);
      }
      if runs[run].status != RunQueued {
        return Err(WrongState);
      }
      var id := runs[run].task;
      var snapshot := runs[run].snapshot;
      if snapshot.None? {
        snapshot := records[tasks[id].record].snapshot;
      }
      if snapshot.None? {
        return Err(NoSnapshot);
      }
      runs := runs[run := runs[run].(status := RunRunning, snapshot := snapshot)];
      tasks := tasks[id := tasks[id].(status := Running)];
      LogEvent("run_started", id, run);
      r := Ok(());
    }

    /** `UPDATE tasks ... WHERE id=?`: no row, no change. */
    method SetTask(id: string, status: TaskStatus, result: Option<string>, failure: Option<string>)
      modifies this`tasks
      ensures tasks == if id in old(tasks)
        then old(tasks)[id := old(tasks)[id].(status := status, result := result, failure := failure)] else old(tasks)
    {
      if id in tasks {
        tasks := tasks[id := tasks[id].(status := status, result := result, failure := failure)];
      }
    }

    /** The statements of a terminal call. */
    method EndRows(run: string, status: RunStatus, taskStatus: TaskStatus, result: Option<string>, failure: Option<string>, kind: string)
      returns (r: Result<(), TaskError>)
      modifies this`runs, this`tasks, this`events
      ensures Reply(Db(), r) == EndRun(old(Db()), run, status, taskStatus, result, failure, kind)
    {
      if run !in runs {
        return Err(UnknownRun);
      }
      runs := runs[run := runs[run].(status := status)];
      SetTask(runs[run].task, taskStatus, result, failure);
      LogEvent(kind, runs[run].task, run);
      r := Ok(());
    }

    /** The run ends as completed; tasks and runs stay in step exactly when its task has no other active run. */
    method CompleteRun(run: string, result: string) returns (r: Result<(), TaskError>)
      modifies this`runs, this`tasks, this`events
      ensures Reply(Db(), r) == L.CompleteRun(old(Db()), run, result)
      ensures (r.Ok? <==> run in old(runs)) && (r.Err? ==> Db() == old(Db()))
      ensures r.Ok? ==> EndedAs(old(Db()), Db(), run, RunCompleted, Completed, Some(result), None, "run_completed")
      ensures old(Valid()) ==> Valid()
      ensures old(Agrees()) ==> (Agrees() <==> run in old(runs) ==> NoOtherActive(old(runs), run))
    {
      CallKeeps(Db(), OpComplete(run, result));
      CompleteStores(Db(), run, result);
      r := EndRows(run, RunCompleted, Completed, Some(result), None, "run_completed");
    }

    /** The run ends as failed; tasks and runs stay in step exactly when its task has no other active run. */
    method FailRun(run: string, failure: string) returns (r: Result<(), TaskError>)
      modifies this`runs, this`tasks, this`events
      ensures Reply(Db(), r) == L.FailRun(old(Db()), run, failure)
      ensures (r.Ok? <==> run in old(runs)) && (r.Err? ==> Db() == old(Db()))
      ensures r.Ok? ==> EndedAs(old(Db()), Db(), run, RunFailed, Failed, None, Some(failure), "run_failed")
      ensures old(Valid()) ==> Valid()
      ensures old(Agrees()) ==> (Agrees() <==> run in old(runs) ==> NoOtherActive(old(runs), run))
    {
      CallKeeps(Db(), OpFail(run, failure));
      FailStores(Db(), run, failure);
      r := EndRows(run, RunFailed, Failed, None, Some(failure), "run_failed");
    }

    /** The run ends as canceled; tasks and runs stay in step exactly when its task has no other active run. */
    method CancelRun(run: string) returns (r: Result<(), TaskError>)
      modifies this`runs, this`tasks, this`events
      ensures Reply(Db(), r) == L.CancelRun(old(Db()), run)
      ensures (r.Ok? <==> run in old(runs)) && (r.Err? ==> Db() == old(Db()))
      ensures r.Ok? ==> EndedAs(old(Db()), Db(), run, RunCanceled, Canceled, None, None, "run_canceled")
      ensures old(Valid()) ==> Valid()
      ensures old(Agrees()) ==> (Agrees() <==> run in old(runs) ==> NoOtherActive(old(runs), run))
    {
      CallKeeps(Db(), OpCancelRun(run));
      CancelRunStores(Db(), run);
      r := EndRows(run, RunCanceled, Canceled, None, None, "run_canceled");
    }

    method StartStage(run: string) returns (stage: nat)
      modifies this`stages, this`nextStage
      ensures Reply(Db(), Ok(())) == L.StartStage(old(Db()), run) && stage in stages && stages[stage] == Stage(run, StageRunning, None)
      ensures old(Valid()) ==> Valid()
      ensures old(Agrees()) ==> Agrees()
    {
      CallKeeps(Db(), OpStartStage(run));
      stage := nextStage;
      stages := stages[stage := Stage(run, StageRunning, None)];
      nextStage := nextStage + 1;
    }

    method FinishStage(stage: nat, status: StageStatus, failure: Option<string>)
      modifies this`stages
      ensures Reply(Db(), Ok(())) == L.FinishStage(old(Db()), stage, status, failure)
      ensures stages - {stage} == old(stages) - {stage}
      ensures old(Valid()) ==> Valid()
      ensures old(Agrees()) ==> Agrees()
    {
      CallKeeps(Db(), OpFinishStage(stage, status, failure));
      if stage in stages {
        stages := stages[stage := stages[stage].(status := status, failure := failure)];
      }
    }
  }

  /** What every call keeps: the ticket invariant always, the agreement exactly when it is disciplined. */
  lemma {:induction false} CallKeeps(t: Tables, op: Op)
    ensures TicketInv(t) ==> TicketInv(Step(t, op))
    ensures Agreement(t.tasks, t.runs) ==> (Agreement(Step(t, op).tasks, Step(t, op).runs) <==> Disciplined(t, op))
  {
    if TicketInv(t) {
      StepKeepsTickets(t, op);
    }
    if Agreement(t.tasks, t.runs) {
      StepAgreesExactlyWhen(t, op);
    }
  }

  lemma {:induction false} StartedHasRun(t: Tables, id: string, mode: string, newRun: string)
    requires id in t.tasks
    ensures var r := L.CreateRun(t, id, mode, newRun);
      (r.result.Ok? ==> HasActiveRun(r.tables, id) && r.tables.tasks - {id} == t.tasks - {id}) &&
      forall x | x in t.runs :: x in r.tables.runs && r.tables.runs[x] == t.runs[x]
  {
    var r := L.CreateRun(t, id, mode, newRun);
    if r.result.Ok? && !HasActiveRun(t, id) {
      assert newRun in r.tables.runs && r.tables.runs[newRun].task == id && Active(r.tables.runs[newRun]);
    }
  }

  /** Only the task changes, and its current run if the task was not running. */
  ghost predicate CanceledOnly(t: Tables, u: Tables, id: string) {
    id in t.tasks && id in u.tasks && u.tasks - {id} == t.tasks - {id} && u.runs.Keys == t.runs.Keys &&
    (if t.tasks[id].status.Running? then u.tasks[id] == t.tasks[id].(status := CancelRequested) && u.runs == t.runs
     else u.tasks[id] == t.tasks[id].(status := Canceled) && forall x | x in t.runs ::
       u.runs[x] == if t.tasks[id].run == Some(x) then t.runs[x].(status := RunCanceled) else t.runs[x])
  }

  lemma {:induction false} CancelTouches(t: Tables, id: string)
    ensures var r := L.CancelTask(t, id); if r.result.Ok? then CanceledOnly(t, r.tables, id) else r.tables == t
  {
  }

  lemma {:induction false} RecordTicketSaves(t: Tables, ticket: Ticket)
    requires TicketInv(t)
    ensures var (u, i) := RecordTicket(t, ticket);
      i in u.records && SnapshotsInv(u.snapshots, u.nextSnapshot, u.records)
  {
  }

  // ---------- recovery ----------

  class RecoveryService {
    const store: TaskStore
    const frozen: set<string>

    /** `manifests`: the runs whose frozen manifest is a file when the service restarts. */
    constructor (connection: TaskStore, manifests: set<string>)
      ensures store == connection && frozen == manifests
    {
      store := connection;
      frozen := manifests;
    }

    method FailRunningStages(run: string)
      modifies store`stages
      ensures store.stages == StagesFailed(old(store.stages), RunningStages(old(store.stages), run))
    {
      ghost var before := store.stages;
      var running := set s | s in store.stages && store.stages[s].run == run && store.stages[s].status.StageRunning?;
      ghost var all := running;
      while running != {}
        invariant running <= all && all <= before.Keys
        invariant store.stages == StagesFailed(before, all - running)
        decreases running
      {
        var s :| s in running;
        store.stages := store.stages[s := store.stages[s].(status := StageFailed, failure := Some(INTERRUPTED_STAGE))];
        assert all - (running - {s}) == (all - running) + {s};
        running := running - {s};
      }
      assert all - running == all;
    }

    /** One iteration of the loop over the interrupted runs. */
    method RecoverRun(run: string) returns (resumed: bool)
      requires IsInterrupted(store.Db(), run)
      modifies store
      ensures resumed == (run in frozen) && store.Db() == OneRecovered(old(store.Db()), run, resumed)
    {
      var id := store.runs[run].task;
      FailRunningStages(run);
      resumed := run in frozen;
      if resumed {
        store.runs := store.runs[run := store.runs[run].(status := RunQueued)];
        store.tasks := store.tasks[id := store.tasks[id].(status := Queued, failure := None)];
        store.LogEvent("delivery_recovery_queued", id, run);
      } else {
        store.runs := store.runs[run := store.runs[run].(status := RunFailed)];
        store.tasks := store.tasks[id := store.tasks[id].(status := Failed, result := None, failure := Some(INTERRUPTED_RUN))];
        store.LogEvent("run_interrupted", id, run);
      }
    }

    method SelectInterrupted() returns (rows: seq<string>)
      ensures IsQueryResult(rows, store.Db())
    {
      var left := set r | r in store.runs && store.runs[r].status == RunRunning && store.runs[r].task in store.tasks;
      ghost var all := left;
      rows := [];
      while left != {}
        invariant left <= all && forall r :: r in rows <==> r in all - left
        invariant forall i, j | 0 <= i < j < |rows| :: rows[i] != rows[j]
        decreases |left|
      {
        var run :| run in left;
        left := left - {run};
        rows := rows + [run];
      }
      assert all - left == all;
      assert RowSet(rows) == Interrupted(store.Db());
    }

    /** The loop's body: one row handled and counted. */
    method RecoverRow(rows: seq<string>, i: nat, resume: nat, failed: nat, ghost before: Tables)
      returns (deliveryResume: nat, failedBeforeFreeze: nat)
      requires i < |rows| && IsInterrupted(store.Db(), rows[i])
      requires (store.Db(), resume, failed) == Recovering(before, rows, i, frozen)
      modifies store
      ensures (store.Db(), deliveryResume, failedBeforeFreeze) == Recovering(before, rows, i + 1, frozen)
    {
      NextRow(before, rows, i, frozen);
      deliveryResume, failedBeforeFreeze := resume, failed;
      var resumed := RecoverRun(rows[i]);
      if resumed {
        deliveryResume := deliveryResume + 1;
      } else {
        failedBeforeFreeze := failedBeforeFreeze + 1;
      }
    }

    method RecoverAll(rows: seq<string>) returns (deliveryResume: nat, failedBeforeFreeze: nat)
      requires InterruptedRows(rows, store.Db())
      modifies store
      ensures (store.Db(), deliveryResume, failedBeforeFreeze) == Recovering(old(store.Db()), rows, |rows|, frozen)
    {
      ghost var before := store.Db();
      deliveryResume, failedBeforeFreeze := 0, 0;
      for i := 0 to |rows|
        invariant (store.Db(), deliveryResume, failedBeforeFreeze) == Recovering(before, rows, i, frozen)
      {
        RowIsReady(before, rows, i, frozen);
        deliveryResume, failedBeforeFreeze := RecoverRow(rows, i, deliveryResume, failedBeforeFreeze, before);
      }
    }

    /**
     Recovers the interrupted runs in the order in which the query returns them. The counters count the
     requeued and the failed runs, and afterwards no run is interrupted.
     */
    method RecoverInterruptedRuns() returns (deliveryResume: nat, failedBeforeFreeze: nat)
      modifies store
      ensures exists rows: seq<string> :: (
        IsQueryResult(rows, old(store.Db())) && store.Db() == Recover(old(store.Db()), rows, frozen))
      ensures deliveryResume == |Interrupted(old(store.Db())) * frozen|
      ensures failedBeforeFreeze == |Interrupted(old(store.Db())) - frozen|
      ensures deliveryResume + failedBeforeFreeze == |Interrupted(old(store.Db()))|
      ensures Interrupted(store.Db()) == {}
      ensures old(store.Valid()) ==> store.Valid()
      ensures old(store.Agrees()) ==> store.Agrees()
    {
      var rows := SelectInterrupted();
      CallKeeps(store.Db(), OpRecover(rows, frozen));
      RecoveryCounts(store.Db(), rows, frozen);
      NothingLeft(store.Db(), rows, frozen);
      deliveryResume, failedBeforeFreeze := RecoverAll(rows);
    }
  }

  lemma {:induction false} RowIsReady(t: Tables, rows: seq<string>, n: nat, frozen: set<string>)
    requires InterruptedRows(rows, t) && n < |rows|
    ensures IsInterrupted(Recovering(t, rows, n, frozen).0, rows[n])
  {
    TurnSoFar(t, rows, n, frozen);
  }

  lemma {:induction false} NothingLeft(t: Tables, rows: seq<string>, frozen: set<string>)
    requires IsQueryResult(rows, t)
    ensures Interrupted(Recover(t, rows, frozen)) == {}
  {
    RecoveryHandlesEveryRun(t, rows, frozen, "", 0, "");
  }
}
