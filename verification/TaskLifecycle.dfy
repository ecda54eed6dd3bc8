/**
 Tickets, tasks and runs (`TaskStore`) and the restart recovery, as a state machine over the rows.
 A content hash is taken to be injective, so a snapshot is identified by its content, and a task id
 by the text it is hashed from.
 */
module TaskLifecycle {
  import opened Prelude

  datatype TaskStatus = AwaitingStart | Queued | Running | CancelRequested | Completed | Failed | Canceled
  datatype RunStatus = RunQueued | RunRunning | RunCompleted | RunFailed | RunCanceled
  datatype StageStatus = StageRunning | StageCompleted | StageFailed | StageCanceled

  datatype Ticket = Ticket(provider: string, external: string, title: string, payload: string, eligible: bool, version: Option<string>)

  datatype Record = Record(
    provider: string, external: string, title: string, eligible: bool, version: Option<string>, snapshot: Option<nat>)
  datatype Snapshot = Snapshot(record: nat, content: string)
  datatype Task = Task(
    record: nat, project: string, status: TaskStatus, result: Option<string>, failure: Option<string>, run: Option<string>)
  datatype TaskRun = TaskRun(task: string, status: RunStatus, mode: string, snapshot: Option<nat>)
  datatype Stage = Stage(run: string, status: StageStatus, failure: Option<string>)
  datatype Event = Event(kind: string, task: string, run: string)

  datatype Tables = Tables(
    records: map<nat, Record>, nextRecord: nat, snapshots: map<nat, Snapshot>, nextSnapshot: nat,
    tasks: map<string, Task>, runs: map<string, TaskRun>, stages: map<nat, Stage>, nextStage: nat,
    events: multiset<Event>)

  datatype TaskError = UnknownTask | UnknownRun | IntegrityError | NoRoute | WrongState | NotCurrent | NoSnapshot

  datatype Reply = Reply(tables: Tables, result: Result<(), TaskError>)

  const EMPTY := Tables(map[], 1, map[], 1, map[], map[], map[], 1, multiset{})
  const UNBOUND := "__unbound__"

  function Logged(t: Tables, kind: string, task: string, run: string): Tables {
    t.(events := t.events + multiset{Event(kind, task, run)})
  }

  predicate Active(r: TaskRun) { r.status.RunQueued? || r.status.RunRunning? }

  function TaskIdOf(ticket: Ticket): string { ticket.provider + ":" + ticket.external }

  // ---------- ingest ----------

  ghost predicate IsRecord(t: Tables, i: nat, provider: string, external: string) {
    i in t.records && t.records[i].provider == provider && t.records[i].external == external
  }

  ghost function FindRecord(t: Tables, provider: string, external: string): (r: Option<nat>)
    ensures r.Some? ==> IsRecord(t, r.value, provider, external)
    ensures r.None? ==> forall i: nat :: !IsRecord(t, i, provider, external)
  {
    if exists i: nat :: IsRecord(t, i, provider, external) then
      var i: nat :| IsRecord(t, i, provider, external); Some(i)
    else None
  }

  ghost predicate IsSnapshot(t: Tables, s: nat, record: nat, content: string) {
    s in t.snapshots && t.snapshots[s] == Snapshot(record, content)
  }

  ghost function FindSnapshot(t: Tables, record: nat, content: string): (r: Option<nat>)
    ensures r.Some? ==> IsSnapshot(t, r.value, record, content)
    ensures r.None? ==> forall s: nat :: !IsSnapshot(t, s, record, content)
  {
    if exists s: nat :: IsSnapshot(t, s, record, content) then
      var s: nat :| IsSnapshot(t, s, record, content); Some(s)
    else None
  }

  ghost predicate IsTaskOf(t: Tables, k: string, record: nat) { k in t.tasks && t.tasks[k].record == record }

  ghost function FindTask(t: Tables, record: nat): (r: Option<string>)
    ensures r.Some? ==> IsTaskOf(t, r.value, record)
    ensures r.None? ==> forall k :: !IsTaskOf(t, k, record)
  {
    if exists k :: IsTaskOf(t, k, record) then
      var k :| IsTaskOf(t, k, record); Some(k)
    else None
  }

  /** The record row after the first half of an ingest, and its id. */
  ghost function RecordTicket(t: Tables, ticket: Ticket): (Tables, nat) {
    match FindRecord(t, ticket.provider, ticket.external)
    case None =>
      var r := Record(ticket.provider, ticket.external, ticket.title, ticket.eligible, ticket.version, None);
      (t.(records := t.records[t.nextRecord := r], nextRecord := t.nextRecord + 1), t.nextRecord)
    case Some(i) =>
      var r := t.records[i].(title := ticket.title, eligible := ticket.eligible, version := ticket.version);
      (t.(records := t.records[i := r]), i)
  }

  /** The snapshot row for a content, inserted only when it is new, and made current. */
  ghost function SnapshotTicket(t: Tables, record: nat, content: string): (Tables, bool)
    requires record in t.records
  {
    match FindSnapshot(t, record, content)
    case None =>
      (t.(snapshots := t.snapshots[t.nextSnapshot := Snapshot(record, content)], nextSnapshot := t.nextSnapshot + 1,
          records := t.records[record := t.records[record].(snapshot := Some(t.nextSnapshot))]), true)
    case Some(s) =>
      (t.(records := t.records[record := t.records[record].(snapshot := Some(s))]), false)
  }

  ghost predicate HasActiveRun(t: Tables, task: string) {
    exists r :: r in t.runs && t.runs[r].task == task && Active(t.runs[r])
  }

  /** `_create_run`: a task with an active run keeps it; otherwise a queued run becomes current. */
  ghost function CreateRun(t: Tables, task: string, mode: string, newRun: string): Reply
    requires task in t.tasks
  {
    if HasActiveRun(t, task) then Reply(t, Ok(()))
    else if newRun in t.runs then Reply(t, Err(IntegrityError))
    else
      var u := t.(runs := t.runs[newRun := TaskRun(task, RunQueued, mode, None)],
                  tasks := t.tasks[task := t.tasks[task].(run := Some(newRun), status := Queued, failure := None)]);
      Reply(Logged(u, "run_queued", task, newRun), Ok(()))
  }

  function FirstStatus(ticket: Ticket, mode: string, failure: Option<string>): TaskStatus {
    if failure.Some? then Failed
    else if !ticket.eligible then Canceled
    else if mode == "automatic" then Queued
    else AwaitingStart
  }

  function Binding(project: Option<string>): string {
    if project.Some? && project.value != "" then project.value else UNBOUND
  }

  /** Commits a reply's tables, or keeps `saved` when it raised. */
  function Committed(saved: Tables, r: Reply): Reply {
    if r.result.Ok? then r else Reply(saved, r.result)
  }

  ghost function IngestNew(t: Tables, record: nat, ticket: Ticket, project: Option<string>, mode: string,
                           failure: Option<string>, newRun: string): Reply
  {
    var id := TaskIdOf(ticket);
    if id in t.tasks then Reply(t, Err(IntegrityError)) else
    var status := FirstStatus(ticket, mode, failure);
    var u := Logged(t.(tasks := t.tasks[id := Task(record, Binding(project), status, None, failure, None)]), "ticket_ingested", id, "");
    if status.Queued? then CreateRun(u, id, mode, newRun) else Reply(u, Ok(()))
  }

  predicate Resting(s: TaskStatus) { !s.Queued? && !s.Running? && !s.CancelRequested? }

  ghost function IngestKnown(t: Tables, id: string, isNew: bool, ticket: Ticket, project: Option<string>, mode: string,
                             failure: Option<string>, newRun: string): Reply
    requires id in t.tasks
  {
    var u := Logged(t, "ticket_updated", id, "");
    var task := u.tasks[id];
    var routeRecovered := task.project == UNBOUND && project.Some?;
    if !((isNew || routeRecovered) && Resting(task.status)) then Reply(u, Ok(())) else
    var status := FirstStatus(ticket, mode, failure);
    var v := u.(tasks := u.tasks[id := task.(project := Binding(project), status := status, failure := failure)]);
    if status.Queued? then CreateRun(v, id, mode, newRun) else Reply(v, Ok(()))
  }

  ghost function Ingest(t: Tables, ticket: Ticket, project: Option<string>, mode: string, failure: Option<string>, newRun: string): Reply {
    var (t1, record) := RecordTicket(t, ticket);
    var (t2, isNew) := SnapshotTicket(t1, record, ticket.payload);
    match FindTask(t2, record)
    case None => Committed(t, IngestNew(t2, record, ticket, project, mode, failure, newRun))
    case Some(id) => Committed(t, IngestKnown(t2, id, isNew, ticket, project, mode, failure, newRun))
  }

  // ---------- the other lifecycle calls ----------

  ghost function StartTask(t: Tables, id: string, mode: string, newRun: string): Reply {
    if id !in t.tasks then Reply(t, Err(UnknownTask))
    else if t.tasks[id].project == UNBOUND then Reply(t, Err(NoRoute))
    else if !(t.tasks[id].status.AwaitingStart? || t.tasks[id].status.Failed? || t.tasks[id].status.Canceled?) then
      Reply(t, Err(WrongState))
    else Committed(t, CreateRun(t, id, mode, newRun))
  }

  function RetryDelivery(t: Tables, id: string, run: string): Reply {
    if id !in t.tasks || run !in t.runs || t.runs[run].task != id then Reply(t, Err(UnknownTask))
    else if t.tasks[id].run != Some(run) then Reply(t, Err(NotCurrent))
    else if !t.tasks[id].status.Failed? || !t.runs[run].status.RunFailed? then Reply(t, Err(WrongState))
    else
      Reply(Logged(t.(runs := t.runs[run := t.runs[run].(status := RunQueued)],
                      tasks := t.tasks[id := t.tasks[id].(status := Queued, result := None, failure := None)]),
                   "delivery_retry_queued", id, run), Ok(()))
  }

  function CancelTask(t: Tables, id: string): Reply {
    if id !in t.tasks then Reply(t, Err(UnknownTask)) else
    var task := t.tasks[id];
    match task.status
    case AwaitingStart => Reply(Logged(CanceledNow(t, id), "task_canceled", id, ""), Ok(()))
    case Queued => Reply(Logged(CanceledNow(t, id), "task_canceled", id, ""), Ok(()))
    case Running =>
      Reply(Logged(t.(tasks := t.tasks[id := task.(status := CancelRequested)]), "cancel_requested", id, ""), Ok(()))
    case _ => Reply(t, Err(WrongState))
  }

  function CanceledNow(t: Tables, id: string): Tables
    requires id in t.tasks
  {
    var task := t.tasks[id];
    t.(tasks := t.tasks[id := task.(status := Canceled)],
       runs := if task.run.Some? && task.run.value in t.runs
               then t.runs[task.run.value := t.runs[task.run.value].(status := RunCanceled)] else t.runs)
  }

  function ClaimRun(t: Tables, run: string): Reply {
    if run !in t.runs || t.runs[run].task !in t.tasks || t.tasks[t.runs[run].task].record !in t.records then Reply(t, Err(UnknownRun))
    else if !t.runs[run].status.RunQueued? then Reply(t, Err(WrongState))
    else
      var id := t.runs[run].task;
      var snapshot := if t.runs[run].snapshot.Some? then t.runs[run].snapshot else t.records[t.tasks[id].record].snapshot;
      if snapshot.None? then Reply(t, Err(NoSnapshot)) else
      Reply(Logged(t.(runs := t.runs[run := t.runs[run].(status := RunRunning, snapshot := snapshot)],
                      tasks := t.tasks[id := t.tasks[id].(status := Running)]), "run_started", id, run), Ok(()))
  }

  /** A terminal call: the run's final status and the task columns that go with it. */
  function EndRun(t: Tables, run: string, status: RunStatus, taskStatus: TaskStatus, result: Option<string>,
                  failure: Option<string>, kind: string): Reply
  {
    if run !in t.runs then Reply(t, Err(UnknownRun)) else
    var id := t.runs[run].task;
    var u := t.(runs := t.runs[run := t.runs[run].(status := status)]);
    var v := if id in u.tasks
      then u.(tasks := u.tasks[id := u.tasks[id].(status := taskStatus, result := result, failure := failure)]) else u;
    Reply(Logged(v, kind, id, run), Ok(()))
  }

  function CompleteRun(t: Tables, run: string, result: string): Reply {
    EndRun(t, run, RunCompleted, Completed, Some(result), None, "run_completed")
  }

  function FailRun(t: Tables, run: string, failure: string): Reply {
    EndRun(t, run, RunFailed, Failed, None, Some(failure), "run_failed")
  }

  function CancelRun(t: Tables, run: string): Reply {
    EndRun(t, run, RunCanceled, Canceled, None, None, "run_canceled")
  }

  function StartStage(t: Tables, run: string): Reply {
    Reply(t.(stages := t.stages[t.nextStage := Stage(run, StageRunning, None)], nextStage := t.nextStage + 1), Ok(()))
  }

  function FinishStage(t: Tables, stage: nat, status: StageStatus, failure: Option<string>): Reply {
    if stage !in t.stages then Reply(t, Ok(()))
    else Reply(t.(stages := t.stages[stage := t.stages[stage].(status := status, failure := failure)]), Ok(()))
  }

  // ---------- recovery ----------

  const INTERRUPTED_STAGE := "service_interrupted"
  const INTERRUPTED_RUN := "service_interrupted_before_freeze"

  /** A row of the recovery query: a running run with an existing task. */
  predicate IsInterrupted(t: Tables, r: string) { r in t.runs && t.runs[r].status.RunRunning? && t.runs[r].task in t.tasks }

  function Interrupted(t: Tables): set<string> { set r | r in t.runs && IsInterrupted(t, r) }

  function RecoveredRun(r: TaskRun, frozen: bool): TaskRun {
    r.(status := if frozen then RunQueued else RunFailed)
  }

  function RecoveredTask(k: Task, frozen: bool): Task {
    if frozen then k.(status := Queued, failure := None)
    else k.(status := Failed, result := None, failure := Some(INTERRUPTED_RUN))
  }

  function RecoveryEvent(task: string, r: string, frozen: bool): Event {
    Event(if frozen then "delivery_recovery_queued" else "run_interrupted", task, r)
  }

  /** The stages after the given ones were failed. */
  function StagesFailed(ss: map<nat, Stage>, failed: set<nat>): map<nat, Stage> {
    map s | s in ss :: if s in failed then ss[s].(status := StageFailed, failure := Some(INTERRUPTED_STAGE)) else ss[s]
  }

  function RunningStages(ss: map<nat, Stage>, run: string): set<nat> {
    set s | s in ss && ss[s].run == run && ss[s].status.StageRunning?
  }

  /** One interrupted run requeued, when its manifest is on disk, or failed. */
  function OneRecovered(t: Tables, run: string, resumed: bool): Tables
    requires IsInterrupted(t, run)
  {
    var id := t.runs[run].task;
    t.(stages := StagesFailed(t.stages, RunningStages(t.stages, run)),
       runs := t.runs[run := RecoveredRun(t.runs[run], resumed)],
       tasks := t.tasks[id := RecoveredTask(t.tasks[id], resumed)],
       events := t.events + multiset{RecoveryEvent(id, run, resumed)})
  }

  /** The loop over the first `n` rows of the query: the tables and the two counters. */
  function Recovering(t: Tables, rows: seq<string>, n: nat, frozen: set<string>): (Tables, nat, nat)
    requires n <= |rows|
  {
    if n == 0 then (t, 0, 0) else
    var (u, resume, failed) := Recovering(t, rows, n - 1, frozen);
    var r := rows[n - 1];
    if !IsInterrupted(u, r) then (u, resume, failed)
    else if r in frozen then (OneRecovered(u, r, true), resume + 1, failed)
    else (OneRecovered(u, r, false), resume, failed + 1)
  }

  function Recover(t: Tables, rows: seq<string>, frozen: set<string>): Tables { Recovering(t, rows, |rows|, frozen).0 }

  // ---------- runs of calls ----------

  datatype Op =
    | OpIngest(ticket: Ticket, project: Option<string>, mode: string, failure: Option<string>, newRun: string)
    | OpStart(id: string, mode: string, newRun: string)
    | OpRetry(id: string, run: string)
    | OpCancelTask(id: string)
    | OpClaim(run: string)
    | OpComplete(run: string, result: string)
    | OpFail(run: string, reason: string)
    | OpCancelRun(run: string)
    | OpStartStage(run: string)
    | OpFinishStage(stage: nat, status: StageStatus, stageFailure: Option<string>)
    | OpRecover(rows: seq<string>, frozen: set<string>)

  ghost function Step(t: Tables, op: Op): Tables {
    match op
    case OpIngest(ticket, project, mode, failure, newRun) => Ingest(t, ticket, project, mode, failure, newRun).tables
    case OpStart(id, mode, newRun) => StartTask(t, id, mode, newRun).tables
    case OpRetry(id, run) => RetryDelivery(t, id, run).tables
    case OpCancelTask(id) => CancelTask(t, id).tables
    case OpClaim(run) => ClaimRun(t, run).tables
    case OpComplete(run, result) => CompleteRun(t, run, result).tables
    case OpFail(run, failure) => FailRun(t, run, failure).tables
    case OpCancelRun(run) => CancelRun(t, run).tables
    case OpStartStage(run) => StartStage(t, run).tables
    case OpFinishStage(stage, status, failure) => FinishStage(t, stage, status, failure).tables
    case OpRecover(rows, frozen) => Recover(t, rows, frozen)
  }

  ghost function Run(t: Tables, ops: seq<Op>): Tables
    decreases |ops|
  {
    if ops == [] then t else Run(Step(t, ops[0]), ops[1..])
  }

  predicate Terminal(op: Op) { op.OpComplete? || op.OpFail? || op.OpCancelRun? }

  /** No other run of this run's task is queued or running. */
  ghost predicate NoOtherActive(runs: map<string, TaskRun>, run: string)
    requires run in runs
  {
    forall o | o in runs && o != run && runs[o].task == runs[run].task :: !Active(runs[o])
  }

  /** The discipline: a terminal call ends a run whose task has no other active run. */
  ghost predicate Disciplined(t: Tables, op: Op) {
    Terminal(op) && op.run in t.runs ==> NoOtherActive(t.runs, op.run)
  }

  ghost predicate DisciplinedRun(t: Tables, ops: seq<Op>)
    decreases |ops|
  {
    ops == [] || (Disciplined(t, ops[0]) && DisciplinedRun(Step(t, ops[0]), ops[1..]))
  }
}
