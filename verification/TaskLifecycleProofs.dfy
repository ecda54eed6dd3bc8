/** The invariant that ties a task to its current run, kept by every disciplined call and by recovery. */
module TaskLifecycleProofs {
  import opened Prelude
  import opened TaskLifecycle

  /** A task's status, result and failure agree with its current run. */
  ghost predicate TaskAgrees(k: Task, id: string, runs: map<string, TaskRun>) {
    (k.run.Some? ==> k.run.value in runs && runs[k.run.value].task == id) &&
    (k.status.Queued? <==> k.run.Some? && runs[k.run.value].status.RunQueued?) &&
    (k.status.Running? || k.status.CancelRequested? <==> k.run.Some? && runs[k.run.value].status.RunRunning?) &&
    (k.failure.Some? <==> k.status.Failed?) &&
    (k.status.Completed? ==> k.result.Some?)
  }

  ghost predicate Agreement(tasks: map<string, Task>, runs: map<string, TaskRun>) {
    (forall k | k in tasks :: TaskAgrees(tasks[k], k, runs)) &&
    (forall r | r in runs :: runs[r].task in tasks && (Active(runs[r]) ==> tasks[runs[r].task].run == Some(r)))
  }

  // ---------- task and run agree ----------

  /** A step on one task and its current run, when no other run of the task is active. */
  lemma {:induction false} PairStep(tasks: map<string, Task>, runs: map<string, TaskRun>, id: string, k: Task,
                                    r: string, run: TaskRun)
    requires Agreement(tasks, runs) && id in tasks && run.task == id && k.run == Some(r)
    requires r in runs ==> tasks[id].run == Some(r)
    requires r !in runs ==> forall o | o in runs && runs[o].task == id :: !Active(runs[o])
    requires TaskAgrees(k, id, runs[r := run])
    ensures Agreement(tasks[id := k], runs[r := run])
  {
  }

  lemma {:induction false} TaskStep(tasks: map<string, Task>, runs: map<string, TaskRun>, id: string, k: Task)
    requires Agreement(tasks, runs) && TaskAgrees(k, id, runs)
    requires id in tasks ==> k.run == tasks[id].run
    ensures Agreement(tasks[id := k], runs)
  {
  }

  lemma {:induction false} CreateRunAgrees(t: Tables, id: string, mode: string, newRun: string)
    requires id in t.tasks && CreateRun(t, id, mode, newRun).result.Ok?
    requires !HasActiveRun(t, id)
    requires Agreement(t.tasks[id := t.tasks[id].(status := AwaitingStart, failure := None)], t.runs)
    ensures var u := CreateRun(t, id, mode, newRun).tables; Agreement(u.tasks, u.runs)
  {
    var rest := t.tasks[id := t.tasks[id].(status := AwaitingStart, failure := None)];
    var u := CreateRun(t, id, mode, newRun).tables;
    PairStep(rest, t.runs, id, u.tasks[id], newRun, u.runs[newRun]);
    assert u.tasks == rest[id := u.tasks[id]];
  }

  /** A task that rests has no active run. */
  lemma {:induction false} RestingHasNoActiveRun(t: Tables, id: string)
    requires Agreement(t.tasks, t.runs) && id in t.tasks && Resting(t.tasks[id].status)
    ensures !HasActiveRun(t, id)
  {
  }

  /** Putting a resting task into another resting state, with a failure exactly when it failed. */
  lemma {:induction false} RestStep(tasks: map<string, Task>, runs: map<string, TaskRun>, id: string, k: Task)
    requires Agreement(tasks, runs) && id in tasks && Resting(tasks[id].status)
    requires k.run == tasks[id].run && Resting(k.status) && (k.failure.Some? <==> k.status.Failed?)
    requires k.status.Completed? ==> k.result.Some?
    ensures Agreement(tasks[id := k], runs)
  {
  }

  lemma {:induction false} IngestKnownAgrees(t: Tables, id: string, isNew: bool, ticket: Ticket, project: Option<string>, mode: string,
                          failure: Option<string>, newRun: string)
    requires Agreement(t.tasks, t.runs) && id in t.tasks
    requires IngestKnown(t, id, isNew, ticket, project, mode, failure, newRun).result.Ok?
    ensures var u := IngestKnown(t, id, isNew, ticket, project, mode, failure, newRun).tables; Agreement(u.tasks, u.runs)
  {
    var task := t.tasks[id];
    if Resting(task.status) {
      var status := FirstStatus(ticket, mode, failure);
      var v := Logged(t, "ticket_updated", id, "").(tasks :=
        t.tasks[id := task.(project := Binding(project), status := status, failure := failure)]);
      RestingHasNoActiveRun(t, id);
      if status.Queued? {
        var rest := v.tasks[id := v.tasks[id].(status := AwaitingStart, failure := None)];
        RestStep(t.tasks, t.runs, id, rest[id]);
        assert rest == t.tasks[id := rest[id]];
        assert !HasActiveRun(v, id);
        CreateRunAgreesIfOk(v, id, mode, newRun);
      } else {
        RestStep(t.tasks, t.runs, id, v.tasks[id]);
      }
    }
  }

  lemma {:induction false} CreateRunAgreesIfOk(t: Tables, id: string, mode: string, newRun: string)
    requires id in t.tasks && !HasActiveRun(t, id)
    requires Agreement(t.tasks[id := t.tasks[id].(status := AwaitingStart, failure := None)], t.runs)
    ensures var r := CreateRun(t, id, mode, newRun); r.result.Ok? ==> Agreement(r.tables.tasks, r.tables.runs)
  {
    if CreateRun(t, id, mode, newRun).result.Ok? {
      CreateRunAgrees(t, id, mode, newRun);
    }
  }

  lemma {:induction false} IngestNewAgrees(t: Tables, record: nat, ticket: Ticket, project: Option<string>, mode: string,
                        failure: Option<string>, newRun: string)
    requires Agreement(t.tasks, t.runs)
    ensures var r := IngestNew(t, record, ticket, project, mode, failure, newRun);
      r.result.Ok? ==> Agreement(r.tables.tasks, r.tables.runs)
  {
    var id := TaskIdOf(ticket);
    if id !in t.tasks {
      var status := FirstStatus(ticket, mode, failure);
      var k := Task(record, Binding(project), status, None, failure, None);
      var u := Logged(t.(tasks := t.tasks[id := k]), "ticket_ingested", id, "");
      if status.Queued? {
        var rest := u.tasks[id := k.(status := AwaitingStart, failure := None)];
        TaskStep(t.tasks, t.runs, id, rest[id]);
        assert rest == t.tasks[id := rest[id]];
        assert !HasActiveRun(u, id);
        CreateRunAgreesIfOk(u, id, mode, newRun);
      } else {
        TaskStep(t.tasks, t.runs, id, k);
      }
    }
  }

  /** The first half of an ingest leaves tasks, runs, stages and events alone. */
  ghost predicate SameWork(t: Tables, u: Tables) {
    u.tasks == t.tasks && u.runs == t.runs && u.stages == t.stages && u.nextStage == t.nextStage && u.events == t.events
  }

  lemma {:induction false} TicketHalf(t: Tables, ticket: Ticket)
    ensures var (t1, record) := RecordTicket(t, ticket);
      record in t1.records && SameWork(t, t1) && SameWork(t, SnapshotTicket(t1, record, ticket.payload).0)
  {
  }

  lemma {:induction false} IngestAgrees(t: Tables, ticket: Ticket, project: Option<string>, mode: string,
                                        failure: Option<string>, newRun: string)
    requires Agreement(t.tasks, t.runs)
    ensures var u := Ingest(t, ticket, project, mode, failure, newRun).tables; Agreement(u.tasks, u.runs)
  {
    TicketHalf(t, ticket);
    var (t1, record) := RecordTicket(t, ticket);
    var (t2, isNew) := SnapshotTicket(t1, record, ticket.payload);
    WorkAgrees(t2, record, isNew, ticket, project, mode, failure, newRun);
  }

  lemma {:induction false} WorkAgrees(t: Tables, record: nat, isNew: bool, ticket: Ticket, project: Option<string>, mode: string,
                   failure: Option<string>, newRun: string)
    requires Agreement(t.tasks, t.runs)
    ensures var r := match FindTask(t, record)
        case None => IngestNew(t, record, ticket, project, mode, failure, newRun)
        case Some(id) => IngestKnown(t, id, isNew, ticket, project, mode, failure, newRun);
      r.result.Ok? ==> Agreement(r.tables.tasks, r.tables.runs)
  {
    match FindTask(t, record)
    case None => IngestNewAgrees(t, record, ticket, project, mode, failure, newRun);
    case Some(id) =>
      if IngestKnown(t, id, isNew, ticket, project, mode, failure, newRun).result.Ok? {
        IngestKnownAgrees(t, id, isNew, ticket, project, mode, failure, newRun);
      }
  }

  lemma {:induction false} StartAgrees(t: Tables, id: string, mode: string, newRun: string)
    requires Agreement(t.tasks, t.runs)
    ensures var u := StartTask(t, id, mode, newRun).tables; Agreement(u.tasks, u.runs)
  {
    if id in t.tasks && Resting(t.tasks[id].status) && !t.tasks[id].status.Completed? {
      RestingHasNoActiveRun(t, id);
      RestStep(t.tasks, t.runs, id, t.tasks[id].(status := AwaitingStart, failure := None));
      CreateRunAgreesIfOk(t, id, mode, newRun);
    }
  }

  lemma {:induction false} RetryAgrees(t: Tables, id: string, run: string)
    requires Agreement(t.tasks, t.runs)
    ensures var u := RetryDelivery(t, id, run).tables; Agreement(u.tasks, u.runs)
  {
  }

  lemma {:induction false} CancelTaskAgrees(t: Tables, id: string)
    requires Agreement(t.tasks, t.runs)
    ensures var u := CancelTask(t, id).tables; Agreement(u.tasks, u.runs)
  {
    var r := CancelTask(t, id);
    if r.result.Ok? {
      var k := t.tasks[id];
      assert TaskAgrees(k, id, t.runs);
      if k.status.Running? || k.run.None? {
        TaskStep(t.tasks, t.runs, id, r.tables.tasks[id]);
      } else {
        PairStep(t.tasks, t.runs, id, r.tables.tasks[id], k.run.value, r.tables.runs[k.run.value]);
      }
    }
  }

  lemma {:induction false} ClaimAgrees(t: Tables, run: string)
    requires Agreement(t.tasks, t.runs)
    ensures var u := ClaimRun(t, run).tables; Agreement(u.tasks, u.runs)
  {
  }

  predicate EndsRun(status: RunStatus, taskStatus: TaskStatus, result: Option<string>, failure: Option<string>) {
    !status.RunQueued? && !status.RunRunning? && Resting(taskStatus) &&
    (failure.Some? <==> taskStatus.Failed?) && (taskStatus.Completed? ==> result.Some?)
  }

  /** Ending a run that is not the current one leaves the pointer where it is. */
  lemma {:induction false} OldRunStep(tasks: map<string, Task>, runs: map<string, TaskRun>, id: string, k: Task, r: string, run: TaskRun)
    requires Agreement(tasks, runs) && id in tasks && r in runs && runs[r].task == id && run.task == id
    requires tasks[id].run != Some(r) && !Active(run) && k.run == tasks[id].run && Resting(k.status)
    requires forall o | o in runs && o != r && runs[o].task == id :: !Active(runs[o])
    requires (k.failure.Some? <==> k.status.Failed?) && (k.status.Completed? ==> k.result.Some?)
    ensures Agreement(tasks[id := k], runs[r := run])
  {
    forall j | j in tasks && j != id ensures TaskAgrees(tasks[j], j, runs[r := run]) {
      assert TaskAgrees(tasks[j], j, runs);
    }
    assert TaskAgrees(tasks[id], id, runs);
  }

  lemma {:induction false} EndAgrees(t: Tables, run: string, status: RunStatus, taskStatus: TaskStatus, result: Option<string>,
                                     failure: Option<string>, kind: string)
    requires Agreement(t.tasks, t.runs) && EndsRun(status, taskStatus, result, failure)
    requires run in t.runs ==> NoOtherActive(t.runs, run)
    ensures var u := EndRun(t, run, status, taskStatus, result, failure, kind).tables; Agreement(u.tasks, u.runs)
  {
    if run in t.runs {
      var u := EndRun(t, run, status, taskStatus, result, failure, kind).tables;
      var id := t.runs[run].task;
      if t.tasks[id].run == Some(run) {
        PairStep(t.tasks, t.runs, id, u.tasks[id], run, u.runs[run]);
      } else {
        OldRunStep(t.tasks, t.runs, id, u.tasks[id], run, u.runs[run]);
      }
    }
  }

  lemma {:induction false} EndDisagrees(t: Tables, run: string, status: RunStatus, taskStatus: TaskStatus, result: Option<string>,
                                        failure: Option<string>, kind: string)
    requires Agreement(t.tasks, t.runs) && EndsRun(status, taskStatus, result, failure)
    requires run in t.runs && !NoOtherActive(t.runs, run)
    ensures var u := EndRun(t, run, status, taskStatus, result, failure, kind).tables; !Agreement(u.tasks, u.runs)
  {
    var u := EndRun(t, run, status, taskStatus, result, failure, kind).tables;
    var o :| o in t.runs && o != run && t.runs[o].task == t.runs[run].task && Active(t.runs[o]);
    assert !TaskAgrees(u.tasks[t.runs[run].task], t.runs[run].task, u.runs);
  }

  /** From tables that agree, a terminal call keeps them so exactly when no other run of its task is active. */
  lemma {:induction false} TerminalCallAgreesExactlyWhen(t: Tables, op: Op)
    requires Agreement(t.tasks, t.runs) && Terminal(op)
    ensures Agreement(Step(t, op).tasks, Step(t, op).runs) <==> Disciplined(t, op)
  {
    var run := op.run;
    match op
    case OpComplete(_, result) =>
      if Disciplined(t, op) { EndAgrees(t, run, RunCompleted, Completed, Some(result), None, "run_completed"); }
      else { EndDisagrees(t, run, RunCompleted, Completed, Some(result), None, "run_completed"); }
    case OpFail(_, failure) =>
      if Disciplined(t, op) { EndAgrees(t, run, RunFailed, Failed, None, Some(failure), "run_failed"); }
      else { EndDisagrees(t, run, RunFailed, Failed, None, Some(failure), "run_failed"); }
    case OpCancelRun(_) =>
      if Disciplined(t, op) { EndAgrees(t, run, RunCanceled, Canceled, None, None, "run_canceled"); }
      else { EndDisagrees(t, run, RunCanceled, Canceled, None, None, "run_canceled"); }
  }

  lemma {:induction false} OneRecoveredAgrees(t: Tables, run: string, resumed: bool)
    requires Agreement(t.tasks, t.runs) && IsInterrupted(t, run)
    ensures var u := OneRecovered(t, run, resumed); Agreement(u.tasks, u.runs)
  {
    var u := OneRecovered(t, run, resumed);
    var id := t.runs[run].task;
    assert TaskAgrees(t.tasks[id], id, t.runs);
    PairStep(t.tasks, t.runs, id, u.tasks[id], run, u.runs[run]);
  }

  /** Recovery keeps task and run in step, in whatever order it meets the rows. */
  lemma {:induction false} RecoverAgrees(t: Tables, rows: seq<string>, n: nat, frozen: set<string>)
    requires Agreement(t.tasks, t.runs) && n <= |rows|
    ensures var u := Recovering(t, rows, n, frozen).0; Agreement(u.tasks, u.runs)
  {
    if n > 0 {
      RecoverAgrees(t, rows, n - 1, frozen);
      var u := Recovering(t, rows, n - 1, frozen).0;
      if IsInterrupted(u, rows[n - 1]) {
        OneRecoveredAgrees(u, rows[n - 1], rows[n - 1] in frozen);
      }
    }
  }

  /** Every other call, and recovery, keeps the agreement unconditionally. */
  lemma {:induction false} OtherStepAgrees(t: Tables, op: Op)
    requires Agreement(t.tasks, t.runs) && !Terminal(op)
    ensures Agreement(Step(t, op).tasks, Step(t, op).runs)
  {
    match op
    case OpIngest(ticket, project, mode, failure, newRun) => IngestAgrees(t, ticket, project, mode, failure, newRun);
    case OpStart(id, mode, newRun) => StartAgrees(t, id, mode, newRun);
    case OpRetry(id, run) => RetryAgrees(t, id, run);
    case OpCancelTask(id) => CancelTaskAgrees(t, id);
    case OpClaim(run) => ClaimAgrees(t, run);
    case OpStartStage(_) =>
    case OpFinishStage(_, _, _) =>
    case OpRecover(rows, frozen) => RecoverAgrees(t, rows, |rows|, frozen);
  }

  /** From tables that agree, a call keeps them so exactly when it is disciplined. */
  lemma {:induction false} StepAgreesExactlyWhen(t: Tables, op: Op)
    requires Agreement(t.tasks, t.runs)
    ensures Agreement(Step(t, op).tasks, Step(t, op).runs) <==> Disciplined(t, op)
  {
    if Terminal(op) {
      TerminalCallAgreesExactlyWhen(t, op);
    } else {
      OtherStepAgrees(t, op);
    }
  }

  /** The tables agree after every call of the run. */
  ghost predicate AgreesThroughout(t: Tables, ops: seq<Op>)
    decreases |ops|
  {
    Agreement(t.tasks, t.runs) && (ops == [] || AgreesThroughout(Step(t, ops[0]), ops[1..]))
  }

  /** Over whole runs: task and run agree after every call exactly when the calls are disciplined. */
  lemma {:induction false} RunAgreesExactlyWhen(t: Tables, ops: seq<Op>)
    requires Agreement(t.tasks, t.runs)
    ensures AgreesThroughout(t, ops) <==> DisciplinedRun(t, ops)
    decreases |ops|
  {
    if ops != [] {
      StepAgreesExactlyWhen(t, ops[0]);
      if Disciplined(t, ops[0]) {
        RunAgreesExactlyWhen(Step(t, ops[0]), ops[1..]);
      }
    }
  }

  lemma {:induction false} LastAgrees(t: Tables, ops: seq<Op>)
    requires AgreesThroughout(t, ops)
    ensures Agreement(Run(t, ops).tasks, Run(t, ops).runs)
    decreases |ops|
  {
    if ops != [] {
      LastAgrees(Step(t, ops[0]), ops[1..]);
    }
  }

  /**
   From empty tables, as long as terminal calls end runs whose task has no other active run: a task is
   queued exactly when its current run is, running or asked to cancel exactly when its current run is
   running, it has a failure exactly when it failed, a completed task has a result, and no task ever
   has two active runs.
   */
  lemma {:induction false} TaskAndRunAgree(ops: seq<Op>, r1: string, r2: string)
    requires DisciplinedRun(EMPTY, ops)
    ensures var t := Run(EMPTY, ops);
      Agreement(t.tasks, t.runs) &&
      (r1 in t.runs && r2 in t.runs && Active(t.runs[r1]) && Active(t.runs[r2]) && t.runs[r1].task == t.runs[r2].task ==> r1 == r2)
  {
    RunAgreesExactlyWhen(EMPTY, ops);
    LastAgrees(EMPTY, ops);
  }

  // ---------- a run that breaks the agreement ----------

  const TICKET := Ticket("p", "1", "title", "payload", true, None)

  const RETRIED := [
    OpIngest(TICKET, Some("project"), "automatic", None, "q"), OpClaim("q"), OpFail("q", "broken"),
    OpStart("p:1", "manual", "r"), OpComplete("q", "changed")]

  lemma {:induction false} RunOfConcat(t: Tables, first: seq<Op>, more: seq<Op>)
    ensures Run(t, first + more) == Run(Run(t, first), more)
    decreases |first|
  {
    if first == [] {
      assert first + more == more;
    } else {
      assert (first + more)[1..] == first[1..] + more;
      RunOfConcat(Step(t, first[0]), first[1..], more);
    }
  }

  const FRESH_TASK := Task(1, "project", Queued, None, None, Some("q"))

  lemma {:induction false} IngestedRecord()
    ensures RecordTicket(EMPTY, TICKET) ==
      (EMPTY.(records := map[1 := Record("p", "1", "title", true, None, None)], nextRecord := 2), 1)
  {
    assert forall i: nat :: !IsRecord(EMPTY, i, "p", "1");
  }

  lemma {:induction false} IngestedSnapshot(t: Tables)
    requires t == EMPTY.(records := map[1 := Record("p", "1", "title", true, None, None)], nextRecord := 2)
    ensures SnapshotTicket(t, 1, "payload") ==
      (t.(snapshots := map[1 := Snapshot(1, "payload")], nextSnapshot := 2,
          records := map[1 := Record("p", "1", "title", true, None, Some(1))]), true)
  {
    assert forall s: nat :: !IsSnapshot(t, s, 1, "payload");
    assert FindSnapshot(t, 1, "payload").None? && t.nextSnapshot == 1;
    assert t.records[1 := t.records[1].(snapshot := Some(1))] == map[1 := Record("p", "1", "title", true, None, Some(1))];
    assert t.snapshots[1 := Snapshot(1, "payload")] == map[1 := Snapshot(1, "payload")];
  }

  lemma {:induction false} IngestedTask(t: Tables)
    requires t.tasks == map[] && t.runs == map[]
    ensures FindTask(t, 1).None?
    ensures var r := IngestNew(t, 1, TICKET, Some("project"), "automatic", None, "q");
      r.result.Ok? && r.tables.tasks == map["p:1" := FRESH_TASK] &&
      r.tables.runs == map["q" := TaskRun("p:1", RunQueued, "automatic", None)] && r.tables.records == t.records
  {
    assert forall k :: !IsTaskOf(t, k, 1);
    assert TaskIdOf(TICKET) == "p:1";
    assert "project" != "";
  }

  lemma {:induction false} IngestedTables()
    ensures var t := Step(EMPTY, RETRIED[0]);
      t.tasks == map["p:1" := FRESH_TASK] && t.runs == map["q" := TaskRun("p:1", RunQueued, "automatic", None)] &&
      t.records == map[1 := Record("p", "1", "title", true, None, Some(1))]
  {
    IngestedRecord();
    var t1 := RecordTicket(EMPTY, TICKET).0;
    IngestedSnapshot(t1);
    IngestedTask(SnapshotTicket(t1, 1, "payload").0);
  }

  lemma {:induction false} Claimed(t: Tables)
    requires t.tasks == map["p:1" := FRESH_TASK] && t.runs == map["q" := TaskRun("p:1", RunQueued, "automatic", None)]
    requires t.records == map[1 := Record("p", "1", "title", true, None, Some(1))]
    ensures var u := Step(t, RETRIED[1]);
      u.tasks == map["p:1" := FRESH_TASK.(status := Running)] && u.runs == map["q" := TaskRun("p:1", RunRunning, "automatic", Some(1))]
  {
  }

  lemma {:induction false} FailedOnce(t: Tables)
    requires t.tasks == map["p:1" := FRESH_TASK.(status := Running)]
    requires t.runs == map["q" := TaskRun("p:1", RunRunning, "automatic", Some(1))]
    ensures var u := Step(t, RETRIED[2]);
      u.tasks == map["p:1" := FRESH_TASK.(status := Failed, failure := Some("broken"))] &&
      u.runs == map["q" := TaskRun("p:1", RunFailed, "automatic", Some(1))] && Disciplined(t, RETRIED[2])
  {
  }

  lemma {:induction false} StartedAgain(t: Tables)
    requires t.tasks == map["p:1" := FRESH_TASK.(status := Failed, failure := Some("broken"))]
    requires t.runs == map["q" := TaskRun("p:1", RunFailed, "automatic", Some(1))]
    ensures var u := Step(t, RETRIED[3]);
      "r" in u.runs && "q" in u.runs && u.runs["q"] == t.runs["q"] && u.runs["r"] == TaskRun("p:1", RunQueued, "manual", None)
  {
    assert "project" != UNBOUND && "r" != "q";
    assert !HasActiveRun(t, "p:1");
  }

  /**
   Reached from empty tables: the task is ingested and run, the run fails, the task is started again,
   and only the last call, which completes the old run a second time, is undisciplined. The task is then
   completed while its current run is still queued.
   */
  lemma {:induction false} UndisciplinedRunBreaksAgreement()
    ensures
      var t, u := Run(EMPTY, RETRIED[..4]), Run(EMPTY, RETRIED);
      DisciplinedRun(EMPTY, RETRIED[..4]) && Agreement(t.tasks, t.runs) && !Disciplined(t, RETRIED[4]) && !Agreement(u.tasks, u.runs)
  {
    var t1 := Step(EMPTY, RETRIED[0]);
    var t2 := Step(t1, RETRIED[1]);
    var t3 := Step(t2, RETRIED[2]);
    var t4 := Step(t3, RETRIED[3]);
    IngestedTables();
    Claimed(t1);
    FailedOnce(t2);
    StartedAgain(t3);
    var ops := [RETRIED[0], RETRIED[1], RETRIED[2], RETRIED[3]];
    assert RETRIED[..4] == ops && RETRIED == ops + [RETRIED[4]];
    FourCalls(EMPTY, RETRIED[0], RETRIED[1], RETRIED[2], RETRIED[3]);
    RunAgreesExactlyWhen(EMPTY, ops);
    LastAgrees(EMPTY, ops);
    RunOfConcat(EMPTY, ops, [RETRIED[4]]);
    assert Run(t4, [RETRIED[4]]) == Step(t4, RETRIED[4]) by {
      assert [RETRIED[4]][1..] == [];
    }
    assert !NoOtherActive(t4.runs, "q");
    TerminalCallAgreesExactlyWhen(t4, RETRIED[4]);
  }

  lemma {:induction false} FirstCall(t: Tables, op: Op, rest: seq<Op>)
    ensures Run(t, [op] + rest) == Run(Step(t, op), rest)
    ensures DisciplinedRun(t, [op] + rest) <==> Disciplined(t, op) && DisciplinedRun(Step(t, op), rest)
  {
    assert ([op] + rest)[1..] == rest;
  }

  lemma {:induction false} FourCalls(t: Tables, a: Op, b: Op, c: Op, d: Op)
    ensures Run(t, [a, b, c, d]) == Step(Step(Step(Step(t, a), b), c), d)
    ensures DisciplinedRun(t, [a, b, c, d]) <==>
      Disciplined(t, a) && Disciplined(Step(t, a), b) && Disciplined(Step(Step(t, a), b), c) && Disciplined(Step(Step(Step(t, a), b), c), d)
  {
    assert [a, b, c, d] == [a] + ([b] + ([c] + ([d] + [])));
    FirstCall(t, a, [b] + ([c] + ([d] + [])));
    FirstCall(Step(t, a), b, [c] + ([d] + []));
    FirstCall(Step(Step(t, a), b), c, [d] + []);
    FirstCall(Step(Step(Step(t, a), b), c), d, []);
  }
}
