/**
 Where the states of runs and tasks come from: over every run of calls, disciplined or not, the status of a
 run names the call that gave it, and a task's result and failure are those of the call that ended it.
 */
module TaskHistory {
  import opened Prelude
  import opened TaskLifecycle
  import opened TaskLifecycleProofs
  import opened TaskTickets
  import opened TaskRecovery
  import opened TaskOutcomes

  // ---------- one call ----------

  /** A call that, made on these tables, gives a run this status. */
  ghost predicate Gives(t: Tables, op: Op, r: string, s: RunStatus) {
    match s
    case RunQueued =>
      (op.OpIngest? && op.newRun == r && r !in t.runs) || (op.OpStart? && op.newRun == r && r !in t.runs) ||
      (op.OpRetry? && op.run == r) || (op.OpRecover? && IsInterrupted(t, r) && r in op.frozen)
    case RunRunning => op.OpClaim? && op.run == r
    case RunCompleted => op.OpComplete? && op.run == r
    case RunFailed => (op.OpFail? && op.run == r) || (op.OpRecover? && IsInterrupted(t, r) && r !in op.frozen)
    case RunCanceled =>
      (op.OpCancelRun? && op.run == r) || (op.OpCancelTask? && op.id in t.tasks && t.tasks[op.id].run == Some(r))
  }

  /** A call that, made on these tables, writes these columns of a task. */
  ghost predicate Writes(t: Tables, op: Op, id: string, k: Task) {
    match k.status
    case Completed => op.OpComplete? && op.run in t.runs && t.runs[op.run].task == id && k.result == Some(op.result) && k.failure.None?
    case Failed =>
      (op.OpFail? && op.run in t.runs && t.runs[op.run].task == id && k.result.None? && k.failure == Some(op.reason)) ||
      (op.OpRecover? && k.result.None? && k.failure == Some(INTERRUPTED_RUN) &&
       exists r :: IsInterrupted(t, r) && r !in op.frozen && t.runs[r].task == id) ||
      (op.OpIngest? && op.failure.Some? && k.failure == op.failure)
    case Canceled =>
      (op.OpCancelRun? && op.run in t.runs && t.runs[op.run].task == id && k.result.None? && k.failure.None?) ||
      (op.OpCancelTask? && op.id == id) || (op.OpIngest? && !op.ticket.eligible && k.failure.None?)
    case Running => op.OpClaim? && op.run in t.runs && t.runs[op.run].task == id
    case CancelRequested => op.OpCancelTask? && op.id == id
    case Queued => (op.OpIngest? || op.OpStart? || op.OpRetry? || op.OpRecover?) && k.failure.None?
    case AwaitingStart => op.OpIngest? && op.ticket.eligible && op.mode != "automatic" && k.failure.None?
  }

  /** Every change of a run's status, and every new run, is the doing of such a call; a run keeps its task and mode. */
  ghost predicate RunCaused(t: Tables, op: Op, u: Tables, r: string) {
    (r in t.runs ==> r in u.runs && u.runs[r].task == t.runs[r].task && u.runs[r].mode == t.runs[r].mode) &&
    (r in u.runs && (r !in t.runs || u.runs[r].status != t.runs[r].status) ==> Gives(t, op, r, u.runs[r].status))
  }

  ghost predicate TaskCaused(t: Tables, op: Op, u: Tables, id: string) {
    (id in t.tasks ==> id in u.tasks) &&
    (id in u.tasks && (id !in t.tasks || u.tasks[id] != t.tasks[id]) ==> Writes(t, op, id, u.tasks[id]))
  }

  lemma {:induction false} EndedIsCaused(t: Tables, op: Op, u: Tables, run: string, status: RunStatus, taskStatus: TaskStatus,
                                         result: Option<string>, failure: Option<string>, kind: string, r: string, id: string)
    requires EndedAs(t, u, run, status, taskStatus, result, failure, kind) && Gives(t, op, run, status)
    requires forall k: Task | k.status == taskStatus && k.result == result && k.failure == failure :: Writes(t, op, t.runs[run].task, k)
    ensures RunCaused(t, op, u, r) && TaskCaused(t, op, u, id)
  {
    if r in t.runs && r != run {
      assert r in t.runs - {run} && r in u.runs - {run};
    }
    if r in u.runs && r != run {
      assert r in u.runs - {run};
    }
    if id in t.tasks && id != t.runs[run].task {
      assert id in t.tasks - {t.runs[run].task} && u.tasks[id] == (u.tasks - {t.runs[run].task})[id];
    }
  }

  lemma {:induction false} IngestedRuns(t: Tables, op: Op, u: Tables, k: string, isNew: bool, r: string)
    requires op.OpIngest? && TaskAfterIngest(t, u, k, isNew, op.ticket, op.project, op.mode, op.failure, op.newRun)
    ensures RunCaused(t, op, u, r)
  {
  }

  lemma {:induction false} IngestedTasks(t: Tables, op: Op, u: Tables, k: string, isNew: bool, id: string)
    requires op.OpIngest? && TaskAfterIngest(t, u, k, isNew, op.ticket, op.project, op.mode, op.failure, op.newRun)
    ensures TaskCaused(t, op, u, id)
  {
    if id in t.tasks && id != k {
      assert id in t.tasks - {k} && u.tasks[id] == (u.tasks - {k})[id];
    }
    if id in u.tasks && id != k {
      assert id in u.tasks - {k};
    }
  }

  lemma {:induction false} IngestIsCaused(t: Tables, op: Op, r: string, id: string)
    requires op.OpIngest? && TicketInv(t)
    ensures RunCaused(t, op, Step(t, op), r) && TaskCaused(t, op, Step(t, op), id)
  {
    if Ingest(t, op.ticket, op.project, op.mode, op.failure, op.newRun).result.Ok? {
      var _, k := IngestStores(t, op.ticket, op.project, op.mode, op.failure, op.newRun);
      var isNew := !KnownContent(t, op.ticket);
      IngestedRuns(t, op, Step(t, op), k, isNew, r);
      IngestedTasks(t, op, Step(t, op), k, isNew, id);
    } else {
      IngestUndone(t, op);
    }
  }

  lemma {:induction false} IngestUndone(t: Tables, op: Op)
    requires op.OpIngest? && Ingest(t, op.ticket, op.project, op.mode, op.failure, op.newRun).result.Err?
    ensures Step(t, op) == t
  {
  }

  lemma {:induction false} RecoveryIsCaused(t: Tables, op: Op, r: string, id: string)
    requires op.OpRecover?
    ensures RunCaused(t, op, Step(t, op), r) && TaskCaused(t, op, Step(t, op), id)
  {
    RecoveringIsCaused(t, op, |op.rows|, r, id);
  }

  /** So far interrupted runs and their tasks were touched only; what is still interrupted was not. */
  ghost predicate SoFar(t: Tables, op: Op, u: Tables, r: string, id: string) {
    RunCaused(t, op, u, r) && TaskCaused(t, op, u, id) && u.tasks.Keys == t.tasks.Keys && u.runs.Keys == t.runs.Keys &&
    (IsInterrupted(u, r) ==> IsInterrupted(t, r) && u.runs[r] == t.runs[r])
  }

  lemma {:induction false} OneIsCaused(t: Tables, op: Op, u: Tables, x: string, r: string, id: string)
    requires op.OpRecover? && IsInterrupted(u, x) && SoFar(t, op, u, r, id) && SoFar(t, op, u, x, id)
    ensures SoFar(t, op, OneRecovered(u, x, x in op.frozen), r, id)
  {
    assert IsInterrupted(t, x) && u.runs[x] == t.runs[x];
  }

  /** Whatever rows it is given, the recovery touches interrupted runs and their tasks only. */
  lemma {:induction false} RecoveringIsCaused(t: Tables, op: Op, n: nat, r: string, id: string)
    requires op.OpRecover? && n <= |op.rows|
    ensures SoFar(t, op, Recovering(t, op.rows, n, op.frozen).0, r, id)
  {
    if n > 0 {
      var x := op.rows[n - 1];
      var u := Recovering(t, op.rows, n - 1, op.frozen).0;
      RecoveringIsCaused(t, op, n - 1, r, id);
      RecoveringIsCaused(t, op, n - 1, x, id);
      if IsInterrupted(u, x) {
        OneIsCaused(t, op, u, x, r, id);
      }
    }
  }

  lemma {:induction false} StepIsCaused(t: Tables, op: Op, r: string, id: string)
    requires TicketInv(t)
    ensures RunCaused(t, op, Step(t, op), r) && TaskCaused(t, op, Step(t, op), id)
  {
    match op
    case OpIngest(_, _, _, _, _) => IngestIsCaused(t, op, r, id);
    case OpStart(k, mode, newRun) => StartStores(t, k, mode, newRun);
    case OpRetry(k, run) => RetryIsCaused(t, op, r, id);
    case OpCancelTask(k) => CancelTaskStores(t, k);
    case OpClaim(run) => ClaimIsCaused(t, op, r, id);
    case OpComplete(_, _) => EndIsCaused(t, op, r, id);
    case OpFail(_, _) => EndIsCaused(t, op, r, id);
    case OpCancelRun(_) => EndIsCaused(t, op, r, id);
    case OpStartStage(_) =>
    case OpFinishStage(_, _, _) =>
    case OpRecover(_, _) => RecoveryIsCaused(t, op, r, id);
  }

  lemma {:induction false} EndIsCaused(t: Tables, op: Op, r: string, id: string)
    requires Terminal(op)
    ensures RunCaused(t, op, Step(t, op), r) && TaskCaused(t, op, Step(t, op), id)
  {
    if op.run in t.runs {
      match op
      case OpComplete(run, result) =>
        CompleteStores(t, run, result);
        EndedIsCaused(t, op, Step(t, op), run, RunCompleted, Completed, Some(result), None, "run_completed", r, id);
      case OpFail(run, reason) =>
        FailStores(t, run, reason);
        EndedIsCaused(t, op, Step(t, op), run, RunFailed, Failed, None, Some(reason), "run_failed", r, id);
      case OpCancelRun(run) =>
        CancelRunStores(t, run);
        EndedIsCaused(t, op, Step(t, op), run, RunCanceled, Canceled, None, None, "run_canceled", r, id);
    }
  }

  lemma {:induction false} RetryIsCaused(t: Tables, op: Op, r: string, id: string)
    requires op.OpRetry?
    ensures RunCaused(t, op, Step(t, op), r) && TaskCaused(t, op, Step(t, op), id)
  {
    RetryStores(t, op.id, op.run);
    if RetryDelivery(t, op.id, op.run).result.Ok? {
      EndedIsCaused(t, op, Step(t, op), op.run, RunQueued, Queued, None, None, "delivery_retry_queued", r, id);
    }
  }

  lemma {:induction false} ClaimIsCaused(t: Tables, op: Op, r: string, id: string)
    requires op.OpClaim? && TicketInv(t)
    ensures RunCaused(t, op, Step(t, op), r) && TaskCaused(t, op, Step(t, op), id)
  {
    ClaimStores(t, op.run);
    var u := Step(t, op);
    if ClaimRun(t, op.run).result.Ok? {
      if r in t.runs && r != op.run {
        assert r in t.runs - {op.run} && u.runs[r] == (u.runs - {op.run})[r];
      }
      if r in u.runs && r != op.run {
        assert r in u.runs - {op.run};
      }
    }
  }

  // ---------- over runs of calls ----------

  /** Call `i` of these gave the run the status it still has. */
  ghost predicate GaveLast(ops: seq<Op>, i: nat, r: string, s: RunStatus) {
    i < |ops| && Gives(Run(EMPTY, ops[..i]), ops[i], r, s) &&
    forall j | i < j <= |ops| :: r in Run(EMPTY, ops[..j]).runs && Run(EMPTY, ops[..j]).runs[r].status == s
  }

  ghost predicate WroteLast(ops: seq<Op>, i: nat, id: string, k: Task) {
    i < |ops| && Writes(Run(EMPTY, ops[..i]), ops[i], id, k) &&
    forall j | i < j <= |ops| :: id in Run(EMPTY, ops[..j]).tasks && Run(EMPTY, ops[..j]).tasks[id] == k
  }

  lemma {:induction false} LastCall(ops: seq<Op>)
    requires ops != []
    ensures Run(EMPTY, ops) == Step(Run(EMPTY, ops[..|ops| - 1]), ops[|ops| - 1])
  {
    var n := |ops| - 1;
    assert ops == ops[..n] + [ops[n]] && [ops[n]][1..] == [];
    RunOfConcat(EMPTY, ops[..n], [ops[n]]);
  }

  lemma {:induction false} GaveStays(ops: seq<Op>, i: nat, r: string, s: RunStatus)
    requires ops != [] && GaveLast(ops[..|ops| - 1], i, r, s) && r in Run(EMPTY, ops).runs && Run(EMPTY, ops).runs[r].status == s
    ensures GaveLast(ops, i, r, s)
  {
    var before := ops[..|ops| - 1];
    assert ops[..|ops|] == ops && before[..i] == ops[..i];
    forall j | i < j <= |ops| ensures r in Run(EMPTY, ops[..j]).runs && Run(EMPTY, ops[..j]).runs[r].status == s {
      if j < |ops| {
        assert before[..j] == ops[..j];
      }
    }
  }

  lemma {:induction false} WroteStays(ops: seq<Op>, i: nat, id: string, k: Task)
    requires ops != [] && WroteLast(ops[..|ops| - 1], i, id, k) && id in Run(EMPTY, ops).tasks && Run(EMPTY, ops).tasks[id] == k
    ensures WroteLast(ops, i, id, k)
  {
    var before := ops[..|ops| - 1];
    assert ops[..|ops|] == ops && before[..i] == ops[..i];
    forall j | i < j <= |ops| ensures id in Run(EMPTY, ops[..j]).tasks && Run(EMPTY, ops[..j]).tasks[id] == k {
      if j < |ops| {
        assert before[..j] == ops[..j];
      }
    }
  }

  /** What the last call did to a run and a task. */
  lemma {:induction false} LastIsCaused(ops: seq<Op>, r: string, id: string)
    requires ops != []
    ensures var t, op := Run(EMPTY, ops[..|ops| - 1]), ops[|ops| - 1];
      RunCaused(t, op, Run(EMPTY, ops), r) && TaskCaused(t, op, Run(EMPTY, ops), id)
  {
    LastCall(ops);
    assert TicketInv(Run(EMPTY, ops[..|ops| - 1])) by {
      RunKeepsTickets(EMPTY, ops[..|ops| - 1]);
    }
    StepIsCaused(Run(EMPTY, ops[..|ops| - 1]), ops[|ops| - 1], r, id);
  }

  /** Over every run of calls from empty tables, the status of a run was given by the last call that gives it one. */
  lemma {:induction false} StatusNamesItsCall(ops: seq<Op>, r: string) returns (i: nat)
    requires r in Run(EMPTY, ops).runs
    ensures GaveLast(ops, i, r, Run(EMPTY, ops).runs[r].status)
    decreases |ops|
  {
    i := |ops| - 1;
    var t, u := Run(EMPTY, ops[..i]), Run(EMPTY, ops);
    LastIsCaused(ops, r, "");
    assert ops[..|ops|] == ops;
    if r in t.runs && u.runs[r].status == t.runs[r].status {
      i := StatusNamesItsCall(ops[..i], r);
      GaveStays(ops, i, r, u.runs[r].status);
    }
  }

  /** The same of a task: the row it has was written by a call that writes just that. */
  lemma {:induction false} TaskNamesItsCall(ops: seq<Op>, id: string) returns (i: nat)
    requires id in Run(EMPTY, ops).tasks
    ensures WroteLast(ops, i, id, Run(EMPTY, ops).tasks[id])
    decreases |ops|
  {
    i := |ops| - 1;
    var t, u := Run(EMPTY, ops[..i]), Run(EMPTY, ops);
    LastIsCaused(ops, "", id);
    assert ops[..|ops|] == ops;
    if id in t.tasks && u.tasks[id] == t.tasks[id] {
      i := TaskNamesItsCall(ops[..i], id);
      WroteStays(ops, i, id, u.tasks[id]);
    }
  }

  /**
   A run is completed only by a completing call, and right after that call its task is completed with that
   call's result; a run is failed only by a failing call or by a recovery that found no frozen manifest.
   */
  lemma {:induction false} EndedRunsWereEnded(ops: seq<Op>, r: string) returns (i: nat)
    requires r in Run(EMPTY, ops).runs
    ensures var s := Run(EMPTY, ops).runs[r].status;
      i < |ops| && GaveLast(ops, i, r, s) &&
      (s.RunCompleted? ==> (
        ops[i].OpComplete? && ops[i].run == r &&
        var u := Run(EMPTY, ops[..i + 1]);
        var id := u.runs[r].task;
        id in u.tasks && u.tasks[id].status.Completed? && u.tasks[id].result == Some(ops[i].result) && u.tasks[id].failure.None?)) &&
      (s.RunFailed? ==> (ops[i].OpFail? && ops[i].run == r) || (ops[i].OpRecover? && r !in ops[i].frozen))
  {
    i := StatusNamesItsCall(ops, r);
    var t, u := Run(EMPTY, ops[..i]), Run(EMPTY, ops[..i + 1]);
    if Run(EMPTY, ops).runs[r].status.RunCompleted? {
      LastCall(ops[..i + 1]);
      assert ops[..i + 1][..i] == ops[..i];
      RunKeepsTickets(EMPTY, ops[..i]);
      RunKeepsTickets(EMPTY, ops[..i + 1]);
      CompleteStores(t, r, ops[i].result);
      assert RunLinked(u.runs[r], u.tasks, u.snapshots);
    }
  }
}
