/** What the recovery after a restart leaves, for any order in which its query returns the interrupted runs. */
module TaskRecovery {
  import opened Prelude
  import opened TaskLifecycle
  import opened TaskLifecycleProofs

  function RowSet(rows: seq<string>): set<string> { set r | r in rows }

  /** Interrupted runs, each at most once. */
  ghost predicate InterruptedRows(rows: seq<string>, t: Tables) {
    (forall i, j | 0 <= i < j < |rows| :: rows[i] != rows[j]) && forall r | r in rows :: IsInterrupted(t, r)
  }

  /** What the query returns: every interrupted run, once. */
  ghost predicate IsQueryResult(rows: seq<string>, t: Tables) {
    InterruptedRows(rows, t) && RowSet(rows) == Interrupted(t)
  }

  lemma {:induction false} RowsSoFar(rows: seq<string>, n: nat)
    requires n < |rows| && forall i, j | 0 <= i < j < |rows| :: rows[i] != rows[j]
    ensures RowSet(rows[..n + 1]) == RowSet(rows[..n]) + {rows[n]} && rows[n] !in RowSet(rows[..n])
  {
    assert rows[..n + 1] == rows[..n] + [rows[n]];
  }

  // ---------- runs and stages ----------

  function RecoveredRuns(runs: map<string, TaskRun>, done: set<string>, frozen: set<string>): map<string, TaskRun> {
    map r | r in runs :: if r in done then RecoveredRun(runs[r], r in frozen) else runs[r]
  }

  function RecoveredStages(stages: map<nat, Stage>, done: set<string>): map<nat, Stage> {
    map s | s in stages :: if stages[s].run in done && stages[s].status.StageRunning?
      then stages[s].(status := StageFailed, failure := Some(INTERRUPTED_STAGE)) else stages[s]
  }

  /** The loop's next turn. */
  lemma {:induction false} NextRow(t: Tables, rows: seq<string>, n: nat, frozen: set<string>)
    requires n < |rows| && IsInterrupted(Recovering(t, rows, n, frozen).0, rows[n])
    ensures var (u, resume, failed) := Recovering(t, rows, n, frozen);
      var resumed := rows[n] in frozen;
      Recovering(t, rows, n + 1, frozen) ==
        (OneRecovered(u, rows[n], resumed), if resumed then resume + 1 else resume, if resumed then failed else failed + 1)
  {
  }

  lemma {:induction false} OneMoreRun(runs: map<string, TaskRun>, done: set<string>, frozen: set<string>, r: string)
    requires r in runs && r !in done
    ensures RecoveredRuns(runs, done, frozen)[r := RecoveredRun(runs[r], r in frozen)] == RecoveredRuns(runs, done + {r}, frozen)
  {
  }

  /** A row not handled yet is still interrupted. */
  lemma {:induction false} StillInterrupted(t: Tables, u: Tables, done: set<string>, frozen: set<string>, r: string)
    requires IsInterrupted(t, r) && r !in done && u.runs == RecoveredRuns(t.runs, done, frozen) && u.tasks.Keys == t.tasks.Keys
    ensures IsInterrupted(u, r) && u.runs[r] == t.runs[r]
  {
  }

  lemma {:induction false} RunsSoFar(t: Tables, rows: seq<string>, n: nat, frozen: set<string>)
    requires InterruptedRows(rows, t) && n <= |rows|
    ensures var u := Recovering(t, rows, n, frozen).0;
      u.runs == RecoveredRuns(t.runs, RowSet(rows[..n]), frozen) && u.tasks.Keys == t.tasks.Keys
    decreases n, 0
  {
    if n == 0 {
      assert RowSet(rows[..0]) == {};
    } else {
      TurnSoFar(t, rows, n - 1, frozen);
      OneMoreRun(t.runs, RowSet(rows[..n - 1]), frozen, rows[n - 1]);
    }
  }

  /** What is known before the turn of row `n`. */
  lemma {:induction false} TurnSoFar(t: Tables, rows: seq<string>, n: nat, frozen: set<string>)
    requires InterruptedRows(rows, t) && n < |rows|
    ensures var u := Recovering(t, rows, n, frozen).0;
      u.runs == RecoveredRuns(t.runs, RowSet(rows[..n]), frozen) && u.tasks.Keys == t.tasks.Keys &&
      IsInterrupted(t, rows[n]) && IsInterrupted(u, rows[n]) && u.runs[rows[n]] == t.runs[rows[n]] &&
      Recovering(t, rows, n + 1, frozen).0 == OneRecovered(u, rows[n], rows[n] in frozen) &&
      Recovering(t, rows, n + 1, frozen).1 == Recovering(t, rows, n, frozen).1 + (if rows[n] in frozen then 1 else 0) &&
      Recovering(t, rows, n + 1, frozen).2 == Recovering(t, rows, n, frozen).2 + (if rows[n] in frozen then 0 else 1)
    ensures RowSet(rows[..n + 1]) == RowSet(rows[..n]) + {rows[n]} && rows[n] !in RowSet(rows[..n])
    decreases n, 1
  {
    RunsSoFar(t, rows, n, frozen);
    RowsSoFar(rows, n);
    StillInterrupted(t, Recovering(t, rows, n, frozen).0, RowSet(rows[..n]), frozen, rows[n]);
    NextRow(t, rows, n, frozen);
  }

  lemma {:induction false} StagesSoFar(t: Tables, rows: seq<string>, n: nat, frozen: set<string>)
    requires InterruptedRows(rows, t) && n <= |rows|
    ensures Recovering(t, rows, n, frozen).0.stages == RecoveredStages(t.stages, RowSet(rows[..n]))
  {
    if n == 0 {
      assert RowSet(rows[..0]) == {};
    } else {
      StagesSoFar(t, rows, n - 1, frozen);
      TurnSoFar(t, rows, n - 1, frozen);
      OneMoreRunsStages(t.stages, RowSet(rows[..n - 1]), rows[n - 1]);
    }
  }

  lemma {:induction false} OneMoreRunsStages(stages: map<nat, Stage>, done: set<string>, r: string)
    requires r !in done
    ensures var us := RecoveredStages(stages, done);
      StagesFailed(us, RunningStages(us, r)) == RecoveredStages(stages, done + {r})
  {
  }

  /** What the counters hold when the runs in `done` were handled. */
  ghost predicate Counted(counters: (Tables, nat, nat), done: set<string>, frozen: set<string>) {
    counters.1 == |done * frozen| && counters.2 == |done - frozen|
  }

  lemma {:induction false} CountersTurn(t: Tables, rows: seq<string>, n: nat, frozen: set<string>)
    requires InterruptedRows(rows, t) && n < |rows|
    requires Counted(Recovering(t, rows, n, frozen), RowSet(rows[..n]), frozen)
    ensures Counted(Recovering(t, rows, n + 1, frozen), RowSet(rows[..n + 1]), frozen)
  {
    var c, d, done, r := Recovering(t, rows, n, frozen), Recovering(t, rows, n + 1, frozen), RowSet(rows[..n]), rows[n];
    assert RowSet(rows[..n + 1]) == done + {r} && r !in done && d.1 == c.1 + (if r in frozen then 1 else 0) &&
           d.2 == c.2 + (if r in frozen then 0 else 1) by {
      TurnSoFar(t, rows, n, frozen);
    }
    CountedOneMore(c, d, done, frozen, r);
  }

  lemma {:induction false} CountersSoFar(t: Tables, rows: seq<string>, n: nat, frozen: set<string>)
    requires InterruptedRows(rows, t) && n <= |rows|
    ensures Counted(Recovering(t, rows, n, frozen), RowSet(rows[..n]), frozen)
  {
    if n == 0 {
      assert RowSet(rows[..0]) == {};
    } else {
      CountersSoFar(t, rows, n - 1, frozen);
      CountersTurn(t, rows, n - 1, frozen);
    }
  }

  lemma {:induction false} CountedOneMore(c: (Tables, nat, nat), d: (Tables, nat, nat), done: set<string>, frozen: set<string>, r: string)
    requires r !in done && Counted(c, done, frozen)
    requires d.1 == c.1 + (if r in frozen then 1 else 0) && d.2 == c.2 + (if r in frozen then 0 else 1)
    ensures Counted(d, done + {r}, frozen)
  {
    CountAdded(done, frozen, r);
  }

  lemma {:induction false} CountAdded(done: set<string>, frozen: set<string>, r: string)
    requires r !in done
    ensures |(done + {r}) * frozen| == |done * frozen| + (if r in frozen then 1 else 0)
    ensures |(done + {r}) - frozen| == |done - frozen| + (if r in frozen then 0 else 1)
  {
    assert (done + {r}) * frozen == if r in frozen then done * frozen + {r} else done * frozen;
    assert (done + {r}) - frozen == if r in frozen then done - frozen else (done - frozen) + {r};
  }

  // ---------- tasks ----------

  /** The outcome of a recovered task: requeued without failure, or failed with the interruption. */
  predicate Requeued(k: Task) { k.status.Queued? && k.failure.None? }

  predicate FailedByRestart(k: Task) { k.status.Failed? && k.result.None? && k.failure == Some(INTERRUPTED_RUN) }

  /** Between a task's rows: its record, project and current run stay; a task without a row is untouched. */
  ghost predicate TaskHandled(t: Tables, u: Tables, done: set<string>, frozen: set<string>, id: string)
    requires done <= t.runs.Keys
  {
    id in t.tasks && id in u.tasks && u.tasks[id].record == t.tasks[id].record && u.tasks[id].project == t.tasks[id].project &&
    u.tasks[id].run == t.tasks[id].run &&
    ((u.tasks[id] == t.tasks[id] && forall r | r in done :: t.runs[r].task != id) ||
     (exists r :: r in done && t.runs[r].task == id && r in frozen && Requeued(u.tasks[id])) ||
     (exists r :: r in done && t.runs[r].task == id && r !in frozen && FailedByRestart(u.tasks[id])))
  }

  /** What the turn of row `n` does to the tasks. */
  lemma {:induction false} TasksTurn(t: Tables, rows: seq<string>, n: nat, frozen: set<string>)
    requires InterruptedRows(rows, t) && n < |rows|
    ensures IsInterrupted(t, rows[n])
    ensures var u, v, id := Recovering(t, rows, n, frozen).0, Recovering(t, rows, n + 1, frozen).0, t.runs[rows[n]].task;
      id in u.tasks && v.tasks == u.tasks[id := RecoveredTask(u.tasks[id], rows[n] in frozen)]
    ensures RowSet(rows[..n + 1]) == RowSet(rows[..n]) + {rows[n]} && rows[n] !in RowSet(rows[..n])
  {
    TurnSoFar(t, rows, n, frozen);
  }

  lemma {:induction false} TaskSoFar(t: Tables, rows: seq<string>, n: nat, frozen: set<string>, id: string)
    requires InterruptedRows(rows, t) && n <= |rows| && id in t.tasks
    ensures RowSet(rows[..n]) <= t.runs.Keys
    ensures TaskHandled(t, Recovering(t, rows, n, frozen).0, RowSet(rows[..n]), frozen, id)
  {
    if n == 0 {
      assert RowSet(rows[..0]) == {};
    } else {
      TaskSoFar(t, rows, n - 1, frozen, id);
      TasksTurn(t, rows, n - 1, frozen);
      var u, v := Recovering(t, rows, n - 1, frozen).0, Recovering(t, rows, n, frozen).0;
      OneMoreTask(t, u, v, RowSet(rows[..n - 1]), frozen, rows[n - 1], id);
    }
  }

  lemma {:induction false} OneMoreTask(t: Tables, u: Tables, v: Tables, done: set<string>, frozen: set<string>, r: string, id: string)
    requires done <= t.runs.Keys && TaskHandled(t, u, done, frozen, id) && r in t.runs && t.runs[r].task in u.tasks
    requires v.tasks == u.tasks[t.runs[r].task := RecoveredTask(u.tasks[t.runs[r].task], r in frozen)]
    ensures TaskHandled(t, v, done + {r}, frozen, id)
  {
    if t.runs[r].task == id {
      assert r in done + {r};
    } else {
      assert v.tasks[id] == u.tasks[id];
      if x :| x in done && t.runs[x].task == id {
        assert x in done + {r};
        if y :| y in done && t.runs[y].task == id && y in frozen && Requeued(u.tasks[id]) {
          assert y in done + {r};
        }
        if y :| y in done && t.runs[y].task == id && y !in frozen && FailedByRestart(u.tasks[id]) {
          assert y in done + {r};
        }
      }
    }
  }

  // ---------- the whole recovery ----------

  /**
   Recovery leaves no run running, requeues a run exactly when its manifest was frozen and fails it
   otherwise, fails the running stages of these runs, and touches no other run, stage or task; a task
   of an interrupted run ends requeued or failed as one of them did.
   */
  lemma {:induction false} RecoveryHandlesEveryRun(t: Tables, rows: seq<string>, frozen: set<string>, r: string, s: nat, id: string)
    requires IsQueryResult(rows, t)
    ensures
      var u := Recover(t, rows, frozen);
      Interrupted(u) == {} && u.runs.Keys == t.runs.Keys && u.stages.Keys == t.stages.Keys && u.tasks.Keys == t.tasks.Keys &&
      (r in t.runs ==> u.runs[r] == if r in Interrupted(t)
        then t.runs[r].(status := if r in frozen then RunQueued else RunFailed) else t.runs[r]) &&
      (s in t.stages ==> u.stages[s] == if t.stages[s].run in Interrupted(t) && t.stages[s].status.StageRunning?
        then t.stages[s].(status := StageFailed, failure := Some(INTERRUPTED_STAGE)) else t.stages[s]) &&
      (id in t.tasks ==> TaskHandled(t, u, Interrupted(t), frozen, id))
  {
    var n := |rows|;
    assert rows[..n] == rows;
    RunsSoFar(t, rows, n, frozen);
    StagesSoFar(t, rows, n, frozen);
    if id in t.tasks {
      TaskSoFar(t, rows, n, frozen, id);
    }
  }

  /** The counters are the numbers of requeued and failed runs, and every interrupted run is in one of them. */
  lemma {:induction false} RecoveryCounts(t: Tables, rows: seq<string>, frozen: set<string>)
    requires IsQueryResult(rows, t)
    ensures var (_, resume, failed) := Recovering(t, rows, |rows|, frozen);
      resume == |Interrupted(t) * frozen| && failed == |Interrupted(t) - frozen| && resume + failed == |Interrupted(t)|
  {
    assert rows[..|rows|] == rows;
    CountersSoFar(t, rows, |rows|, frozen);
    assert Interrupted(t) == Interrupted(t) * frozen + (Interrupted(t) - frozen);
  }

  lemma {:induction false} NothingInterrupted(t: Tables, rows: seq<string>, n: nat, frozen: set<string>)
    requires Interrupted(t) == {} && n <= |rows|
    ensures Recovering(t, rows, n, frozen) == (t, 0, 0)
  {
    if n > 0 {
      NothingInterrupted(t, rows, n - 1, frozen);
      assert rows[n - 1] !in Interrupted(t);
    }
  }

  /** A second recovery changes nothing, whatever its query returns and whatever manifests there are by then. */
  lemma {:induction false} SecondRecoveryChangesNothing(t: Tables, rows: seq<string>, frozen: set<string>,
                                                        others: seq<string>, later: set<string>)
    requires IsQueryResult(rows, t)
    ensures Recover(Recover(t, rows, frozen), others, later) == Recover(t, rows, frozen)
  {
    RecoveryHandlesEveryRun(t, rows, frozen, "", 0, "");
    NothingInterrupted(Recover(t, rows, frozen), others, |others|, later);
  }

  // ---------- when tasks and runs agree ----------

  /** The task as the recovery of its current run leaves it. */
  function AgreedTask(k: Task, done: set<string>, frozen: set<string>): Task {
    if k.run.Some? && k.run.value in done then RecoveredTask(k, k.run.value in frozen) else k
  }

  lemma {:induction false} AgreedTaskSoFar(t: Tables, rows: seq<string>, n: nat, frozen: set<string>, id: string)
    requires Agreement(t.tasks, t.runs) && InterruptedRows(rows, t) && n <= |rows| && id in t.tasks
    ensures var u := Recovering(t, rows, n, frozen).0;
      id in u.tasks && u.tasks[id] == AgreedTask(t.tasks[id], RowSet(rows[..n]), frozen)
  {
    if n == 0 {
      assert RowSet(rows[..0]) == {};
    } else {
      AgreedTaskSoFar(t, rows, n - 1, frozen, id);
      TasksTurn(t, rows, n - 1, frozen);
      RunOfTask(t, rows[n - 1], id);
      OneMoreAgreedTask(t.tasks[id], RowSet(rows[..n - 1]), frozen, rows[n - 1]);
    }
  }

  lemma {:induction false} OneMoreAgreedTask(k: Task, done: set<string>, frozen: set<string>, r: string)
    requires r !in done
    ensures AgreedTask(k, done + {r}, frozen) ==
      if k.run == Some(r) then RecoveredTask(AgreedTask(k, done, frozen), r in frozen) else AgreedTask(k, done, frozen)
  {
  }

  lemma {:induction false} RunOfTask(t: Tables, r: string, id: string)
    requires Agreement(t.tasks, t.runs) && IsInterrupted(t, r) && id in t.tasks
    ensures t.runs[r].task == id <==> t.tasks[id].run == Some(r)
  {
    assert TaskAgrees(t.tasks[id], id, t.runs);
  }

  /** When tasks and runs agree, the order of the rows does not matter. */
  lemma {:induction false} RowOrderDoesNotMatter(t: Tables, rows: seq<string>, others: seq<string>, frozen: set<string>)
    requires Agreement(t.tasks, t.runs) && IsQueryResult(rows, t) && IsQueryResult(others, t)
    ensures var u, v := Recover(t, rows, frozen), Recover(t, others, frozen);
      u.runs == v.runs && u.tasks == v.tasks && u.stages == v.stages
  {
    var u, v := Recover(t, rows, frozen), Recover(t, others, frozen);
    assert rows[..|rows|] == rows && others[..|others|] == others;
    RunsSoFar(t, rows, |rows|, frozen);
    RunsSoFar(t, others, |others|, frozen);
    StagesSoFar(t, rows, |rows|, frozen);
    StagesSoFar(t, others, |others|, frozen);
    forall id | id in t.tasks ensures u.tasks[id] == v.tasks[id] {
      AgreedTaskSoFar(t, rows, |rows|, frozen, id);
      AgreedTaskSoFar(t, others, |others|, frozen, id);
    }
  }
}
