/**
 What every lifecycle call keeps about tickets and snapshots, disciplined or not: one record per
 external ticket, one snapshot per record and content, one task per record, and a run's ticket
 snapshot, once set, never set again. Also the repeated ingest.
 */
module TaskTickets {
  import opened Prelude
  import opened TaskLifecycle
  import opened TaskLifecycleProofs

  type Records = map<nat, Record>
  type Snapshots = map<nat, Snapshot>

  predicate SameTicket(rs: Records, i: nat, j: nat) {
    i in rs && j in rs && rs[i].provider == rs[j].provider && rs[i].external == rs[j].external
  }

  predicate SameContent(ss: Snapshots, s: nat, u: nat) { s in ss && u in ss && ss[s] == ss[u] }

  predicate SameRecord(ts: map<string, Task>, k: string, l: string) { k in ts && l in ts && ts[k].record == ts[l].record }

  /** One record per external ticket. */
  ghost predicate RecordsInv(rs: Records, next: nat) {
    (forall i | i in rs :: i < next) && (forall i, j | SameTicket(rs, i, j) :: i == j)
  }

  /** One snapshot per record and content. */
  ghost predicate SnapshotsInv(ss: Snapshots, next: nat, rs: Records) {
    (forall s | s in ss :: s < next && ss[s].record in rs) && (forall s, u | SameContent(ss, s, u) :: s == u)
  }

  predicate OwnSnapshot(ss: Snapshots, s: Option<nat>, record: nat) {
    s.Some? && s.value in ss && ss[s.value].record == record
  }

  ghost predicate CurrentInv(rs: Records, ss: Snapshots) { forall i | i in rs :: OwnSnapshot(ss, rs[i].snapshot, i) }

  /** One task per record. */
  ghost predicate TasksInv(ts: map<string, Task>, rs: Records) {
    (forall k | k in ts :: ts[k].record in rs) && (forall k, l | SameRecord(ts, k, l) :: k == l)
  }

  predicate RunLinked(r: TaskRun, ts: map<string, Task>, ss: Snapshots) {
    r.task in ts && (r.snapshot.Some? ==> OwnSnapshot(ss, r.snapshot, ts[r.task].record))
  }

  /** Every run has a task, and a run's snapshot is one of its own ticket. */
  ghost predicate RunsInv(rs: map<string, TaskRun>, ts: map<string, Task>, ss: Snapshots) {
    forall r | r in rs :: RunLinked(rs[r], ts, ss)
  }

  ghost predicate TicketInv(t: Tables) {
    RecordsInv(t.records, t.nextRecord) && SnapshotsInv(t.snapshots, t.nextSnapshot, t.records) &&
    CurrentInv(t.records, t.snapshots) && TasksInv(t.tasks, t.records) && RunsInv(t.runs, t.tasks, t.snapshots)
  }

  // ---------- what is never lost ----------

  ghost predicate SnapshotsKept(a: Snapshots, b: Snapshots) { forall s | s in a :: s in b && b[s] == a[s] }

  ghost predicate TasksKept(a: map<string, Task>, b: map<string, Task>) {
    forall k | k in a :: k in b && b[k].record == a[k].record
  }

  /** No run is lost and no run's snapshot is set twice. */
  ghost predicate RunsKept(a: map<string, TaskRun>, b: map<string, TaskRun>) {
    forall r | r in a :: r in b && b[r].task == a[r].task && (a[r].snapshot.Some? ==> b[r].snapshot == a[r].snapshot)
  }

  ghost predicate Kept(t: Tables, u: Tables) {
    t.records.Keys <= u.records.Keys && SnapshotsKept(t.snapshots, u.snapshots) && TasksKept(t.tasks, u.tasks) &&
    RunsKept(t.runs, u.runs)
  }

  // ---------- the first half of an ingest ----------

  lemma {:induction false} RecordTicketKeeps(t: Tables, ticket: Ticket)
    requires RecordsInv(t.records, t.nextRecord)
    ensures var (u, i) := RecordTicket(t, ticket);
      i in u.records && RecordsInv(u.records, u.nextRecord) && t.records.Keys <= u.records.Keys <= t.records.Keys + {i} &&
      IsRecord(u, i, ticket.provider, ticket.external) &&
      (forall j | j in u.records && j != i :: u.records[j] == t.records[j]) &&
      u == t.(records := u.records, nextRecord := u.nextRecord)
  {
    var (u, i) := RecordTicket(t, ticket);
    forall j, k | SameTicket(u.records, j, k) ensures j == k {
      if j in t.records && k in t.records {
        assert SameTicket(t.records, j, k);
      } else {
        assert FindRecord(t, ticket.provider, ticket.external).None?;
        assert j in t.records ==> !IsRecord(t, j, ticket.provider, ticket.external);
        assert k in t.records ==> !IsRecord(t, k, ticket.provider, ticket.external);
      }
    }
  }

  /** A record whose current snapshot becomes `s`, a snapshot of its own. */
  lemma {:induction false} CurrentSet(rs: Records, next: nat, ss: Snapshots, i: nat, s: nat)
    requires i in rs && RecordsInv(rs, next) && OwnSnapshot(ss, Some(s), i)
    requires forall j | j in rs && j != i :: OwnSnapshot(ss, rs[j].snapshot, j)
    ensures var us := rs[i := rs[i].(snapshot := Some(s))];
      us.Keys == rs.Keys && RecordsInv(us, next) && CurrentInv(us, ss)
  {
    var us := rs[i := rs[i].(snapshot := Some(s))];
    forall j, k | SameTicket(us, j, k) ensures j == k {
      assert SameTicket(rs, j, k);
    }
  }

  lemma {:induction false} SnapshotInserted(ss: Snapshots, next: nat, rs: Records, x: Snapshot)
    requires SnapshotsInv(ss, next, rs) && x.record in rs && forall s | s in ss :: ss[s] != x
    ensures SnapshotsInv(ss[next := x], next + 1, rs) && SnapshotsKept(ss, ss[next := x])
  {
    var us := ss[next := x];
    forall s, v | SameContent(us, s, v) ensures s == v {
      assert s != next && v != next ==> SameContent(ss, s, v);
    }
  }

  lemma {:induction false} SnapshotTicketKeeps(t: Tables, i: nat, content: string)
    requires i in t.records && RecordsInv(t.records, t.nextRecord) && SnapshotsInv(t.snapshots, t.nextSnapshot, t.records)
    requires forall j | j in t.records && j != i :: OwnSnapshot(t.snapshots, t.records[j].snapshot, j)
    ensures var (u, _) := SnapshotTicket(t, i, content);
      u == t.(records := u.records, snapshots := u.snapshots, nextSnapshot := u.nextSnapshot) &&
      u.records.Keys == t.records.Keys && RecordsInv(u.records, u.nextRecord) && SnapshotsInv(u.snapshots, u.nextSnapshot, u.records) &&
      CurrentInv(u.records, u.snapshots) && SnapshotsKept(t.snapshots, u.snapshots)
  {
    match FindSnapshot(t, i, content)
    case None =>
      forall s | s in t.snapshots ensures t.snapshots[s] != Snapshot(i, content) {
        assert !IsSnapshot(t, s, i, content);
      }
      SnapshotInserted(t.snapshots, t.nextSnapshot, t.records, Snapshot(i, content));
      CurrentSet(t.records, t.nextRecord, t.snapshots[t.nextSnapshot := Snapshot(i, content)], i, t.nextSnapshot);
    case Some(s) =>
      CurrentSet(t.records, t.nextRecord, t.snapshots, i, s);
  }

  lemma {:induction false} TicketHalfKeeps(t: Tables, ticket: Ticket)
    requires TicketInv(t)
    ensures var (t1, i) := RecordTicket(t, ticket);
      i in t1.records && var u := SnapshotTicket(t1, i, ticket.payload).0;
      TicketInv(u) && Kept(t, u) && i in u.records
  {
    RecordTicketKeeps(t, ticket);
    var (t1, i) := RecordTicket(t, ticket);
    SnapshotTicketKeeps(t1, i, ticket.payload);
    LinksSurvive(t, SnapshotTicket(t1, i, ticket.payload).0);
  }

  lemma {:induction false} LinksSurvive(t: Tables, u: Tables)
    requires TasksInv(t.tasks, t.records) && RunsInv(t.runs, t.tasks, t.snapshots)
    requires u.tasks == t.tasks && u.runs == t.runs && t.records.Keys <= u.records.Keys && SnapshotsKept(t.snapshots, u.snapshots)
    ensures TasksInv(u.tasks, u.records) && RunsInv(u.runs, u.tasks, u.snapshots)
  {
  }

  // ---------- the calls that leave tickets alone ----------

  /** `u` differs from `t` in tasks, runs, stages and events only, and new runs have no snapshot yet. */
  ghost predicate WorkOnly(t: Tables, u: Tables) {
    u.records == t.records && u.nextRecord == t.nextRecord && u.snapshots == t.snapshots && u.nextSnapshot == t.nextSnapshot &&
    u.tasks.Keys == t.tasks.Keys && (forall k | k in t.tasks :: u.tasks[k].record == t.tasks[k].record) &&
    t.runs.Keys <= u.runs.Keys &&
    (forall r | r in u.runs :: if r in t.runs then u.runs[r].task == t.runs[r].task && u.runs[r].snapshot == t.runs[r].snapshot
                               else u.runs[r].task in t.tasks && u.runs[r].snapshot.None?)
  }

  lemma {:induction false} WorkOnlyKeeps(t: Tables, u: Tables)
    requires TicketInv(t) && WorkOnly(t, u)
    ensures TicketInv(u) && Kept(t, u)
  {
    forall k, l | SameRecord(u.tasks, k, l) ensures k == l {
      assert SameRecord(t.tasks, k, l);
    }
    forall r | r in u.runs ensures RunLinked(u.runs[r], u.tasks, u.snapshots) {
      assert r in t.runs ==> RunLinked(t.runs[r], t.tasks, t.snapshots);
    }
  }

  lemma {:induction false} CreateRunIsWork(t: Tables, id: string, mode: string, newRun: string)
    requires id in t.tasks
    ensures WorkOnly(t, CreateRun(t, id, mode, newRun).tables)
  {
  }

  lemma {:induction false} IngestKnownIsWork(t: Tables, id: string, isNew: bool, ticket: Ticket, project: Option<string>, mode: string,
                          failure: Option<string>, newRun: string)
    requires id in t.tasks
    ensures WorkOnly(t, IngestKnown(t, id, isNew, ticket, project, mode, failure, newRun).tables)
  {
    var u := Logged(t, "ticket_updated", id, "");
    var status := FirstStatus(ticket, mode, failure);
    var v := u.(tasks := u.tasks[id := u.tasks[id].(project := Binding(project), status := status, failure := failure)]);
    CreateRunIsWork(v, id, mode, newRun);
  }

  /** A task row inserted for a record that has none. */
  lemma {:induction false} TaskInsertKeeps(t: Tables, u: Tables, id: string)
    requires TicketInv(t) && id !in t.tasks && id in u.tasks && u.tasks[id].record in t.records
    requires forall k :: !IsTaskOf(t, k, u.tasks[id].record)
    requires u == t.(tasks := t.tasks[id := u.tasks[id]], events := u.events)
    ensures TicketInv(u) && Kept(t, u)
  {
    forall k, l | SameRecord(u.tasks, k, l) ensures k == l {
      if k in t.tasks && l in t.tasks {
        assert SameRecord(t.tasks, k, l);
      } else {
        assert !IsTaskOf(t, k, u.tasks[id].record) && !IsTaskOf(t, l, u.tasks[id].record);
      }
    }
    forall r | r in u.runs ensures RunLinked(u.runs[r], u.tasks, u.snapshots) {
      assert RunLinked(t.runs[r], t.tasks, t.snapshots);
    }
  }

  lemma {:induction false} IngestNewKeeps(t: Tables, record: nat, ticket: Ticket, project: Option<string>, mode: string,
                       failure: Option<string>, newRun: string)
    requires TicketInv(t) && record in t.records && FindTask(t, record).None?
    ensures var u := IngestNew(t, record, ticket, project, mode, failure, newRun).tables; TicketInv(u) && Kept(t, u)
  {
    var id := TaskIdOf(ticket);
    if id !in t.tasks {
      var u := Logged(t.(tasks := t.tasks[id :=
        Task(record, Binding(project), FirstStatus(ticket, mode, failure), None, failure, None)]), "ticket_ingested", id, "");
      TaskInsertKeeps(t, u, id);
      CreateRunIsWork(u, id, mode, newRun);
      WorkOnlyKeeps(u, CreateRun(u, id, mode, newRun).tables);
    }
  }

  /** The second half of an ingest. */
  ghost function SecondHalf(t: Tables, isNew: bool, record: nat, ticket: Ticket, project: Option<string>, mode: string,
                            failure: Option<string>, newRun: string): Reply
  {
    match FindTask(t, record)
    case None => IngestNew(t, record, ticket, project, mode, failure, newRun)
    case Some(id) => IngestKnown(t, id, isNew, ticket, project, mode, failure, newRun)
  }

  lemma {:induction false} SecondHalfKeeps(t: Tables, isNew: bool, record: nat, ticket: Ticket, project: Option<string>, mode: string,
                        failure: Option<string>, newRun: string)
    requires TicketInv(t) && record in t.records
    ensures var u := SecondHalf(t, isNew, record, ticket, project, mode, failure, newRun).tables; TicketInv(u) && Kept(t, u)
  {
    match FindTask(t, record)
    case None => IngestNewKeeps(t, record, ticket, project, mode, failure, newRun);
    case Some(id) =>
      IngestKnownIsWork(t, id, isNew, ticket, project, mode, failure, newRun);
      WorkOnlyKeeps(t, IngestKnown(t, id, isNew, ticket, project, mode, failure, newRun).tables);
  }

  /** An ingest is its two halves, undone when the second raises. */
  lemma {:induction false} IngestHalves(t: Tables, ticket: Ticket, project: Option<string>, mode: string,
                                        failure: Option<string>, newRun: string)
    ensures
      var (t1, record) := RecordTicket(t, ticket);
      var (t2, isNew) := SnapshotTicket(t1, record, ticket.payload);
      Ingest(t, ticket, project, mode, failure, newRun) ==
        Committed(t, SecondHalf(t2, isNew, record, ticket, project, mode, failure, newRun))
  {
  }

  lemma {:induction false} KeptTransitive(t: Tables, u: Tables, v: Tables)
    requires Kept(t, u) && Kept(u, v)
    ensures Kept(t, v)
  {
  }

  lemma {:induction false} IngestKeeps(t: Tables, ticket: Ticket, project: Option<string>, mode: string,
                                       failure: Option<string>, newRun: string)
    requires TicketInv(t)
    ensures var u := Ingest(t, ticket, project, mode, failure, newRun).tables; TicketInv(u) && Kept(t, u)
  {
    TicketHalfKeeps(t, ticket);
    var (t1, record) := RecordTicket(t, ticket);
    var (t2, isNew) := SnapshotTicket(t1, record, ticket.payload);
    SecondHalfKeeps(t2, isNew, record, ticket, project, mode, failure, newRun);
    IngestHalves(t, ticket, project, mode, failure, newRun);
    KeptTransitive(t, t2, SecondHalf(t2, isNew, record, ticket, project, mode, failure, newRun).tables);
  }

  lemma {:induction false} ClaimedRunLinked(t: Tables, run: string)
    requires TicketInv(t) && ClaimRun(t, run).result.Ok?
    ensures RunLinked(ClaimRun(t, run).tables.runs[run], t.tasks, t.snapshots)
  {
  }

  /** One run's columns and one task's columns change, the run's set snapshot and the task's record aside. */
  ghost predicate PairChange(t: Tables, u: Tables, run: string, id: string) {
    run in t.runs && id in t.tasks && run in u.runs && id in u.tasks &&
    u == t.(runs := t.runs[run := u.runs[run]], tasks := t.tasks[id := u.tasks[id]], events := u.events) &&
    u.tasks[id].record == t.tasks[id].record && u.runs[run].task == t.runs[run].task &&
    (t.runs[run].snapshot.Some? ==> u.runs[run].snapshot == t.runs[run].snapshot)
  }

  lemma {:induction false} PairKeeps(t: Tables, u: Tables, run: string, id: string)
    requires TicketInv(t) && PairChange(t, u, run, id) && RunLinked(u.runs[run], t.tasks, t.snapshots)
    ensures TicketInv(u) && Kept(t, u)
  {
    forall k, l | SameRecord(u.tasks, k, l) ensures k == l {
      assert SameRecord(t.tasks, k, l);
    }
    forall r | r in u.runs ensures RunLinked(u.runs[r], u.tasks, u.snapshots) {
      assert r != run ==> RunLinked(t.runs[r], t.tasks, t.snapshots);
    }
  }

  lemma {:induction false} ClaimChanges(t: Tables, run: string)
    requires ClaimRun(t, run).result.Ok?
    ensures run in t.runs && PairChange(t, ClaimRun(t, run).tables, run, t.runs[run].task)
  {
  }

  lemma {:induction false} ClaimKeeps(t: Tables, run: string)
    requires TicketInv(t)
    ensures var u := ClaimRun(t, run).tables; TicketInv(u) && Kept(t, u)
  {
    var r := ClaimRun(t, run);
    if r.result.Ok? {
      ClaimChanges(t, run);
      ClaimedRunLinked(t, run);
      PairKeeps(t, r.tables, run, t.runs[run].task);
    } else {
      assert r.tables == t;
    }
  }

  lemma {:induction false} RetryIsWork(t: Tables, id: string, run: string)
    ensures WorkOnly(t, RetryDelivery(t, id, run).tables)
  {
    var r := RetryDelivery(t, id, run);
    if r.result.Ok? {
      var u := t.(runs := t.runs[run := t.runs[run].(status := RunQueued)],
                  tasks := t.tasks[id := t.tasks[id].(status := Queued, result := None, failure := None)]);
      assert WorkOnly(t, u);
      LoggedIsWork(t, u, "delivery_retry_queued", id, run);
    } else {
      assert r.tables == t;
    }
  }

  lemma {:induction false} LoggedIsWork(t: Tables, u: Tables, kind: string, task: string, run: string)
    requires WorkOnly(t, u)
    ensures WorkOnly(t, Logged(u, kind, task, run))
  {
  }

  lemma {:induction false} CanceledNowIsWork(t: Tables, id: string)
    requires id in t.tasks
    ensures WorkOnly(t, CanceledNow(t, id))
  {
  }

  lemma {:induction false} CancelIsWork(t: Tables, id: string)
    ensures WorkOnly(t, CancelTask(t, id).tables)
  {
    if id in t.tasks {
      CanceledNowIsWork(t, id);
      LoggedIsWork(t, CanceledNow(t, id), "task_canceled", id, "");
      var u := t.(tasks := t.tasks[id := t.tasks[id].(status := CancelRequested)]);
      LoggedIsWork(t, u, "cancel_requested", id, "");
    }
  }

  lemma {:induction false} EndIsWork(t: Tables, run: string, status: RunStatus, taskStatus: TaskStatus, result: Option<string>,
                  failure: Option<string>, kind: string)
    ensures WorkOnly(t, EndRun(t, run, status, taskStatus, result, failure, kind).tables)
  {
  }

  lemma {:induction false} StartIsWork(t: Tables, id: string, mode: string, newRun: string)
    ensures WorkOnly(t, StartTask(t, id, mode, newRun).tables)
  {
    if id in t.tasks {
      CreateRunIsWork(t, id, mode, newRun);
    }
  }

  lemma {:induction false} OneRecoveredIsWork(t: Tables, run: string, resumed: bool)
    requires IsInterrupted(t, run)
    ensures WorkOnly(t, OneRecovered(t, run, resumed))
  {
  }

  lemma {:induction false} RecoverKeeps(t: Tables, rows: seq<string>, n: nat, frozen: set<string>)
    requires TicketInv(t) && n <= |rows|
    ensures var u := Recovering(t, rows, n, frozen).0; TicketInv(u) && Kept(t, u)
  {
    if n > 0 {
      RecoverKeeps(t, rows, n - 1, frozen);
      var u := Recovering(t, rows, n - 1, frozen).0;
      if IsInterrupted(u, rows[n - 1]) {
        var v := OneRecovered(u, rows[n - 1], rows[n - 1] in frozen);
        OneRecoveredIsWork(u, rows[n - 1], rows[n - 1] in frozen);
        WorkOnlyKeeps(u, v);
        KeptTransitive(t, u, v);
      }
    }
  }

  lemma {:induction false} TerminalIsWork(t: Tables, op: Op)
    requires Terminal(op)
    ensures WorkOnly(t, Step(t, op))
  {
    match op
    case OpComplete(run, result) => EndIsWork(t, run, RunCompleted, Completed, Some(result), None, "run_completed");
    case OpFail(run, failure) => EndIsWork(t, run, RunFailed, Failed, None, Some(failure), "run_failed");
    case OpCancelRun(run) => EndIsWork(t, run, RunCanceled, Canceled, None, None, "run_canceled");
  }

  lemma {:induction false} StageIsWork(t: Tables, op: Op)
    requires op.OpStartStage? || op.OpFinishStage?
    ensures WorkOnly(t, Step(t, op))
  {
  }

  /** No call ever breaks the ticket invariant, loses a row, or sets a run's snapshot a second time. */
  lemma {:induction false} StepKeepsTickets(t: Tables, op: Op)
    requires TicketInv(t)
    ensures TicketInv(Step(t, op)) && Kept(t, Step(t, op))
  {
    match op
    case OpIngest(ticket, project, mode, failure, newRun) => IngestKeeps(t, ticket, project, mode, failure, newRun);
    case OpClaim(run) => ClaimKeeps(t, run);
    case OpRecover(rows, frozen) => RecoverKeeps(t, rows, |rows|, frozen);
    case OpStart(id, mode, newRun) => StartIsWork(t, id, mode, newRun); WorkOnlyKeeps(t, Step(t, op));
    case OpRetry(id, run) => RetryIsWork(t, id, run); WorkOnlyKeeps(t, Step(t, op));
    case OpCancelTask(id) => CancelIsWork(t, id); WorkOnlyKeeps(t, Step(t, op));
    case _ =>
      if Terminal(op) {
        TerminalIsWork(t, op);
      } else {
        StageIsWork(t, op);
      }
      WorkOnlyKeeps(t, Step(t, op));
  }

  lemma {:induction false} RunKeepsTickets(t: Tables, ops: seq<Op>)
    requires TicketInv(t)
    ensures TicketInv(Run(t, ops)) && Kept(t, Run(t, ops))
    decreases |ops|
  {
    if ops != [] {
      StepKeepsTickets(t, ops[0]);
      RunKeepsTickets(Step(t, ops[0]), ops[1..]);
      KeptTransitive(t, Step(t, ops[0]), Run(t, ops));
    }
  }

  /**
   Across any further calls (ingests, claims, retries, recoveries), a run keeps the ticket snapshot it
   was first claimed with, that snapshot keeps its content, and it belongs to the run's own ticket.
   */
  lemma {:induction false} RunSnapshotIsWriteOnce(first: seq<Op>, more: seq<Op>, r: string)
    requires r in Run(EMPTY, first).runs && Run(EMPTY, first).runs[r].snapshot.Some?
    ensures
      var t, u := Run(EMPTY, first), Run(EMPTY, first + more);
      var s := t.runs[r].snapshot.value;
      r in u.runs && u.runs[r].snapshot == Some(s) && s in t.snapshots && s in u.snapshots &&
      u.snapshots[s] == t.snapshots[s] && u.runs[r].task in u.tasks &&
      u.snapshots[s].record == u.tasks[u.runs[r].task].record
  {
    RunKeepsTickets(EMPTY, first);
    RunOfConcat(EMPTY, first, more);
    RunKeepsTickets(Run(EMPTY, first), more);
  }

  lemma {:induction false} ClaimOutcomeIn(t: Tables, run: string)
    requires TicketInv(t)
    ensures ClaimRun(t, run).result ==
      if run !in t.runs then Err(UnknownRun) else if !t.runs[run].status.RunQueued? then Err(WrongState) else Ok(())
  {
  }

  /** Hence a claim fails only for an unknown run or one that is not queued. */
  lemma {:induction false} ClaimOutcome(ops: seq<Op>, run: string)
    ensures
      var t := Run(EMPTY, ops);
      ClaimRun(t, run).result ==
        if run !in t.runs then Err(UnknownRun)
        else if !t.runs[run].status.RunQueued? then Err(WrongState)
        else Ok(())
  {
    RunKeepsTickets(EMPTY, ops);
    ClaimOutcomeIn(Run(EMPTY, ops), run);
  }

  /** In every reachable state a ticket has one record and one task, and a content one snapshot. */
  lemma {:induction false} OneRowEach(ops: seq<Op>, i: nat, j: nat, s: nat, u: nat, k: string, l: string)
    ensures
      var t := Run(EMPTY, ops);
      (SameTicket(t.records, i, j) ==> i == j) &&
      (SameContent(t.snapshots, s, u) ==> s == u) &&
      (SameRecord(t.tasks, k, l) ==> k == l)
  {
    RunKeepsTickets(EMPTY, ops);
  }

  // ---------- the same ticket again ----------

  /** The tables hold exactly what an ingest of the ticket writes about it. */
  ghost predicate Settled(t: Tables, i: nat, ticket: Ticket) {
    IsRecord(t, i, ticket.provider, ticket.external) &&
    t.records[i].title == ticket.title && t.records[i].eligible == ticket.eligible && t.records[i].version == ticket.version &&
    t.records[i].snapshot.Some? && IsSnapshot(t, t.records[i].snapshot.value, i, ticket.payload)
  }

  lemma {:induction false} IngestSettles(t: Tables, ticket: Ticket)
    requires TicketInv(t)
    ensures var (t1, i) := RecordTicket(t, ticket); i in t1.records && Settled(SnapshotTicket(t1, i, ticket.payload).0, i, ticket)
  {
    RecordSettles(t, ticket);
    var (t1, i) := RecordTicket(t, ticket);
    SnapshotSettles(t1, i, ticket);
  }

  lemma {:induction false} RecordSettles(t: Tables, ticket: Ticket)
    ensures var (u, i) := RecordTicket(t, ticket);
      IsRecord(u, i, ticket.provider, ticket.external) && u.records[i].title == ticket.title &&
      u.records[i].eligible == ticket.eligible && u.records[i].version == ticket.version
  {
  }

  lemma {:induction false} SnapshotSettles(t: Tables, i: nat, ticket: Ticket)
    requires IsRecord(t, i, ticket.provider, ticket.external) && t.records[i].title == ticket.title
    requires t.records[i].eligible == ticket.eligible && t.records[i].version == ticket.version
    ensures Settled(SnapshotTicket(t, i, ticket.payload).0, i, ticket)
  {
  }

  lemma {:induction false} SettledIsFixed(t: Tables, i: nat, ticket: Ticket)
    requires TicketInv(t) && Settled(t, i, ticket)
    ensures RecordTicket(t, ticket) == (t, i) && SnapshotTicket(t, i, ticket.payload) == (t, false)
  {
    var found := FindRecord(t, ticket.provider, ticket.external);
    assert found.Some? by {
      assert IsRecord(t, i, ticket.provider, ticket.external);
    }
    assert SameTicket(t.records, found.value, i);
    var snap := FindSnapshot(t, i, ticket.payload);
    assert snap.Some? by {
      assert IsSnapshot(t, t.records[i].snapshot.value, i, ticket.payload);
    }
    assert SameContent(t.snapshots, snap.value, t.records[i].snapshot.value);
    assert t.records[i := t.records[i]] == t.records;
  }

  /** What the second half of an ingest leaves in the task row. */
  ghost predicate Routed(k: Task, ticket: Ticket, project: Option<string>, mode: string, failure: Option<string>) {
    !(k.project == UNBOUND && project.Some?) || !Resting(k.status) ||
    (k.project == Binding(project) && k.status == FirstStatus(ticket, mode, failure) && k.failure == failure && !k.status.Queued?)
  }

  lemma {:induction false} KnownRoutes(t: Tables, id: string, isNew: bool, ticket: Ticket, project: Option<string>, mode: string,
                    failure: Option<string>, newRun: string)
    requires id in t.tasks
    ensures var u := IngestKnown(t, id, isNew, ticket, project, mode, failure, newRun).tables;
      Routed(u.tasks[id], ticket, project, mode, failure) || IngestKnown(t, id, isNew, ticket, project, mode, failure, newRun).result.Err?
  {
  }

  lemma {:induction false} NewRoutes(t: Tables, record: nat, ticket: Ticket, project: Option<string>, mode: string,
                  failure: Option<string>, newRun: string)
    requires IngestNew(t, record, ticket, project, mode, failure, newRun).result.Ok?
    ensures var u := IngestNew(t, record, ticket, project, mode, failure, newRun).tables;
      IsTaskOf(u, TaskIdOf(ticket), record) && Routed(u.tasks[TaskIdOf(ticket)], ticket, project, mode, failure)
  {
  }

  lemma {:induction false} RoutedIsFixed(t: Tables, id: string, ticket: Ticket, project: Option<string>, mode: string,
                      failure: Option<string>, newRun: string)
    requires id in t.tasks && Routed(t.tasks[id], ticket, project, mode, failure)
    ensures IngestKnown(t, id, false, ticket, project, mode, failure, newRun) ==
      Reply(Logged(t, "ticket_updated", id, ""), Ok(()))
  {
  }

  /** The second half leaves the ticket settled and its one task routed. */
  lemma {:induction false} TaskAfter(t: Tables, isNew: bool, record: nat, ticket: Ticket, project: Option<string>, mode: string,
                  failure: Option<string>, newRun: string) returns (id: string)
    requires Settled(t, record, ticket)
    requires SecondHalf(t, isNew, record, ticket, project, mode, failure, newRun).result.Ok?
    ensures var u := SecondHalf(t, isNew, record, ticket, project, mode, failure, newRun).tables;
      IsTaskOf(u, id, record) && Routed(u.tasks[id], ticket, project, mode, failure) && Settled(u, record, ticket)
  {
    match FindTask(t, record)
    case None =>
      id := TaskIdOf(ticket);
      NewRoutes(t, record, ticket, project, mode, failure, newRun);
    case Some(k) =>
      id := k;
      KnownRoutes(t, id, isNew, ticket, project, mode, failure, newRun);
      IngestKnownIsWork(t, id, isNew, ticket, project, mode, failure, newRun);
  }

  lemma {:induction false} SettledAgain(u: Tables, record: nat, id: string, ticket: Ticket, project: Option<string>, mode: string,
                     failure: Option<string>, otherRun: string)
    requires TicketInv(u) && Settled(u, record, ticket) && IsTaskOf(u, id, record)
    requires Routed(u.tasks[id], ticket, project, mode, failure)
    ensures Ingest(u, ticket, project, mode, failure, otherRun) == Reply(Logged(u, "ticket_updated", id, ""), Ok(()))
  {
    SettledIsFixed(u, record, ticket);
    var k := FindTask(u, record);
    assert k.Some? by {
      assert IsTaskOf(u, id, record);
    }
    assert SameRecord(u.tasks, k.value, id);
    RoutedIsFixed(u, id, ticket, project, mode, failure, otherRun);
    IngestHalves(u, ticket, project, mode, failure, otherRun);
  }

  /** Ingesting the same ticket with the same arguments again adds one event and changes nothing else. */
  lemma {:induction false} RepeatedIngestOnlyLogs(t: Tables, ticket: Ticket, project: Option<string>, mode: string, failure: Option<string>,
                               newRun: string, otherRun: string)
    requires TicketInv(t)
    requires Ingest(t, ticket, project, mode, failure, newRun).result.Ok?
    ensures
      var u := Ingest(t, ticket, project, mode, failure, newRun).tables;
      exists id, record :: IsTaskOf(u, id, record) && IsRecord(u, record, ticket.provider, ticket.external) &&
        Ingest(u, ticket, project, mode, failure, otherRun) == Reply(Logged(u, "ticket_updated", id, ""), Ok(()))
  {
    var (t1, record) := RecordTicket(t, ticket);
    var (t2, isNew) := SnapshotTicket(t1, record, ticket.payload);
    IngestHalves(t, ticket, project, mode, failure, newRun);
    IngestSettles(t, ticket);
    IngestKeeps(t, ticket, project, mode, failure, newRun);
    var u := Ingest(t, ticket, project, mode, failure, newRun).tables;
    var id := TaskAfter(t2, isNew, record, ticket, project, mode, failure, newRun);
    SettledAgain(u, record, id, ticket, project, mode, failure, otherRun);
  }
}
