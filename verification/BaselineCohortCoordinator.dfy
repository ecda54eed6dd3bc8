/**
 `BaselineCohortCoordinator`: one task run's routine over the shared store.  Between any two of its
 own store calls other task runs may make any calls of theirs, and every call carries the time its
 own caller's clock shows.  A polling loop runs over a finite script of ticks; when the script ends
 the routine is still waiting.
 */
module BaselineCohortCoordinators {
  import opened Prelude
  import opened BaselineCohorts
  import opened BaselineCohortAgreement
  import opened BaselineCohortWindows
  import opened BaselineCohortLaws
  import opened BaselineCohortStores

  /** What others do before the routine's next step, and the time of that step. */
  datatype Pause = Pause(others: seq<Op>, now: int)

  /** One turn of a polling loop: what happened meanwhile, and what the checks answer. */
  datatype Tick = Tick(pause: Pause, canceled: bool, leaseBusy: bool)

  datatype Resolver = Gives(raw: string) | RaisesError(summary: string) | RaisesCanceled

  /** What the environment does while the leader holds the refresh lease. */
  datatype Held = Held(first: Pause, resolver: Resolver, leaseLost: bool, second: Pause, third: Pause)

  datatype LeaderEnd = LeaderReturned | LeaderCanceled | LeaderRaised(error: CohortError) | ResolverCanceled | StillPolling

  datatype WaitEnd =
    | Got(cohortId: string, revision: string)
    | ResolutionFailed(failure: string)
    | WaitCanceled
    | StillWaiting

  /** How `resolve` ended: refused at joining, left the leader's routine by an exception, or waited. */
  datatype RunEnd = JoinRefused(refusal: CohortError) | LedOut(lead: LeaderEnd) | Waited(cohortId: string, wait: WaitEnd)

  const CANCEL_FAILURE := "baseline_leader_canceled"
  const RESOLUTION_FAILURE := "baseline_resolution_failed: "
  const EMPTY_REVISION := "source baseline resolver returned an empty revision"
  const LEASE_LOST := "baseline refresh lease was lost during resolution"

  /** What the store's refusal of a revision says. */
  function RefusalText(e: CohortError): string {
    match e
    case RevisionImmutable => "baseline cohort revision is immutable"
    case AlreadyFailed => "failed baseline cohort cannot be resolved"
    case _ => "baseline cohort cannot be resolved"
  }

  ghost predicate DecidedIn(t: Tables, id: string) {
    id in t.cohorts && Decided(t.cohorts[id])
  }

  /** The waiting ended with an outcome. */
  predicate Finished(end: WaitEnd) { end.Got? || end.ResolutionFailed? }

  /** The outcome that was reported is the cohort's outcome in these tables. */
  ghost predicate Reports(t: Tables, id: string, end: WaitEnd) {
    (end.Got? ==> end.cohortId == id && id in t.cohorts && t.cohorts[id].revision == Some(end.revision)) &&
    (end.ResolutionFailed? ==> id in t.cohorts && t.cohorts[id].failure == Some(end.failure))
  }

  // ---------- what the leader records ----------

  /** The resolver gave a text that is not blank, and the refresh lease was kept meanwhile. */
  predicate Accepted(held: Held) { held.resolver.Gives? && Strip(held.resolver.raw) != "" && !held.leaseLost }

  /** The error that keeps the resolver's answer from being recorded. */
  function Summary(held: Held): string {
    if held.resolver.RaisesError? then held.resolver.summary
    else if held.resolver.Gives? && Strip(held.resolver.raw) == "" then EMPTY_REVISION
    else LEASE_LOST
  }

  /** The outcome of a cohort: its revision and its failure. */
  ghost predicate OutcomeIs(t: Tables, id: string, revision: Option<string>, failure: Option<string>) {
    id in t.cohorts && t.cohorts[id].revision == revision && t.cohorts[id].failure == failure
  }

  ghost predicate LedBy(t: Tables, id: string, task: string) { id in t.cohorts && t.cohorts[id].leader == task }

  ghost predicate Undecided(t: Tables, id: string) { OutcomeIs(t, id, None, None) }

  /** The stripped revision, or the resolution failure. */
  ghost predicate Recorded(t: Tables, id: string, held: Held) {
    if Accepted(held) then OutcomeIs(t, id, Some(Strip(held.resolver.raw)), None)
    else OutcomeIs(t, id, None, Some(RESOLUTION_FAILURE + Summary(held)))
  }

  /** Nobody else acts in the leader's name on this cohort. */
  ghost predicate Quiet(others: seq<Op>, id: string, task: string) {
    forall op | op in others :: !((op.OpResolve? || op.OpFail?) && op.id == id && op.leader == task)
  }

  ghost predicate QuietHeld(held: Held, id: string, task: string) {
    Quiet(held.first.others, id, task) && Quiet(held.second.others, id, task) && Quiet(held.third.others, id, task)
  }

  ghost predicate QuietTicks(ticks: seq<Tick>, id: string, task: string) {
    forall i | 0 <= i < |ticks| :: Quiet(ticks[i].pause.others, id, task)
  }

  datatype Polled = Canceled | Acquired | Polling

  /** How the polling for the refresh lease ends: the cancellation is checked first. */
  function PollingEnd(waits: seq<Tick>): Polled {
    if waits == [] then Polling
    else if waits[0].canceled then Canceled
    else if !waits[0].leaseBusy then Acquired
    else PollingEnd(waits[1..])
  }

  lemma {:induction false} QuietStep(t: Tables, op: Op, id: string, task: string)
    requires CoreInv(t) && Undecided(t, id) && t.cohorts[id].leader == task && Quiet([op], id, task)
    ensures Undecided(Step(t, op), id) && Step(t, op).cohorts[id].leader == task
  {
    StepKeepsCore(t, op);
    OnlyLeaderDecides(t, op, id);
    assert op in [op];
    assert CohortEvolves(t.cohorts[id], Step(t, op).cohorts[id]);
  }

  /** After this join the task leads this undecided cohort: a new one, or the one it led before. */
  ghost predicate LeadsNext(t: Tables, op: Op, id: string) {
    op.OpJoin? && (op.sourceType == "git" || op.sourceType == "svn") && op.window >= 0 &&
    ((Joins(t, op) && op.id == id && id !in t.cohorts && !(exists o :: CanJoin(t, op, o))) ||
     (LedBy(t, id, op.task) && Undecided(t, id) && t.cohorts[id].key == op.key))
  }

  lemma {:induction false} NewLeaderJoins(t: Tables, op: Op, id: string)
    requires CoreInv(t) && LeadsNext(t, op, id) && id !in t.cohorts
    ensures var r := Apply(t, op);
      r.result.Ok? && r.result.value.cohortId == id && r.result.value.role.Leader? && r.result.value.cohort.revision.None? &&
      LedBy(r.tables, id, op.task) && Undecided(r.tables, id)
  {
    var u := Advanced(t, op.now);
    MembershipAdvances(t.cohorts, u.cohorts, t.members, op.task);
    ChoiceIsYoungest(u, op);
    forall o ensures CanJoin(t, op, o) <==> CanJoin(u, op, o) {
    }
  }

  lemma {:induction false} OldLeaderJoins(t: Tables, op: Op, id: string)
    requires CoreInv(t) && LeadsNext(t, op, id) && id in t.cohorts
    ensures var r := Apply(t, op);
      r.result.Ok? && r.result.value.cohortId == id && r.result.value.role.Leader? && r.result.value.cohort.revision.None? &&
      LedBy(r.tables, id, op.task) && Undecided(r.tables, id)
  {
    var u := Advanced(t, op.now);
    AdvancedKeepsCore(t, op.now);
    LeaderBelongs(u, id);
    SelectFinds(u, op.task);
    var i :| 0 <= i < |u.members| && u.members[i].task == op.task && u.members[i].cohort == id;
    assert MemberCore(u.cohorts, u.members[i]);
  }

  /** What a task reports that leads an undecided cohort while nobody else acts in its name. */
  ghost predicate LeaderReports(end: RunEnd, id: string, waits: seq<Tick>, held: Held, ticks: seq<Tick>) {
    match PollingEnd(waits)
    case Polling => end == LedOut(StillPolling)
    case Canceled => end == LedOut(LeaderCanceled)
    case Acquired =>
      if held.resolver.RaisesCanceled? then end == LedOut(ResolverCanceled)
      else end.Waited? && end.cohortId == id && (ticks != [] && !ticks[0].canceled ==>
        end.wait == if Accepted(held) then Got(id, Strip(held.resolver.raw)) else ResolutionFailed(RESOLUTION_FAILURE + Summary(held)))
  }

  // ---------- the routines agree ----------

  lemma {:induction false} LaterReportIsTheSame(earlier: seq<Op>, later: seq<Op>, id: string, end1: WaitEnd, end2: WaitEnd)
    requires earlier <= later && Finished(end1) && Finished(end2)
    requires Reports(Run(EMPTY, earlier), id, end1) && Reports(Run(EMPTY, later), id, end2)
    ensures end1 == end2
  {
    LaterEvolves(earlier, later);
    DecidedStays(Run(EMPTY, earlier).cohorts[id], Run(EMPTY, later).cohorts[id]);
  }

  /**
   Two routines of one cohort that end with an outcome, at any two points of the store's history and
   in either order, return the same: the same revision, or the same failure.
   */
  lemma {:induction false} RoutinesAgree(history: seq<Op>, n1: nat, end1: RunEnd, n2: nat, end2: RunEnd)
    requires n1 <= |history| && n2 <= |history|
    requires end1.Waited? && end2.Waited? && end1.cohortId == end2.cohortId && Finished(end1.wait) && Finished(end2.wait)
    requires Reports(Run(EMPTY, history[..n1]), end1.cohortId, end1.wait)
    requires Reports(Run(EMPTY, history[..n2]), end2.cohortId, end2.wait)
    ensures end1 == end2
  {
    if n1 <= n2 {
      assert history[..n1] <= history[..n2];
      LaterReportIsTheSame(history[..n1], history[..n2], end1.cohortId, end1.wait, end2.wait);
    } else {
      assert history[..n2] <= history[..n1];
      LaterReportIsTheSame(history[..n2], history[..n1], end1.cohortId, end2.wait, end1.wait);
    }
  }

  // ---------- single calls ----------

  lemma {:induction false} BelongsStays(t: Tables, u: Tables, task: string, id: string)
    requires Evolves(t, u) && BelongsTo(t, task, id)
    ensures BelongsTo(u, task, id)
  {
    var i :| 0 <= i < |t.members| && t.members[i].task == task && t.members[i].cohort == id;
    assert u.members[i] == t.members[i];
  }

  /** A member's own read succeeds and shows its cohort as stored. */
  lemma {:induction false} ReadOfMember(t: Tables, task: string, id: string, now: int)
    requires CoreInv(t) && BelongsTo(t, task, id)
    ensures var r := GetForTask(t, task, now);
      r.result.Ok? && r.result.value.cohortId == id && id in r.tables.cohorts && r.result.value.cohort == r.tables.cohorts[id]
  {
    GetAnswers(t, task, now);
    OneCohort(t, task);
  }

  /**
   Whatever the leader's own `fail` answers the cohort is decided afterwards; an error means a revision,
   and the failure of an undecided cohort is the given one.
   */
  lemma {:induction false} FailDecides(t: Tables, id: string, leader: string, failure: string, now: int)
    requires CoreInv(t) && id in t.cohorts && t.cohorts[id].leader == leader
    ensures var r := Fail(t, id, leader, failure, now);
      DecidedIn(r.tables, id) && (r.result.Ok? <==> r.tables.cohorts[id].failure.Some?) &&
      (Undecided(t, id) ==> OutcomeIs(r.tables, id, None, Some(failure)))
  {
    FailStores(t, id, leader, failure, now);
    assert CohortCore(t.cohorts[id]);
  }

  lemma {:induction false} StripTwice(raw: string)
    ensures Strip(Strip(raw)) == Strip(raw)
  {
    var _, _ := StripIs(raw);
    TrimStays(Strip(raw));
  }

  /** A successful `resolve` decides the cohort for the stripped revision; an undecided cohort accepts its leader's. */
  lemma {:induction false} ResolveDecides(t: Tables, id: string, leader: string, raw: string, now: int)
    requires CoreInv(t)
    ensures var r := Resolve(t, id, leader, raw, now);
      (r.result.Ok? ==> DecidedIn(r.tables, id) && r.tables.cohorts[id].revision == Some(Strip(raw))) &&
      (Undecided(t, id) && t.cohorts[id].leader == leader && Strip(raw) != "" ==>
        r.result.Ok? && OutcomeIs(r.tables, id, Some(Strip(raw)), None))
  {
    ResolveExactlyWhen(t, id, leader, raw, now);
    ResolveStores(t, id, leader, raw, now);
    assert id in t.cohorts ==> CohortCore(t.cohorts[id]);
  }

  /** A successful join makes the caller a member, shows the row as stored, and says whether it leads. */
  lemma {:induction false} JoinedMember(t: Tables, op: Op)
    requires CoreInv(t) && op.OpJoin?
    ensures var r := Apply(t, op);
      r.result.Ok? ==>
        BelongsTo(r.tables, op.task, r.result.value.cohortId) && r.result.value.cohortId in r.tables.cohorts &&
        r.result.value.cohort == r.tables.cohorts[r.result.value.cohortId] &&
        (r.result.value.role.Leader? <==> r.result.value.cohort.leader == op.task)
  {
    JoinAnswers(t, op);
    StepKeepsCore(t, op);
    var r := Apply(t, op);
    if r.result.Ok? && NewMember(t, r.tables, r.result.value, op.now) {
      var m := r.tables.members[|t.members|];
      assert m == Member(r.result.value.cohortId, op.task, r.result.value.role, op.now) && MemberCore(r.tables.cohorts, m);
    }
  }

  // ---------- the routine ----------

  class BaselineCohortCoordinator {
    const store: BaselineCohortStore
    const windowMs: nat

    constructor (store: BaselineCohortStore, windowMs: nat)
      ensures this.store == store && this.windowMs == windowMs
    {
      this.store, this.windowMs := store, windowMs;
    }

    /** Other parties' calls, one transaction after another; an undecided cohort waits for its leader. */
    method Interfere(others: seq<Op>, ghost id: string, ghost task: string)
      requires store.Valid()
      modifies store
      ensures store.Valid() && old(store.log) <= store.log
      ensures old(LedBy(store.Db(), id, task)) ==> LedBy(store.Db(), id, task)
      ensures old(LedBy(store.Db(), id, task) && Undecided(store.Db(), id)) && Quiet(others, id, task) ==> Undecided(store.Db(), id)
    {
      for i := 0 to |others|
        invariant store.Valid() && old(store.log) <= store.log
        invariant old(LedBy(store.Db(), id, task)) ==> LedBy(store.Db(), id, task)
        invariant old(LedBy(store.Db(), id, task) && Undecided(store.Db(), id)) && Quiet(others, id, task) ==> Undecided(store.Db(), id)
      {
        OneOther(others[i], id, task);
      }
    }

    method OneOther(op: Op, ghost id: string, ghost task: string)
      requires store.Valid()
      modifies store
      ensures store.Valid() && old(store.log) <= store.log
      ensures old(LedBy(store.Db(), id, task)) ==> LedBy(store.Db(), id, task)
      ensures old(LedBy(store.Db(), id, task) && Undecided(store.Db(), id)) && Quiet([op], id, task) ==> Undecided(store.Db(), id)
    {
      var _, made := store.Perform(op);
      LaterEvolves(old(store.log), store.log);
      if old(LedBy(store.Db(), id, task)) {
        assert CohortEvolves(old(store.Db()).cohorts[id], store.Db().cohorts[id]);
        if old(Undecided(store.Db(), id)) && Quiet([op], id, task) {
          assert Quiet([made], id, task) by {
            assert op in [op];
          }
          QuietStep(old(store.Db()), made, id, task);
        }
      }
    }

    method Fail(id: string, leader: string, failure: string, now: int) returns (r: Result<Membership, CohortError>)
      requires store.Valid()
      requires id in store.cohorts && store.cohorts[id].leader == leader
      modifies store
      ensures store.Valid() && old(store.log) <= store.log
      ensures DecidedIn(store.Db(), id) && (r.Ok? <==> store.cohorts[id].failure.Some?)
      ensures old(Undecided(store.Db(), id)) ==> OutcomeIs(store.Db(), id, None, Some(failure))
    {
      FailDecides(store.Db(), id, leader, failure, now);
      r := store.Fail(id, leader, failure, now);
    }

    /**
     The leader's routine.  However it ends, other than by still polling for the refresh lease or by
     a resolver that raises the cancellation itself, the cohort is decided: with a failure when it
     was canceled, and already with a revision when the store refused the failure.  When nobody else
     acts as the leader, an undecided cohort gets the resolver's stripped revision exactly when that
     is accepted, and otherwise the failure that says why not.
     */
    method ResolveAsLeader(id: string, task: string, waits: seq<Tick>, held: Held) returns (end: LeaderEnd)
      requires store.Valid()
      requires id in store.cohorts && store.cohorts[id].leader == task
      modifies store
      ensures store.Valid() && old(store.log) <= store.log
      ensures end.StillPolling? || end.ResolverCanceled? || DecidedIn(store.Db(), id)
      ensures end.LeaderCanceled? ==> store.cohorts[id].failure.Some?
      ensures end.LeaderRaised? ==> store.cohorts[id].revision.Some?
      ensures end.ResolverCanceled? ==> held.resolver.RaisesCanceled?
      ensures end.StillPolling? <==> PollingEnd(waits).Polling?
      ensures old(Undecided(store.Db(), id)) && QuietTicks(waits, id, task) && QuietHeld(held, id, task) ==>
        match PollingEnd(waits)
        case Polling => Undecided(store.Db(), id)
        case Canceled => end.LeaderCanceled? && OutcomeIs(store.Db(), id, None, Some(CANCEL_FAILURE))
        case Acquired =>
          if held.resolver.RaisesCanceled? then end.ResolverCanceled? && Undecided(store.Db(), id)
          else end.LeaderReturned? && Recorded(store.Db(), id, held)
    {
      var acquired := false;
      var i := 0;
      assert waits[0..] == waits;
      while i < |waits| && !acquired
        invariant 0 <= i <= |waits|
        invariant store.Valid() && old(store.log) <= store.log && LedBy(store.Db(), id, task)
        invariant PollingEnd(waits) == if acquired then Acquired else PollingEnd(waits[i..])
        invariant old(Undecided(store.Db(), id)) && QuietTicks(waits, id, task) ==> Undecided(store.Db(), id)
      {
        assert waits[i..][1..] == waits[i + 1..];
        Interfere(waits[i].pause.others, id, task);
        if waits[i].canceled {
          var r := Fail(id, task, CANCEL_FAILURE, waits[i].pause.now);
          end := if r.Ok? then LeaderCanceled else LeaderRaised(r.error);
          return;
        }
        acquired := !waits[i].leaseBusy;
        i := i + 1;
      }
      if !acquired {
        return StillPolling;
      }
      end := ResolveHoldingLease(id, task, held);
    }

    /** The part under the refresh lease: re-read, resolve, record, or record the failure; a revision it finds stays. */
    method ResolveHoldingLease(id: string, task: string, held: Held) returns (end: LeaderEnd)
      requires store.Valid()
      requires id in store.cohorts && store.cohorts[id].leader == task
      modifies store
      ensures store.Valid() && old(store.log) <= store.log
      ensures !end.StillPolling? && !end.LeaderCanceled? && (end.ResolverCanceled? ==> held.resolver.RaisesCanceled?)
      ensures end.ResolverCanceled? || DecidedIn(store.Db(), id)
      ensures end.LeaderRaised? ==> store.cohorts[id].revision.Some?
      ensures old(store.cohorts[id].revision).Some? ==>
        end.LeaderReturned? && id in store.cohorts && store.cohorts[id].revision == old(store.cohorts[id].revision)
      ensures old(Undecided(store.Db(), id)) && QuietHeld(held, id, task) ==>
        if held.resolver.RaisesCanceled? then end.ResolverCanceled? && Undecided(store.Db(), id)
        else end.LeaderReturned? && Recorded(store.Db(), id, held)
    {
      Interfere(held.first.others, id, task);
      ghost var t := store.Db();
      LaterEvolves(old(store.log), store.log);
      assert CohortEvolves(old(store.Db()).cohorts[id], t.cohorts[id]);
      var latest := ReRead(id, task, held.first.now);
      if latest.cohort.revision.Some? {
        return LeaderReturned;
      }
      if held.resolver.RaisesCanceled? {
        return ResolverCanceled;
      }
      end := RecordOutcome(id, task, held);
    }

    /** The leader's own read: it succeeds, shows the row as stored, and changes no outcome. */
    method ReRead(id: string, task: string, now: int) returns (m: Membership)
      requires store.Valid()
      requires id in store.cohorts && store.cohorts[id].leader == task
      modifies store
      ensures store.Valid() && old(store.log) <= store.log && id in store.cohorts && store.cohorts[id].leader == task
      ensures m.cohort == store.cohorts[id] && SameOutcome(old(store.Db()).cohorts[id], store.cohorts[id])
    {
      LeaderBelongs(store.Db(), id);
      ReadOfMember(store.Db(), task, id, now);
      OnlyLeaderDecides(store.Db(), OpGet(task, now), id);
      var r := store.GetForTask(task, now);
      LaterEvolves(old(store.log), store.log);
      assert CohortEvolves(old(store.Db()).cohorts[id], store.Db().cohorts[id]);
      return r.value;
    }

    /** The resolver's answer is recorded, or the failure of any of these steps is. */
    method RecordOutcome(id: string, task: string, held: Held) returns (end: LeaderEnd)
      requires store.Valid() && !held.resolver.RaisesCanceled?
      requires id in store.cohorts && store.cohorts[id].leader == task
      modifies store
      ensures store.Valid() && old(store.log) <= store.log
      ensures (end.LeaderReturned? || end.LeaderRaised?) && DecidedIn(store.Db(), id)
      ensures end.LeaderRaised? ==> store.cohorts[id].revision.Some?
      ensures old(Undecided(store.Db(), id)) && Quiet(held.second.others, id, task) && Quiet(held.third.others, id, task) ==>
        end.LeaderReturned? && Recorded(store.Db(), id, held)
    {
      Interfere(held.second.others, id, task);
      var summary := Summary(held);
      if held.resolver.Gives? && Strip(held.resolver.raw) != "" && !held.leaseLost {
        ghost var t := store.Db();
        var revision := Strip(held.resolver.raw);
        StripTwice(held.resolver.raw);
        ResolveDecides(t, id, task, revision, held.second.now);
        var r := store.Resolve(id, task, revision, held.second.now);
        if r.Ok? {
          return LeaderReturned;
        }
        summary := RefusalText(r.error);
        LaterEvolves(old(store.log), store.log);
        assert CohortEvolves(old(store.Db()).cohorts[id], store.Db().cohorts[id]);
      }
      Interfere(held.third.others, id, task);
      var failed := Fail(id, task, RESOLUTION_FAILURE + summary, held.third.now);
      end := if failed.Ok? then LeaderReturned else LeaderRaised(failed.error);
    }

    /**
     Every member waits here; what it reports is what the store holds for its cohort, and a decided
     cohort is reported at the first turn that is not canceled.
     */
    method WaitForResolution(task: string, ghost id: string, ticks: seq<Tick>) returns (end: WaitEnd)
      requires store.Valid() && BelongsTo(store.Db(), task, id)
      modifies store
      ensures store.Valid() && old(store.log) <= store.log
      ensures Reports(store.Db(), id, end)
      ensures DecidedIn(old(store.Db()), id) && ticks != [] && !ticks[0].canceled ==> Finished(end)
    {
      for i := 0 to |ticks|
        invariant store.Valid() && old(store.log) <= store.log
        invariant i > 0 && DecidedIn(old(store.Db()), id) ==> ticks[0].canceled
      {
        Interfere(ticks[i].pause.others, id, task);
        if ticks[i].canceled {
          return WaitCanceled;
        }
        LaterEvolves(old(store.log), store.log);
        BelongsStays(old(store.Db()), store.Db(), task, id);
        ReadOfMember(store.Db(), task, id, ticks[i].pause.now);
        var m := store.GetForTask(task, ticks[i].pause.now);
        if m.value.cohort.failure.Some? {
          return ResolutionFailed(m.value.cohort.failure.value);
        }
        if m.value.cohort.revision.Some? {
          return Got(m.value.cohortId, m.value.cohort.revision.value);
        }
        LaterEvolves(old(store.log), store.log);
      }
      end := StillWaiting;
    }

    /**
     A task run's whole routine: join, decide the cohort when leading it, wait.  What it returns is
     what its cohort holds, so `RoutinesAgree` applies to it; a leader that gets to waiting never waits,
     and what a leader gets is its own resolver's answer.
     */
    method Resolve(key: string, sourceType: string, task: string, newId: string, now: int, waits: seq<Tick>, held: Held,
                   ticks: seq<Tick>) returns (end: RunEnd)
      requires store.Valid()
      modifies store
      ensures store.Valid() && old(store.log) <= store.log && store.Db() == Run(EMPTY, store.log)
      ensures end.LedOut? ==> !end.lead.LeaderReturned?
      ensures end.Waited? ==> BelongsTo(store.Db(), task, end.cohortId) && Reports(store.Db(), end.cohortId, end.wait)
      ensures end.Waited? ==> end.cohortId in store.cohorts
      ensures end.Waited? && store.cohorts[end.cohortId].leader == task && ticks != [] && !ticks[0].canceled ==> Finished(end.wait)
      ensures forall id | old(LeadsNext(store.Db(), OpJoin(key, sourceType, task, windowMs, newId, "", now), id)) &&
        QuietTicks(waits, id, task) && QuietHeld(held, id, task) :: LeaderReports(end, id, waits, held, ticks)
    {
      ghost var t := store.Db();
      ghost var op := OpJoin(key, sourceType, task, windowMs, newId, "", now);
      var r, tie := store.JoinOrCreate(key, sourceType, task, windowMs, newId, now);
      JoinedMember(t, op.(tie := tie));
      JoinedLeader(t, op, tie);
      if r.Err? {
        return JoinRefused(r.error);
      }
      end := LeadAndWait(r.value, task, waits, held, ticks);
    }

    /** The part after the join. */
    method LeadAndWait(m: Membership, task: string, waits: seq<Tick>, held: Held, ticks: seq<Tick>) returns (end: RunEnd)
      requires store.Valid() && BelongsTo(store.Db(), task, m.cohortId) && m.cohortId in store.cohorts
      requires m.cohort == store.cohorts[m.cohortId] && (m.role.Leader? <==> m.cohort.leader == task)
      modifies store
      ensures store.Valid() && old(store.log) <= store.log
      ensures end.LedOut? ==> !end.lead.LeaderReturned?
      ensures end.Waited? ==> BelongsTo(store.Db(), task, end.cohortId) && Reports(store.Db(), end.cohortId, end.wait)
      ensures end.Waited? ==> end.cohortId in store.cohorts
      ensures end.Waited? && store.cohorts[end.cohortId].leader == task && ticks != [] && !ticks[0].canceled ==> Finished(end.wait)
      ensures (old(Undecided(store.Db(), m.cohortId)) && m.role.Leader? && QuietTicks(waits, m.cohortId, task) &&
               QuietHeld(held, m.cohortId, task)) ==> LeaderReports(end, m.cohortId, waits, held, ticks)
    {
      ghost var joined := store.log;
      if m.role == Leader && m.cohort.revision.None? {
        var lead := ResolveAsLeader(m.cohortId, task, waits, held);
        if lead != LeaderReturned {
          return LedOut(lead);
        }
      }
      ghost var led := store.log;
      LaterEvolves(joined, led);
      BelongsStays(Run(EMPTY, joined), Run(EMPTY, led), task, m.cohortId);
      var wait := WaitForResolution(task, m.cohortId, ticks);
      LaterEvolves(led, store.log);
      BelongsStays(Run(EMPTY, led), store.Db(), task, m.cohortId);
      if DecidedIn(Run(EMPTY, led), m.cohortId) {
        DecidedStays(Run(EMPTY, led).cohorts[m.cohortId], store.Db().cohorts[m.cohortId]);
      }
      end := Waited(m.cohortId, wait);
    }
  }

  lemma {:induction false} JoinedLeader(t: Tables, op: Op, tie: string)
    requires CoreInv(t) && op.OpJoin?
    ensures forall id | LeadsNext(t, op, id) :: (
      var r := Apply(t, op.(tie := tie));
      r.result.Ok? && r.result.value.cohortId == id && r.result.value.role.Leader? && Undecided(r.tables, id))
  {
    forall id | LeadsNext(t, op, id)
      ensures var r := Apply(t, op.(tie := tie));
        r.result.Ok? && r.result.value.cohortId == id && r.result.value.role.Leader? && Undecided(r.tables, id)
    {
      var made := op.(tie := tie);
      forall o ensures CanJoin(t, made, o) <==> CanJoin(t, op, o) {
      }
      if id in t.cohorts {
        OldLeaderJoins(t, made, id);
      } else {
        NewLeaderJoins(t, made, id);
      }
    }
  }
}
