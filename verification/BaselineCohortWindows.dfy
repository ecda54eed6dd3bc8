/**
 Windowing: what holds while the clock never runs backwards, and what a clock that does breaks.
 `TimedInv` is kept beside the clock-free `CoreInv`.
 */
module BaselineCohortWindows {
  import opened Prelude
  import opened BaselineCohorts
  import opened BaselineCohortAgreement

  /** A closed cohort stays closed. */
  ghost predicate StaysClosed(t: Tables, u: Tables) {
    forall id | id in t.cohorts :: id in u.cohorts && (u.cohorts[id].state.Open? ==> t.cohorts[id].state.Open?)
  }

  ghost predicate TimedRewrite(c: Cohort, d: Cohort) {
    SameIdentity(c, d) && (d.state.Open? ==> c.state.Open?) && (c.state.Failed? ==> d.state.Failed?)
  }

  // ---------- what a join does ----------

  /** A valid join of a task that has no cohort yet. */
  ghost predicate Joins(t: Tables, op: Op) {
    op.OpJoin? && (op.sourceType == "git" || op.sourceType == "svn") && op.window >= 0 && SelectMembership(t, op.task).None?
  }

  ghost predicate CanJoin(t: Tables, op: Op, o: string)
    requires op.OpJoin?
  {
    o in t.cohorts && Joinable(t.cohorts[o], op.key, op.sourceType, op.now)
  }

  lemma {:induction false} MembershipAdvances(cohorts: map<string, Cohort>, later: map<string, Cohort>, members: seq<Member>, task: string)
    requires later.Keys == cohorts.Keys
    ensures FirstMembership(later, members, task).None? <==> FirstMembership(cohorts, members, task).None?
  {
    if members != [] {
      MembershipAdvances(cohorts, later, members[1..], task);
    }
  }

  /** What a join does to the rows, told by the tables before the call. */
  lemma {:induction false} JoinTables(t: Tables, op: Op)
    requires op.OpJoin?
    ensures var u, v := Advanced(t, op.now), Step(t, op);
      if Joins(t, op) && (exists o :: CanJoin(t, op, o)) then
        exists c :: CanJoin(t, op, c) && v == Joined(u, c, op.task, Follower, op.now) &&
          forall o | CanJoin(t, op, o) :: t.cohorts[o].createdAt <= t.cohorts[c].createdAt
      else if Joins(t, op) && op.id !in t.cohorts then
        v == Joined(Created(u, op.id, op.key, op.sourceType, op.task, op.window, op.now), op.id, op.task, Leader, op.now)
      else v == t || v == u
  {
    var u := Advanced(t, op.now);
    MembershipAdvances(t.cohorts, u.cohorts, t.members, op.task);
    forall o ensures CanJoin(t, op, o) <==> CanJoin(u, op, o) {
    }
    if Joins(t, op) {
      ChoiceIsYoungest(u, op);
    }
  }

  /** The query finds a cohort exactly when one can be joined, and then a youngest. */
  lemma {:induction false} ChoiceIsYoungest(u: Tables, op: Op)
    requires op.OpJoin?
    ensures var c := Choice(u, op.key, op.sourceType, op.tie, op.now);
      (c.Some? <==> exists o :: CanJoin(u, op, o)) &&
      (c.Some? ==> CanJoin(u, op, c.value) && forall o | CanJoin(u, op, o) :: u.cohorts[o].createdAt <= u.cohorts[c.value].createdAt)
  {
    if o :| CanJoin(u, op, o) {
      var joinable := set x | x in u.cohorts && Joinable(u.cohorts[x], op.key, op.sourceType, op.now);
      assert o in joinable;
      var c := Youngest(u.cohorts, joinable);
      forall x | CanJoin(u, op, x) ensures x in joinable {
      }
      assert CanJoin(u, op, c) && forall x | x in u.cohorts && Joinable(u.cohorts[x], op.key, op.sourceType, op.now) :: CanJoin(u, op, x);
      assert IsChoice(u, c, op.key, op.sourceType, op.now);
    }
    var c := Choice(u, op.key, op.sourceType, op.tie, op.now);
    if c.Some? {
      assert IsChoice(u, c.value, op.key, op.sourceType, op.now) && CanJoin(u, op, c.value);
    }
  }

  lemma {:induction false} Youngest(cohorts: map<string, Cohort>, ids: set<string>) returns (c: string)
    requires ids != {} && ids <= cohorts.Keys
    ensures c in ids && forall o | o in ids :: cohorts[o].createdAt <= cohorts[c].createdAt
    decreases |ids|
  {
    c :| c in ids;
    if ids != {c} {
      var d := Youngest(cohorts, ids - {c});
      if cohorts[c].createdAt < cohorts[d].createdAt {
        c := d;
      }
    }
  }

  /** When there is no cohort to join, the source has no open cohort once the expired ones are closed. */
  lemma {:induction false} NothingOpen(t: Tables, op: Op)
    requires op.OpJoin? && !(exists o :: CanJoin(t, op, o))
    ensures var u := Advanced(t, op.now);
      forall o | o in u.cohorts && u.cohorts[o].key == op.key && u.cohorts[o].sourceType == op.sourceType :: !u.cohorts[o].state.Open?
  {
    forall o | o in t.cohorts ensures !CanJoin(t, op, o) {
    }
  }

  // ---------- the transactions keep the windows ----------

  lemma {:induction false} RewriteKeepsTimed(t: Tables, u: Tables, clock: int, now: int)
    requires TimedInv(t, clock) && clock <= now && u.members == t.members && u.cohorts.Keys == t.cohorts.Keys
    requires forall id | id in t.cohorts :: TimedRewrite(t.cohorts[id], u.cohorts[id]) && CohortTimed(u.cohorts[id], now)
    ensures TimedInv(u, now) && StaysClosed(t, u)
  {
    forall a, b | a in u.cohorts && b in u.cohorts && a != b && SameSource(u.cohorts[a], u.cohorts[b]) &&
      !u.cohorts[a].state.Failed? && !u.cohorts[b].state.Failed?
      ensures Apart(u.cohorts[a], u.cohorts[b])
    {
      assert SameSource(t.cohorts[a], t.cohorts[b]) && Apart(t.cohorts[a], t.cohorts[b]);
    }
  }

  lemma {:induction false} LaterKeepsTimed(t: Tables, clock: int, now: int)
    requires TimedInv(t, clock) && clock <= now
    ensures TimedInv(t, now) && StaysClosed(t, t)
  {
  }

  lemma {:induction false} AdvancedKeepsTimed(t: Tables, clock: int, now: int)
    requires TimedInv(t, clock) && clock <= now
    ensures TimedInv(Advanced(t, now), now) && StaysClosed(t, Advanced(t, now))
    ensures forall id | id in t.cohorts && Advanced(t, now).cohorts[id].state.Open? :: now < t.cohorts[id].deadline
  {
    RewriteKeepsTimed(t, Advanced(t, now), clock, now);
  }

  lemma {:induction false} UpdateKeepsTimed(t: Tables, id: string, d: Cohort, clock: int, now: int)
    requires TimedInv(t, clock) && clock <= now && id in t.cohorts
    requires TimedRewrite(t.cohorts[id], d) && CohortTimed(d, now)
    ensures var u := t.(cohorts := t.cohorts[id := d]); TimedInv(u, now) && StaysClosed(t, u)
  {
    RewriteKeepsTimed(t, t.(cohorts := t.cohorts[id := d]), clock, now);
  }

  lemma {:induction false} CreatedKeepsRows(t: Tables, id: string, c: Cohort, now: int)
    requires TimedInv(t, now) && id !in t.cohorts && c.state.Open? && c.createdAt == now
    requires forall o | o in t.cohorts && SameSource(t.cohorts[o], c) :: !t.cohorts[o].state.Open?
    ensures var cs := t.cohorts[id := c]; OneOpen(cs) && WindowsApart(cs) && forall o | o in cs :: CohortTimed(cs[o], now)
  {
    forall o | o in t.cohorts && SameSource(t.cohorts[o], c) && !t.cohorts[o].state.Failed?
      ensures Apart(t.cohorts[o], c)
    {
      assert CohortTimed(t.cohorts[o], now);
    }
  }

  lemma {:induction false} MemberRowKeepsTimed(t: Tables, cohorts: map<string, Cohort>, m: Member)
    requires JoinsTimed(t) && m.cohort in cohorts && cohorts[m.cohort].createdAt <= m.joinedAt
    requires forall i | 0 <= i < |t.members| :: t.members[i].cohort in t.cohorts
    requires forall c | c in t.cohorts :: c in cohorts && cohorts[c] == t.cohorts[c]
    ensures JoinsTimed(Tables(cohorts, t.members + [m]))
  {
    var u := Tables(cohorts, t.members + [m]);
    forall i | 0 <= i < |u.members| && u.members[i].cohort in u.cohorts
      ensures u.cohorts[u.members[i].cohort].createdAt <= u.members[i].joinedAt
    {
      if i < |t.members| {
        assert u.members[i] == t.members[i];
      }
    }
  }

  lemma {:induction false} MembersHaveCohorts(t: Tables)
    requires MembersCore(t)
    ensures forall i | 0 <= i < |t.members| :: t.members[i].cohort in t.cohorts
  {
    forall i | 0 <= i < |t.members| ensures t.members[i].cohort in t.cohorts {
      assert MemberCore(t.cohorts, t.members[i]);
    }
  }

  lemma {:induction false} FollowKeepsTimed(t: Tables, c: string, task: string, now: int)
    requires CoreInv(t) && TimedInv(t, now) && c in t.cohorts
    ensures TimedInv(Joined(t, c, task, Follower, now), now) && StaysClosed(t, Joined(t, c, task, Follower, now))
  {
    MembersHaveCohorts(t);
    assert CohortTimed(t.cohorts[c], now);
    MemberRowKeepsTimed(t, t.cohorts, Member(c, task, Follower, now));
  }

  lemma {:induction false} LeadKeepsTimed(t: Tables, id: string, key: string, sourceType: string, task: string, window: int, now: int)
    requires CoreInv(t) && TimedInv(t, now) && id !in t.cohorts
    requires forall o | o in t.cohorts && t.cohorts[o].key == key && t.cohorts[o].sourceType == sourceType :: !t.cohorts[o].state.Open?
    ensures var u := Joined(Created(t, id, key, sourceType, task, window, now), id, task, Leader, now);
      TimedInv(u, now) && StaysClosed(t, u)
  {
    MembersHaveCohorts(t);
    var cs := Created(t, id, key, sourceType, task, window, now).cohorts;
    CreatedKeepsRows(t, id, cs[id], now);
    MemberRowKeepsTimed(t, cs, Member(id, task, Leader, now));
  }

  lemma {:induction false} StaysClosedTransitive(t: Tables, u: Tables, v: Tables)
    requires StaysClosed(t, u) && StaysClosed(u, v)
    ensures StaysClosed(t, v)
  {
  }

  lemma {:induction false} JoinKeepsTimed(t: Tables, clock: int, op: Op)
    requires op.OpJoin? && CoreInv(t) && TimedInv(t, clock) && clock <= op.now
    ensures TimedInv(Step(t, op), op.now) && StaysClosed(t, Step(t, op))
  {
    var u, v := Advanced(t, op.now), Step(t, op);
    LaterKeepsTimed(t, clock, op.now);
    AdvancedKeepsCore(t, op.now);
    AdvancedKeepsTimed(t, clock, op.now);
    JoinTables(t, op);
    if v != t && v != u {
      if exists o :: CanJoin(t, op, o) {
        var c :| CanJoin(t, op, c) && v == Joined(u, c, op.task, Follower, op.now);
        FollowKeepsTimed(u, c, op.task, op.now);
      } else {
        NothingOpen(t, op);
        LeadKeepsTimed(u, op.id, op.key, op.sourceType, op.task, op.window, op.now);
      }
      StaysClosedTransitive(t, u, v);
    }
  }

  lemma {:induction false} ResolveKeepsTimed(t: Tables, clock: int, id: string, leader: string, raw: string, now: int)
    requires CoreInv(t) && TimedInv(t, clock) && clock <= now
    ensures var v := Resolve(t, id, leader, raw, now).tables; TimedInv(v, now) && StaysClosed(t, v)
  {
    LaterKeepsTimed(t, clock, now);
    if Resolve(t, id, leader, raw, now).tables != t {
      ResolveTables(t, id, leader, raw, now);
      assert CohortTimed(t.cohorts[id], clock);
      UpdateKeepsTimed(t, id, ResolvedCohort(t.cohorts[id], Strip(raw), now), clock, now);
    }
  }

  lemma {:induction false} FailKeepsTimed(t: Tables, clock: int, id: string, leader: string, failure: string, now: int)
    requires TimedInv(t, clock) && clock <= now
    ensures var v := Fail(t, id, leader, failure, now).tables; TimedInv(v, now) && StaysClosed(t, v)
  {
    LaterKeepsTimed(t, clock, now);
    if Fail(t, id, leader, failure, now).tables != t {
      FailTables(t, id, leader, failure, now);
      assert CohortTimed(t.cohorts[id], clock);
      UpdateKeepsTimed(t, id, FailedCohort(t.cohorts[id], failure, now), clock, now);
    }
  }

  lemma {:induction false} StepKeepsTimed(t: Tables, clock: int, op: Op)
    requires CoreInv(t) && TimedInv(t, clock) && clock <= op.now
    ensures TimedInv(Step(t, op), op.now) && StaysClosed(t, Step(t, op))
  {
    match op
    case OpJoin(_, _, _, _, _, _, _) => JoinKeepsTimed(t, clock, op);
    case OpGet(task, now) => LaterKeepsTimed(t, clock, now); AdvancedKeepsTimed(t, clock, now);
    case OpResolve(id, leader, raw, now) => ResolveKeepsTimed(t, clock, id, leader, raw, now);
    case OpFail(id, leader, failure, now) => FailKeepsTimed(t, clock, id, leader, failure, now);
  }

  /** The time of the last call of a run. */
  function EndOf(clock: int, ops: seq<Op>): int { if ops == [] then clock else ops[|ops| - 1].now }

  lemma {:induction false} ClockedTail(ops: seq<Op>, start: int)
    requires ops != [] && Clocked(ops, start)
    ensures start <= ops[0].now && Clocked(ops[1..], ops[0].now)
    ensures EndOf(start, ops) == EndOf(ops[0].now, ops[1..])
  {
  }

  /** Under a clock that never runs backwards every run keeps the windows apart and closed cohorts closed. */
  lemma {:induction false} RunKeepsTimed(t: Tables, clock: int, ops: seq<Op>)
    requires CoreInv(t) && TimedInv(t, clock) && Clocked(ops, clock)
    ensures TimedInv(Run(t, ops), EndOf(clock, ops)) && StaysClosed(t, Run(t, ops))
    decreases |ops|
  {
    if ops == [] {
      LaterKeepsTimed(t, clock, clock);
    } else {
      var u := Step(t, ops[0]);
      ClockedTail(ops, clock);
      StepKeepsCore(t, ops[0]);
      StepKeepsTimed(t, clock, ops[0]);
      RunKeepsTimed(u, ops[0].now, ops[1..]);
      StaysClosedTransitive(t, u, Run(u, ops[1..]));
    }
  }

  // ---------- what the runs give ----------

  ghost predicate LeaderRow(t: Tables, c: string, i: int) {
    0 <= i < |t.members| && t.members[i].cohort == c && t.members[i].role.Leader?
  }

  ghost predicate ExactlyOneLeader(t: Tables, c: string) {
    (exists i :: LeaderRow(t, c, i)) && forall i, j | LeaderRow(t, c, i) && LeaderRow(t, c, j) :: i == j
  }

  lemma {:induction false} CohortsHaveOneLeader(t: Tables, c: string)
    requires CoreInv(t) && c in t.cohorts
    ensures ExactlyOneLeader(t, c)
  {
    assert HasLeader(t.members, c);
    var i :| 0 <= i < |t.members| && t.members[i].cohort == c && t.members[i].role.Leader?;
    assert LeaderRow(t, c, i);
    forall i, j | LeaderRow(t, c, i) && LeaderRow(t, c, j) ensures i == j {
      OneLeader(t, i, j);
    }
  }

  /**
   From empty tables and under a forward clock: one open cohort per source, disjoint join windows
   of cohorts that did not fail, one cohort per task, exactly one leader per cohort, and every
   follower joined inside its cohort's window.
   */
  lemma {:induction false} WindowsInAnyRun(ops: seq<Op>, start: int)
    requires Clocked(ops, start)
    ensures var t := Run(EMPTY, ops);
      OneOpen(t.cohorts) && WindowsApart(t.cohorts) &&
      (forall i, j | 0 <= i < |t.members| && 0 <= j < |t.members| && t.members[i].task == t.members[j].task :: i == j) &&
      (forall c | c in t.cohorts :: ExactlyOneLeader(t, c)) &&
      (forall i | 0 <= i < |t.members| && t.members[i].role.Follower? ::
        t.members[i].cohort in t.cohorts &&
        t.cohorts[t.members[i].cohort].createdAt <= t.members[i].joinedAt < t.cohorts[t.members[i].cohort].deadline)
  {
    RunKeepsCore(EMPTY, ops);
    RunKeepsTimed(EMPTY, start, ops);
    var t := Run(EMPTY, ops);
    forall c | c in t.cohorts ensures ExactlyOneLeader(t, c) {
      CohortsHaveOneLeader(t, c);
    }
    forall i | 0 <= i < |t.members| && t.members[i].role.Follower?
      ensures t.members[i].cohort in t.cohorts &&
        t.cohorts[t.members[i].cohort].createdAt <= t.members[i].joinedAt < t.cohorts[t.members[i].cohort].deadline
    {
      assert MemberCore(t.cohorts, t.members[i]);
    }
  }

  /**
   A closed cohort is open after a call exactly when the call is an accepted `resolve` of it made
   before its deadline: a decided cohort's state follows the caller's clock, not the rows.
   */
  lemma {:induction false} ReopensExactlyWhen(t: Tables, op: Op, id: string)
    requires CoreInv(t) && id in t.cohorts && !t.cohorts[id].state.Open?
    ensures id in Step(t, op).cohorts
    ensures Step(t, op).cohorts[id].state.Open? <==>
      (op.OpResolve? && op.id == id && MayResolve(t, id, op.leader, op.raw) && op.now < t.cohorts[id].deadline)
  {
    StepKeepsCore(t, op);
    match op
    case OpJoin(_, _, _, _, _, _, _) => JoinReopensNothing(t, op, id);
    case OpGet(_, _) =>
    case OpResolve(c, leader, raw, now) => ResolveExactlyWhen(t, c, leader, raw, now);
    case OpFail(c, leader, failure, now) =>
      if Step(t, op) != t {
        FailTables(t, c, leader, failure, now);
      }
  }

  lemma {:induction false} JoinReopensNothing(t: Tables, op: Op, id: string)
    requires op.OpJoin? && id in t.cohorts && !t.cohorts[id].state.Open?
    ensures id in Step(t, op).cohorts && !Step(t, op).cohorts[id].state.Open?
  {
    var u, v := Advanced(t, op.now), Step(t, op);
    if v != t && v != u && Choice(u, op.key, op.sourceType, op.tie, op.now).None? {
      assert v.cohorts - {op.id} == u.cohorts - {op.id} && op.id !in u.cohorts;
      assert id in v.cohorts - {op.id};
    }
  }

  // ---------- when windowing fails, whatever the clocks show ----------

  /** The call reopens a cohort beside another open one of its source. */
  ghost predicate Collides(t: Tables, op: Op) {
    op.OpResolve? && MayResolve(t, op.id, op.leader, op.raw) && op.now < t.cohorts[op.id].deadline &&
    exists o :: o in t.cohorts && o != op.id && SameSource(t.cohorts[o], t.cohorts[op.id]) && t.cohorts[o].state.Open?
  }

  /** The call starts a cohort, and its window overlaps that of a cohort of its source that did not fail. */
  ghost predicate Overlaps(t: Tables, op: Op) {
    Joins(t, op) && op.id !in t.cohorts && !(exists o :: CanJoin(t, op, o)) && exists o :: OverlapsWith(t, op, o)
  }

  ghost predicate OverlapsWith(t: Tables, op: Op, o: string)
    requires op.OpJoin?
  {
    o in t.cohorts && t.cohorts[o].key == op.key && t.cohorts[o].sourceType == op.sourceType && !t.cohorts[o].state.Failed? &&
    op.now < t.cohorts[o].deadline && t.cohorts[o].createdAt < op.now + op.window
  }

  /** The call joins a cohort before that was created. */
  ghost predicate JoinsEarly(t: Tables, op: Op) {
    Joins(t, op) && exists o :: CanJoin(t, op, o) && op.now < t.cohorts[o].createdAt
  }

  lemma {:induction false} RewriteKeepsOneOpen(cs: map<string, Cohort>, ds: map<string, Cohort>)
    requires OneOpen(cs) && ds.Keys == cs.Keys
    requires forall o | o in cs :: SameIdentity(cs[o], ds[o]) && (ds[o].state.Open? ==> cs[o].state.Open?)
    ensures OneOpen(ds)
  {
    forall a, b | a in ds && b in ds && a != b && SameSource(ds[a], ds[b]) ensures !(ds[a].state.Open? && ds[b].state.Open?) {
      assert SameSource(cs[a], cs[b]);
    }
  }

  lemma {:induction false} JoinKeepsOneOpen(t: Tables, op: Op)
    requires op.OpJoin? && OneOpen(t.cohorts)
    ensures OneOpen(Step(t, op).cohorts)
  {
    RewriteKeepsOneOpen(t.cohorts, Advanced(t, op.now).cohorts);
    JoinTables(t, op);
    if !exists o :: CanJoin(t, op, o) {
      NothingOpen(t, op);
    }
  }

  lemma {:induction false} ResolveCollides(t: Tables, op: Op)
    requires op.OpResolve? && CoreInv(t) && OneOpen(t.cohorts)
    ensures OneOpen(Step(t, op).cohorts) <==> !Collides(t, op)
  {
    ResolveExactlyWhen(t, op.id, op.leader, op.raw, op.now);
    if MayResolve(t, op.id, op.leader, op.raw) {
      var d := ResolvedCohort(t.cohorts[op.id], Strip(op.raw), op.now);
      var u := t.cohorts[op.id := d];
      if o :| o in t.cohorts && o != op.id && SameSource(t.cohorts[o], t.cohorts[op.id]) && t.cohorts[o].state.Open? {
        assert SameSource(u[o], u[op.id]);
        if op.now >= t.cohorts[op.id].deadline {
          RewriteKeepsOneOpen(t.cohorts, u);
        }
      }
    }
  }

  lemma {:induction false} FailKeepsOneOpen(t: Tables, op: Op)
    requires op.OpFail? && OneOpen(t.cohorts)
    ensures OneOpen(Step(t, op).cohorts)
  {
    if Step(t, op) != t {
      FailTables(t, op.id, op.leader, op.failure, op.now);
      RewriteKeepsOneOpen(t.cohorts, Step(t, op).cohorts);
    }
  }

  /** From one open cohort per source, a call gives a source two exactly when it reopens one beside another. */
  lemma {:induction false} OneOpenExactlyWhen(t: Tables, op: Op)
    requires CoreInv(t) && OneOpen(t.cohorts)
    ensures OneOpen(Step(t, op).cohorts) <==> !Collides(t, op)
  {
    match op
    case OpJoin(_, _, _, _, _, _, _) => JoinKeepsOneOpen(t, op);
    case OpGet(_, now) => RewriteKeepsOneOpen(t.cohorts, Advanced(t, now).cohorts);
    case OpResolve(_, _, _, _) => ResolveCollides(t, op);
    case OpFail(_, _, _, _) => FailKeepsOneOpen(t, op);
  }

  // ---------- disjoint windows ----------

  /** A rewrite that fails cohorts at most keeps the windows as they are. */
  lemma {:induction false} RewriteKeepsApart(cs: map<string, Cohort>, ds: map<string, Cohort>)
    requires WindowsApart(cs) && ds.Keys == cs.Keys
    requires forall o | o in cs :: SameIdentity(cs[o], ds[o]) && (cs[o].state.Failed? ==> ds[o].state.Failed?)
    ensures WindowsApart(ds)
  {
    forall a, b | a in ds && b in ds && a != b && SameSource(ds[a], ds[b]) && !ds[a].state.Failed? && !ds[b].state.Failed?
      ensures Apart(ds[a], ds[b])
    {
      assert SameSource(cs[a], cs[b]);
    }
  }

  lemma {:induction false} CreationOverlaps(t: Tables, op: Op)
    requires Joins(t, op) && op.id !in t.cohorts && !(exists o :: CanJoin(t, op, o)) && WindowsApart(t.cohorts)
    ensures WindowsApart(Step(t, op).cohorts) <==> !Overlaps(t, op)
  {
    var u := Advanced(t, op.now);
    JoinTables(t, op);
    RewriteKeepsApart(t.cohorts, u.cohorts);
    var cs := Step(t, op).cohorts;
    assert cs == u.cohorts[op.id := Cohort(op.key, op.sourceType, op.task, Open, op.now, op.now + op.window, None, None, None, op.now, 1)];
    forall o | o in t.cohorts && t.cohorts[o].key == op.key && t.cohorts[o].sourceType == op.sourceType && !t.cohorts[o].state.Failed?
      ensures SameSource(cs[o], cs[op.id]) && (Apart(cs[o], cs[op.id]) <==> !OverlapsWith(t, op, o))
    {
    }
  }

  /** Windows that do not overlap stay so exactly unless a call starts an overlapping one. */
  lemma {:induction false} WindowsApartExactlyWhen(t: Tables, op: Op)
    requires WindowsApart(t.cohorts)
    ensures WindowsApart(Step(t, op).cohorts) <==> !Overlaps(t, op)
  {
    match op
    case OpJoin(_, _, _, _, _, _, now) =>
      JoinTables(t, op);
      RewriteKeepsApart(t.cohorts, Advanced(t, now).cohorts);
      if Joins(t, op) && op.id !in t.cohorts && !(exists o :: CanJoin(t, op, o)) {
        CreationOverlaps(t, op);
      }
    case OpGet(_, now) => RewriteKeepsApart(t.cohorts, Advanced(t, now).cohorts);
    case OpResolve(id, leader, raw, now) =>
      if Step(t, op) != t {
        ResolveTables(t, id, leader, raw, now);
        RewriteKeepsApart(t.cohorts, Step(t, op).cohorts);
      }
    case OpFail(id, leader, failure, now) =>
      if Step(t, op) != t {
        FailTables(t, id, leader, failure, now);
        RewriteKeepsApart(t.cohorts, Step(t, op).cohorts);
      }
  }

  lemma {:induction false} RewriteKeepsJoins(t: Tables, u: Tables)
    requires JoinsTimed(t) && u.members == t.members && u.cohorts.Keys == t.cohorts.Keys
    requires forall o | o in t.cohorts :: u.cohorts[o].createdAt == t.cohorts[o].createdAt
    ensures JoinsTimed(u)
  {
  }

  lemma {:induction false} FollowingEarly(t: Tables, c: string, task: string, now: int)
    requires JoinsTimed(t) && c in t.cohorts
    ensures JoinsTimed(Joined(t, c, task, Follower, now)) <==> t.cohorts[c].createdAt <= now
  {
    var u := Joined(t, c, task, Follower, now);
    assert u.members[|t.members|] == Member(c, task, Follower, now);
    assert forall i | 0 <= i < |t.members| :: u.members[i] == t.members[i];
  }

  lemma {:induction false} LeadingInTime(t: Tables, op: Op)
    requires op.OpJoin? && MembersCore(t) && JoinsTimed(t) && op.id !in t.cohorts
    ensures JoinsTimed(Joined(Created(t, op.id, op.key, op.sourceType, op.task, op.window, op.now), op.id, op.task, Leader, op.now))
  {
    MembersHaveCohorts(t);
    MemberRowKeepsTimed(t, Created(t, op.id, op.key, op.sourceType, op.task, op.window, op.now).cohorts,
                        Member(op.id, op.task, Leader, op.now));
  }

  lemma {:induction false} JoinEarlyExactlyWhen(t: Tables, op: Op)
    requires op.OpJoin? && CoreInv(t) && JoinsTimed(t)
    ensures JoinsTimed(Step(t, op)) <==> !JoinsEarly(t, op)
  {
    var u := Advanced(t, op.now);
    JoinTables(t, op);
    RewriteKeepsJoins(t, u);
    if Joins(t, op) && exists o :: CanJoin(t, op, o) {
      var c :| CanJoin(t, op, c) && Step(t, op) == Joined(u, c, op.task, Follower, op.now) &&
        forall o | CanJoin(t, op, o) :: t.cohorts[o].createdAt <= t.cohorts[c].createdAt;
      FollowingEarly(u, c, op.task, op.now);
    } else if Joins(t, op) && op.id !in t.cohorts {
      AdvancedKeepsCore(t, op.now);
      LeadingInTime(u, op);
    }
  }

  lemma {:induction false} OthersKeepJoins(t: Tables, op: Op)
    requires !op.OpJoin? && JoinsTimed(t)
    ensures JoinsTimed(Step(t, op))
  {
    match op
    case OpGet(_, now) => RewriteKeepsJoins(t, Advanced(t, now));
    case OpResolve(id, leader, raw, now) =>
      if Step(t, op) != t {
        ResolveTables(t, id, leader, raw, now);
        RewriteKeepsJoins(t, Step(t, op));
      }
    case OpFail(id, leader, failure, now) =>
      if Step(t, op) != t {
        FailTables(t, id, leader, failure, now);
        RewriteKeepsJoins(t, Step(t, op));
      }
  }

  // ---------- over runs ----------

  /** One open cohort per source, disjoint windows, nobody joined before the cohort was there. */
  ghost predicate Windowed(t: Tables) { OneOpen(t.cohorts) && WindowsApart(t.cohorts) && JoinsTimed(t) }

  ghost predicate Breaks(t: Tables, op: Op) { Collides(t, op) || Overlaps(t, op) || JoinsEarly(t, op) }

  lemma {:induction false} WindowedExactlyWhen(t: Tables, op: Op)
    requires CoreInv(t) && Windowed(t)
    ensures Windowed(Step(t, op)) <==> !Breaks(t, op)
  {
    OneOpenExactlyWhen(t, op);
    WindowsApartExactlyWhen(t, op);
    if op.OpJoin? {
      JoinEarlyExactlyWhen(t, op);
    } else {
      OthersKeepJoins(t, op);
    }
  }

  ghost predicate WindowedThroughout(t: Tables, ops: seq<Op>)
    decreases |ops|
  {
    Windowed(t) && (ops == [] || WindowedThroughout(Step(t, ops[0]), ops[1..]))
  }

  ghost predicate NeverBreaks(t: Tables, ops: seq<Op>)
    decreases |ops|
  {
    ops == [] || (!Breaks(t, ops[0]) && NeverBreaks(Step(t, ops[0]), ops[1..]))
  }

  ghost predicate OneOpenThroughout(t: Tables, ops: seq<Op>)
    decreases |ops|
  {
    OneOpen(t.cohorts) && (ops == [] || OneOpenThroughout(Step(t, ops[0]), ops[1..]))
  }

  ghost predicate NeverCollides(t: Tables, ops: seq<Op>)
    decreases |ops|
  {
    ops == [] || (!Collides(t, ops[0]) && NeverCollides(Step(t, ops[0]), ops[1..]))
  }

  lemma {:induction false} RunKeepsOneOpenExactlyWhen(t: Tables, ops: seq<Op>)
    requires CoreInv(t) && OneOpen(t.cohorts)
    ensures OneOpenThroughout(t, ops) <==> NeverCollides(t, ops)
    decreases |ops|
  {
    if ops != [] {
      OneOpenExactlyWhen(t, ops[0]);
      StepKeepsCore(t, ops[0]);
      if !Collides(t, ops[0]) {
        RunKeepsOneOpenExactlyWhen(Step(t, ops[0]), ops[1..]);
      }
    }
  }

  /**
   From empty tables and with any clocks: every source has at most one open cohort after every call
   exactly when no call reopens a cohort beside another open one of its source.
   */
  lemma {:induction false} OneOpenInAnyRunExactlyWhen(ops: seq<Op>)
    ensures OneOpenThroughout(EMPTY, ops) <==> NeverCollides(EMPTY, ops)
  {
    RunKeepsOneOpenExactlyWhen(EMPTY, ops);
  }

  lemma {:induction false} RunKeepsWindowedExactlyWhen(t: Tables, ops: seq<Op>)
    requires CoreInv(t) && Windowed(t)
    ensures WindowedThroughout(t, ops) <==> NeverBreaks(t, ops)
    decreases |ops|
  {
    if ops != [] {
      WindowedExactlyWhen(t, ops[0]);
      StepKeepsCore(t, ops[0]);
      if !Breaks(t, ops[0]) {
        RunKeepsWindowedExactlyWhen(Step(t, ops[0]), ops[1..]);
      }
    }
  }

  /**
   From empty tables and with any clocks: the windows hold after every call exactly when no call reopens
   a cohort beside an open one, starts one that overlaps another, or joins one before it was created.
   */
  lemma {:induction false} WindowedInAnyRunExactlyWhen(ops: seq<Op>)
    ensures WindowedThroughout(EMPTY, ops) <==> NeverBreaks(EMPTY, ops)
  {
    RunKeepsWindowedExactlyWhen(EMPTY, ops);
  }

  /** Such a run: with a clock that steps back, one source can have two open cohorts. */
  lemma {:induction false} BackwardClockGivesTwoOpen()
    ensures
      var t1 := Step(EMPTY, OpJoin("k", "git", "a", 2, "A", "", 0));
      var t2 := Step(t1, OpJoin("k", "git", "b", 2, "B", "", 5));
      var t3 := Step(t2, OpResolve("A", "a", "r", 1));
      "A" in t3.cohorts && "B" in t3.cohorts && SameSource(t3.cohorts["A"], t3.cohorts["B"]) &&
      t3.cohorts["A"].state.Open? && t3.cohorts["B"].state.Open?
  {
    var a := Cohort("k", "git", "a", Open, 0, 2, None, None, None, 0, 1);
    var t1 := Step(EMPTY, OpJoin("k", "git", "a", 2, "A", "", 0));
    assert Advanced(EMPTY, 0) == EMPTY;
    assert !exists c :: IsChoice(EMPTY, c, "k", "git", 0);
    assert t1 == Tables(map["A" := a], [Member("A", "a", Leader, 0)]);
    var u := Advanced(t1, 5);
    assert u.cohorts == map["A" := a.(state := Resolving, updatedAt := 5, rowVersion := 2)];
    assert !exists c :: IsChoice(u, c, "k", "git", 5);
    assert FirstMembership(u.cohorts, u.members[1..], "b").None?;
    assert SelectMembership(u, "b").None?;
    var t2 := Step(t1, OpJoin("k", "git", "b", 2, "B", "", 5));
    assert t2.cohorts == u.cohorts["B" := Cohort("k", "git", "b", Open, 5, 7, None, None, None, 5, 1)];
    assert t2.members[0] == Member("A", "a", Leader, 0);
    assert StripLeft("r") == "r" && Strip("r") == "r";
  }
}
