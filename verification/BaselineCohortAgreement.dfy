/** Agreement: what every run of the cohort store keeps, whatever the clocks of its callers show. */
module BaselineCohortAgreement {
  import opened Prelude
  import opened BaselineCohorts

  ghost predicate SameIdentity(c: Cohort, d: Cohort) {
    d.key == c.key && d.sourceType == c.sourceType && d.leader == c.leader &&
    d.createdAt == c.createdAt && d.deadline == c.deadline
  }

  /** A cohort's outcome is write-once. */
  ghost predicate CohortEvolves(c: Cohort, d: Cohort) {
    SameIdentity(c, d) &&
    (c.revision.Some? ==> d.revision == c.revision && d.resolvedAt == c.resolvedAt) &&
    (c.failure.Some? ==> d.failure == c.failure) && (c.state.Failed? ==> d.state.Failed?)
  }

  ghost predicate Evolves(t: Tables, u: Tables) {
    (forall id | id in t.cohorts :: id in u.cohorts && CohortEvolves(t.cohorts[id], u.cohorts[id])) &&
    |t.members| <= |u.members| && u.members[..|t.members|] == t.members
  }

  predicate Decided(c: Cohort) { c.revision.Some? || c.failure.Some? }

  predicate SameOutcome(c: Cohort, d: Cohort) { c.revision == d.revision && c.failure == d.failure }

  // ---------- reading a membership ----------

  lemma {:induction false} FirstMembershipFinds(cohorts: map<string, Cohort>, members: seq<Member>, task: string)
    requires forall i | 0 <= i < |members| :: members[i].cohort in cohorts
    ensures var m := FirstMembership(cohorts, members, task);
      (m.None? <==> forall i | 0 <= i < |members| :: members[i].task != task) &&
      (m.Some? ==> (
        m.value.task == task && m.value.cohortId in cohorts && m.value.cohort == cohorts[m.value.cohortId] &&
        exists i :: 0 <= i < |members| && members[i].task == task && members[i].cohort == m.value.cohortId &&
                    members[i].role == m.value.role))
  {
    if members != [] {
      FirstMembershipFinds(cohorts, members[1..], task);
      var m := FirstMembership(cohorts, members, task);
      if members[0].task == task {
        assert members[0].cohort == m.value.cohortId;
      } else {
        if m.Some? {
          var i :| 0 <= i < |members[1..]| && members[1..][i].task == task && members[1..][i].cohort == m.value.cohortId &&
                   members[1..][i].role == m.value.role;
          assert members[i + 1] == members[1..][i];
        } else {
          forall i | 0 <= i < |members| ensures members[i].task != task {
            if i > 0 {
              assert members[i] == members[1..][i - 1];
            }
          }
        }
      }
    }
  }

  /** A membership is found exactly for the tasks that joined, and it is their only one. */
  lemma {:induction false} SelectFinds(t: Tables, task: string)
    requires MembersCore(t)
    ensures var m := SelectMembership(t, task);
      (m.None? <==> forall i | 0 <= i < |t.members| :: t.members[i].task != task) &&
      (m.Some? ==> (
        m.value.cohortId in t.cohorts && m.value.cohort == t.cohorts[m.value.cohortId] && m.value.task == task &&
        forall i | 0 <= i < |t.members| && t.members[i].task == task ::
          t.members[i].cohort == m.value.cohortId && t.members[i].role == m.value.role))
  {
    forall i | 0 <= i < |t.members| ensures t.members[i].cohort in t.cohorts {
      assert MemberCore(t.cohorts, t.members[i]);
    }
    FirstMembershipFinds(t.cohorts, t.members, task);
  }

  // ---------- the transactions keep the invariant ----------

  /** A rewrite of the rows that keeps their identity keeps the membership facts. */
  lemma {:induction false} RewriteKeepsCore(t: Tables, u: Tables)
    requires CoreInv(t) && u.members == t.members && u.cohorts.Keys == t.cohorts.Keys
    requires forall id | id in t.cohorts :: CohortEvolves(t.cohorts[id], u.cohorts[id]) && CohortCore(u.cohorts[id])
    ensures CoreInv(u) && Evolves(t, u)
  {
    forall i | 0 <= i < |u.members| ensures MemberCore(u.cohorts, u.members[i]) {
      assert MemberCore(t.cohorts, t.members[i]);
    }
  }

  lemma {:induction false} AdvancedKeepsCore(t: Tables, now: int)
    requires CoreInv(t)
    ensures CoreInv(Advanced(t, now)) && Evolves(t, Advanced(t, now))
  {
    RewriteKeepsCore(t, Advanced(t, now));
  }

  lemma {:induction false} UpdateKeepsCore(t: Tables, id: string, d: Cohort)
    requires CoreInv(t) && id in t.cohorts && CohortEvolves(t.cohorts[id], d) && CohortCore(d)
    ensures CoreInv(t.(cohorts := t.cohorts[id := d])) && Evolves(t, t.(cohorts := t.cohorts[id := d]))
  {
    RewriteKeepsCore(t, t.(cohorts := t.cohorts[id := d]));
  }

  lemma {:induction false} NothingKeepsCore(t: Tables)
    requires CoreInv(t)
    ensures Evolves(t, t)
  {
  }

  lemma {:induction false} MoreMembersKeepLeader(ms: seq<Member>, m: Member, c: string)
    requires HasLeader(ms, c) || (m.cohort == c && m.role.Leader?)
    ensures HasLeader(ms + [m], c)
  {
    var us := ms + [m];
    if i :| 0 <= i < |ms| && ms[i].cohort == c && ms[i].role.Leader? {
      assert us[i] == ms[i];
    } else {
      assert us[|ms|] == m;
    }
  }

  /** A new member row of a task that has none, for a cohort of the table. */
  lemma {:induction false} MemberRowKeepsCore(t: Tables, cohorts: map<string, Cohort>, m: Member)
    requires MembersCore(t) && SelectMembership(t, m.task).None?
    requires forall c | c in t.cohorts :: c in cohorts && cohorts[c] == t.cohorts[c]
    requires forall c | c in cohorts && c !in t.cohorts :: m.cohort == c && m.role.Leader?
    requires MemberCore(cohorts, m)
    ensures MembersCore(Tables(cohorts, t.members + [m]))
  {
    var u := Tables(cohorts, t.members + [m]);
    SelectFinds(t, m.task);
    forall i | 0 <= i < |u.members| ensures MemberCore(cohorts, u.members[i]) {
      assert i < |t.members| ==> u.members[i] == t.members[i] && MemberCore(t.cohorts, t.members[i]);
    }
    forall c | c in cohorts ensures HasLeader(u.members, c) {
      assert c in t.cohorts ==> HasLeader(t.members, c);
      MoreMembersKeepLeader(t.members, m, c);
    }
  }

  lemma {:induction false} JoinedKeepsCore(t: Tables, id: string, task: string, now: int)
    requires CoreInv(t) && SelectMembership(t, task).None? && id in t.cohorts && now < t.cohorts[id].deadline
    ensures CoreInv(Joined(t, id, task, Follower, now)) && Evolves(t, Joined(t, id, task, Follower, now))
  {
    SelectFinds(t, task);
    assert HasLeader(t.members, id);
    var l :| 0 <= l < |t.members| && t.members[l].cohort == id && t.members[l].role.Leader?;
    assert MemberCore(t.cohorts, t.members[l]);
    MemberRowKeepsCore(t, t.cohorts, Member(id, task, Follower, now));
  }

  lemma {:induction false} CreatedKeepsCore(t: Tables, id: string, key: string, sourceType: string, task: string, window: int, now: int)
    requires CoreInv(t) && id !in t.cohorts && window >= 0 && SelectMembership(t, task).None?
    ensures var u := Joined(Created(t, id, key, sourceType, task, window, now), id, task, Leader, now); CoreInv(u) && Evolves(t, u)
  {
    MemberRowKeepsCore(t, Created(t, id, key, sourceType, task, window, now).cohorts, Member(id, task, Leader, now));
  }

  lemma {:induction false} EvolvesTransitive(t: Tables, u: Tables, v: Tables)
    requires Evolves(t, u) && Evolves(u, v)
    ensures Evolves(t, v)
  {
    assert v.members[..|t.members|] == u.members[..|t.members|];
  }

  lemma {:induction false} JoinKeepsCore(t: Tables, key: string, sourceType: string, task: string, window: int, id: string,
                                         tie: string, now: int)
    requires CoreInv(t)
    ensures var v := JoinOrCreate(t, key, sourceType, task, window, id, tie, now).tables; CoreInv(v) && Evolves(t, v)
  {
    NothingKeepsCore(t);
    AdvancedKeepsCore(t, now);
    var u := Advanced(t, now);
    var v := JoinOrCreate(t, key, sourceType, task, window, id, tie, now).tables;
    if v != t && v != u {
      match Choice(u, key, sourceType, tie, now)
      case Some(c) => JoinedKeepsCore(u, c, task, now);
      case None => CreatedKeepsCore(u, id, key, sourceType, task, window, now);
      EvolvesTransitive(t, u, v);
    }
  }

  lemma {:induction false} ResolveTables(t: Tables, id: string, leader: string, raw: string, now: int)
    requires Resolve(t, id, leader, raw, now).tables != t
    ensures id in t.cohorts && t.cohorts[id].leader == leader && !t.cohorts[id].state.Failed?
    ensures t.cohorts[id].revision.None? || t.cohorts[id].revision == Some(Strip(raw))
    ensures Resolve(t, id, leader, raw, now).tables == t.(cohorts := t.cohorts[id := ResolvedCohort(t.cohorts[id], Strip(raw), now)])
  {
  }

  lemma {:induction false} ResolveKeepsCore(t: Tables, id: string, leader: string, raw: string, now: int)
    requires CoreInv(t)
    ensures var v := Resolve(t, id, leader, raw, now).tables; CoreInv(v) && Evolves(t, v)
  {
    NothingKeepsCore(t);
    if Resolve(t, id, leader, raw, now).tables != t {
      ResolveTables(t, id, leader, raw, now);
      UpdateKeepsCore(t, id, ResolvedCohort(t.cohorts[id], Strip(raw), now));
    }
  }

  function FailedCohort(c: Cohort, failure: string, now: int): Cohort {
    c.(state := Failed, failure := Some(failure), updatedAt := now, rowVersion := c.rowVersion + 1)
  }

  lemma {:induction false} FailTables(t: Tables, id: string, leader: string, failure: string, now: int)
    requires Fail(t, id, leader, failure, now).tables != t
    ensures id in t.cohorts && t.cohorts[id].leader == leader && !t.cohorts[id].state.Failed? && t.cohorts[id].revision.None?
    ensures Fail(t, id, leader, failure, now).tables == t.(cohorts := t.cohorts[id := FailedCohort(t.cohorts[id], failure, now)])
  {
  }

  lemma {:induction false} FailKeepsCore(t: Tables, id: string, leader: string, failure: string, now: int)
    requires CoreInv(t)
    ensures var v := Fail(t, id, leader, failure, now).tables; CoreInv(v) && Evolves(t, v)
  {
    NothingKeepsCore(t);
    if Fail(t, id, leader, failure, now).tables != t {
      FailTables(t, id, leader, failure, now);
      UpdateKeepsCore(t, id, FailedCohort(t.cohorts[id], failure, now));
    }
  }

  lemma {:induction false} StepKeepsCore(t: Tables, op: Op)
    requires CoreInv(t)
    ensures CoreInv(Step(t, op)) && Evolves(t, Step(t, op))
  {
    match op
    case OpJoin(key, src, task, window, id, tie, now) => JoinKeepsCore(t, key, src, task, window, id, tie, now);
    case OpGet(task, now) => NothingKeepsCore(t); AdvancedKeepsCore(t, now);
    case OpResolve(id, leader, raw, now) => ResolveKeepsCore(t, id, leader, raw, now);
    case OpFail(id, leader, failure, now) => FailKeepsCore(t, id, leader, failure, now);
  }

  /** Every run, at whatever times its calls are made, keeps the invariant; outcomes are write-once. */
  lemma {:induction false} RunKeepsCore(t: Tables, ops: seq<Op>)
    requires CoreInv(t)
    ensures CoreInv(Run(t, ops)) && Evolves(t, Run(t, ops))
    decreases |ops|
  {
    if ops == [] {
      NothingKeepsCore(t);
    } else {
      StepKeepsCore(t, ops[0]);
      RunKeepsCore(Step(t, ops[0]), ops[1..]);
      EvolvesTransitive(t, Step(t, ops[0]), Run(t, ops));
    }
  }

  lemma {:induction false} RunAppends(t: Tables, ops: seq<Op>, op: Op)
    ensures Run(t, ops + [op]) == Step(Run(t, ops), op)
    decreases |ops|
  {
    if ops == [] {
      assert [op][1..] == [];
    } else {
      assert (ops + [op])[1..] == ops[1..] + [op];
      RunAppends(Step(t, ops[0]), ops[1..], op);
    }
  }

  lemma {:induction false} RunConcat(t: Tables, ops: seq<Op>, more: seq<Op>)
    ensures Run(t, ops + more) == Run(Run(t, ops), more)
    decreases |ops|
  {
    if ops == [] {
      assert ops + more == more;
    } else {
      assert (ops + more)[1..] == ops[1..] + more;
      RunConcat(Step(t, ops[0]), ops[1..], more);
    }
  }

  /** Two points of one history: the later tables evolved from the earlier ones. */
  lemma {:induction false} LaterEvolves(earlier: seq<Op>, later: seq<Op>)
    requires earlier <= later
    ensures CoreInv(Run(EMPTY, earlier)) && CoreInv(Run(EMPTY, later)) && Evolves(Run(EMPTY, earlier), Run(EMPTY, later))
  {
    RunKeepsCore(EMPTY, earlier);
    assert later == earlier + later[|earlier|..];
    RunConcat(EMPTY, earlier, later[|earlier|..]);
    RunKeepsCore(Run(EMPTY, earlier), later[|earlier|..]);
  }

  // ---------- agreement ----------

  lemma {:induction false} GetIsCurrent(t: Tables, task: string, now: int)
    requires CoreInv(t)
    ensures var r := GetForTask(t, task, now);
      CoreInv(r.tables) && Evolves(t, r.tables) &&
      (r.result.Ok? ==> r.result.value.cohortId in r.tables.cohorts && r.result.value.cohort == r.tables.cohorts[r.result.value.cohortId])
  {
    NothingKeepsCore(t);
    AdvancedKeepsCore(t, now);
    SelectFinds(Advanced(t, now), task);
  }

  /** A decided outcome stays, and is never joined by the other kind. */
  lemma {:induction false} DecidedStays(c: Cohort, d: Cohort)
    requires CohortCore(c) && CohortCore(d) && CohortEvolves(c, d) && Decided(c)
    ensures SameOutcome(c, d) && !(c.revision.Some? && c.failure.Some?)
  {
  }

  /**
   Agreement: whenever two members of one cohort read a decided membership, at any two points of any
   run and with any clocks, they read the same outcome, and it is a revision or a failure, never both.
   */
  lemma {:induction false} MembersAgree(before: seq<Op>, task1: string, now1: int, between: seq<Op>, task2: string, now2: int)
    ensures
      var r1 := GetForTask(Run(EMPTY, before), task1, now1);
      var r2 := GetForTask(Run(r1.tables, between), task2, now2);
      (r1.result.Ok? && r2.result.Ok? && r1.result.value.cohortId == r2.result.value.cohortId &&
       Decided(r1.result.value.cohort)) ==> (
        SameOutcome(r1.result.value.cohort, r2.result.value.cohort) &&
        !(r1.result.value.cohort.revision.Some? && r1.result.value.cohort.failure.Some?))
  {
    var t := Run(EMPTY, before);
    RunKeepsCore(EMPTY, before);
    GetIsCurrent(t, task1, now1);
    var r1 := GetForTask(t, task1, now1);
    RunKeepsCore(r1.tables, between);
    var u := Run(r1.tables, between);
    GetIsCurrent(u, task2, now2);
    var r2 := GetForTask(u, task2, now2);
    EvolvesTransitive(r1.tables, u, r2.tables);
    if r1.result.Ok? && r2.result.Ok? && r1.result.value.cohortId == r2.result.value.cohortId && Decided(r1.result.value.cohort) {
      DecidedStays(r1.result.value.cohort, r2.result.value.cohort);
    }
  }

  lemma {:induction false} JoinKeepsOutcomes(t: Tables, op: Op, id: string)
    requires (op.OpJoin? || op.OpGet?) && CoreInv(t) && id in t.cohorts
    ensures id in Step(t, op).cohorts && SameOutcome(t.cohorts[id], Step(t, op).cohorts[id])
  {
    var u, v := Advanced(t, op.now), Step(t, op);
    if op.OpJoin? && v != t && v != u && Choice(u, op.key, op.sourceType, op.tie, op.now).None? {
      assert v.cohorts - {op.id} == u.cohorts - {op.id} && op.id !in u.cohorts;
      assert id in v.cohorts - {op.id};
    }
  }

  /** Only the leader decides: no other call changes the outcome of a cohort, and only an undecided one. */
  lemma {:induction false} OnlyLeaderDecides(t: Tables, op: Op, id: string)
    requires CoreInv(t) && id in t.cohorts
    ensures id in Step(t, op).cohorts
    ensures !SameOutcome(t.cohorts[id], Step(t, op).cohorts[id]) ==> (
      (op.OpResolve? || op.OpFail?) && op.id == id && op.leader == t.cohorts[id].leader && !Decided(t.cohorts[id]))
  {
    StepKeepsCore(t, op);
    assert CohortCore(t.cohorts[id]);
    match op
    case OpJoin(_, _, _, _, _, _, _) => JoinKeepsOutcomes(t, op, id);
    case OpGet(_, _) => JoinKeepsOutcomes(t, op, id);
    case OpResolve(c, leader, raw, now) =>
      if Step(t, op) != t {
        ResolveTables(t, c, leader, raw, now);
      }
    case OpFail(c, leader, failure, now) =>
      if Step(t, op) != t {
        FailTables(t, c, leader, failure, now);
      }
  }

  /** The task is a member of this cohort. */
  ghost predicate BelongsTo(t: Tables, task: string, id: string) {
    exists i :: 0 <= i < |t.members| && t.members[i].task == task && t.members[i].cohort == id
  }

  lemma {:induction false} LeaderBelongs(t: Tables, id: string)
    requires CoreInv(t) && id in t.cohorts
    ensures BelongsTo(t, t.cohorts[id].leader, id)
  {
    assert HasLeader(t.members, id);
    var i :| 0 <= i < |t.members| && t.members[i].cohort == id && t.members[i].role.Leader?;
    assert MemberCore(t.cohorts, t.members[i]);
  }

  /** The leader's row that `resolve` and `fail` read back is there. */
  lemma {:induction false} LeaderReplyIsOk(t: Tables, id: string, fallback: Tables)
    requires CoreInv(t) && id in t.cohorts
    ensures var r := LeaderReply(t, t.cohorts[id].leader, fallback); r.result.Ok? && r.tables == t
  {
    LeaderBelongs(t, id);
    SelectFinds(t, t.cohorts[id].leader);
  }

  /** When the leader's `resolve` is accepted: a known, unfailed cohort and no other revision. */
  predicate MayResolve(t: Tables, id: string, leader: string, raw: string) {
    Strip(raw) != "" && id in t.cohorts && t.cohorts[id].leader == leader && !t.cohorts[id].state.Failed? &&
    (t.cohorts[id].revision.None? || t.cohorts[id].revision.value == Strip(raw))
  }

  /** An accepted `resolve` stores the row; any other leaves the tables alone. */
  lemma {:induction false} ResolveExactlyWhen(t: Tables, id: string, leader: string, raw: string, now: int)
    requires CoreInv(t)
    ensures var r := Resolve(t, id, leader, raw, now);
      (r.result.Ok? <==> MayResolve(t, id, leader, raw)) &&
      r.tables == if MayResolve(t, id, leader, raw)
                  then t.(cohorts := t.cohorts[id := ResolvedCohort(t.cohorts[id], Strip(raw), now)]) else t
  {
    if MayResolve(t, id, leader, raw) {
      var u := t.(cohorts := t.cohorts[id := ResolvedCohort(t.cohorts[id], Strip(raw), now)]);
      assert CohortCore(t.cohorts[id]);
      UpdateKeepsCore(t, id, ResolvedCohort(t.cohorts[id], Strip(raw), now));
      LeaderReplyIsOk(u, id, t);
    }
  }

  /** A cohort has one leader. */
  lemma {:induction false} OneLeader(t: Tables, i: nat, j: nat)
    requires CoreInv(t) && i < |t.members| && j < |t.members|
    requires t.members[i].role.Leader? && t.members[j].role.Leader? && t.members[i].cohort == t.members[j].cohort
    ensures i == j
  {
    assert MemberCore(t.cohorts, t.members[i]) && MemberCore(t.cohorts, t.members[j]);
  }
}
