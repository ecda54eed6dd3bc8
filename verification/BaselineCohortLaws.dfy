/** What each call of the cohort store answers and stores, told by the rows before and after it. */
module BaselineCohortLaws {
  import opened Prelude
  import opened BaselineCohorts
  import opened BaselineCohortAgreement
  import opened BaselineCohortWindows

  /** All cohorts but this one, and the members, are as they were. */
  ghost predicate OnlyCohort(t: Tables, u: Tables, id: string) {
    u.members == t.members && u.cohorts - {id} == t.cohorts - {id} && id in t.cohorts && id in u.cohorts
  }

  /** Identity and outcome of a cohort are as they were. */
  ghost predicate SameFacts(c: Cohort, d: Cohort) { SameIdentity(c, d) && SameOutcome(c, d) && d.resolvedAt == c.resolvedAt }

  /**
   Advancing closes exactly the open cohorts whose deadline has come: sealed when they have their
   revision, resolving when not. Nothing else about any row changes.
   */
  lemma {:induction false} AdvanceCloses(t: Tables, now: int, id: string)
    requires id in t.cohorts
    ensures var u := Advanced(t, now);
      u.members == t.members && u.cohorts.Keys == t.cohorts.Keys && (
      var c, d := t.cohorts[id], u.cohorts[id];
      SameFacts(c, d) && (d.state.Open? <==> c.state.Open? && now < c.deadline) &&
      (!c.state.Open? || now < c.deadline ==> d == c) &&
      (c.state.Open? && c.deadline <= now ==> (d.state.Sealed? <==> c.revision.Some?) && (d.state.Resolving? <==> c.revision.None?)))
  {
  }

  // ---------- resolve and fail ----------

  /** The leader's own membership, showing the cohort as stored. */
  ghost predicate IsOwn(t: Tables, m: Membership, task: string) {
    m.task == task && m.cohortId in t.cohorts && m.cohort == t.cohorts[m.cohortId] && BelongsTo(t, task, m.cohortId) &&
    (m.role.Leader? <==> m.cohort.leader == task)
  }

  lemma {:induction false} SelectedIsOwn(t: Tables, task: string)
    requires CoreInv(t)
    ensures var m := SelectMembership(t, task);
      (m.Some? <==> exists id :: BelongsTo(t, task, id)) && (m.Some? ==> IsOwn(t, m.value, task))
  {
    SelectFinds(t, task);
    var m := SelectMembership(t, task);
    if m.Some? {
      var i :| 0 <= i < |t.members| && t.members[i].task == task;
      assert MemberCore(t.cohorts, t.members[i]) && BelongsTo(t, task, m.value.cohortId);
    }
  }

  /** An accepted revision is stored stripped, with its first time and the state the deadline asks for; the leader's row answers. */
  lemma {:induction false} ResolveStores(t: Tables, id: string, leader: string, raw: string, now: int)
    requires CoreInv(t)
    ensures var r := Resolve(t, id, leader, raw, now);
      (r.result.Err? ==> r.tables == t) &&
      (r.result.Ok? ==> (
        OnlyCohort(t, r.tables, id) && IsOwn(r.tables, r.result.value, leader) &&
        var c, d := t.cohorts[id], r.tables.cohorts[id];
        SameIdentity(c, d) && d.revision == Some(Strip(raw)) && d.failure.None? &&
        d.resolvedAt == (if c.revision.Some? then c.resolvedAt else Some(now)) &&
        (d.state.Sealed? <==> d.deadline <= now) && (d.state.Open? <==> now < d.deadline)))
  {
    ResolveExactlyWhen(t, id, leader, raw, now);
    if MayResolve(t, id, leader, raw) {
      assert CohortCore(t.cohorts[id]);
      ResolveKeepsCore(t, id, leader, raw, now);
      SelectedIsOwn(Resolve(t, id, leader, raw, now).tables, leader);
    }
  }

  /** Why a revision is refused, the first reason first. */
  lemma {:induction false} ResolveRefuses(t: Tables, id: string, leader: string, raw: string, now: int)
    requires CoreInv(t) && Resolve(t, id, leader, raw, now).result.Err?
    ensures Resolve(t, id, leader, raw, now).result == Err(
      if Strip(raw) == "" then EmptyRevision
      else if id !in t.cohorts then UnknownCohort
      else if t.cohorts[id].leader != leader then NotLeader
      else if t.cohorts[id].revision.Some? then RevisionImmutable else AlreadyFailed)
  {
    ResolveExactlyWhen(t, id, leader, raw, now);
    assert id in t.cohorts ==> CohortCore(t.cohorts[id]);
  }

  /**
   The leader's failure is stored as given when the cohort is undecided, and leaves a failed cohort with the
   failure it has; a resolved cohort, an unknown one and anyone but the leader are refused.
   */
  lemma {:induction false} FailStores(t: Tables, id: string, leader: string, failure: string, now: int)
    requires CoreInv(t)
    ensures var r := Fail(t, id, leader, failure, now);
      (r.result.Ok? <==> id in t.cohorts && t.cohorts[id].leader == leader && t.cohorts[id].revision.None?) &&
      (r.result.Err? ==> r.tables == t && r.result == Err(
        if id !in t.cohorts then UnknownCohort else if t.cohorts[id].leader != leader then NotLeader else AlreadyResolved)) &&
      (r.result.Ok? ==> (
        OnlyCohort(t, r.tables, id) && IsOwn(r.tables, r.result.value, leader) &&
        var c, d := t.cohorts[id], r.tables.cohorts[id];
        SameIdentity(c, d) && d.revision.None? && d.state.Failed? &&
        d.failure == if c.failure.Some? then c.failure else Some(failure)))
  {
    FailKeepsCore(t, id, leader, failure, now);
    if id in t.cohorts && t.cohorts[id].leader == leader && t.cohorts[id].revision.None? {
      FailOfLeader(t, id, leader, failure, now);
      SelectedIsOwn(Fail(t, id, leader, failure, now).tables, leader);
    }
  }

  lemma {:induction false} FailOfLeader(t: Tables, id: string, leader: string, failure: string, now: int)
    requires CoreInv(t) && id in t.cohorts && t.cohorts[id].leader == leader && t.cohorts[id].revision.None?
    ensures var r := Fail(t, id, leader, failure, now);
      r.result.Ok? && SelectMembership(r.tables, leader) == Some(r.result.value) &&
      r.tables == if t.cohorts[id].failure.Some? then t else t.(cohorts := t.cohorts[id := FailedCohort(t.cohorts[id], failure, now)])
  {
    var c := t.cohorts[id];
    assert CohortCore(c);
    if c.state.Failed? {
      LeaderReplyIsOk(t, id, t);
    } else {
      UpdateKeepsCore(t, id, FailedCohort(c, failure, now));
      LeaderReplyIsOk(t.(cohorts := t.cohorts[id := FailedCohort(c, failure, now)]), id, t);
    }
  }

  // ---------- join and read ----------

  /** Reading answers exactly for members, with their own row after the advance; nothing changes for others. */
  lemma {:induction false} GetAnswers(t: Tables, task: string, now: int)
    requires CoreInv(t)
    ensures var r := GetForTask(t, task, now);
      (r.result.Ok? <==> exists id :: BelongsTo(t, task, id)) && (r.result.Err? ==> r.tables == t && r.result == Err(NotMember)) &&
      (r.result.Ok? ==> (
        r.tables == Advanced(t, now) && IsOwn(r.tables, r.result.value, task) && BelongsTo(t, task, r.result.value.cohortId)))
  {
    var u := Advanced(t, now);
    AdvancedKeepsCore(t, now);
    SelectedIsOwn(u, task);
    forall id ensures BelongsTo(u, task, id) <==> BelongsTo(t, task, id) {
    }
  }

  /** The row of a member that just joined. */
  ghost predicate NewMember(t: Tables, u: Tables, m: Membership, now: int) {
    u.members == t.members + [Member(m.cohortId, m.task, m.role, now)]
  }

  /** A cohort just started by this call. */
  ghost predicate Started(t: Tables, u: Tables, op: Op, m: Membership)
    requires op.OpJoin?
  {
    m.role.Leader? && m.cohortId == op.id && op.id !in t.cohorts && op.id in u.cohorts && m.cohort == u.cohorts[op.id] &&
    m.cohort.(updatedAt := 0, rowVersion := 0) ==
      Cohort(op.key, op.sourceType, op.task, Open, op.now, op.now + op.window, None, None, None, 0, 0)
  }

  /** A cohort of the source, still open and before its deadline, that the task follows now. */
  ghost predicate Followed(t: Tables, u: Tables, op: Op, m: Membership)
    requires op.OpJoin?
  {
    m.role.Follower? && m.cohortId in t.cohorts && m.cohortId in u.cohorts && m.cohort == u.cohorts[m.cohortId] &&
    m.cohort.key == op.key && m.cohort.sourceType == op.sourceType && m.cohort.state.Open? && op.now < m.cohort.deadline
  }

  /** What a join sees once it closed the expired cohorts, told by the tables before the call. */
  lemma {:induction false} JoinSees(t: Tables, op: Op)
    requires CoreInv(t) && op.OpJoin?
    ensures var u := Advanced(t, op.now);
      var m, c := SelectMembership(u, op.task), Choice(u, op.key, op.sourceType, op.tie, op.now);
      (m.Some? <==> exists id :: BelongsTo(t, op.task, id)) &&
      (m.Some? ==> IsOwn(u, m.value, op.task) && BelongsTo(t, op.task, m.value.cohortId) && SameKey(t, u, m.value.cohortId)) &&
      (c.Some? <==> exists o :: CanJoin(t, op, o)) && (c.Some? ==> CanJoin(u, op, c.value) && CanJoin(t, op, c.value)) &&
      (c.Some? ==> forall o | CanJoin(t, op, o) :: t.cohorts[o].createdAt <= u.cohorts[c.value].createdAt)
  {
    var u := Advanced(t, op.now);
    AdvancedKeepsCore(t, op.now);
    SelectedIsOwn(u, op.task);
    forall id ensures BelongsTo(u, op.task, id) <==> BelongsTo(t, op.task, id) {
    }
    ChoiceIsYoungest(u, op);
    forall o ensures CanJoin(t, op, o) <==> CanJoin(u, op, o) {
    }
  }

  ghost predicate SameKey(t: Tables, u: Tables, id: string) { id in t.cohorts && id in u.cohorts && u.cohorts[id].key == t.cohorts[id].key }

  /**
   What a join answers: a member of a cohort with this key is told its membership again and one of another
   key is refused; anyone else follows a youngest joinable cohort of the source, or starts one when there is none.
   */
  lemma {:induction false} JoinAnswers(t: Tables, op: Op)
    requires CoreInv(t) && op.OpJoin?
    ensures var r := Apply(t, op);
      (r.result.Err? ==> r.tables == t) &&
      (r.result.Ok? ==> (
        var m := r.result.value;
        m.task == op.task && m.cohort.key == op.key &&
        if exists id :: BelongsTo(t, op.task, id) then
          r.tables == Advanced(t, op.now) && IsOwn(r.tables, m, op.task) && BelongsTo(t, op.task, m.cohortId)
        else
          NewMember(t, r.tables, m, op.now) &&
          if exists o :: CanJoin(t, op, o) then
            Followed(t, r.tables, op, m) && forall o | CanJoin(t, op, o) :: t.cohorts[o].createdAt <= m.cohort.createdAt
          else Started(t, r.tables, op, m)))
  {
    JoinSees(t, op);
  }

  /** When a join is refused, and why. */
  lemma {:induction false} JoinRefuses(t: Tables, op: Op)
    requires CoreInv(t) && op.OpJoin?
    ensures Apply(t, op).result.Err? <==> (
      (op.sourceType != "git" && op.sourceType != "svn") || op.window < 0 || (exists id :: OtherKey(t, op, id)) ||
      (!(exists id :: BelongsTo(t, op.task, id)) && !(exists o :: CanJoin(t, op, o)) && op.id in t.cohorts))
    ensures Apply(t, op).result.Err? ==> Apply(t, op).result == Err(
      if op.sourceType != "git" && op.sourceType != "svn" then UnsupportedSource
      else if op.window < 0 then NegativeWindow
      else if exists id :: OtherKey(t, op, id) then OtherCohort else DuplicateId)
  {
    JoinSees(t, op);
    OneCohort(t, op.task);
    var m := SelectMembership(Advanced(t, op.now), op.task);
    if m.Some? {
      assert OtherKey(t, op, m.value.cohortId) <==> m.value.cohort.key != op.key;
    }
  }

  /** The task is in a cohort of another key. */
  ghost predicate OtherKey(t: Tables, op: Op, id: string)
    requires op.OpJoin?
  {
    BelongsTo(t, op.task, id) && id in t.cohorts && t.cohorts[id].key != op.key
  }

  lemma {:induction false} OneCohort(t: Tables, task: string)
    requires MembersCore(t)
    ensures forall a, b | BelongsTo(t, task, a) && BelongsTo(t, task, b) :: a == b
    ensures forall a | BelongsTo(t, task, a) :: a in t.cohorts
  {
    forall a | BelongsTo(t, task, a) ensures a in t.cohorts {
      var i :| 0 <= i < |t.members| && t.members[i].task == task && t.members[i].cohort == a;
      assert MemberCore(t.cohorts, t.members[i]);
    }
  }
}
