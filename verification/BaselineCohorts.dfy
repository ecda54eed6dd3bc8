/**
 The durable membership and shared baseline of short-lived source cohorts (`BaselineCohortStore`),
 as a state machine over its two tables.  A raised error rolls the transaction back.
 */
module BaselineCohorts {
  import opened Prelude

  datatype CohortState = Open | Resolving | Sealed | Failed

  datatype Cohort = Cohort(
    key: string, sourceType: string, leader: string, state: CohortState, createdAt: int, deadline: int,
    revision: Option<string>, resolvedAt: Option<int>, failure: Option<string>, updatedAt: int, rowVersion: nat)

  datatype Role = Leader | Follower

  datatype Member = Member(cohort: string, task: string, role: Role, joinedAt: int)

  /** `baseline_cohorts` by id, and the rows of `baseline_cohort_members` in insertion order. */
  datatype Tables = Tables(cohorts: map<string, Cohort>, members: seq<Member>)

  datatype Membership = Membership(cohortId: string, task: string, role: Role, cohort: Cohort)

  datatype CohortError =
    | UnsupportedSource | NegativeWindow | OtherCohort | DuplicateId | NotMember | EmptyRevision
    | UnknownCohort | NotLeader | RevisionImmutable | AlreadyFailed | AlreadyResolved

  datatype Reply = Reply(tables: Tables, result: Result<Membership, CohortError>)

  const EMPTY := Tables(map[], [])

  // ---------- the transactions ----------

  function AdvancedCohort(c: Cohort, now: int): Cohort {
    if c.state.Open? && c.deadline <= now then
      c.(state := if c.revision.Some? then Sealed else Resolving, updatedAt := now, rowVersion := c.rowVersion + 1)
    else c
  }

  function Advanced(t: Tables, now: int): Tables {
    t.(cohorts := map id | id in t.cohorts :: AdvancedCohort(t.cohorts[id], now))
  }

  /** The first membership row of a task whose cohort exists. */
  function SelectMembership(t: Tables, task: string): Option<Membership> {
    FirstMembership(t.cohorts, t.members, task)
  }

  function FirstMembership(cohorts: map<string, Cohort>, members: seq<Member>, task: string): Option<Membership> {
    if members == [] then None
    else if members[0].task == task && members[0].cohort in cohorts then
      Some(Membership(members[0].cohort, task, members[0].role, cohorts[members[0].cohort]))
    else FirstMembership(cohorts, members[1..], task)
  }

  predicate Joinable(c: Cohort, key: string, sourceType: string, now: int) {
    c.key == key && c.sourceType == sourceType && c.state.Open? && now < c.deadline
  }

  /** The query's choice: the youngest joinable cohort. */
  ghost predicate IsChoice(t: Tables, id: string, key: string, sourceType: string, now: int) {
    id in t.cohorts && Joinable(t.cohorts[id], key, sourceType, now) &&
    forall o | o in t.cohorts && Joinable(t.cohorts[o], key, sourceType, now) :: t.cohorts[o].createdAt <= t.cohorts[id].createdAt
  }

  function Joined(t: Tables, id: string, task: string, role: Role, now: int): Tables {
    t.(members := t.members + [Member(id, task, role, now)])
  }

  function Created(t: Tables, id: string, key: string, sourceType: string, task: string, window: int, now: int): Tables {
    t.(cohorts := t.cohorts[id := Cohort(key, sourceType, task, Open, now, now + window, None, None, None, now, 1)])
  }

  /** The cohort the query returns; `tie` is the one it prefers among equally young ones. */
  ghost function Choice(t: Tables, key: string, sourceType: string, tie: string, now: int): Option<string> {
    if IsChoice(t, tie, key, sourceType, now) then Some(tie)
    else if exists c :: IsChoice(t, c, key, sourceType, now) then var c :| IsChoice(t, c, key, sourceType, now); Some(c)
    else None
  }

  /** `id` is the generated identifier, used only when a cohort is created. */
  ghost function JoinOrCreate(t: Tables, key: string, sourceType: string, task: string, window: int, id: string,
                              tie: string, now: int): Reply
  {
    if sourceType != "git" && sourceType != "svn" then Reply(t, Err(UnsupportedSource))
    else if window < 0 then Reply(t, Err(NegativeWindow))
    else
      var u := Advanced(t, now);
      match SelectMembership(u, task)
      case Some(existing) =>
        if existing.cohort.key != key then Reply(t, Err(OtherCohort)) else Reply(u, Ok(existing))
      case None =>
        match Choice(u, key, sourceType, tie, now)
        case Some(c) => Reply(Joined(u, c, task, Follower, now), Ok(Membership(c, task, Follower, u.cohorts[c])))
        case None =>
          if id in u.cohorts then Reply(t, Err(DuplicateId)) else
          var v := Created(u, id, key, sourceType, task, window, now);
          Reply(Joined(v, id, task, Leader, now), Ok(Membership(id, task, Leader, v.cohorts[id])))
  }

  function GetForTask(t: Tables, task: string, now: int): Reply {
    var u := Advanced(t, now);
    match SelectMembership(u, task)
    case Some(m) => Reply(u, Ok(m))
    case None => Reply(t, Err(NotMember))
  }

  /** The row after a successful `resolve`: the state is computed afresh from the deadline. */
  function ResolvedCohort(c: Cohort, revision: string, now: int): Cohort {
    c.(revision := Some(revision), resolvedAt := if c.resolvedAt.Some? then c.resolvedAt else Some(now),
       state := if c.deadline <= now then Sealed else Open, updatedAt := now, rowVersion := c.rowVersion + 1)
  }

  function LeaderReply(t: Tables, leader: string, fallback: Tables): Reply {
    match SelectMembership(t, leader)
    case Some(m) => Reply(t, Ok(m))
    case None => Reply(fallback, Err(NotMember))
  }

  function Resolve(t: Tables, id: string, leader: string, raw: string, now: int): Reply {
    var revision := Strip(raw);
    if revision == "" then Reply(t, Err(EmptyRevision))
    else if id !in t.cohorts then Reply(t, Err(UnknownCohort))
    else
      var c := t.cohorts[id];
      if c.leader != leader then Reply(t, Err(NotLeader))
      else if c.revision.Some? && c.revision.value != revision then Reply(t, Err(RevisionImmutable))
      else if c.state.Failed? then Reply(t, Err(AlreadyFailed))
      else LeaderReply(t.(cohorts := t.cohorts[id := ResolvedCohort(c, revision, now)]), leader, t)
  }

  function Fail(t: Tables, id: string, leader: string, failure: string, now: int): Reply {
    if id !in t.cohorts then Reply(t, Err(UnknownCohort))
    else
      var c := t.cohorts[id];
      if c.leader != leader then Reply(t, Err(NotLeader))
      else if c.revision.Some? then Reply(t, Err(AlreadyResolved))
      else if c.state.Failed? then LeaderReply(t, leader, t)
      else LeaderReply(t.(cohorts := t.cohorts[id :=
             c.(state := Failed, failure := Some(failure), updatedAt := now, rowVersion := c.rowVersion + 1)]), leader, t)
  }

  // ---------- runs ----------

  datatype Op =
    | OpJoin(key: string, sourceType: string, task: string, window: int, id: string, tie: string, now: int)
    | OpGet(task: string, now: int)
    | OpResolve(id: string, leader: string, raw: string, now: int)
    | OpFail(id: string, leader: string, failure: string, now: int)

  ghost function Apply(t: Tables, op: Op): Reply {
    match op
    case OpJoin(key, src, task, window, id, tie, now) => JoinOrCreate(t, key, src, task, window, id, tie, now)
    case OpGet(task, now) => GetForTask(t, task, now)
    case OpResolve(id, leader, raw, now) => Resolve(t, id, leader, raw, now)
    case OpFail(id, leader, failure, now) => Fail(t, id, leader, failure, now)
  }

  ghost function Step(t: Tables, op: Op): Tables { Apply(t, op).tables }

  ghost function Run(t: Tables, ops: seq<Op>): Tables
    decreases |ops|
  {
    if ops == [] then t else Run(Step(t, ops[0]), ops[1..])
  }

  /** The clock never runs backwards, starting no earlier than `start`. */
  ghost predicate Clocked(ops: seq<Op>, start: int) {
    (forall i | 0 <= i < |ops| :: start <= ops[i].now) &&
    forall i, j | 0 <= i < j < |ops| :: ops[i].now <= ops[j].now
  }

  // ---------- what holds whatever the clock does ----------

  /** One outcome at most, and the state shows it. */
  predicate CohortCore(c: Cohort) {
    c.createdAt <= c.deadline && !(c.revision.Some? && c.failure.Some?) &&
    (c.state.Failed? <==> c.failure.Some?) && (c.revision.Some? <==> c.resolvedAt.Some?) &&
    (c.state.Sealed? ==> c.revision.Some?) && (c.state.Resolving? ==> c.revision.None?)
  }

  ghost predicate MemberCore(cohorts: map<string, Cohort>, m: Member) {
    m.cohort in cohorts &&
    var c := cohorts[m.cohort];
    (m.role.Leader? <==> m.task == c.leader) && (m.role.Leader? ==> m.joinedAt == c.createdAt) &&
    (m.role.Follower? ==> m.joinedAt < c.deadline)
  }

  ghost predicate HasLeader(ms: seq<Member>, c: string) { exists i :: 0 <= i < |ms| && ms[i].cohort == c && ms[i].role.Leader? }

  /** A task is in one cohort, and a cohort has its leader among its members. */
  ghost predicate MembersCore(t: Tables) {
    (forall i | 0 <= i < |t.members| :: MemberCore(t.cohorts, t.members[i])) &&
    (forall i, j | 0 <= i < j < |t.members| :: t.members[i].task != t.members[j].task) &&
    forall c | c in t.cohorts :: HasLeader(t.members, c)
  }

  ghost predicate CoreInv(t: Tables) { (forall c | c in t.cohorts :: CohortCore(t.cohorts[c])) && MembersCore(t) }

  // ---------- what holds while the clock never runs backwards ----------

  ghost predicate SameSource(c: Cohort, d: Cohort) { c.key == d.key && c.sourceType == d.sourceType }

  /** At most one open cohort per source. */
  ghost predicate OneOpen(cohorts: map<string, Cohort>) {
    forall a, b | a in cohorts && b in cohorts && a != b && SameSource(cohorts[a], cohorts[b]) ::
      !(cohorts[a].state.Open? && cohorts[b].state.Open?)
  }

  ghost predicate Apart(c: Cohort, d: Cohort) { c.deadline <= d.createdAt || d.deadline <= c.createdAt }

  /** The join windows of cohorts that did not fail do not overlap. */
  ghost predicate WindowsApart(cohorts: map<string, Cohort>) {
    forall a, b | a in cohorts && b in cohorts && a != b && SameSource(cohorts[a], cohorts[b]) &&
      !cohorts[a].state.Failed? && !cohorts[b].state.Failed? :: Apart(cohorts[a], cohorts[b])
  }

  predicate CohortTimed(c: Cohort, clock: int) {
    c.createdAt <= clock && (c.state.Sealed? || c.state.Resolving? ==> c.deadline <= clock)
  }

  /** Followers joined after their cohort was created. */
  ghost predicate JoinsTimed(t: Tables) {
    forall i | 0 <= i < |t.members| && t.members[i].cohort in t.cohorts ::
      t.cohorts[t.members[i].cohort].createdAt <= t.members[i].joinedAt
  }

  ghost predicate TimedInv(t: Tables, clock: int) {
    (forall c | c in t.cohorts :: CohortTimed(t.cohorts[c], clock)) &&
    OneOpen(t.cohorts) && WindowsApart(t.cohorts) && JoinsTimed(t)
  }
}
