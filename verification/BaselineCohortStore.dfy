/**
 `BaselineCohortStore`: the two tables as fields, each public method one transaction.  The callers'
 clocks are their own: `Valid` holds whatever they show, and `Timely` is kept by every call that is
 made no earlier than the one before it.  The ghost `log` is the history of the calls.
 */
module BaselineCohortStores {
  import opened Prelude
  import B = BaselineCohorts
  import opened BaselineCohorts
  import opened BaselineCohortAgreement
  import opened BaselineCohortWindows

  // The two update statements of `_advance_expired_locked`.

  function SealExpired(cs: map<string, Cohort>, now: int): map<string, Cohort> {
    map id | id in cs ::
      if cs[id].state == Open && cs[id].deadline <= now && cs[id].revision.Some?
      then cs[id].(state := Sealed, updatedAt := now, rowVersion := cs[id].rowVersion + 1) else cs[id]
  }

  function ResolveExpired(cs: map<string, Cohort>, now: int): map<string, Cohort> {
    map id | id in cs ::
      if cs[id].state == Open && cs[id].deadline <= now && cs[id].revision.None?
      then cs[id].(state := Resolving, updatedAt := now, rowVersion := cs[id].rowVersion + 1) else cs[id]
  }

  /** Run one after the other they advance every row once. */
  lemma {:induction false} AdvanceByStatements(cs: map<string, Cohort>, now: int)
    ensures ResolveExpired(SealExpired(cs, now), now) == map id | id in cs :: AdvancedCohort(cs[id], now)
  {
  }

  class BaselineCohortStore {
    var cohorts: map<string, Cohort>
    var members: seq<Member>
    /** The time of the latest call. */
    ghost var clock: int
    ghost var log: seq<Op>

    function Db(): Tables
      reads this
    {
      Tables(cohorts, members)
    }

    ghost predicate Valid()
      reads this
    {
      CoreInv(Db()) && Db() == Run(EMPTY, log)
    }

    ghost predicate Timely()
      reads this
    {
      TimedInv(Db(), clock)
    }

    constructor ()
      ensures Valid() && Timely() && Db() == EMPTY && clock == 0 && log == []
    {
      cohorts, members, clock, log := map[], [], 0, [];
    }

    method Rollback(saved: Tables)
      modifies this`cohorts, this`members
      ensures Db() == saved
    {
      cohorts, members := saved.cohorts, saved.members;
    }

    method AdvanceExpiredLocked(now: int)
      modifies this`cohorts
      ensures Db() == Advanced(old(Db()), now)
    {
      AdvanceByStatements(cohorts, now);
      cohorts := SealExpired(cohorts, now);
      cohorts := ResolveExpired(cohorts, now);
    }

    method SelectMember(task: string) returns (m: Option<Membership>)
      ensures m == SelectMembership(Db(), task)
    {
      var i := 0;
      assert members[0..] == members;
      while i < |members|
        invariant 0 <= i <= |members|
        invariant FirstMembership(cohorts, members[i..], task) == SelectMembership(Db(), task)
      {
        if members[i].task == task && members[i].cohort in cohorts {
          return Some(Membership(members[i].cohort, task, members[i].role, cohorts[members[i].cohort]));
        }
        assert members[i..][1..] == members[i + 1..];
        i := i + 1;
      }
      return None;
    }

    /** `... WHERE state='open' AND join_deadline>? ORDER BY created_at DESC LIMIT 1`. */
    method SelectJoinable(key: string, sourceType: string, now: int) returns (choice: Option<string>)
      ensures choice.Some? ==> IsChoice(Db(), choice.value, key, sourceType, now)
      ensures choice.None? ==> forall c | c in cohorts :: !Joinable(cohorts[c], key, sourceType, now)
    {
      var joinable := set id | id in cohorts && Joinable(cohorts[id], key, sourceType, now);
      var rest := joinable;
      choice := None;
      while rest != {}
        invariant rest <= joinable
        invariant choice.None? ==> rest == joinable
        invariant choice.Some? ==> choice.value in joinable
        invariant choice.Some? ==>
          forall o | o in joinable - rest :: cohorts[o].createdAt <= cohorts[choice.value].createdAt
        decreases rest
      {
        var id :| id in rest;
        if choice.None? || cohorts[id].createdAt > cohorts[choice.value].createdAt {
          choice := Some(id);
        }
        rest := rest - {id};
      }
      assert joinable - rest == joinable;
      forall o | o in cohorts && Joinable(cohorts[o], key, sourceType, now) ensures o in joinable {
      }
      assert choice.None? ==> forall o | o in cohorts :: !Joinable(cohorts[o], key, sourceType, now);
    }

    /** `tie` is the cohort joined, which settles the query's choice among equally young ones. */
    method JoinOrCreate(key: string, sourceType: string, task: string, window: int, id: string, now: int)
      returns (r: Result<Membership, CohortError>, ghost tie: string)
      requires Valid()
      modifies this
      ensures Valid() && clock == now && log == old(log) + [OpJoin(key, sourceType, task, window, id, tie, now)]
      ensures old(Timely()) && old(clock) <= now ==> Timely()
      ensures Reply(Db(), r) == B.JoinOrCreate(old(Db()), key, sourceType, task, window, id, tie, now)
    {
      r, tie := JoinTransaction(key, sourceType, task, window, id, now);
      JoinKeepsCore(old(Db()), key, sourceType, task, window, id, tie, now);
      if old(Timely()) && old(clock) <= now {
        JoinKeepsTimed(old(Db()), old(clock), OpJoin(key, sourceType, task, window, id, tie, now));
      }
      RunAppends(EMPTY, log, OpJoin(key, sourceType, task, window, id, tie, now));
      clock, log := now, log + [OpJoin(key, sourceType, task, window, id, tie, now)];
    }

    method JoinTransaction(key: string, sourceType: string, task: string, window: int, id: string, now: int)
      returns (r: Result<Membership, CohortError>, ghost tie: string)
      modifies this`cohorts, this`members
      ensures Reply(Db(), r) == B.JoinOrCreate(old(Db()), key, sourceType, task, window, id, tie, now)
    {
      tie := "";
      if sourceType != "git" && sourceType != "svn" {
        return Err(UnsupportedSource), tie;
      }
      if window < 0 {
        return Err(NegativeWindow), tie;
      }
      var saved := Db();
      AdvanceExpiredLocked(now);
      ghost var u := Db();
      var existing := SelectMember(task);
      if existing.Some? {
        if existing.value.cohort.key != key {
          Rollback(saved);
          return Err(OtherCohort), tie;
        }
        return Ok(existing.value), tie;
      }
      var choice := SelectJoinable(key, sourceType, now);
      if choice.Some? {
        tie := choice.value;
        members := members + [Member(choice.value, task, Follower, now)];
        return Ok(Membership(choice.value, task, Follower, cohorts[choice.value])), tie;
      }
      assert Db() == u;
      assert !exists c :: IsChoice(u, c, key, sourceType, now);
      if id in cohorts {
        Rollback(saved);
        return Err(DuplicateId), tie;
      }
      cohorts := cohorts[id := Cohort(key, sourceType, task, Open, now, now + window, None, None, None, now, 1)];
      members := members + [Member(id, task, Leader, now)];
      assert Db() == Joined(Created(u, id, key, sourceType, task, window, now), id, task, Leader, now);
      return Ok(Membership(id, task, Leader, cohorts[id])), tie;
    }

    method GetForTask(task: string, now: int) returns (r: Result<Membership, CohortError>)
      requires Valid()
      modifies this
      ensures Valid() && clock == now && log == old(log) + [OpGet(task, now)]
      ensures old(Timely()) && old(clock) <= now ==> Timely()
      ensures Reply(Db(), r) == B.GetForTask(old(Db()), task, now)
    {
      StepKeepsCore(Db(), OpGet(task, now));
      if Timely() && clock <= now {
        StepKeepsTimed(Db(), clock, OpGet(task, now));
      }
      RunAppends(EMPTY, log, OpGet(task, now));
      clock, log := now, log + [OpGet(task, now)];
      var saved := Db();
      AdvanceExpiredLocked(now);
      var m := SelectMember(task);
      if m.None? {
        Rollback(saved);
        return Err(NotMember);
      }
      return Ok(m.value);
    }

    method Resolve(id: string, leader: string, raw: string, now: int) returns (r: Result<Membership, CohortError>)
      requires Valid()
      modifies this
      ensures Valid() && clock == now && log == old(log) + [OpResolve(id, leader, raw, now)]
      ensures old(Timely()) && old(clock) <= now ==> Timely()
      ensures Reply(Db(), r) == B.Resolve(old(Db()), id, leader, raw, now)
    {
      ResolveKeepsCore(Db(), id, leader, raw, now);
      if Timely() && clock <= now {
        ResolveKeepsTimed(Db(), clock, id, leader, raw, now);
      }
      RunAppends(EMPTY, log, OpResolve(id, leader, raw, now));
      clock, log := now, log + [OpResolve(id, leader, raw, now)];
      r := ResolveTransaction(id, leader, raw, now);
    }

    method ResolveTransaction(id: string, leader: string, raw: string, now: int) returns (r: Result<Membership, CohortError>)
      modifies this`cohorts, this`members
      ensures Reply(Db(), r) == B.Resolve(old(Db()), id, leader, raw, now)
    {
      var revision := Strip(raw);
      if revision == "" {
        return Err(EmptyRevision);
      }
      if id !in cohorts {
        return Err(UnknownCohort);
      }
      var row := cohorts[id];
      if row.leader != leader {
        return Err(NotLeader);
      }
      if row.revision.Some? && row.revision.value != revision {
        return Err(RevisionImmutable);
      }
      if row.state == Failed {
        return Err(AlreadyFailed);
      }
      var saved := Db();
      var state := if row.deadline <= now then Sealed else Open;
      cohorts := cohorts[id := row.(revision := Some(revision), state := state, updatedAt := now, rowVersion := row.rowVersion + 1,
                                    resolvedAt := if row.resolvedAt.Some? then row.resolvedAt else Some(now))];
      r := ReturnLeader(leader, saved);
    }

    method Fail(id: string, leader: string, failure: string, now: int) returns (r: Result<Membership, CohortError>)
      requires Valid()
      modifies this
      ensures Valid() && clock == now && log == old(log) + [OpFail(id, leader, failure, now)]
      ensures old(Timely()) && old(clock) <= now ==> Timely()
      ensures Reply(Db(), r) == B.Fail(old(Db()), id, leader, failure, now)
    {
      FailKeepsCore(Db(), id, leader, failure, now);
      if Timely() && clock <= now {
        FailKeepsTimed(Db(), clock, id, leader, failure, now);
      }
      RunAppends(EMPTY, log, OpFail(id, leader, failure, now));
      clock, log := now, log + [OpFail(id, leader, failure, now)];
      r := FailTransaction(id, leader, failure, now);
    }

    method FailTransaction(id: string, leader: string, failure: string, now: int) returns (r: Result<Membership, CohortError>)
      modifies this`cohorts, this`members
      ensures Reply(Db(), r) == B.Fail(old(Db()), id, leader, failure, now)
    {
      if id !in cohorts {
        return Err(UnknownCohort);
      }
      var row := cohorts[id];
      if row.leader != leader {
        return Err(NotLeader);
      }
      if row.revision.Some? {
        return Err(AlreadyResolved);
      }
      var saved := Db();
      if row.state != Failed {
        cohorts := cohorts[id := row.(state := Failed, failure := Some(failure), updatedAt := now, rowVersion := row.rowVersion + 1)];
      }
      r := ReturnLeader(leader, saved);
    }

    /** The leader's membership; its absence fails an assertion and rolls the transaction back. */
    method ReturnLeader(leader: string, saved: Tables) returns (r: Result<Membership, CohortError>)
      modifies this`cohorts, this`members
      ensures Reply(Db(), r) == LeaderReply(old(Db()), leader, saved)
    {
      var m := SelectMember(leader);
      if m.None? {
        Rollback(saved);
        return Err(NotMember);
      }
      return Ok(m.value);
    }

    /** Any one call, whoever makes it; `made` is that call with the query's choice filled in. */
    method Perform(op: Op) returns (r: Result<Membership, CohortError>, ghost made: Op)
      requires Valid()
      modifies this
      ensures Valid() && clock == op.now && log == old(log) + [made]
      ensures old(Timely()) && old(clock) <= op.now ==> Timely()
      ensures Reply(Db(), r) == Apply(old(Db()), made)
      ensures made == if op.OpJoin? && made.OpJoin? then op.(tie := made.tie) else op
    {
      made := op;
      match op
      case OpJoin(key, src, task, window, id, _, now) =>
        ghost var tie;
        r, tie := JoinOrCreate(key, src, task, window, id, now);
        made := op.(tie := tie);
      case OpGet(task, now) => r := GetForTask(task, now);
      case OpResolve(id, leader, raw, now) => r := Resolve(id, leader, raw, now);
      case OpFail(id, leader, failure, now) => r := Fail(id, leader, failure, now);
    }
  }
}
