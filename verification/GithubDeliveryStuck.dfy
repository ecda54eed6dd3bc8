/** The targets that are refused for good, how they get there, and exactly what could free them. */
module GithubDeliveryStuck {
  import opened Prelude
  import opened BranchNames
  import opened GithubDelivery
  import opened GithubDeliveryProofs
  import opened GithubDeliveryRuns

  // ---------- one target ----------

  /** Recording the intent to push this commit, or the push itself, makes the row claim what is on the branch. */
  ghost predicate PushClaims(c: Cell, commit: string, f: TargetFates) {
    if c.branch == Some(commit) then Applied(f.intend) else f.intend.Done? && Applied(f.push) && f.fastForward
  }

  /** An unreadable branch lookup leads to a push that claims the branch. */
  ghost predicate ClaimFrees(c: Cell, f: TargetFates) {
    f.lookup.Done? && f.lookupUnreadable && ((Expected(c) != "" && f.known) || f.build.Done?) && PushClaims(c, Candidate(c, f), f)
  }

  /**
   What frees a stuck target: the attempt gets to an unreadable branch lookup, and either the commit to
   push is the one on the branch, or the remote takes it as a fast-forward.
   */
  ghost predicate Freed(c: Cell, f: TargetFates) { f.ensure.Done? && f.reconcile.Done? && f.list.Done? && ClaimFrees(c, f) }

  lemma {:induction false} PushingFrees(c: Cell, branch: string, commit: string, f: TargetFates)
    requires Stuck(c) && c.row.Some? && commit != ""
    ensures var p := Pushing(c, branch, commit, f);
      !p.Finished? && !Settled(p.c) && p.c.prs == [] && p.c.row.Some? && (p.Thrown? ==> p.commit == commit && Expected(p.c) == commit) &&
      (p.Go? ==> !Stuck(p.c)) && (Stuck(p.c) <==> !PushClaims(c, commit, f))
  {
  }

  lemma {:induction false} BuildingFrees(c: Cell, branch: string, dc: string, f: TargetFates)
    requires Stuck(c) && c.row.Some?
    ensures var p := Building(c, branch, dc, f);
      !p.Finished? && !Settled(p.c) && p.c.prs == [] && p.c.row.Some? && (p.Go? ==> !Stuck(p.c)) &&
      (p.Thrown? ==> if p.commit == "" then Stuck(p.c) else Expected(p.c) == p.commit) &&
      (Stuck(p.c) <==> !(f.build.Done? && PushClaims(c, f.built, f)))
  {
    PushingFrees(Issued(c, Built(dc), f.build), branch, f.built, f);
  }

  lemma {:induction false} ClaimingFrees(c: Cell, branch: string, dc: string, f: TargetFates)
    requires Stuck(c) && c.row.Some?
    ensures var p := Claiming(c, branch, Expected(c), dc, f);
      !p.Finished? && !Settled(p.c) && p.c.prs == [] && p.c.row.Some? && (p.Go? ==> !Stuck(p.c)) &&
      (p.Thrown? ==> if p.commit == "" then Stuck(p.c) else Expected(p.c) == p.commit) &&
      (Stuck(p.c) <==> !ClaimFrees(c, f))
  {
    var c1 := Issued(c, LookedUp, f.lookup);
    if Expected(c) != "" && f.known {
      PushingFrees(c1, branch, Expected(c), f);
    } else {
      BuildingFrees(c1, branch, dc, f);
    }
  }

  /** Until the branch lookup nothing changes for a stuck target. */
  lemma {:induction false} OpeningKeepsStuck(c: Cell, branch: string, f: TargetFates)
    requires Stuck(c)
    ensures var p, o := Opening(c, branch, f), Handled(Opening(c, branch, f), branch, f);
      (p.Go? <==> f.ensure.Done? && f.reconcile.Done? && f.list.Done?) &&
      (p.Go? ==> Stuck(p.c) && p.c.row.Some? && p.c.branch == c.branch && Expected(p.c) == Expected(c)) &&
      (!p.Go? ==> Stuck(o.c) && !o.end.Delivered?)
  {
  }

  /** Recording a failure drops the intent or keeps it as it was pushed: what the row claims stays the same. */
  lemma {:induction false} FailureKeepsClaim(p: Progress, branch: string, f: TargetFates)
    requires !p.Finished? && !p.Go? && !Settled(p.c) && p.c.prs == []
    requires p.Thrown? ==> if p.commit == "" then Stuck(p.c) else Expected(p.c) == p.commit
    ensures var o := Handled(p, branch, f); (Stuck(o.c) <==> Stuck(p.c)) && !o.end.Delivered?
  {
  }

  lemma {:induction false} PublishingKeepsClaim(c: Cell, branch: string, target: string, commit: string, f: TargetFates)
    requires !Stuck(c) && !Settled(c) && c.prs == [] && Expected(c) == commit
    ensures !Stuck(Handled(Publishing(c, branch, target, commit, f), branch, f).c)
  {
  }

  lemma {:induction false} ClaimingCommit(c: Cell, branch: string, dc: string, f: TargetFates)
    requires c.row.Some?
    ensures var p := Claiming(c, branch, Expected(c), dc, f); p.Go? ==> Expected(p.c) == p.commit
  {
  }

  /** A stuck target stays stuck, and is not delivered, exactly unless the attempt frees it. */
  lemma {:induction false} StuckExactlyWhen(c: Cell, branch: string, target: string, dc: string, f: TargetFates)
    requires Stuck(c)
    ensures var o := DeliverCell(c, branch, target, dc, f);
      (Stuck(o.c) <==> !Freed(c, f)) && (!Freed(c, f) ==> !o.end.Delivered?)
  {
    OpeningKeepsStuck(c, branch, f);
    var listed := Opening(c, branch, f);
    if listed.Go? {
      ClaimingFrees(listed.c, branch, dc, f);
      ClaimingCommit(listed.c, branch, dc, f);
      var claimed := Claiming(listed.c, branch, Expected(c), dc, f);
      if claimed.Go? {
        PublishingKeepsClaim(claimed.c, branch, target, claimed.commit, f);
      } else {
        FailureKeepsClaim(claimed, branch, f);
      }
    }
  }

  // ---------- whole worlds ----------

  /** No row of any action claims the target's branch, which has no pull request for it. */
  ghost predicate TargetStuck(w: World, n: Naming, target: string) {
    forall action :: Stuck(CellOf(w, n, Key(action, target)))
  }

  /** The delivery of this row moves the branch; see `BranchMovesExactlyWhen`. */
  ghost predicate Moves(c: Cell, f: TargetFates) {
    c.branch.Some? && ReachesPush(c, f) && f.lookupUnreadable && Applied(f.push) && f.fastForward && Candidate(c, f) != c.branch.value
  }

  /** This delivery frees the target: its own row claims the branch, or another target moves it to a commit one row expects. */
  ghost predicate Unblocks(w: World, n: Naming, target: string, k: Key, f: TargetFates) {
    var c := CellOf(w, n, k);
    if k.target == target then Freed(c, f)
    else n(k.target) == n(target) && Moves(c, f) && exists action :: Expected(CellOf(w, n, Key(action, target))) == Candidate(c, f)
  }

  lemma {:induction false} MovedTo(c: Cell, branch: string, target: string, dc: string, f: TargetFates)
    requires c.branch.Some?
    ensures DeliverCell(c, branch, target, dc, f).c.branch == if Moves(c, f) then Some(Candidate(c, f)) else c.branch
  {
    BranchMovesExactlyWhen(c, branch, target, dc, f);
    var listed := Opening(c, branch, f);
    if listed.Go? && Moves(c, f) {
      OpeningGoesOn(c, branch, f);
      ClaimingMovesTo(listed.c, branch, dc, f);
      var claimed := Claiming(listed.c, branch, Expected(c), dc, f);
      if claimed.Go? {
        PublishingKeepsBranch(claimed.c, branch, target, claimed.commit, f);
      }
    }
  }

  lemma {:induction false} ClaimingMovesTo(c: Cell, branch: string, dc: string, f: TargetFates)
    requires Moves(c, f)
    ensures var p := Claiming(c, branch, Expected(c), dc, f);
      p.c.branch == Some(Candidate(c, f)) && Handled(p, branch, f).c.branch == p.c.branch
  {
  }

  lemma {:induction false} OwnRowExactlyWhen(w: World, n: Naming, k: Key, dc: string, f: TargetFates)
    requires TargetStuck(w, n, k.target)
    ensures var o := DeliverTarget(w, n, k, dc, f);
      (TargetStuck(o.w, n, k.target) <==> !Freed(CellOf(w, n, k), f)) && (!Freed(CellOf(w, n, k), f) ==> !o.end.Delivered?)
  {
    var c := CellOf(w, n, k);
    var o := DeliverCell(c, n(k.target), k.target, dc, f);
    var u := Put(w, n, k, o.c);
    assert k == Key(k.action, k.target) && Stuck(CellOf(w, n, Key(k.action, k.target)));
    PutSame(w, n, k, o.c);
    StuckExactlyWhen(c, n(k.target), k.target, dc, f);
    MovedTo(c, n(k.target), k.target, dc, f);
    if Freed(c, f) {
      assert !Stuck(CellOf(u, n, Key(k.action, k.target)));
    } else {
      forall action ensures Stuck(CellOf(u, n, Key(action, k.target))) {
        assert Stuck(CellOf(w, n, Key(action, k.target)));
        if action != k.action {
          PutOther(w, n, k, o.c, Key(action, k.target));
        }
      }
    }
  }

  lemma {:induction false} OtherRowExactlyWhen(w: World, n: Naming, target: string, k: Key, dc: string, f: TargetFates)
    requires TargetStuck(w, n, target) && k.target != target
    ensures TargetStuck(DeliverTarget(w, n, k, dc, f).w, n, target) <==> !Unblocks(w, n, target, k, f)
  {
    var c := CellOf(w, n, k);
    var o := DeliverCell(c, n(k.target), k.target, dc, f);
    var u := Put(w, n, k, o.c);
    assert Stuck(CellOf(w, n, Key("", target)));
    if c.branch.Some? {
      MovedTo(c, n(k.target), k.target, dc, f);
    }
    forall action ensures var d := CellOf(w, n, Key(action, target));
      CellOf(u, n, Key(action, target)) == d.(branch := if n(target) == n(k.target) then o.c.branch else d.branch)
    {
      PutOther(w, n, k, o.c, Key(action, target));
    }
    if Unblocks(w, n, target, k, f) {
      var action :| Expected(CellOf(w, n, Key(action, target))) == Candidate(c, f);
      assert !Stuck(CellOf(u, n, Key(action, target)));
    } else {
      forall action ensures Stuck(CellOf(u, n, Key(action, target))) {
        assert Stuck(CellOf(w, n, Key(action, target)));
      }
    }
  }

  /** The delivery of any row of any action keeps a stuck target stuck exactly unless it unblocks it. */
  lemma {:induction false} StepExactlyWhen(w: World, n: Naming, target: string, k: Key, dc: string, f: TargetFates)
    requires TargetStuck(w, n, target)
    ensures var o := DeliverTarget(w, n, k, dc, f);
      (TargetStuck(o.w, n, target) <==> !Unblocks(w, n, target, k, f)) &&
      (k.target == target && !Unblocks(w, n, target, k, f) ==> !o.end.Delivered?)
  {
    if k.target == target {
      OwnRowExactlyWhen(w, n, k, dc, f);
    } else {
      OtherRowExactlyWhen(w, n, target, k, dc, f);
    }
  }

  // ---------- over a sweep, an attempt, a run ----------

  ghost predicate SweepStuck(w: World, n: Naming, target: string, action: string, dc: string, plan: seq<TargetPlan>) {
    plan == [] || (
      SweepStuck(w, n, target, action, dc, plan[..|plan| - 1]) && TargetStuck(SweepTargets(w, n, action, dc, plan).w, n, target))
  }

  ghost predicate SweepUnblocks(w: World, n: Naming, target: string, action: string, dc: string, plan: seq<TargetPlan>) {
    plan != [] && (
      var t, before := plan[|plan| - 1], SweepTargets(w, n, action, dc, plan[..|plan| - 1]);
      SweepUnblocks(w, n, target, action, dc, plan[..|plan| - 1]) ||
      (before.complete && Unblocks(before.w, n, target, Key(action, t.target), t.fates)))
  }

  lemma {:induction false} SweepExactlyWhen(w: World, n: Naming, target: string, action: string, dc: string, plan: seq<TargetPlan>)
    requires TargetStuck(w, n, target)
    ensures var s := SweepTargets(w, n, action, dc, plan);
      (SweepStuck(w, n, target, action, dc, plan) <==> !SweepUnblocks(w, n, target, action, dc, plan)) &&
      (SweepStuck(w, n, target, action, dc, plan) ==> TargetStuck(s.w, n, target) && forall r | r in s.delivered :: r.target != target)
  {
    if plan != [] {
      var t := plan[|plan| - 1];
      SweepExactlyWhen(w, n, target, action, dc, plan[..|plan| - 1]);
      var before := SweepTargets(w, n, action, dc, plan[..|plan| - 1]);
      if SweepStuck(w, n, target, action, dc, plan[..|plan| - 1]) && before.complete {
        StepExactlyWhen(before.w, n, target, Key(action, t.target), dc, t.fates);
      }
    }
  }

  /** The attempt unblocks the target at one of its targets. */
  ghost predicate AttemptUnblocks(w: World, n: Naming, target: string, a: Attempt) {
    var p := Prepare(Lookup(w.actions, a.action), a.fates);
    a.plan != [] && p.Prepared? && SweepUnblocks(WithAction(w, a.action, p.action), n, target, a.action, p.commit, a.plan)
  }

  /** The target is stuck after every target of the attempt. */
  ghost predicate AttemptStuck(w: World, n: Naming, target: string, a: Attempt) {
    var p := Prepare(Lookup(w.actions, a.action), a.fates);
    a.plan != [] && p.Prepared? ==> SweepStuck(WithAction(w, a.action, p.action), n, target, a.action, p.commit, a.plan)
  }

  lemma {:induction false} StuckInSameCells(w: World, u: World, n: Naming, target: string)
    requires TargetStuck(w, n, target) && u == w.(actions := u.actions)
    ensures TargetStuck(u, n, target)
  {
    SameCells(w, u, n);
    forall action ensures Stuck(CellOf(u, n, Key(action, target))) {
      assert Stuck(CellOf(w, n, Key(action, target)));
    }
  }

  lemma {:induction false} AttemptExactlyWhen(w: World, n: Naming, target: string, a: Attempt)
    requires TargetStuck(w, n, target)
    ensures AttemptStuck(w, n, target, a) <==> !AttemptUnblocks(w, n, target, a)
    ensures var o := Deliver(w, n, a);
      AttemptStuck(w, n, target, a) ==>
        TargetStuck(o.w, n, target) &&
        (o.end.Reported? && target in Targets(a.plan) ==> target in o.end.failed) &&
        (o.end.Reported? ==> forall r | r in o.end.delivered :: r.target != target)
  {
    var p := Prepare(Lookup(w.actions, a.action), a.fates);
    var v := WithAction(w, a.action, p.action);
    StuckInSameCells(w, v, n, target);
    if a.plan != [] && p.Prepared? {
      SweepExactlyWhen(v, n, target, a.action, p.commit, a.plan);
      if SweepStuck(v, n, target, a.action, p.commit, a.plan) {
        var s := SweepTargets(v, n, a.action, p.commit, a.plan);
        StuckInSameCells(s.w, Deliver(w, n, a).w, n, target);
        if s.complete && target in Targets(a.plan) {
          SweepAccounts(v, n, a.action, p.commit, a.plan, target);
        }
      }
    }
  }

  ghost predicate StuckThroughout(w: World, n: Naming, target: string, attempts: seq<Attempt>)
    decreases |attempts|
  {
    attempts == [] || (AttemptStuck(w, n, target, attempts[0]) && StuckThroughout(Deliver(w, n, attempts[0]).w, n, target, attempts[1..]))
  }

  ghost predicate NeverUnblocked(w: World, n: Naming, target: string, attempts: seq<Attempt>)
    decreases |attempts|
  {
    attempts == [] ||
    (!AttemptUnblocks(w, n, target, attempts[0]) && NeverUnblocked(Deliver(w, n, attempts[0]).w, n, target, attempts[1..]))
  }

  /** Over any run of attempts of any actions, a stuck target stays stuck throughout exactly unless one of them unblocks it. */
  lemma {:induction false} StuckThroughoutExactlyWhen(w: World, n: Naming, target: string, attempts: seq<Attempt>)
    requires TargetStuck(w, n, target)
    ensures StuckThroughout(w, n, target, attempts) <==> NeverUnblocked(w, n, target, attempts)
    ensures StuckThroughout(w, n, target, attempts) ==> TargetStuck(Run(w, n, attempts), n, target)
    decreases |attempts|
  {
    if attempts != [] {
      AttemptExactlyWhen(w, n, target, attempts[0]);
      if AttemptStuck(w, n, target, attempts[0]) {
        StuckThroughoutExactlyWhen(Deliver(w, n, attempts[0]).w, n, target, attempts[1..]);
      }
    }
  }

  /**
   A branch without pull request that no row claims is refused for good: whatever attempts of whatever
   actions follow, as long as none of them unblocks the target, every one that reports on it reports it
   as failed.
   */
  lemma {:induction false} RefusedForGood(w: World, n: Naming, target: string, later: seq<Attempt>, a: Attempt)
    requires TargetStuck(w, n, target) && NeverUnblocked(w, n, target, later) && target in Targets(a.plan)
    requires !AttemptUnblocks(Run(w, n, later), n, target, a)
    ensures var o := Deliver(Run(w, n, later), n, a);
      o.end.Reported? ==> target in o.end.failed && forall r | r in o.end.delivered :: r.target != target
  {
    StuckThroughoutExactlyWhen(w, n, target, later);
    AttemptExactlyWhen(Run(w, n, later), n, target, a);
  }

  // ---------- readable lookups never unblock ----------

  lemma {:induction false} ReadableSweepNeverUnblocks(w: World, n: Naming, target: string, action: string, dc: string,
                                                      plan: seq<TargetPlan>)
    requires ReadablePlan(plan)
    ensures !SweepUnblocks(w, n, target, action, dc, plan)
  {
    if plan != [] {
      ReadableSweepNeverUnblocks(w, n, target, action, dc, plan[..|plan| - 1]);
    }
  }

  /** With readable lookups, no attempt unblocks a target. */
  lemma {:induction false} ReadableNeverUnblocks(w: World, n: Naming, target: string, attempts: seq<Attempt>)
    requires ReadableRun(attempts)
    ensures NeverUnblocked(w, n, target, attempts)
    decreases |attempts|
  {
    if attempts != [] {
      var a := attempts[0];
      var p := Prepare(Lookup(w.actions, a.action), a.fates);
      if p.Prepared? {
        ReadableSweepNeverUnblocks(WithAction(w, a.action, p.action), n, target, a.action, p.commit, a.plan);
      }
      ReadableNeverUnblocks(Deliver(w, n, a).w, n, target, attempts[1..]);
    }
  }

  // ---------- how a target gets there ----------

  /**
   Two targets that share a delivery branch: the first is delivered, the second refused, for good. The
   program's names do this to `release/1` and `release-1`.
   */
  lemma {:induction false} SharedBranchNameLosesTarget(n: Naming, action: string, first: string, second: string, dc: string)
    requires first != second && n(first) == n(second)
    ensures
      var w := DeliverTarget(EMPTY, n, Key(action, first), dc, CALM);
      var v := DeliverTarget(w.w, n, Key(action, second), dc, CALM);
      w.end.Delivered? && v.end == NotDelivered(UnclaimedBranch) && TargetStuck(v.w, n, second)
  {
    var k, l := Key(action, first), Key(action, second);
    var o := DeliverCell(CellOf(EMPTY, n, k), n(first), first, dc, CALM);
    assert o.c.branch == Some("c1");
    PutSame(EMPTY, n, k, o.c);
    var w := DeliverTarget(EMPTY, n, k, dc, CALM);
    forall x ensures CellOf(w.w, n, Key(x, second)) == Cell(None, Some("c1"), [], []) {
      PutOther(EMPTY, n, k, o.c, Key(x, second));
    }
    assert TargetStuck(w.w, n, second);
    StepExactlyWhen(w.w, n, second, l, dc, CALM);
    SmoothAttempt(CellOf(w.w, n, l), n(second), second, dc, CALM);
  }

  lemma {:induction false} ReleaseBranchIsLost(task: string, run: string, action: string, dc: string)
    ensures
      var n := ProgramNaming(task, run);
      var w := DeliverTarget(EMPTY, n, Key(action, "release/1"), dc, CALM);
      var v := DeliverTarget(w.w, n, Key(action, "release-1"), dc, CALM);
      w.end.Delivered? && v.end == NotDelivered(UnclaimedBranch) && TargetStuck(v.w, n, "release-1")
  {
    ReleaseBranchesCollide(task, run);
    SharedBranchNameLosesTarget(ProgramNaming(task, run), action, "release/1", "release-1", dc);
  }

  /**
   A crash right after the push, and then the run's configuration changes: under the new action the
   branch is unclaimed and refused, under the old one it would be delivered.
   */
  lemma {:induction false} ChangedActionRefusesTheBranch(n: Naming, before: string, after: string, target: string, dc: string)
    requires before != after
    ensures
      var w := DeliverTarget(EMPTY, n, Key(before, target), dc, CALM.(push := DiesLate)).w;
      DeliverTarget(w, n, Key(before, target), dc, CALM).end.Delivered? &&
      DeliverTarget(w, n, Key(after, target), dc, CALM).end == NotDelivered(UnclaimedBranch)
  {
    var k, l := Key(before, target), Key(after, target);
    ListingFailureLosesTheBranch(n(target), target, dc);
    var o := DeliverCell(CellOf(EMPTY, n, k), n(target), target, dc, CALM.(push := DiesLate));
    PutSame(EMPTY, n, k, o.c);
    PutOther(EMPTY, n, k, o.c, l);
    var w := DeliverTarget(EMPTY, n, k, dc, CALM.(push := DiesLate)).w;
    assert CellOf(w, n, l) == Cell(None, Some("c1"), [], []);
    SmoothAttempt(CellOf(w, n, l), n(target), target, dc, CALM);
  }
}
