/**
 Which targets a run of attempts delivers in the end: what crashes alone can and cannot cost, the
 targets that share a delivery branch, and the exact condition after any history.
 */
module GithubDeliveryRuns {
  import opened Prelude
  import opened BranchNames
  import opened GithubDelivery
  import opened GithubDeliveryProofs

  // ---------- crash-only attempts of one action ----------

  function Targets(plan: seq<TargetPlan>): set<string> { set p | p in plan :: p.target }

  /** Different targets have different delivery branches. */
  ghost predicate NamesDiffer(n: Naming, ts: set<string>) {
    forall s, t | s in ts && t in ts && n(s) == n(t) :: s == t
  }

  ghost predicate CrashOnlyAttempt(a: Attempt) {
    forall i | 0 <= i < |a.plan| :: CrashOnly(a.plan[i].fates)
  }

  /** Attempts of an action, on some of the targets, that nothing but a crash ever cut short. */
  ghost predicate CrashedOn(attempts: seq<Attempt>, action: string, ts: set<string>) {
    forall i | 0 <= i < |attempts| ::
      attempts[i].action == action && Targets(attempts[i].plan) <= ts && CrashOnlyAttempt(attempts[i])
  }

  /** The rows of the action claim the branches of these targets that have no pull request yet. */
  ghost predicate TargetsClaimed(w: World, n: Naming, action: string, ts: set<string>) {
    forall t | t in ts :: Claimed(CellOf(w, n, Key(action, t)))
  }

  lemma {:induction false} TargetKeepsClaims(w: World, n: Naming, k: Key, ts: set<string>, dc: string, f: TargetFates)
    requires WorldInv(w, n) && TargetsClaimed(w, n, k.action, ts) && NamesDiffer(n, ts) && k.target in ts && CrashOnly(f)
    ensures TargetsClaimed(DeliverTarget(w, n, k, dc, f).w, n, k.action, ts)
  {
    var c := CellOf(w, n, k);
    var o := DeliverCell(c, n(k.target), k.target, dc, f);
    assert Truthful(c);
    assert Claimed(CellOf(w, n, Key(k.action, k.target)));
    ClaimSurvivesExactlyWhen(c, n(k.target), k.target, dc, f);
    PutSame(w, n, k, o.c);
    forall t | t in ts ensures Claimed(CellOf(Put(w, n, k, o.c), n, Key(k.action, t))) {
      assert Claimed(CellOf(w, n, Key(k.action, t)));
      if t != k.target {
        PutOther(w, n, k, o.c, Key(k.action, t));
      }
    }
  }

  lemma {:induction false} SweepKeepsClaims(w: World, n: Naming, action: string, ts: set<string>, dc: string, plan: seq<TargetPlan>)
    requires WorldInv(w, n) && TargetsClaimed(w, n, action, ts) && NamesDiffer(n, ts) && Targets(plan) <= ts
    requires forall i | 0 <= i < |plan| :: CrashOnly(plan[i].fates)
    ensures TargetsClaimed(SweepTargets(w, n, action, dc, plan).w, n, action, ts)
  {
    if plan != [] {
      var t := plan[|plan| - 1];
      TargetsOfPrefix(plan);
      SweepKeepsClaims(w, n, action, ts, dc, plan[..|plan| - 1]);
      SweepStep(w, n, action, dc, plan[..|plan| - 1]);
      var before := SweepTargets(w, n, action, dc, plan[..|plan| - 1]);
      TargetKeepsClaims(before.w, n, Key(action, t.target), ts, dc, t.fates);
    }
  }

  lemma {:induction false} TargetsOfPrefix(plan: seq<TargetPlan>)
    requires plan != []
    ensures Targets(plan) == Targets(plan[..|plan| - 1]) + {plan[|plan| - 1].target}
  {
    assert plan == plan[..|plan| - 1] + [plan[|plan| - 1]];
  }

  lemma {:induction false} AttemptKeepsClaims(w: World, n: Naming, a: Attempt, ts: set<string>)
    requires WorldInv(w, n) && TargetsClaimed(w, n, a.action, ts) && NamesDiffer(n, ts)
    requires Targets(a.plan) <= ts && CrashOnlyAttempt(a)
    ensures TargetsClaimed(Deliver(w, n, a).w, n, a.action, ts)
  {
    var p := Prepare(Lookup(w.actions, a.action), a.fates);
    var v := WithAction(w, a.action, p.action);
    SameCells(w, v, n);
    assert TargetsClaimed(v, n, a.action, ts);
    if a.plan != [] && p.Prepared? {
      SweepKeepsClaims(v, n, a.action, ts, p.commit, a.plan);
      SameCells(SweepTargets(v, n, a.action, p.commit, a.plan).w, Deliver(w, n, a).w, n);
    }
  }

  lemma {:induction false} RunKeepsClaims(w: World, n: Naming, action: string, ts: set<string>, attempts: seq<Attempt>)
    requires WorldInv(w, n) && TargetsClaimed(w, n, action, ts) && NamesDiffer(n, ts) && CrashedOn(attempts, action, ts)
    ensures TargetsClaimed(Run(w, n, attempts), n, action, ts)
    decreases |attempts|
  {
    if attempts != [] {
      AttemptKeepsClaims(w, n, attempts[0], ts);
      AttemptStep(w, n, attempts[0]);
      RunKeepsClaims(Deliver(w, n, attempts[0]).w, n, action, ts, attempts[1..]);
    }
  }

  ghost predicate SmoothAttemptPlan(a: Attempt) {
    a.plan != [] && (forall i | 0 <= i < |a.plan| :: Smooth(a.plan[i].fates)) &&
    a.fates.ensure.Done? && a.fates.start.Done? && a.fates.refresh.Done? && a.fates.build.Done? &&
    a.fates.keep.Done? && a.fates.finish.Done? && !a.fates.manifestMissing
  }

  function TargetsOf(reports: seq<TargetReport>): seq<string> { seq(|reports|, i requires 0 <= i < |reports| => reports[i].target) }

  function PlannedTargets(plan: seq<TargetPlan>): seq<string> { seq(|plan|, i requires 0 <= i < |plan| => plan[i].target) }

  lemma {:induction false} OneMoreReport(reports: seq<TargetReport>, x: TargetReport, plan: seq<TargetPlan>)
    requires plan != [] && x.target == plan[|plan| - 1].target && TargetsOf(reports) == PlannedTargets(plan[..|plan| - 1])
    ensures TargetsOf(reports + [x]) == PlannedTargets(plan)
  {
    assert TargetsOf(reports + [x]) == TargetsOf(reports) + [x.target];
    assert PlannedTargets(plan) == PlannedTargets(plan[..|plan| - 1]) + [x.target];
  }

  lemma {:induction false} SweepDelivers(w: World, n: Naming, action: string, dc: string, plan: seq<TargetPlan>)
    requires plan != []
    ensures var t, before, s := plan[|plan| - 1], SweepTargets(w, n, action, dc, plan[..|plan| - 1]), SweepTargets(w, n, action, dc, plan);
      before.complete && DeliverTarget(before.w, n, Key(action, t.target), dc, t.fates).end.Delivered? ==>
        s.complete && s.failed == before.failed && exists x: TargetReport :: x.target == t.target && s.delivered == before.delivered + [x]
  {
    var t := plan[|plan| - 1];
    var end := DeliverTarget(SweepTargets(w, n, action, dc, plan[..|plan| - 1]).w, n, Key(action, t.target), dc, t.fates).end;
    if end.Delivered? {
      var x := TargetReport(t.target, end.url, end.adopted);
      assert x.target == t.target;
    }
  }

  lemma {:induction false} SmoothSweep(w: World, n: Naming, action: string, ts: set<string>, dc: string, plan: seq<TargetPlan>)
    requires WorldInv(w, n) && TargetsClaimed(w, n, action, ts) && NamesDiffer(n, ts) && Targets(plan) <= ts
    requires forall i | 0 <= i < |plan| :: Smooth(plan[i].fates)
    ensures var s := SweepTargets(w, n, action, dc, plan);
      s.complete && s.failed == [] && TargetsOf(s.delivered) == PlannedTargets(plan)
  {
    if plan != [] {
      var t := plan[|plan| - 1];
      var shorter := plan[..|plan| - 1];
      TargetsOfPrefix(plan);
      SmoothSweep(w, n, action, ts, dc, shorter);
      SweepKeepsClaims(w, n, action, ts, dc, shorter);
      SweepStep(w, n, action, dc, shorter);
      SmoothTarget(SweepTargets(w, n, action, dc, shorter).w, n, Key(action, t.target), ts, dc, t.fates);
      SweepDelivers(w, n, action, dc, plan);
      var before := SweepTargets(w, n, action, dc, shorter).delivered;
      var x: TargetReport :| x.target == t.target && SweepTargets(w, n, action, dc, plan).delivered == before + [x];
      OneMoreReport(before, x, plan);
    }
  }

  lemma {:induction false} SmoothTarget(w: World, n: Naming, k: Key, ts: set<string>, dc: string, f: TargetFates)
    requires WorldInv(w, n) && TargetsClaimed(w, n, k.action, ts) && k.target in ts && Smooth(f)
    ensures DeliverTarget(w, n, k, dc, f).end.Delivered?
  {
    var c := CellOf(w, n, k);
    assert Truthful(c);
    assert Claimed(CellOf(w, n, Key(k.action, k.target)));
    SmoothAttempt(c, n(k.target), k.target, dc, f);
  }

  /**
   If attempts only ever crash (between any two writes or calls) and their targets have branches of
   their own, nothing is lost: the next failure-free attempt delivers every one of its targets.
   */
  lemma {:induction false} CrashesNeverBlockDelivery(n: Naming, crashed: seq<Attempt>, a: Attempt, ts: set<string>)
    requires CrashedOn(crashed, a.action, ts) && Targets(a.plan) <= ts && NamesDiffer(n, ts) && SmoothAttemptPlan(a)
    ensures var o := Deliver(Run(EMPTY, n, crashed), n, a);
      o.end.Reported? && o.end.failed == [] && TargetsOf(o.end.delivered) == PlannedTargets(a.plan)
  {
    RunStep(EMPTY, n, crashed);
    RunKeepsClaims(EMPTY, n, a.action, ts, crashed);
    var w := Run(EMPTY, n, crashed);
    var p := Prepare(Lookup(w.actions, a.action), a.fates);
    var v := WithAction(w, a.action, p.action);
    SameCells(w, v, n);
    assert TargetsClaimed(v, n, a.action, ts);
    SmoothSweep(v, n, a.action, ts, p.commit, a.plan);
  }

  // ---------- whose commit a branch holds ----------

  /** The target for which each commit was built. */
  type Ownership = string -> string

  /** The row expects only a commit built for its target, and so is the branch of its pull request. */
  ghost predicate Owned(c: Cell, target: string, own: Ownership) {
    (Expected(c) != "" ==> own(Expected(c)) == target) &&
    (c.prs != [] ==> c.branch.Some? && own(c.branch.value) == target)
  }

  ghost predicate BuildsOwn(plan: seq<TargetPlan>, own: Ownership) {
    forall i | 0 <= i < |plan| :: own(plan[i].fates.built) == plan[i].target && !plan[i].fates.lookupUnreadable
  }

  lemma {:induction false} PushingOwned(c: Cell, branch: string, target: string, commit: string, f: TargetFates, own: Ownership)
    requires Owned(c, target, own) && c.row.Some? && c.branch.None? && commit != "" && own(commit) == target
    ensures var p := Pushing(c, branch, commit, f);
      Owned(p.c, target, own) && (p.c.branch.Some? ==> own(p.c.branch.value) == target) && (p.Go? ==> p.c.branch.Some?) &&
      (p.Go? || p.Thrown? ==> p.commit == commit) && p.c.prs == c.prs
  {
  }

  lemma {:induction false} ClaimingOwned(c: Cell, branch: string, target: string, dc: string, f: TargetFates, own: Ownership)
    requires Owned(c, target, own) && c.row.Some? && c.prs == [] && !f.lookupUnreadable && own(f.built) == target
    ensures var p := Claiming(c, branch, Expected(c), dc, f);
      Owned(p.c, target, own) && p.c.prs == [] && (c.branch.Some? ==> p.c.branch == c.branch) &&
      (p.Go? ==> p.commit != "" && own(p.commit) == target && p.c.branch.Some? && own(p.c.branch.value) == target) &&
      (p.Thrown? && p.commit != "" ==> own(p.commit) == target)
  {
    var c1 := Issued(c, LookedUp, f.lookup);
    if c.branch.None? {
      if Expected(c) != "" {
        PushingOwned(c1, branch, target, Expected(c), f, own);
      }
      PushingOwned(Issued(c1, Built(dc), f.build), branch, target, f.built, f, own);
    }
  }

  lemma {:induction false} PublishingOwned(c: Cell, branch: string, target: string, commit: string, f: TargetFates, own: Ownership)
    requires Owned(c, target, own) && c.prs == [] && commit != "" && own(commit) == target
    requires c.branch.Some? && own(c.branch.value) == target
    ensures Owned(Handled(Publishing(c, branch, target, commit, f), branch, f).c, target, own)
  {
  }

  lemma {:induction false} HandledOwned(p: Progress, branch: string, target: string, f: TargetFates, own: Ownership)
    requires Owned(p.c, target, own) && !p.Go? && (p.Thrown? && p.commit != "" ==> own(p.commit) == target)
    ensures Owned(Handled(p, branch, f).c, target, own)
  {
  }

  lemma {:induction false} OpeningOwned(c: Cell, branch: string, target: string, f: TargetFates, own: Ownership)
    requires Owned(c, target, own)
    ensures var p := Opening(c, branch, f);
      Owned(p.c, target, own) && (p.Thrown? ==> p.commit == "") && (p.Go? ==> p.c.row.Some?)
  {
  }

  lemma {:induction false} CellStaysOwned(c: Cell, branch: string, target: string, dc: string, f: TargetFates, own: Ownership)
    requires Truthful(c) && Owned(c, target, own) && !f.lookupUnreadable && own(f.built) == target
    ensures Owned(DeliverCell(c, branch, target, dc, f).c, target, own)
  {
    OpeningOwned(c, branch, target, f, own);
    var listed := Opening(c, branch, f);
    if listed.Go? {
      OpeningGoesOn(c, branch, f);
      ClaimingOwned(listed.c, branch, target, dc, f, own);
      var claimed := Claiming(listed.c, branch, Expected(c), dc, f);
      if claimed.Go? {
        PublishingOwned(claimed.c, branch, target, claimed.commit, f, own);
      } else {
        HandledOwned(claimed, branch, target, f, own);
      }
    } else {
      HandledOwned(listed, branch, target, f, own);
    }
  }

  ghost predicate TargetsOwned(w: World, n: Naming, action: string, own: Ownership) {
    forall t :: Owned(CellOf(w, n, Key(action, t)), t, own)
  }

  lemma {:induction false} TargetKeepsOwned(w: World, n: Naming, k: Key, dc: string, f: TargetFates, own: Ownership)
    requires WorldInv(w, n) && TargetsOwned(w, n, k.action, own) && !f.lookupUnreadable && own(f.built) == k.target
    ensures TargetsOwned(DeliverTarget(w, n, k, dc, f).w, n, k.action, own)
  {
    var c := CellOf(w, n, k);
    var o := DeliverCell(c, n(k.target), k.target, dc, f);
    assert Truthful(c) && Owned(CellOf(w, n, Key(k.action, k.target)), k.target, own);
    CellStaysOwned(c, n(k.target), k.target, dc, f, own);
    PutSame(w, n, k, o.c);
    if c.branch.Some? {
      BranchMovesExactlyWhen(c, n(k.target), k.target, dc, f);
    }
    forall t ensures Owned(CellOf(Put(w, n, k, o.c), n, Key(k.action, t)), t, own) {
      assert Owned(CellOf(w, n, Key(k.action, t)), t, own);
      if t != k.target {
        PutOther(w, n, k, o.c, Key(k.action, t));
      }
    }
  }

  lemma {:induction false} SweepKeepsOwned(w: World, n: Naming, action: string, dc: string, plan: seq<TargetPlan>, own: Ownership)
    requires WorldInv(w, n) && TargetsOwned(w, n, action, own) && BuildsOwn(plan, own)
    ensures TargetsOwned(SweepTargets(w, n, action, dc, plan).w, n, action, own)
  {
    if plan != [] {
      var t := plan[|plan| - 1];
      SweepKeepsOwned(w, n, action, dc, plan[..|plan| - 1], own);
      SweepStep(w, n, action, dc, plan[..|plan| - 1]);
      TargetKeepsOwned(SweepTargets(w, n, action, dc, plan[..|plan| - 1]).w, n, Key(action, t.target), dc, t.fates, own);
    }
  }

  lemma {:induction false} AttemptKeepsOwned(w: World, n: Naming, a: Attempt, own: Ownership)
    requires WorldInv(w, n) && TargetsOwned(w, n, a.action, own) && BuildsOwn(a.plan, own)
    ensures TargetsOwned(Deliver(w, n, a).w, n, a.action, own)
  {
    var p := Prepare(Lookup(w.actions, a.action), a.fates);
    var v := WithAction(w, a.action, p.action);
    SameCells(w, v, n);
    assert TargetsOwned(v, n, a.action, own);
    if a.plan != [] && p.Prepared? {
      SweepKeepsOwned(v, n, a.action, p.commit, a.plan, own);
      SameCells(SweepTargets(v, n, a.action, p.commit, a.plan).w, Deliver(w, n, a).w, n);
    }
  }

  lemma {:induction false} RunKeepsOwned(w: World, n: Naming, action: string, attempts: seq<Attempt>, own: Ownership)
    requires WorldInv(w, n) && TargetsOwned(w, n, action, own)
    requires forall i | 0 <= i < |attempts| :: attempts[i].action == action && BuildsOwn(attempts[i].plan, own)
    ensures TargetsOwned(Run(w, n, attempts), n, action, own)
    decreases |attempts|
  {
    if attempts != [] {
      AttemptKeepsOwned(w, n, attempts[0], own);
      AttemptStep(w, n, attempts[0]);
      RunKeepsOwned(Deliver(w, n, attempts[0]).w, n, action, attempts[1..], own);
    }
  }

  // ---------- when everything is delivered ----------

  /** A failure-free target is delivered or refused, never cut short. */
  lemma {:induction false} SmoothTargetEnds(c: Cell, branch: string, target: string, dc: string, f: TargetFates)
    requires Smooth(f)
    ensures !DeliverCell(c, branch, target, dc, f).end.Interrupted?
  {
    var listed := Opening(c, branch, f);
    if listed.Go? {
      SmoothClaim(listed.c, branch, Expected(c), dc, f);
    }
  }

  /** A sweep that was not cut short accounts for every target. */
  lemma {:induction false} SweepAccounts(w: World, n: Naming, action: string, dc: string, plan: seq<TargetPlan>, t: string)
    requires t in Targets(plan)
    ensures var s := SweepTargets(w, n, action, dc, plan); s.complete ==> t in s.failed || exists r :: r in s.delivered && r.target == t
  {
    var shorter := plan[..|plan| - 1];
    TargetsOfPrefix(plan);
    var before, s := SweepTargets(w, n, action, dc, shorter), SweepTargets(w, n, action, dc, plan);
    var last := plan[|plan| - 1];
    var o := DeliverTarget(before.w, n, Key(action, last.target), dc, last.fates);
    if !s.complete {
      return;
    }
    if t == last.target {
      if o.end.Delivered? {
        assert TargetReport(t, o.end.url, o.end.adopted) in s.delivered;
      }
    } else {
      SweepAccounts(w, n, action, dc, shorter, t);
      if r :| r in before.delivered && r.target == t {
        assert r in s.delivered;
      }
    }
  }

  lemma {:induction false} SmoothSweepCompletes(w: World, n: Naming, action: string, dc: string, plan: seq<TargetPlan>)
    requires forall i | 0 <= i < |plan| :: Smooth(plan[i].fates)
    ensures SweepTargets(w, n, action, dc, plan).complete
  {
    if plan != [] {
      var t := plan[|plan| - 1];
      SmoothSweepCompletes(w, n, action, dc, plan[..|plan| - 1]);
      var u := SweepTargets(w, n, action, dc, plan[..|plan| - 1]).w;
      SmoothTargetEnds(CellOf(u, n, Key(action, t.target)), n(t.target), t.target, dc, t.fates);
    }
  }

  /** Delivered targets of one action have branches of their own. */
  lemma {:induction false} DeliveredNamesDiffer(w: World, n: Naming, action: string, ts: set<string>, own: Ownership)
    requires TargetsOwned(w, n, action, own)
    requires forall t | t in ts :: CellOf(w, n, Key(action, t)).prs != []
    ensures NamesDiffer(n, ts)
  {
    forall s, t | s in ts && t in ts && n(s) == n(t) ensures s == t {
      assert Owned(CellOf(w, n, Key(action, s)), s, own) && Owned(CellOf(w, n, Key(action, t)), t, own);
    }
  }

  /**
   After attempts on its own targets that only crashed, a failure-free attempt reports no failure
   exactly when different targets have different delivery branches. A commit is built for one target:
   `SharedCommitSharesBranch` shows that this is needed.
   */
  lemma {:induction false} AllDeliveredExactlyWhen(n: Naming, crashed: seq<Attempt>, a: Attempt, own: Ownership)
    requires CrashedOn(crashed, a.action, Targets(a.plan)) && SmoothAttemptPlan(a)
    requires BuildsOwn(a.plan, own) && forall i | 0 <= i < |crashed| :: BuildsOwn(crashed[i].plan, own)
    ensures var o := Deliver(Run(EMPTY, n, crashed), n, a);
      o.end.Reported? && (o.end.failed == [] <==> NamesDiffer(n, Targets(a.plan)))
  {
    if NamesDiffer(n, Targets(a.plan)) {
      CrashesNeverBlockDelivery(n, crashed, a, Targets(a.plan));
    } else {
      SharedNamesFail(n, crashed, a, own);
    }
  }

  /** Two targets that share a branch are both delivered when the same commit was built for both before one crashed. */
  lemma {:induction false} SharedCommitSharesBranch(n: Naming, action: string, s: string, t: string, dc: string)
    requires s != t && n(s) == n(t)
    ensures
      var w := DeliverTarget(EMPTY, n, Key(action, t), dc, CALM.(intend := DiesLate)).w;
      var u := DeliverTarget(w, n, Key(action, s), dc, CALM);
      u.end.Delivered? && DeliverTarget(u.w, n, Key(action, t), dc, CALM).end.Delivered?
  {
    var k, l := Key(action, s), Key(action, t);
    var d := DeliverCell(CellOf(EMPTY, n, l), n(t), t, dc, CALM.(intend := DiesLate)).c;
    var w := Put(EMPTY, n, l, d);
    PutSame(EMPTY, n, l, d);
    PutOther(EMPTY, n, l, d, k);
    assert Expected(d) == "c1" && d.branch.None? && d.prs == [] && CellOf(w, n, k) == Cell(None, None, [], []);
    var e := DeliverCell(CellOf(w, n, k), n(s), s, dc, CALM).c;
    SmoothBranch(CellOf(w, n, k), n(s), s, dc, CALM);
    PutSame(w, n, k, e);
    PutOther(w, n, k, e, l);
    var c := CellOf(Put(w, n, k, e), n, l);
    assert c == d.(branch := Some("c1"));
    SmoothAttempt(c, n(t), t, dc, CALM);
  }

  lemma {:induction false} SharedNamesFail(n: Naming, crashed: seq<Attempt>, a: Attempt, own: Ownership)
    requires CrashedOn(crashed, a.action, Targets(a.plan)) && SmoothAttemptPlan(a)
    requires BuildsOwn(a.plan, own) && forall i | 0 <= i < |crashed| :: BuildsOwn(crashed[i].plan, own)
    requires !NamesDiffer(n, Targets(a.plan))
    ensures var o := Deliver(Run(EMPTY, n, crashed), n, a); o.end.Reported? && o.end.failed != []
  {
    RunStep(EMPTY, n, crashed);
    RunKeepsOwned(EMPTY, n, a.action, crashed, own);
    var w := Run(EMPTY, n, crashed);
    var p := Prepare(Lookup(w.actions, a.action), a.fates);
    var v := WithAction(w, a.action, p.action);
    SameCells(w, v, n);
    assert TargetsOwned(v, n, a.action, own);
    SmoothSweepCompletes(v, n, a.action, p.commit, a.plan);
    SweepKeepsOwned(v, n, a.action, p.commit, a.plan, own);
    SomeTargetFails(v, n, a.action, p.commit, a.plan, own);
  }

  lemma {:induction false} SomeTargetFails(w: World, n: Naming, action: string, dc: string, plan: seq<TargetPlan>, own: Ownership)
    requires WorldInv(w, n) && !NamesDiffer(n, Targets(plan))
    ensures var s := SweepTargets(w, n, action, dc, plan); s.complete && TargetsOwned(s.w, n, action, own) ==> s.failed != []
  {
    var s := SweepTargets(w, n, action, dc, plan);
    if !s.complete || !TargetsOwned(s.w, n, action, own) {
      return;
    }
    SweepStep(w, n, action, dc, plan);
    if forall t | t in Targets(plan) :: CellOf(s.w, n, Key(action, t)).prs != [] {
      DeliveredNamesDiffer(s.w, n, action, Targets(plan), own);
    }
    var t :| t in Targets(plan) && CellOf(s.w, n, Key(action, t)).prs == [];
    SweepAccounts(w, n, action, dc, plan, t);
  }

  // ---------- from any history ----------

  /** The commit on a branch after a failure-free sweep that delivers all its targets, told by the state before it. */
  function BranchAfter(w: World, n: Naming, action: string, plan: seq<TargetPlan>, b: string): Option<string> {
    if plan == [] then Lookup(w.branches, b) else
    var t := plan[|plan| - 1];
    var c, before := CellOf(w, n, Key(action, t.target)), BranchAfter(w, n, action, plan[..|plan| - 1], b);
    if before.None? && n(t.target) == b && c.prs == [] then Some(Candidate(c, t.fates)) else before
  }

  /** Each target comes a second time, has a pull request, finds its branch free, or claims the commit it will find there. */
  predicate Deliverable(w: World, n: Naming, action: string, plan: seq<TargetPlan>) {
    plan == [] || (
      var t, shorter := plan[|plan| - 1], plan[..|plan| - 1];
      var c, before := CellOf(w, n, Key(action, t.target)), BranchAfter(w, n, action, shorter, n(t.target));
      Deliverable(w, n, action, shorter) &&
      (t.target in Targets(shorter) || c.prs != [] || before.None? || before == Some(Expected(c))))
  }

  /** How far a sweep over these targets has got: delivered ones are settled, the others untouched but for their branches. */
  ghost predicate SweptTo(w: World, u: World, n: Naming, action: string, plan: seq<TargetPlan>) {
    (forall b :: Lookup(u.branches, b) == BranchAfter(w, n, action, plan, b)) &&
    forall t :: (if t in Targets(plan) then Settled(CellOf(u, n, Key(action, t))) else SameButBranch(w, u, n, Key(action, t)))
  }

  ghost predicate SameButBranch(w: World, u: World, n: Naming, k: Key) {
    CellOf(u, n, k).row == CellOf(w, n, k).row && CellOf(u, n, k).prs == CellOf(w, n, k).prs
  }

  /** A target that had no pull request has a branch once the sweep went over it. */
  lemma {:induction false} SweptBranch(w: World, n: Naming, action: string, plan: seq<TargetPlan>, t: string)
    requires t in Targets(plan) && CellOf(w, n, Key(action, t)).prs == []
    ensures BranchAfter(w, n, action, plan, n(t)).Some?
  {
    TargetsOfPrefix(plan);
    if t in Targets(plan[..|plan| - 1]) {
      SweptBranch(w, n, action, plan[..|plan| - 1], t);
    }
  }

  /** Where a failure-free attempt leaves the branch of a target that it delivers. */
  lemma {:induction false} SmoothBranch(c: Cell, branch: string, target: string, dc: string, f: TargetFates)
    requires Truthful(c) && Smooth(f)
    ensures DeliverCell(c, branch, target, dc, f).c.branch ==
      if c.prs == [] && c.branch.None? then Some(Candidate(c, f)) else c.branch
  {
    var listed := Opening(c, branch, f);
    OpeningReaches(c, branch, f);
    if c.branch.Some? {
      BranchMovesExactlyWhen(c, branch, target, dc, f);
    } else if listed.Go? {
      OpeningGoesOn(c, branch, f);
      SmoothPush(listed.c, branch, dc, f);
      var claimed := Claiming(listed.c, branch, Expected(c), dc, f);
      PublishingKeepsBranch(claimed.c, branch, target, claimed.commit, f);
    }
  }

  lemma {:induction false} SmoothPush(c: Cell, branch: string, dc: string, f: TargetFates)
    requires Smooth(f) && c.branch.None?
    ensures var p := Claiming(c, branch, Expected(c), dc, f); p.Go? && p.c.branch == Some(Candidate(c, f))
  {
  }

  lemma {:induction false} SmoothCell(c: Cell, branch: string, target: string, dc: string, f: TargetFates)
    requires Truthful(c) && Smooth(f)
    ensures var o := DeliverCell(c, branch, target, dc, f);
      (o.end.Delivered? <==> Claimed(c)) && (o.end.Delivered? ==> Settled(o.c)) &&
      o.c.branch == (if c.prs == [] && c.branch.None? then Some(Candidate(c, f)) else c.branch)
  {
    SmoothAttempt(c, branch, target, dc, f);
    SmoothBranch(c, branch, target, dc, f);
    CellStep(c, branch, target, dc, f);
  }

  /** What the sweep finds at its next target, told by the state before the sweep. */
  lemma {:induction false} SweptNext(w: World, u: World, n: Naming, action: string, plan: seq<TargetPlan>)
    requires plan != [] && WorldInv(u, n) && SweptTo(w, u, n, action, plan[..|plan| - 1]) && Deliverable(w, n, action, plan[..|plan| - 1])
    ensures var t := plan[|plan| - 1];
      var c := CellOf(u, n, Key(action, t.target));
      (Claimed(c) <==> Deliverable(w, n, action, plan)) &&
      BranchAfter(w, n, action, plan, n(t.target)) ==
        if c.prs == [] && c.branch.None? then Some(Candidate(c, t.fates)) else c.branch
  {
    var t, shorter := plan[|plan| - 1], plan[..|plan| - 1];
    var k := Key(action, t.target);
    var c := CellOf(u, n, k);
    assert Truthful(c);
    assert c.branch == BranchAfter(w, n, action, shorter, n(t.target));
    if t.target !in Targets(shorter) {
      assert SameButBranch(w, u, n, k);
    } else if CellOf(w, n, k).prs == [] {
      SweptBranch(w, n, action, shorter, t.target);
    }
  }

  /** One more target of a sweep that delivered all before. */
  lemma {:induction false} SweptOneMore(w: World, u: World, n: Naming, action: string, dc: string, plan: seq<TargetPlan>)
    requires plan != [] && WorldInv(u, n) && Smooth(plan[|plan| - 1].fates) && SweptTo(w, u, n, action, plan[..|plan| - 1])
    requires Deliverable(w, n, action, plan[..|plan| - 1])
    ensures var t := plan[|plan| - 1];
      var o := DeliverTarget(u, n, Key(action, t.target), dc, t.fates);
      (o.end.Delivered? <==> Deliverable(w, n, action, plan)) && (o.end.Delivered? ==> SweptTo(w, o.w, n, action, plan))
  {
    var t := plan[|plan| - 1];
    var c := CellOf(u, n, Key(action, t.target));
    var o := DeliverCell(c, n(t.target), t.target, dc, t.fates);
    assert Truthful(c);
    SmoothCell(c, n(t.target), t.target, dc, t.fates);
    SweptNext(w, u, n, action, plan);
    if o.end.Delivered? {
      SweptPut(w, u, n, action, plan, o.c);
    }
  }

  lemma {:induction false} SweptPut(w: World, u: World, n: Naming, action: string, plan: seq<TargetPlan>, d: Cell)
    requires plan != [] && SweptTo(w, u, n, action, plan[..|plan| - 1]) && Settled(d)
    requires var t := plan[|plan| - 1].target; d.branch == BranchAfter(w, n, action, plan, n(t))
    ensures SweptTo(w, Put(u, n, Key(action, plan[|plan| - 1].target), d), n, action, plan)
  {
    var k := Key(action, plan[|plan| - 1].target);
    var v := Put(u, n, k, d);
    TargetsOfPrefix(plan);
    PutSame(u, n, k, d);
    forall b ensures Lookup(v.branches, b) == BranchAfter(w, n, action, plan, b) {
    }
    forall t ensures if t in Targets(plan) then Settled(CellOf(v, n, Key(action, t))) else SameButBranch(w, v, n, Key(action, t)) {
      if t != k.target {
        PutOther(u, n, k, d, Key(action, t));
        assert t in Targets(plan) <==> t in Targets(plan[..|plan| - 1]);
        assert t !in Targets(plan) ==> SameButBranch(w, u, n, Key(action, t));
      }
    }
  }

  lemma {:induction false} SweepFailures(w: World, n: Naming, action: string, dc: string, plan: seq<TargetPlan>)
    requires plan != []
    ensures var t, before, s := plan[|plan| - 1], SweepTargets(w, n, action, dc, plan[..|plan| - 1]), SweepTargets(w, n, action, dc, plan);
      var o := DeliverTarget(before.w, n, Key(action, t.target), dc, t.fates);
      before.complete && s.complete ==> s.w == o.w && (s.failed == [] <==> before.failed == [] && o.end.Delivered?)
  {
  }

  /** A failure-free sweep reports no failure exactly when its targets are deliverable where it starts. */
  lemma {:induction false} SweepDeliversExactlyWhen(w: World, n: Naming, action: string, dc: string, plan: seq<TargetPlan>)
    requires WorldInv(w, n) && forall i | 0 <= i < |plan| :: Smooth(plan[i].fates)
    ensures var s := SweepTargets(w, n, action, dc, plan);
      s.complete && (s.failed == [] <==> Deliverable(w, n, action, plan)) && (s.failed == [] ==> SweptTo(w, s.w, n, action, plan))
  {
    SmoothSweepCompletes(w, n, action, dc, plan);
    if plan == [] {
      assert Targets(plan) == {};
    } else {
      var shorter := plan[..|plan| - 1];
      SweepDeliversExactlyWhen(w, n, action, dc, shorter);
      SmoothSweepCompletes(w, n, action, dc, shorter);
      assert WorldInv(SweepTargets(w, n, action, dc, shorter).w, n) by {
        SweepStep(w, n, action, dc, shorter);
      }
      SweepFailures(w, n, action, dc, plan);
      var before := SweepTargets(w, n, action, dc, shorter);
      if before.failed == [] {
        SweptOneMore(w, before.w, n, action, dc, plan);
      }
    }
  }

  lemma {:induction false} SameDeliverable(w: World, v: World, n: Naming, action: string, plan: seq<TargetPlan>)
    requires v == w.(actions := v.actions)
    ensures Deliverable(v, n, action, plan) == Deliverable(w, n, action, plan)
    ensures forall b :: BranchAfter(v, n, action, plan, b) == BranchAfter(w, n, action, plan, b)
  {
    SameCells(w, v, n);
    if plan != [] {
      SameDeliverable(w, v, n, action, plan[..|plan| - 1]);
    }
  }

  /**
   After any history of attempts, of any actions and however they ended, a failure-free attempt reports no
   failure exactly when each of its targets has a pull request, finds its branch free, or is recorded in
   its row as the owner of the commit it will find there.
   */
  lemma {:induction false} EverythingDeliveredExactlyWhen(n: Naming, earlier: seq<Attempt>, a: Attempt)
    requires SmoothAttemptPlan(a)
    ensures var w := Run(EMPTY, n, earlier);
      var o := Deliver(w, n, a);
      o.end.Reported? && (o.end.failed == [] <==> Deliverable(w, n, a.action, a.plan))
  {
    RunStep(EMPTY, n, earlier);
    var w := Run(EMPTY, n, earlier);
    var p := Prepare(Lookup(w.actions, a.action), a.fates);
    var v := WithAction(w, a.action, p.action);
    SameCells(w, v, n);
    SameDeliverable(w, v, n, a.action, a.plan);
    SweepDeliversExactlyWhen(v, n, a.action, p.commit, a.plan);
  }

  // ---------- the names the program gives ----------

  function ProgramNaming(task: string, run: string): Naming { target => DeliveryBranch(task, run, target) }

  /** With the program's names: no failure exactly when no two targets are sanitized to the same name. */
  lemma {:induction false} AllDeliveredWithProgramNames(task: string, run: string, crashed: seq<Attempt>, a: Attempt, own: Ownership)
    requires CrashedOn(crashed, a.action, Targets(a.plan)) && SmoothAttemptPlan(a)
    requires BuildsOwn(a.plan, own) && forall i | 0 <= i < |crashed| :: BuildsOwn(crashed[i].plan, own)
    ensures var n := ProgramNaming(task, run);
      var o := Deliver(Run(EMPTY, n, crashed), n, a);
      o.end.Reported? && (o.end.failed == [] <==>
        forall s, t | s in Targets(a.plan) && t in Targets(a.plan) && SafeComponent(s) == SafeComponent(t) :: s == t)
  {
    var n := ProgramNaming(task, run);
    AllDeliveredExactlyWhen(n, crashed, a, own);
    forall s, t ensures n(s) == n(t) <==> SafeComponent(s) == SafeComponent(t) {
      SameBranchExactlyWhen(task, run, s, t);
    }
  }
}
