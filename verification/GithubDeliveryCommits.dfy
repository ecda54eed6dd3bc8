/** Which delivery commit an attempt builds its targets from, what it records, and what its rows say. */
module GithubDeliveryCommits {
  import opened Prelude
  import opened GithubDelivery
  import opened GithubDeliveryProofs

  // ---------- the calls of one target ----------

  /** The log only grows, and what is built is built from this delivery commit. */
  ghost predicate BuildsFrom(before: seq<Call>, after: seq<Call>, dc: string) {
    |before| <= |after| && after[..|before|] == before &&
    forall i | |before| <= i < |after| && after[i].Built? :: after[i].deliveryCommit == dc
  }

  lemma {:induction false} BuildsFromTransitive(a: seq<Call>, b: seq<Call>, c: seq<Call>, dc: string)
    requires BuildsFrom(a, b, dc) && BuildsFrom(b, c, dc)
    ensures BuildsFrom(a, c, dc)
  {
    assert c[..|a|] == b[..|a|];
  }

  lemma {:induction false} IssuedBuildsFrom(c: Cell, call: Call, f: Fate, dc: string)
    requires call.Built? ==> call.deliveryCommit == dc
    ensures BuildsFrom(c.log, Issued(c, call, f).log, dc)
  {
  }

  lemma {:induction false} PushingBuildsNothing(c: Cell, branch: string, commit: string, f: TargetFates, dc: string)
    ensures BuildsFrom(c.log, Pushing(c, branch, commit, f).c.log, dc)
  {
    IssuedBuildsFrom(Intended(c, branch, commit, false, f.intend), Pushed(commit), f.push, dc);
  }

  lemma {:induction false} BuildingBuildsFrom(c: Cell, branch: string, dc: string, f: TargetFates)
    ensures BuildsFrom(c.log, Building(c, branch, dc, f).c.log, dc)
  {
    var c1 := Issued(c, Built(dc), f.build);
    IssuedBuildsFrom(c, Built(dc), f.build, dc);
    PushingBuildsNothing(c1, branch, f.built, f, dc);
    BuildsFromTransitive(c.log, c1.log, Pushing(c1, branch, f.built, f).c.log, dc);
  }

  lemma {:induction false} ClaimingBuildsFrom(c: Cell, branch: string, expected: string, dc: string, f: TargetFates)
    ensures BuildsFrom(c.log, Claiming(c, branch, expected, dc, f).c.log, dc)
  {
    var c1 := Issued(c, LookedUp, f.lookup);
    IssuedBuildsFrom(c, LookedUp, f.lookup, dc);
    PushingBuildsNothing(c1, branch, expected, f, dc);
    BuildsFromTransitive(c.log, c1.log, Pushing(c1, branch, expected, f).c.log, dc);
    BuildingBuildsFrom(c1, branch, dc, f);
    BuildsFromTransitive(c.log, c1.log, Building(c1, branch, dc, f).c.log, dc);
  }

  lemma {:induction false} PublishingBuildsNothing(c: Cell, branch: string, target: string, commit: string, f: TargetFates, dc: string)
    ensures BuildsFrom(c.log, Handled(Publishing(c, branch, target, commit, f), branch, f).c.log, dc)
  {
    IssuedBuildsFrom(c, Created, f.create, dc);
  }

  lemma {:induction false} OpeningBuildsNothing(c: Cell, branch: string, f: TargetFates, dc: string)
    ensures BuildsFrom(c.log, Opening(c, branch, f).c.log, dc)
  {
  }

  lemma {:induction false} HandledKeepsLog(p: Progress, branch: string, f: TargetFates)
    ensures Handled(p, branch, f).c.log == p.c.log
  {
  }

  lemma {:induction false} CellBuildsFrom(c: Cell, branch: string, target: string, dc: string, f: TargetFates)
    ensures BuildsFrom(c.log, DeliverCell(c, branch, target, dc, f).c.log, dc)
  {
    var listed := Opening(c, branch, f);
    OpeningBuildsNothing(c, branch, f, dc);
    HandledKeepsLog(listed, branch, f);
    if listed.Go? {
      var claimed := Claiming(listed.c, branch, Expected(c), dc, f);
      ClaimingBuildsFrom(listed.c, branch, Expected(c), dc, f);
      BuildsFromTransitive(c.log, listed.c.log, claimed.c.log, dc);
      HandledKeepsLog(claimed, branch, f);
      if claimed.Go? {
        PublishingBuildsNothing(claimed.c, branch, target, claimed.commit, f, dc);
        BuildsFromTransitive(c.log, claimed.c.log, DeliverCell(c, branch, target, dc, f).c.log, dc);
      }
    }
  }

  // ---------- the calls of an attempt ----------

  /** Every target row's calls, as far as they are new, build from this commit, and only this action makes any. */
  ghost predicate WorldBuildsFrom(w: World, u: World, action: string, dc: string) {
    forall k: Key :: (k.action != action ==> Listing(u.calls, k) == Listing(w.calls, k)) &&
                     BuildsFrom(Listing(w.calls, k), Listing(u.calls, k), dc)
  }

  lemma {:induction false} TargetBuildsFrom(w: World, n: Naming, k: Key, dc: string, f: TargetFates)
    ensures WorldBuildsFrom(w, DeliverTarget(w, n, k, dc, f).w, k.action, dc)
  {
    var o := DeliverCell(CellOf(w, n, k), n(k.target), k.target, dc, f);
    var u := Put(w, n, k, o.c);
    CellBuildsFrom(CellOf(w, n, k), n(k.target), k.target, dc, f);
    PutSame(w, n, k, o.c);
    forall other: Key ensures Listing(u.calls, other) == if other == k then o.c.log else Listing(w.calls, other) {
      if other != k {
        PutOther(w, n, k, o.c, other);
        assert CellOf(u, n, other).log == CellOf(w, n, other).log;
      }
    }
  }

  lemma {:induction false} WorldBuildsFromTransitive(w: World, u: World, v: World, action: string, dc: string)
    requires WorldBuildsFrom(w, u, action, dc) && WorldBuildsFrom(u, v, action, dc)
    ensures WorldBuildsFrom(w, v, action, dc)
  {
    forall k: Key ensures BuildsFrom(Listing(w.calls, k), Listing(v.calls, k), dc) {
      BuildsFromTransitive(Listing(w.calls, k), Listing(u.calls, k), Listing(v.calls, k), dc);
    }
  }

  lemma {:induction false} SweepBuildsFrom(w: World, n: Naming, action: string, dc: string, plan: seq<TargetPlan>)
    ensures WorldBuildsFrom(w, SweepTargets(w, n, action, dc, plan).w, action, dc)
  {
    if plan != [] {
      var t := plan[|plan| - 1];
      SweepBuildsFrom(w, n, action, dc, plan[..|plan| - 1]);
      var before := SweepTargets(w, n, action, dc, plan[..|plan| - 1]);
      if before.complete {
        var k := Key(action, t.target);
        TargetBuildsFrom(before.w, n, k, dc, t.fates);
        WorldBuildsFromTransitive(w, before.w, DeliverTarget(before.w, n, k, dc, t.fates).w, action, dc);
      }
    }
  }

  /** The delivery commit the action remembers, if any. */
  function Remembered(w: World, action: string): string {
    if action in w.actions then w.actions[action].deliveryCommit else ""
  }

  /** The remembered commit, if there is one and the clone knows it, else the one this attempt builds. */
  function CommitUsed(w: World, a: Attempt): string {
    if Remembered(w, a.action) != "" && a.fates.known then Remembered(w, a.action) else a.fates.built
  }

  /**
   The commit an attempt uses: the remembered one as long as the clone knows it, otherwise the one this
   attempt builds. Every new build of a target, of any row, is made from it.
   */
  lemma {:induction false} AttemptBuildsFrom(w: World, n: Naming, a: Attempt)
    ensures WorldBuildsFrom(w, Deliver(w, n, a).w, a.action, CommitUsed(w, a))
  {
    var p := Prepare(Lookup(w.actions, a.action), a.fates);
    var v := WithAction(w, a.action, p.action);
    if a.plan != [] && p.Prepared? {
      PreparedCommit(w, a);
      SweepBuildsFrom(v, n, a.action, p.commit, a.plan);
    }
  }

  lemma {:induction false} PreparedCommit(w: World, a: Attempt)
    ensures var p := Prepare(Lookup(w.actions, a.action), a.fates);
      p.Prepared? ==> p.commit == CommitUsed(w, a) && p.action.Some? && p.action.value.deliveryCommit == p.commit && p.commit != ""
  {
  }

  /** The outcome column of the action row. */
  function Outcome(delivered: seq<TargetReport>, failed: seq<string>): string {
    if failed == [] then "success" else if delivered == [] then "failure" else "partial_success"
  }

  ghost predicate RowOfReport(w: World, u: World, a: Attempt, end: AttemptEnd)
    requires end.Reported?
  {
    a.action in u.actions &&
    var row := u.actions[a.action];
    row.deliveryCommit == CommitUsed(w, a) && row.deliveryCommit != "" && row.outcome == Some(Outcome(end.delivered, end.failed)) &&
    (row.status.Succeeded? <==> end.failed == []) && (row.status.Failed? <==> end.failed != [])
  }

  /** An attempt that reports leaves the commit it used in the action row, with the outcome of its targets. */
  lemma {:induction false} ReportedRow(w: World, n: Naming, a: Attempt)
    ensures var o := Deliver(w, n, a); o.end.Reported? ==> RowOfReport(w, o.w, a, o.end)
  {
    PreparedCommit(w, a);
  }

  // ---------- over runs ----------

  /** As long as the clone knows the commit, no attempt of the action forgets it. */
  ghost predicate KnownThroughout(attempts: seq<Attempt>, action: string) {
    forall i | 0 <= i < |attempts| && attempts[i].action == action :: attempts[i].fates.known
  }

  lemma {:induction false} OtherActionsKept(w: World, n: Naming, a: Attempt, action: string)
    requires action != a.action
    ensures Remembered(Deliver(w, n, a).w, action) == Remembered(w, action)
  {
    var p := Prepare(Lookup(w.actions, a.action), a.fates);
    if a.plan != [] && p.Prepared? {
      SweepKeepsActions(WithAction(w, a.action, p.action), n, a.action, p.commit, a.plan);
    }
  }

  lemma {:induction false} RememberedStays(w: World, n: Naming, action: string, attempts: seq<Attempt>)
    requires Remembered(w, action) != "" && KnownThroughout(attempts, action)
    ensures Remembered(Run(w, n, attempts), action) == Remembered(w, action)
    decreases |attempts|
  {
    if attempts != [] {
      var a := attempts[0];
      if a.action == action {
        DeliveryCommitIsKept(w, n, a);
      } else {
        OtherActionsKept(w, n, a, action);
      }
      RememberedStays(Deliver(w, n, a).w, n, action, attempts[1..]);
    }
  }

  /**
   One delivery commit: after any history, once an attempt of an action reported, every later attempt of
   that action builds all its targets from the commit the reporting attempt used, as long as the clone
   knows it.
   */
  lemma {:induction false} OneDeliveryCommit(n: Naming, earlier: seq<Attempt>, a: Attempt, later: seq<Attempt>, b: Attempt)
    requires b.action == a.action && KnownThroughout(later, a.action) && b.fates.known
    ensures
      var w := Run(EMPTY, n, earlier);
      var o := Deliver(w, n, a);
      var v := Run(o.w, n, later);
      o.end.Reported? ==> (
        Remembered(o.w, a.action) != "" &&
        WorldBuildsFrom(w, o.w, a.action, Remembered(o.w, a.action)) &&
        WorldBuildsFrom(v, Deliver(v, n, b).w, a.action, Remembered(o.w, a.action)))
  {
    var w := Run(EMPTY, n, earlier);
    var o := Deliver(w, n, a);
    AttemptBuildsFrom(w, n, a);
    ReportedRow(w, n, a);
    if o.end.Reported? {
      RememberedStays(o.w, n, a.action, later);
      AttemptBuildsFrom(Run(o.w, n, later), n, b);
    }
  }

  // ---------- what the rows of the targets say ----------

  /** What a row says in each status. */
  ghost predicate RowTold(row: TargetRow, branch: string) {
    (row.externalUrl.Some? <==> row.status.Succeeded?) &&
    match row.status
    case Pending => row == TargetRow(Pending, None, None, None, None, None)
    case Running => false
    case InReconciliation => row.outcome.None? && row.remoteRef == Some(branch)
    case Succeeded => row.outcome == Some("success") && row.remoteRef == Some(branch)
    case Failed => row.outcome == Some("failure") && row.remoteRef == Some(branch) && row.result.Some? && row.result.value.reason.Some?
  }

  /** A pull request is of the branches it is listed under, a pushed branch is there, and the row tells its status. */
  ghost predicate Told(c: Cell, branch: string, target: string) {
    (forall p | p in c.prs :: p.source == branch && p.target == target) &&
    (c.row.Some? ==> RowTold(c.row.value, branch)) &&
    (c.row.Some? ==>
      (c.row.value.result.Some? && c.row.value.result.value.branchPushed == Some(true) ==> c.branch.Some?))
  }

  lemma {:induction false} OpeningTold(c: Cell, branch: string, target: string, f: TargetFates)
    requires Told(c, branch, target)
    ensures var p := Opening(c, branch, f); Told(p.c, branch, target) && (p.Thrown? ==> !Settled(p.c))
  {
  }

  lemma {:induction false} PushingTold(c: Cell, branch: string, target: string, commit: string, f: TargetFates)
    requires Told(c, branch, target) && !Settled(c)
    ensures var p := Pushing(c, branch, commit, f); Told(p.c, branch, target) && (p.Go? ==> p.c.branch.Some?)
  {
  }

  lemma {:induction false} BuildingTold(c: Cell, branch: string, target: string, dc: string, f: TargetFates)
    requires Told(c, branch, target) && !Settled(c)
    ensures var p := Building(c, branch, dc, f); Told(p.c, branch, target) && (p.Go? ==> p.c.branch.Some?)
  {
    PushingTold(Issued(c, Built(dc), f.build), branch, target, f.built, f);
  }

  lemma {:induction false} ClaimingTold(c: Cell, branch: string, target: string, expected: string, dc: string, f: TargetFates)
    requires Told(c, branch, target) && !Settled(c)
    ensures var p := Claiming(c, branch, expected, dc, f); Told(p.c, branch, target) && (p.Go? ==> p.c.branch.Some?)
  {
    var c1 := Issued(c, LookedUp, f.lookup);
    PushingTold(c1, branch, target, expected, f);
    BuildingTold(c1, branch, target, dc, f);
  }

  lemma {:induction false} PublishingTold(c: Cell, branch: string, target: string, commit: string, f: TargetFates)
    requires Told(c, branch, target) && c.branch.Some? && !Settled(c)
    ensures Told(Handled(Publishing(c, branch, target, commit, f), branch, f).c, branch, target)
  {
  }

  lemma {:induction false} HandledTold(p: Progress, branch: string, target: string, f: TargetFates)
    requires Told(p.c, branch, target) && (p.Thrown? ==> !Settled(p.c))
    ensures Told(Handled(p, branch, f).c, branch, target)
  {
  }

  lemma {:induction false} CellTold(c: Cell, branch: string, target: string, dc: string, f: TargetFates)
    requires Told(c, branch, target) && Truthful(c)
    ensures Told(DeliverCell(c, branch, target, dc, f).c, branch, target)
  {
    OpeningTold(c, branch, target, f);
    var listed := Opening(c, branch, f);
    HandledTold(listed, branch, target, f);
    if listed.Go? {
      OpeningGoesOn(c, branch, f);
      ClaimingUnsettled(listed.c, branch, Expected(c), dc, f);
      ClaimingTold(listed.c, branch, target, Expected(c), dc, f);
      var claimed := Claiming(listed.c, branch, Expected(c), dc, f);
      HandledTold(claimed, branch, target, f);
      if claimed.Go? {
        PublishingTold(claimed.c, branch, target, claimed.commit, f);
      }
    }
  }

  /** What a target's end tells is what its row says: delivered and succeeded, or failed for this reason. */
  lemma {:induction false} RowTellsTheEnd(c: Cell, branch: string, target: string, dc: string, f: TargetFates)
    requires Told(c, branch, target)
    ensures var o := DeliverCell(c, branch, target, dc, f);
      (o.end.Delivered? ==> Settled(o.c) && o.c.row.value.externalUrl == Some(o.end.url)) &&
      (o.end.NotDelivered? ==> (
        o.c.row.Some? && o.c.row.value.status.Failed? && o.c.row.value.outcome == Some("failure") &&
        o.c.row.value.remoteRef == Some(branch) && o.c.row.value.result.Some? && o.c.row.value.result.value.reason == Some(o.end.reason)))
  {
  }

  /** A delivery is called adopted exactly when the pull request was there before. */
  lemma {:induction false} AdoptedWasThere(c: Cell, branch: string, target: string, dc: string, f: TargetFates)
    requires Truthful(c)
    ensures var o := DeliverCell(c, branch, target, dc, f); o.end.Delivered? ==> (o.end.adopted <==> c.prs != [])
  {
    var listed := Opening(c, branch, f);
    if listed.Go? {
      OpeningGoesOn(c, branch, f);
      ClaimingUnsettled(listed.c, branch, Expected(c), dc, f);
    }
  }

  /** Why a target was not delivered. */
  ghost predicate ReasonTold(c: Cell, f: TargetFates, reason: Reason) {
    match reason
    case ListFailed => CallEnds(f.list).Raised?
    case ManyMatches => f.list.Done? && |c.prs| > 1
    case LookupFailed => f.list.Done? && c.prs == [] && CallEnds(f.lookup).Raised?
    case UnclaimedBranch =>
      c.prs == [] && f.lookup.Done? && !f.lookupUnreadable && c.branch.Some? && (Expected(c) == "" || Expected(c) != c.branch.value)
    case BuildFailed => c.prs == [] && f.lookup.Done? && CallEnds(f.build).Raised? && !(Expected(c) != "" && f.known)
    case PushFailed => ReachesPush(c, f) && (CallEnds(f.push).Raised? || Rejected(c.branch, Candidate(c, f), f.fastForward))
    case CreateFailed => c.prs == [] && CallEnds(f.create).Raised?
  }

  lemma {:induction false} OpeningReason(c: Cell, branch: string, f: TargetFates)
    ensures var p := Opening(c, branch, f); p.Thrown? ==> ReasonTold(c, f, p.reason)
  {
  }

  lemma {:induction false} ClaimingReason(c: Cell, branch: string, dc: string, f: TargetFates)
    requires c.prs == [] && !Settled(c) && f.ensure.Done? && f.reconcile.Done? && f.list.Done?
    ensures var p := Claiming(c, branch, Expected(c), dc, f); p.Thrown? ==> ReasonTold(c, f, p.reason)
  {
  }

  /** The reason that is reported is what happened. */
  lemma {:induction false} ReasonIsTold(c: Cell, branch: string, target: string, dc: string, f: TargetFates)
    ensures var o := DeliverCell(c, branch, target, dc, f); o.end.NotDelivered? ==> ReasonTold(c, f, o.end.reason)
  {
    OpeningReason(c, branch, f);
    var listed := Opening(c, branch, f);
    if listed.Go? {
      OpeningGoesOn(c, branch, f);
      OpeningReaches(c, branch, f);
      ClaimingReason(listed.c, branch, dc, f);
    }
  }

  /** A push that was confirmed and is followed by a crash is in the row as pushed, with its commit. */
  lemma {:induction false} ConfirmedPush(c: Cell, branch: string, target: string, dc: string, f: TargetFates)
    requires ReachesPush(c, f) && f.push.Done? && !Rejected(c.branch, Candidate(c, f), f.fastForward) && f.confirm.Done?
    requires CallEnds(f.create).Stopped?
    ensures var d := DeliverCell(c, branch, target, dc, f).c;
      d.branch == Some(Candidate(c, f)) && d.row.Some? && d.row.value.status.InReconciliation? &&
      d.row.value.result == Some(TargetResult(Some(Candidate(c, f)), Some(true), None, None))
  {
    OpeningReaches(c, branch, f);
    OpeningGoesOn(c, branch, f);
    ConfirmedClaim(Opening(c, branch, f).c, branch, dc, f);
  }

  lemma {:induction false} ConfirmedClaim(c: Cell, branch: string, dc: string, f: TargetFates)
    requires c.row.Some? && ReachesPush(c, f) && f.push.Done? && !Rejected(c.branch, Candidate(c, f), f.fastForward) && f.confirm.Done?
    ensures var p := Claiming(c, branch, Expected(c), dc, f);
      p.Go? && p.c.branch == Some(Candidate(c, f)) && p.c.row.Some? && p.c.row.value.status.InReconciliation? &&
      p.c.row.value.result == Some(TargetResult(Some(Candidate(c, f)), Some(true), None, None))
  {
  }

  ghost predicate WorldTold(w: World, n: Naming) { forall k: Key :: Told(CellOf(w, n, k), n(k.target), k.target) }

  lemma {:induction false} TargetTold(w: World, n: Naming, k: Key, dc: string, f: TargetFates)
    requires WorldTold(w, n) && WorldInv(w, n)
    ensures WorldTold(DeliverTarget(w, n, k, dc, f).w, n)
  {
    var c := CellOf(w, n, k);
    var o := DeliverCell(c, n(k.target), k.target, dc, f);
    var u := Put(w, n, k, o.c);
    assert Told(c, n(k.target), k.target) && Truthful(c);
    CellTold(c, n(k.target), k.target, dc, f);
    CellStep(c, n(k.target), k.target, dc, f);
    PutSame(w, n, k, o.c);
    forall other: Key ensures Told(CellOf(u, n, other), n(other.target), other.target) {
      if other != k {
        assert Told(CellOf(w, n, other), n(other.target), other.target);
        PutOther(w, n, k, o.c, other);
      }
    }
  }

  lemma {:induction false} SweepTold(w: World, n: Naming, action: string, dc: string, plan: seq<TargetPlan>)
    requires WorldTold(w, n) && WorldInv(w, n)
    ensures WorldTold(SweepTargets(w, n, action, dc, plan).w, n)
  {
    if plan != [] {
      var t := plan[|plan| - 1];
      SweepTold(w, n, action, dc, plan[..|plan| - 1]);
      assert WorldInv(SweepTargets(w, n, action, dc, plan[..|plan| - 1]).w, n) by {
        SweepStep(w, n, action, dc, plan[..|plan| - 1]);
      }
      TargetTold(SweepTargets(w, n, action, dc, plan[..|plan| - 1]).w, n, Key(action, t.target), dc, t.fates);
    }
  }

  lemma {:induction false} AttemptTold(w: World, n: Naming, a: Attempt)
    requires WorldTold(w, n) && WorldInv(w, n)
    ensures WorldTold(Deliver(w, n, a).w, n)
  {
    var p := Prepare(Lookup(w.actions, a.action), a.fates);
    var v := WithAction(w, a.action, p.action);
    ToldInSameCells(w, v, n);
    if a.plan != [] && p.Prepared? {
      SameCells(w, v, n);
      SweepTold(v, n, a.action, p.commit, a.plan);
      ToldInSameCells(SweepTargets(v, n, a.action, p.commit, a.plan).w, Deliver(w, n, a).w, n);
    }
  }

  lemma {:induction false} ToldInSameCells(w: World, u: World, n: Naming)
    requires WorldTold(w, n) && u == w.(actions := u.actions)
    ensures WorldTold(u, n)
  {
    SameCells(w, u, n);
    forall k: Key ensures Told(CellOf(u, n, k), n(k.target), k.target) {
      assert Told(CellOf(w, n, k), n(k.target), k.target);
    }
  }

  lemma {:induction false} RunTold(w: World, n: Naming, attempts: seq<Attempt>)
    requires WorldTold(w, n) && WorldInv(w, n)
    ensures WorldTold(Run(w, n, attempts), n)
    decreases |attempts|
  {
    if attempts != [] {
      AttemptTold(w, n, attempts[0]);
      AttemptStep(w, n, attempts[0]);
      RunTold(Deliver(w, n, attempts[0]).w, n, attempts[1..]);
    }
  }

  /**
   In every reachable world pull requests stand under their own branches, a row that says its branch was
   pushed has a branch on the remote, and the columns of a row fit its status.
   */
  lemma {:induction false} RowsTellTheTruth(n: Naming, attempts: seq<Attempt>)
    ensures WorldTold(Run(EMPTY, n, attempts), n)
  {
    RunTold(EMPTY, n, attempts);
  }
}
