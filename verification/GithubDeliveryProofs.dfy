/** What delivery keeps over every run of attempts. */
module GithubDeliveryProofs {
  import opened Prelude
  import opened GithubDelivery

  // ---------- one target ----------

  /** The row of a settled target names its one pull request. */
  ghost predicate Truthful(c: Cell) {
    |c.prs| <= 1 && (c.branch.Some? ==> c.branch.value != "") &&
    (Settled(c) ==> |c.prs| == 1 && c.row.value.externalUrl == Some(c.prs[0].url) &&
                    c.row.value.externalId == Some(c.prs[0].number))
  }

  /** Nothing a settled target owns changes, no call is made for it, and pull requests are never lost. */
  ghost predicate CellEvolves(c: Cell, d: Cell) {
    (c.row.Some? ==> d.row.Some?) && (c.branch.Some? ==> d.branch.Some?) &&
    (Settled(c) ==> d.(branch := c.branch) == c) && (c.prs != [] ==> d.prs == c.prs)
  }

  /** A stage that leaves an unsettled target unsettled and its pull requests alone. */
  ghost predicate Unsettled(c: Cell, d: Cell) {
    d.prs == c.prs && !Settled(d) && d.row.Some? && (c.branch.Some? ==> d.branch.Some?) &&
    (d.branch != c.branch ==> d.branch.Some? && d.branch.value != "")
  }

  lemma {:induction false} PushingUnsettled(c: Cell, branch: string, commit: string, f: TargetFates)
    requires c.row.Some? && !Settled(c) && commit != ""
    ensures Unsettled(c, Pushing(c, branch, commit, f).c)
    ensures !Pushing(c, branch, commit, f).Finished?
    ensures var p := Pushing(c, branch, commit, f);
      (p.Go? || p.Thrown? ==> p.commit == commit && Expected(p.c) == commit) &&
      (p.c.branch != c.branch ==> p.c.branch == Some(commit) && Expected(p.c) == commit) &&
      (p.Go? ==> p.c.branch == Some(commit))
  {
  }

  lemma {:induction false} BuildingUnsettled(c: Cell, branch: string, dc: string, f: TargetFates)
    requires c.row.Some? && !Settled(c)
    ensures Unsettled(c, Building(c, branch, dc, f).c)
    ensures !Building(c, branch, dc, f).Finished?
  {
    PushingUnsettled(Issued(c, Built(dc), f.build), branch, f.built, f);
  }

  lemma {:induction false} ClaimingUnsettled(c: Cell, branch: string, expected: string, dc: string, f: TargetFates)
    requires c.row.Some? && !Settled(c)
    ensures Unsettled(c, Claiming(c, branch, expected, dc, f).c)
    ensures !Claiming(c, branch, expected, dc, f).Finished?
  {
    if expected != "" {
      PushingUnsettled(Issued(c, LookedUp, f.lookup), branch, expected, f);
    }
    BuildingUnsettled(Issued(c, LookedUp, f.lookup), branch, dc, f);
  }

  /** A branch that the claim put on the remote is in the durable row and in `target_commit`. */
  lemma {:induction false} ClaimingIntends(c: Cell, branch: string, expected: string, dc: string, f: TargetFates)
    requires c.row.Some? && !Settled(c) && c.branch.None?
    ensures var p := Claiming(c, branch, expected, dc, f);
      p.c.branch.Some? || p.Go? ==>
        p.c.branch.Some? && p.c.branch.value != "" && Expected(p.c) == p.c.branch.value &&
        (p.Go? || p.Thrown? ==> p.commit == p.c.branch.value)
  {
    if expected != "" {
      PushingUnsettled(Issued(c, LookedUp, f.lookup), branch, expected, f);
    }
    PushingUnsettled(Issued(Issued(c, LookedUp, f.lookup), Built(dc), f.build), branch, f.built, f);
  }

  /** When the opening goes on, nothing but the row's status and the log has changed. */
  lemma {:induction false} OpeningGoesOn(c: Cell, branch: string, f: TargetFates)
    requires Opening(c, branch, f).Go?
    ensures var d := Opening(c, branch, f).c;
      c.prs == [] && Unsettled(c, d) && d.branch == c.branch && Expected(d) == Expected(c) && !Settled(c) &&
      d.log == c.log + [Listed]
  {
  }

  ghost predicate StepKept(c: Cell, o: CellOutcome) {
    Truthful(o.c) && CellEvolves(c, o.c) &&
    (o.end.Delivered? ==> Settled(o.c) && |o.c.prs| == 1 && o.c.prs[0].url == o.end.url)
  }

  lemma {:induction false} ReconcilingKept(c: Cell, d: Cell, branch: string, f: TargetFates)
    requires Truthful(c) && Unsettled(c, d) && !Settled(c) && d.branch == c.branch && !Reconciling(d, branch, f).Go?
    ensures StepKept(c, Handled(Reconciling(d, branch, f), branch, f))
  {
  }

  lemma {:induction false} OpeningKept(c: Cell, branch: string, f: TargetFates)
    requires Truthful(c) && !Opening(c, branch, f).Go?
    ensures StepKept(c, Handled(Opening(c, branch, f), branch, f))
  {
    if f.ensure.Done? && !Settled(c) && f.reconcile.Done? {
      var c1 := if c.row.Some? then c else Stored(c, NEW_ROW, f.ensure);
      var c2 := Stored(c1, Marked(Row(c1), InReconciliation, None, Some(branch), None, None, None), f.reconcile);
      ReconcilingKept(c, c2, branch, f);
    }
  }

  lemma {:induction false} PublishingKept(c: Cell, d: Cell, branch: string, target: string, commit: string, f: TargetFates)
    requires Truthful(c) && Unsettled(c, d) && c.prs == [] && !Settled(c)
    ensures StepKept(c, Handled(Publishing(d, branch, target, commit, f), branch, f))
  {
  }

  lemma {:induction false} CellStep(c: Cell, branch: string, target: string, dc: string, f: TargetFates)
    requires Truthful(c)
    ensures StepKept(c, DeliverCell(c, branch, target, dc, f))
  {
    var listed := Opening(c, branch, f);
    if listed.Go? {
      OpeningGoesOn(c, branch, f);
      ClaimingUnsettled(listed.c, branch, Expected(c), dc, f);
      var claimed := Claiming(listed.c, branch, Expected(c), dc, f);
      if claimed.Go? {
        PublishingKept(c, claimed.c, branch, target, claimed.commit, f);
      }
    } else {
      OpeningKept(c, branch, f);
    }
  }

  /** The commit `deliver` pushes when it finds no branch. */
  function Candidate(c: Cell, f: TargetFates): string {
    if Expected(c) != "" && f.known then Expected(c) else f.built
  }

  ghost predicate ReachesPush(c: Cell, f: TargetFates) {
    !Settled(c) && c.prs == [] && f.ensure.Done? && f.reconcile.Done? && f.list.Done? && f.lookup.Done? &&
    (f.lookupUnreadable || c.branch.None?) && ((Expected(c) != "" && f.known) || f.build.Done?) && f.intend.Done?
  }

  lemma {:induction false} OpeningReaches(c: Cell, branch: string, f: TargetFates)
    ensures var p := Opening(c, branch, f);
      p.c.branch == c.branch && Handled(p, branch, f).c.branch == c.branch &&
      (p.Go? <==> !Settled(c) && c.prs == [] && f.ensure.Done? && f.reconcile.Done? && f.list.Done?)
  {
  }

  lemma {:induction false} PublishingKeepsBranch(c: Cell, branch: string, target: string, commit: string, f: TargetFates)
    ensures Handled(Publishing(c, branch, target, commit, f), branch, f).c.branch == c.branch
  {
  }

  /** When the claim itself moves an existing branch. */
  lemma {:induction false} ClaimingMovesExactlyWhen(c: Cell, branch: string, expected: string, dc: string, f: TargetFates)
    requires c.branch.Some?
    ensures
      var p := Claiming(c, branch, expected, dc, f);
      var commit := if expected != "" && f.known then expected else f.built;
      Handled(p, branch, f).c.branch == p.c.branch &&
      (p.c.branch != c.branch <==>
        f.lookup.Done? && f.lookupUnreadable && ((expected != "" && f.known) || f.build.Done?) && f.intend.Done? &&
        Applied(f.push) && f.fastForward && commit != c.branch.value)
  {
  }

  /**
   A delivery branch on the remote keeps its commit, except exactly when `ls-remote` failed, which
   the code reads as "absent", and the remote accepts the push of another commit as a fast-forward.
   */
  lemma {:induction false} BranchMovesExactlyWhen(c: Cell, branch: string, target: string, dc: string, f: TargetFates)
    requires c.branch.Some?
    ensures
      DeliverCell(c, branch, target, dc, f).c.branch != c.branch <==>
      ReachesPush(c, f) && f.lookupUnreadable && Applied(f.push) && f.fastForward && Candidate(c, f) != c.branch.value
  {
    OpeningReaches(c, branch, f);
    var listed := Opening(c, branch, f);
    if listed.Go? {
      OpeningGoesOn(c, branch, f);
      ClaimingMovesExactlyWhen(listed.c, branch, Expected(c), dc, f);
      var claimed := Claiming(listed.c, branch, Expected(c), dc, f);
      if claimed.Go? {
        PublishingKeepsBranch(claimed.c, branch, target, claimed.commit, f);
      }
    }
  }

  /**
   Write-ahead intent: however an attempt ends, a branch that it put on the remote is already
   recorded in the durable row.
   */
  lemma {:induction false} PushIsRecordedAhead(c: Cell, branch: string, target: string, dc: string, f: TargetFates)
    requires c.branch.None?
    ensures var d := DeliverCell(c, branch, target, dc, f).c;
      d.branch.Some? ==> d.branch.value != "" && Expected(d) == d.branch.value
  {
    var listed := Opening(c, branch, f);
    if listed.Go? {
      OpeningGoesOn(c, branch, f);
      ClaimingIntends(listed.c, branch, Expected(c), dc, f);
      ClaimingUnsettled(listed.c, branch, Expected(c), dc, f);
    }
  }

  // ---------- when an attempt succeeds, and when the claim on a branch is lost ----------

  predicate Smooth(f: TargetFates) {
    f.ensure.Done? && f.reconcile.Done? && f.list.Done? && f.lookup.Done? && !f.lookupUnreadable && f.build.Done? &&
    f.intend.Done? && f.push.Done? && f.confirm.Done? && f.create.Done? && f.record.Done? && f.fail.Done?
  }

  /** The durable row carries the commit of a branch that has no pull request yet. */
  ghost predicate Claimed(c: Cell) {
    c.branch.Some? && c.prs == [] ==> c.branch.value != "" && Expected(c) == c.branch.value
  }

  /**
   A failure-free attempt delivers a target exactly when its row is settled, its pull request
   exists, its branch is free, or its row claims the branch; and it issues exactly these calls.
   */
  lemma {:induction false} SmoothAttempt(c: Cell, branch: string, target: string, dc: string, f: TargetFates)
    requires Truthful(c) && Smooth(f)
    ensures var o := DeliverCell(c, branch, target, dc, f);
      (o.end.Delivered? <==> Claimed(c)) &&
      (Settled(c) ==> o.c.log == c.log) &&
      (!Settled(c) && c.prs != [] ==> o.c.log == c.log + [Listed] && o.end == Delivered(c.prs[0].url, true)) &&
      (c.prs == [] && c.branch.Some? && Claimed(c) ==> o.c.log == c.log + [Listed] + [LookedUp] + [Created]) &&
      (c.prs == [] && c.branch.Some? && !Claimed(c) ==>
        o.end == NotDelivered(UnclaimedBranch) && o.c.log == c.log + [Listed] + [LookedUp]) &&
      (c.prs == [] && c.branch.None? ==>
        o.c.log == c.log + [Listed] + [LookedUp] +
                   (if Expected(c) != "" && f.known then [] else [Built(dc)]) + [Pushed(Candidate(c, f))] + [Created])
  {
    var listed := Opening(c, branch, f);
    if listed.Go? {
      OpeningGoesOn(c, branch, f);
      SmoothClaim(listed.c, branch, Expected(c), dc, f);
    }
  }

  lemma {:induction false} SmoothClaim(c: Cell, branch: string, expected: string, dc: string, f: TargetFates)
    requires Smooth(f)
    ensures var p := Claiming(c, branch, expected, dc, f);
      if c.branch.Some? && (expected == "" || c.branch.value != expected)
      then p == Thrown(Issued(c, LookedUp, Done), "", UnclaimedBranch)
      else
        p.Go? && p.c.prs == c.prs &&
        p.c.log == c.log + [LookedUp] +
          (if c.branch.Some? then []
           else if expected != "" && f.known then [Pushed(expected)]
           else [Built(dc)] + [Pushed(f.built)])
  {
  }

  predicate Crashes(f: Fate) { f.Done? || f.Dies? || f.DiesLate? }

  /** The process may die anywhere, but nothing raises an error that `deliver` catches. */
  predicate CrashOnly(f: TargetFates) {
    Crashes(f.ensure) && Crashes(f.reconcile) && Crashes(f.list) && Crashes(f.lookup) && !f.lookupUnreadable &&
    Crashes(f.build) && Crashes(f.intend) && Crashes(f.push) && Crashes(f.confirm) && Crashes(f.create) &&
    Crashes(f.record) && Crashes(f.fail)
  }

  /** The attempt gets to overwrite the row of an unlisted branch with a result that forgets it. */
  ghost predicate ForgetsClaim(c: Cell, f: TargetFates) {
    c.branch.Some? && c.prs == [] && f.ensure.Done? && f.reconcile.Done? && Applied(f.fail) &&
    (CallEnds(f.list).Raised? || (f.list.Done? && CallEnds(f.lookup).Raised?))
  }

  /**
   With a readable lookup the claim survives exactly unless an error in the listing or the lookup is
   caught while the branch is still without a pull request: the failure row drops `expectedCommit`.
   */
  lemma {:induction false} ClaimSurvivesExactlyWhen(c: Cell, branch: string, target: string, dc: string, f: TargetFates)
    requires Truthful(c) && Claimed(c) && !f.lookupUnreadable
    ensures Claimed(DeliverCell(c, branch, target, dc, f).c) <==> !ForgetsClaim(c, f)
  {
    var listed := Opening(c, branch, f);
    if c.branch.None? {
      PushIsRecordedAhead(c, branch, target, dc, f);
    } else if listed.Go? {
      OpeningGoesOn(c, branch, f);
      ClaimingKeepsClaim(listed.c, branch, Expected(c), dc, f);
    }
  }

  lemma {:induction false} ClaimingKeepsClaim(c: Cell, branch: string, expected: string, dc: string, f: TargetFates)
    requires c.branch.Some? && c.branch.value != "" && expected == c.branch.value && !f.lookupUnreadable
    ensures Claiming(c, branch, expected, dc, f) ==
      match CallEnds(f.lookup)
      case Stopped => Halted(Issued(c, LookedUp, f.lookup))
      case Raised => Thrown(Issued(c, LookedUp, f.lookup), "", LookupFailed)
      case Proceed => Go(Issued(c, LookedUp, f.lookup), expected)
  {
  }

  /** A branch without pull request whose row does not claim it. */
  ghost predicate Stuck(c: Cell) {
    !Settled(c) && c.prs == [] && c.branch.Some? && (Expected(c) == "" || Expected(c) != c.branch.value)
  }

  const CALM := TargetFates(Done, Done, Done, Done, false, true, Done, "c1", Done, Done, false, Done, Done, "1", "u1", Done, Done)

  /** A crash right after the push, a failing listing, then a failure-free attempt: refused for good. */
  lemma {:induction false} ListingFailureLosesTheBranch(branch: string, target: string, dc: string)
    ensures
      var c0 := Cell(None, None, [], []);
      var c1 := DeliverCell(c0, branch, target, dc, CALM.(push := DiesLate));
      var c2 := DeliverCell(c1.c, branch, target, dc, CALM.(list := Raises));
      Claimed(c1.c) && c1.c.branch == Some("c1") && Stuck(c2.c) &&
      DeliverCell(c1.c, branch, target, dc, CALM).end.Delivered? &&
      DeliverCell(c2.c, branch, target, dc, CALM).end == NotDelivered(UnclaimedBranch)
  {
  }

  /** The branch does move: an unreadable lookup, a build, and a push the remote takes as a fast-forward. */
  lemma {:induction false} UnreadableLookupMovesTheBranch(branch: string, target: string, dc: string)
    ensures
      var c := Cell(None, Some("c0"), [], []);
      DeliverCell(c, branch, target, dc, CALM.(lookupUnreadable := true, fastForward := true)).c.branch == Some("c1")
  {
  }

  // ---------- whole worlds ----------

  ghost predicate WorldInv(w: World, n: Naming) {
    (forall k | k in w.prs :: |w.prs[k]| <= 1) &&
    forall k: Key :: Truthful(CellOf(w, n, k))
  }

  ghost predicate WorldEvolves(w: World, u: World, n: Naming) {
    forall k: Key :: CellEvolves(CellOf(w, n, k), CellOf(u, n, k))
  }

  lemma {:induction false} PutSame(w: World, n: Naming, k: Key, c: Cell)
    ensures CellOf(Put(w, n, k, c), n, k) == c
  {
  }

  /** Rows of other actions and targets share the branch and the pull requests, no more. */
  lemma {:induction false} PutOther(w: World, n: Naming, k: Key, c: Cell, other: Key)
    requires other != k
    ensures CellOf(Put(w, n, k, c), n, other) ==
      CellOf(w, n, other).(branch := if n(other.target) == n(k.target) then c.branch else CellOf(w, n, other).branch,
                           prs := if other.target == k.target then c.prs else CellOf(w, n, other).prs)
  {
  }

  lemma {:induction false} OtherCellStep(w: World, n: Naming, k: Key, d: Cell, other: Key)
    requires other != k && Truthful(CellOf(w, n, other)) && Truthful(d) && CellEvolves(CellOf(w, n, k), d)
    ensures var c := CellOf(Put(w, n, k, d), n, other); Truthful(c) && CellEvolves(CellOf(w, n, other), c)
  {
    PutOther(w, n, k, d, other);
  }

  lemma {:induction false} TargetStep(w: World, n: Naming, k: Key, dc: string, f: TargetFates)
    requires WorldInv(w, n)
    ensures var o := DeliverTarget(w, n, k, dc, f);
      WorldInv(o.w, n) && WorldEvolves(w, o.w, n) &&
      (o.end.Delivered? ==> SettledOn(o.w, n, k, o.end.url))
  {
    var c := CellOf(w, n, k);
    var o := DeliverCell(c, n(k.target), k.target, dc, f);
    var u := Put(w, n, k, o.c);
    assert Truthful(c);
    CellStep(c, n(k.target), k.target, dc, f);
    PutSame(w, n, k, o.c);
    forall other: Key ensures Truthful(CellOf(u, n, other)) && CellEvolves(CellOf(w, n, other), CellOf(u, n, other)) {
      if other != k {
        assert Truthful(CellOf(w, n, other));
        OtherCellStep(w, n, k, o.c, other);
      }
    }
  }

  lemma {:induction false} EvolvesTransitive(w: World, u: World, v: World, n: Naming)
    requires WorldEvolves(w, u, n) && WorldEvolves(u, v, n)
    ensures WorldEvolves(w, v, n)
  {
    forall k: Key ensures CellEvolves(CellOf(w, n, k), CellOf(v, n, k)) {
      assert CellEvolves(CellOf(w, n, k), CellOf(u, n, k));
      assert CellEvolves(CellOf(u, n, k), CellOf(v, n, k));
    }
  }

  /** The target row is settled on exactly this pull request. */
  ghost predicate SettledOn(w: World, n: Naming, k: Key, url: Text) {
    var c := CellOf(w, n, k);
    Settled(c) && c.row.value.externalUrl == Some(url) && |c.prs| == 1 && c.prs[0].url == url
  }

  lemma {:induction false} SettledOnLasts(w: World, u: World, n: Naming, k: Key, url: Text)
    requires SettledOn(w, n, k, url) && WorldEvolves(w, u, n)
    ensures SettledOn(u, n, k, url) && CellOf(u, n, k).log == CellOf(w, n, k).log && CellOf(u, n, k).row == CellOf(w, n, k).row
  {
    assert CellEvolves(CellOf(w, n, k), CellOf(u, n, k));
  }

  lemma {:induction false} SweepStep(w: World, n: Naming, action: string, dc: string, plan: seq<TargetPlan>)
    requires WorldInv(w, n)
    ensures var s := SweepTargets(w, n, action, dc, plan);
      WorldInv(s.w, n) && WorldEvolves(w, s.w, n) &&
      forall r | r in s.delivered :: SettledOn(s.w, n, Key(action, r.target), r.url)
  {
    if plan != [] {
      var t := plan[|plan| - 1];
      SweepStep(w, n, action, dc, plan[..|plan| - 1]);
      var before := SweepTargets(w, n, action, dc, plan[..|plan| - 1]);
      if before.complete {
        TargetStep(before.w, n, Key(action, t.target), dc, t.fates);
        var o := DeliverTarget(before.w, n, Key(action, t.target), dc, t.fates);
        EvolvesTransitive(w, before.w, o.w, n);
        forall r | r in before.delivered ensures SettledOn(o.w, n, Key(action, r.target), r.url) {
          SettledOnLasts(before.w, o.w, n, Key(action, r.target), r.url);
        }
      }
    }
  }

  lemma {:induction false} SameCells(w: World, u: World, n: Naming)
    requires u == w.(actions := u.actions)
    ensures forall k: Key :: CellOf(u, n, k) == CellOf(w, n, k)
    ensures WorldInv(w, n) ==> WorldInv(u, n)
    ensures WorldEvolves(w, u, n)
  {
  }

  lemma {:induction false} AttemptStep(w: World, n: Naming, a: Attempt)
    requires WorldInv(w, n)
    ensures var o := Deliver(w, n, a);
      WorldInv(o.w, n) && WorldEvolves(w, o.w, n) &&
      (o.end.Reported? ==> forall r | r in o.end.delivered :: SettledOn(o.w, n, Key(a.action, r.target), r.url))
  {
    var p := Prepare(Lookup(w.actions, a.action), a.fates);
    var v := WithAction(w, a.action, p.action);
    var u := Deliver(w, n, a).w;
    SameCells(w, w, n);
    SameCells(w, v, n);
    if a.plan != [] && p.Prepared? {
      SweepStep(v, n, a.action, p.commit, a.plan);
      var s := SweepTargets(v, n, a.action, p.commit, a.plan);
      EvolvesTransitive(w, v, s.w, n);
      SameCells(s.w, u, n);
      EvolvesTransitive(w, s.w, u, n);
      forall r | r in s.delivered ensures SettledOn(u, n, Key(a.action, r.target), r.url) {
        SettledOnLasts(s.w, u, n, Key(a.action, r.target), r.url);
      }
    }
  }

  lemma {:induction false} RunStep(w: World, n: Naming, attempts: seq<Attempt>)
    requires WorldInv(w, n)
    ensures WorldInv(Run(w, n, attempts), n) && WorldEvolves(w, Run(w, n, attempts), n)
    decreases |attempts|
  {
    if attempts == [] {
      SameCells(w, w, n);
    } else {
      var u := Deliver(w, n, attempts[0]).w;
      AttemptStep(w, n, attempts[0]);
      RunStep(u, n, attempts[1..]);
      EvolvesTransitive(w, u, Run(u, n, attempts[1..]), n);
    }
  }

  const EMPTY := World(map[], map[], map[], map[], map[])

  /**
   Exactly once: over any run of attempts of any actions, crashed or failed anywhere, no source and
   target branch ever have two pull requests; every target whose row an attempt settled, reported or cut
   short afterwards, has after every later run still exactly that pull request, an unchanged row, and not
   one further call; and what an attempt reports as delivered is settled on the reported pull request.
   */
  lemma {:induction false} ExactlyOnce(n: Naming, earlier: seq<Attempt>, a: Attempt, later: seq<Attempt>)
    ensures
      var w := Run(EMPTY, n, earlier);
      var o := Deliver(w, n, a);
      var v := Run(o.w, n, later);
      (forall b | b in v.prs :: |v.prs[b]| <= 1) &&
      (forall k: Key, url: Text | SettledOn(o.w, n, k, url) ::
        SettledOn(v, n, k, url) && CellOf(v, n, k).log == CellOf(o.w, n, k).log && CellOf(v, n, k).row == CellOf(o.w, n, k).row) &&
      (forall k: Key | Settled(CellOf(o.w, n, k)) :: SettledOn(o.w, n, k, CellOf(o.w, n, k).row.value.externalUrl.value)) &&
      (o.end.Reported? ==> forall r | r in o.end.delivered :: SettledOn(o.w, n, Key(a.action, r.target), r.url))
  {
    RunStep(EMPTY, n, earlier);
    var w := Run(EMPTY, n, earlier);
    AttemptStep(w, n, a);
    var o := Deliver(w, n, a);
    RunStep(o.w, n, later);
    var v := Run(o.w, n, later);
    forall k: Key, url: Text | SettledOn(o.w, n, k, url)
      ensures SettledOn(v, n, k, url) && CellOf(v, n, k).log == CellOf(o.w, n, k).log && CellOf(v, n, k).row == CellOf(o.w, n, k).row
    {
      SettledOnLasts(o.w, v, n, k, url);
    }
    forall k: Key | Settled(CellOf(o.w, n, k)) ensures SettledOn(o.w, n, k, CellOf(o.w, n, k).row.value.externalUrl.value) {
      assert Truthful(CellOf(o.w, n, k));
    }
  }

  // ---------- branches ----------

  ghost predicate ReadablePlan(plan: seq<TargetPlan>) {
    forall i | 0 <= i < |plan| :: !plan[i].fates.lookupUnreadable
  }

  ghost predicate ReadableRun(attempts: seq<Attempt>) {
    forall i | 0 <= i < |attempts| :: ReadablePlan(attempts[i].plan)
  }

  ghost predicate BranchesKept(w: World, u: World) {
    forall b | b in w.branches :: b in u.branches && u.branches[b] == w.branches[b]
  }

  lemma {:induction false} SweepKeepsBranches(w: World, n: Naming, action: string, dc: string, plan: seq<TargetPlan>)
    requires ReadablePlan(plan)
    ensures BranchesKept(w, SweepTargets(w, n, action, dc, plan).w)
  {
    if plan != [] {
      var t := plan[|plan| - 1];
      SweepKeepsBranches(w, n, action, dc, plan[..|plan| - 1]);
      var u := SweepTargets(w, n, action, dc, plan[..|plan| - 1]).w;
      if n(t.target) in u.branches {
        BranchMovesExactlyWhen(CellOf(u, n, Key(action, t.target)), n(t.target), t.target, dc, t.fates);
      }
    }
  }

  /** As long as lookups are readable, a branch once on the remote never changes its commit. */
  lemma {:induction false} RunKeepsBranches(w: World, n: Naming, attempts: seq<Attempt>)
    requires ReadableRun(attempts)
    ensures BranchesKept(w, Run(w, n, attempts))
    decreases |attempts|
  {
    if attempts != [] {
      var a := attempts[0];
      var p := Prepare(Lookup(w.actions, a.action), a.fates);
      if p.Prepared? {
        SweepKeepsBranches(WithAction(w, a.action, p.action), n, a.action, p.commit, a.plan);
      }
      RunKeepsBranches(Deliver(w, n, a).w, n, attempts[1..]);
    }
  }

  // ---------- the delivery commit ----------

  /**
   The delivery commit is built once: as long as the clone still has it, no attempt forgets it and
   every later attempt of the action that gets as far as its targets uses the same one.
   */
  lemma {:induction false} DeliveryCommitIsKept(w: World, n: Naming, a: Attempt)
    requires a.action in w.actions && w.actions[a.action].deliveryCommit != "" && a.fates.known
    ensures var p := Prepare(Lookup(w.actions, a.action), a.fates);
      p.action.Some? && p.action.value.deliveryCommit == w.actions[a.action].deliveryCommit &&
      (p.Prepared? ==> p.commit == w.actions[a.action].deliveryCommit)
    ensures var u := Deliver(w, n, a).w;
      a.action in u.actions && u.actions[a.action].deliveryCommit == w.actions[a.action].deliveryCommit
    ensures Deliver(w, n, a).w.actions - {a.action} == w.actions - {a.action}
  {
    var p := Prepare(Lookup(w.actions, a.action), a.fates);
    if a.plan != [] && p.Prepared? {
      SweepKeepsActions(WithAction(w, a.action, p.action), n, a.action, p.commit, a.plan);
    }
  }

  lemma {:induction false} SweepKeepsActions(w: World, n: Naming, action: string, dc: string, plan: seq<TargetPlan>)
    ensures SweepTargets(w, n, action, dc, plan).w.actions == w.actions
  {
    if plan != [] {
      SweepKeepsActions(w, n, action, dc, plan[..|plan| - 1]);
    }
  }
}
