/**
 `GitHubPrDelivery.deliver` itself, over a durable `DeliveryStore` and a remote.  Each write and each
 external call takes the fate the environment gives it; the methods are proved to do what the
 functions of the same stage in GithubDelivery say.
 */
module GithubPrDeliveries {
  import opened Prelude
  import G = GithubDelivery
  import opened GithubDelivery
  import opened GithubDeliveryProofs
  import opened GithubDeliveryCommits

  class DeliveryStore {
    var actions: map<string, ActionRow>
    var rows: map<Key, TargetRow>

    constructor ()
      ensures actions == map[] && rows == map[]
    {
      actions, rows := map[], map[];
    }

    /** The action row of an intent key, inserted when there is none. */
    method EnsureAction(action: string, f: Fate) returns (s: Signal)
      modifies this`actions
      ensures s == WriteEnds(f)
      ensures actions == if action in old(actions) || !Applied(f) then old(actions)
        else old(actions)[action := ActionRow(Pending, None, "")]
    {
      if action !in actions && Applied(f) {
        actions := actions[action := ActionRow(Pending, None, "")];
      }
      s := WriteEnds(f);
    }

    /** `result` is absent when the stored delivery commit is to be kept. */
    method MarkAction(action: string, status: Status, outcome: Option<string>, result: Option<string>, f: Fate)
      returns (s: Signal)
      requires action in actions
      modifies this`actions
      ensures s == WriteEnds(f)
      ensures actions == if Applied(f) then old(actions)[action := ActionRow(status, outcome,
        if result.Some? then result.value else old(actions)[action].deliveryCommit)] else old(actions)
    {
      if Applied(f) {
        var kept := if result.Some? then result.value else actions[action].deliveryCommit;
        actions := actions[action := ActionRow(status, outcome, kept)];
      }
      s := WriteEnds(f);
    }

    method EnsureTarget(k: Key, f: Fate) returns (s: Signal)
      modifies this`rows
      ensures s == WriteEnds(f)
      ensures rows == if k in old(rows) || !Applied(f) then old(rows) else old(rows)[k := NEW_ROW]
    {
      if k !in rows && Applied(f) {
        rows := rows[k := NEW_ROW];
      }
      s := WriteEnds(f);
    }

    method MarkTarget(k: Key, status: Status, outcome: Option<string>, remoteRef: Option<string>,
                      externalId: Option<string>, externalUrl: Option<Text>, result: Option<TargetResult>, f: Fate)
      returns (s: Signal)
      requires k in rows
      modifies this`rows
      ensures s == WriteEnds(f)
      ensures rows == if Applied(f)
        then old(rows)[k := Marked(old(rows)[k], status, outcome, remoteRef, externalId, externalUrl, result)]
        else old(rows)
    {
      if Applied(f) {
        var row := rows[k];
        row := row.(status := status, outcome := outcome);
        if remoteRef.Some? { row := row.(remoteRef := remoteRef); }
        if externalId.Some? { row := row.(externalId := externalId); }
        if externalUrl.Some? { row := row.(externalUrl := externalUrl); }
        if result.Some? { row := row.(result := result); }
        rows := rows[k := row];
      }
      s := WriteEnds(f);
    }
  }

  class Remote {
    var branches: map<string, string>
    var prs: map<(string, string), seq<Pr>>
    var calls: map<Key, seq<Call>>

    constructor ()
      ensures branches == map[] && prs == map[] && calls == map[]
    {
      branches, prs, calls := map[], map[], map[];
    }

    method Log(k: Key, call: Call, f: Fate)
      modifies this`calls
      ensures calls == if f.Dies? then old(calls) else old(calls)[k := Listing(old(calls), k) + [call]]
    {
      if f != Dies {
        calls := calls[k := Listing(calls, k) + [call]];
      }
    }

    method ListPullRequests(k: Key, source: string, f: Fate) returns (s: Signal, matches: seq<Pr>)
      modifies this`calls
      ensures calls == if f.Dies? then old(calls) else old(calls)[k := Listing(old(calls), k) + [Listed]]
      ensures s == CallEnds(f) && matches == Listing(prs, (source, k.target))
    {
      Log(k, Listed, f);
      s, matches := CallEnds(f), Listing(prs, (source, k.target));
    }

    method RemoteBranchCommit(k: Key, branch: string, unreadable: bool, f: Fate)
      returns (s: Signal, commit: Option<string>)
      modifies this`calls
      ensures calls == if f.Dies? then old(calls) else old(calls)[k := Listing(old(calls), k) + [LookedUp]]
      ensures s == CallEnds(f) && commit == Seen(Lookup(branches, branch), unreadable)
    {
      Log(k, LookedUp, f);
      s := CallEnds(f);
      commit := if unreadable || branch !in branches then None else Some(branches[branch]);
    }

    method CreateTargetCommit(k: Key, deliveryCommit: string, f: Fate) returns (s: Signal)
      modifies this`calls
      ensures calls == if f.Dies? then old(calls)
        else old(calls)[k := Listing(old(calls), k) + [Built(deliveryCommit)]]
      ensures s == CallEnds(f)
    {
      Log(k, Built(deliveryCommit), f);
      s := CallEnds(f);
    }

    method PushTarget(k: Key, branch: string, commit: string, fastForward: bool, f: Fate) returns (s: Signal)
      modifies this`calls, this`branches
      ensures calls == if f.Dies? then old(calls)
        else old(calls)[k := Listing(old(calls), k) + [Pushed(commit)]]
      ensures branches == if Applied(f) && !Rejected(Lookup(old(branches), branch), commit, fastForward)
        then old(branches)[branch := commit] else old(branches)
      ensures s == if f.Done? && Rejected(Lookup(old(branches), branch), commit, fastForward) then Raised else CallEnds(f)
    {
      Log(k, Pushed(commit), f);
      if branch in branches && branches[branch] != commit && !fastForward {
        return if f == Done then Raised else CallEnds(f);
      }
      if Applied(f) {
        branches := branches[branch := commit];
      }
      s := CallEnds(f);
    }

    method CreatePullRequest(k: Key, pr: Pr, f: Fate) returns (s: Signal)
      modifies this`calls, this`prs
      ensures calls == if f.Dies? then old(calls)
        else old(calls)[k := Listing(old(calls), k) + [Created]]
      ensures prs == if Applied(f)
        then old(prs)[(pr.source, pr.target) := Listing(old(prs), (pr.source, pr.target)) + [pr]] else old(prs)
      ensures s == CallEnds(f)
    {
      Log(k, Created, f);
      if Applied(f) {
        prs := prs[(pr.source, pr.target) := Listing(prs, (pr.source, pr.target)) + [pr]];
      }
      s := CallEnds(f);
    }
  }

  /** How a stage of the `try` ended, without the state it left. */
  datatype TryEnd = WentOn(commit: string) | Threw(commit: string, reason: Reason) | Died | Reached(url: Text, adopted: bool)

  function EndOf(p: Progress): TryEnd {
    match p
    case Go(_, commit) => WentOn(commit)
    case Thrown(_, commit, reason) => Threw(commit, reason)
    case Halted(_) => Died
    case Finished(_, url, adopted) => Reached(url, adopted)
  }

  function PreparedEnd(p: Prepared): Result<string, AttemptEnd> {
    match p case Prepared(_, commit) => Ok(commit) case NotPrepared(_, end) => Err(end)
  }

  /** `c` is the present cell of the target, reached from `w` by growing its lists. */
  ghost predicate At(now: World, w: World, n: Naming, k: Key, c: Cell) {
    now == Put(w, n, k, c) &&
    |Listing(w.prs, (n(k.target), k.target))| <= |c.prs| && |Listing(w.calls, k)| <= |c.log|
  }

  lemma {:induction false} AtStart(w: World, n: Naming, k: Key)
    ensures At(w, w, n, k, CellOf(w, n, k))
  {
  }

  lemma {:induction false} AtRead(now: World, w: World, n: Naming, k: Key, c: Cell)
    requires At(now, w, n, k, c)
    ensures CellOf(now, n, k) == c
  {
  }

  lemma {:induction false} AtRow(now: World, w: World, n: Naming, k: Key, c: Cell, row: TargetRow)
    requires At(now, w, n, k, c)
    ensures At(now.(rows := now.rows[k := row]), w, n, k, c.(row := Some(row)))
  {
  }

  lemma {:induction false} AtLog(now: World, w: World, n: Naming, k: Key, c: Cell, call: Call)
    requires At(now, w, n, k, c)
    ensures At(now.(calls := now.calls[k := Listing(now.calls, k) + [call]]), w, n, k, c.(log := c.log + [call]))
  {
  }

  lemma {:induction false} AtBranch(now: World, w: World, n: Naming, k: Key, c: Cell, commit: string)
    requires At(now, w, n, k, c)
    ensures At(now.(branches := now.branches[n(k.target) := commit]), w, n, k, c.(branch := Some(commit)))
  {
  }

  lemma {:induction false} AtPr(now: World, w: World, n: Naming, k: Key, c: Cell, pr: Pr)
    requires At(now, w, n, k, c)
    ensures var b := (n(k.target), k.target);
      At(now.(prs := now.prs[b := Listing(now.prs, b) + [pr]]), w, n, k, c.(prs := c.prs + [pr]))
  {
  }

  lemma {:induction false} PushingKeepsRow(c: Cell, branch: string, commit: string, f: TargetFates)
    requires c.row.Some?
    ensures Pushing(c, branch, commit, f).c.row.Some?
  {
  }

  lemma {:induction false} ClaimingKeepsRow(c: Cell, branch: string, expected: string, dc: string, f: TargetFates)
    requires c.row.Some?
    ensures Claiming(c, branch, expected, dc, f).c.row.Some?
  {
    var c1 := Issued(c, LookedUp, f.lookup);
    PushingKeepsRow(c1, branch, expected, f);
    PushingKeepsRow(Issued(c1, Built(dc), f.build), branch, f.built, f);
  }

  /** Past the opening the target has its row. */
  lemma {:induction false} RowsInPlace(c: Cell, branch: string, target: string, expected: string, dc: string, f: TargetFates)
    ensures var listed := Opening(c, branch, f);
      (listed.Go? || listed.Thrown? ==> listed.c.row.Some?) &&
      (listed.Go? ==> Claiming(listed.c, branch, expected, dc, f).c.row.Some?)
  {
    var listed := Opening(c, branch, f);
    if listed.Go? {
      ClaimingKeepsRow(listed.c, branch, expected, dc, f);
    }
  }

  lemma {:induction false} ThrownHasRow(c: Cell, branch: string, target: string, dc: string, f: TargetFates)
    ensures var p := Body(c, branch, target, dc, f); p.Thrown? ==> p.c.row.Some?
  {
  }

  class GitHubPrDelivery {
    const store: DeliveryStore
    const remote: Remote
    const n: Naming

    constructor (store: DeliveryStore, remote: Remote, n: Naming)
      ensures this.store == store && this.remote == remote && this.n == n
    {
      this.store, this.remote, this.n := store, remote, n;
    }

    ghost function Now(): World
      reads store, remote
    {
      World(store.actions, store.rows, remote.branches, remote.prs, remote.calls)
    }

    /** `mark_target`, in terms of the target's cell. */
    method Mark(k: Key, status: Status, outcome: Option<string>, externalId: Option<string>, externalUrl: Option<Text>,
                result: Option<TargetResult>, f: Fate, ghost w: World, ghost c: Cell) returns (s: Signal)
      requires At(Now(), w, n, k, c) && c.row.Some?
      modifies store
      ensures s == WriteEnds(f)
      ensures At(Now(), w, n, k,
                 Stored(c, Marked(Row(c), status, outcome, Some(n(k.target)), externalId, externalUrl, result), f))
    {
      AtRead(Now(), w, n, k, c);
      AtRow(Now(), w, n, k, c, Marked(Row(c), status, outcome, Some(n(k.target)), externalId, externalUrl, result));
      s := store.MarkTarget(k, status, outcome, Some(n(k.target)), externalId, externalUrl, result, f);
    }

    method ReconcileTarget(k: Key, f: TargetFates, ghost w: World, ghost c: Cell) returns (r: TryEnd)
      requires At(Now(), w, n, k, c) && c.row.Some?
      modifies store, remote
      ensures At(Now(), w, n, k, Reconciling(c, n(k.target), f).c) && r == EndOf(Reconciling(c, n(k.target), f))
    {
      AtRead(Now(), w, n, k, c);
      AtLog(Now(), w, n, k, c, Listed);
      var s, matches := remote.ListPullRequests(k, n(k.target), f.list);
      ghost var c1 := Issued(c, Listed, f.list);
      if s == Stopped {
        return Died;
      }
      if s == Raised {
        return Threw("", ListFailed);
      }
      if |matches| > 1 {
        return Threw("", ManyMatches);
      }
      if |matches| == 1 {
        s := Mark(k, Succeeded, Some("success"), Some(matches[0].number), Some(matches[0].url),
                  Some(TargetResult(None, None, Some(true), None)), f.record, w, c1);
        return if s == Proceed then Reached(matches[0].url, true) else Died;
      }
      return WentOn("");
    }

    /** `persisted_result.get("expectedCommit", "")`. */
    method ExpectedCommit(k: Key, ghost w: World, ghost c: Cell) returns (expected: string)
      requires At(Now(), w, n, k, c) && c.row.Some?
      ensures expected == Expected(c)
    {
      AtRead(Now(), w, n, k, c);
      var result := store.rows[k].result;
      expected := if result.Some? && result.value.expectedCommit.Some? then result.value.expectedCommit.value else "";
    }

    method ResumeTarget(k: Key, f: TargetFates, ghost w: World, ghost c: Cell) returns (r: TryEnd)
      requires At(Now(), w, n, k, c) && c.row.Some?
      modifies store, remote
      ensures At(Now(), w, n, k, Resuming(c, n(k.target), f).c) && r == EndOf(Resuming(c, n(k.target), f))
    {
      AtRead(Now(), w, n, k, c);
      var row := store.rows[k];
      if row.status == Succeeded && row.externalUrl.Some? {
        return Reached(row.externalUrl.value, true);
      }
      var s := Mark(k, InReconciliation, None, None, None, None, f.reconcile, w, c);
      if s != Proceed {
        return Died;
      }
      r := ReconcileTarget(k, f, w, Stored(c, Marked(Row(c), InReconciliation, None, Some(n(k.target)), None, None, None), f.reconcile));
    }

    method OpenTarget(k: Key, f: TargetFates, ghost w: World, ghost c: Cell) returns (r: TryEnd, expected: string)
      requires At(Now(), w, n, k, c)
      modifies store, remote
      ensures At(Now(), w, n, k, Opening(c, n(k.target), f).c) && r == EndOf(Opening(c, n(k.target), f))
      ensures r.WentOn? ==> expected == Expected(c)
    {
      AtRead(Now(), w, n, k, c);
      AtRow(Now(), w, n, k, c, NEW_ROW);
      var s := store.EnsureTarget(k, f.ensure);
      ghost var c1 := if c.row.Some? then c else Stored(c, NEW_ROW, f.ensure);
      if s != Proceed {
        return Died, "";
      }
      expected := ExpectedCommit(k, w, c1);
      r := ResumeTarget(k, f, w, c1);
    }

    method PushBranch(k: Key, commit: Text, f: TargetFates, ghost w: World, ghost c: Cell) returns (r: TryEnd)
      requires At(Now(), w, n, k, c) && c.row.Some?
      modifies store, remote
      ensures At(Now(), w, n, k, Pushing(c, n(k.target), commit, f).c) && r == EndOf(Pushing(c, n(k.target), commit, f))
    {
      var s := Mark(k, InReconciliation, None, None, None, Some(Intent(commit, false)), f.intend, w, c);
      ghost var c1 := Intended(c, n(k.target), commit, false, f.intend);
      if s != Proceed {
        return Died;
      }
      AtRead(Now(), w, n, k, c1);
      AtLog(Now(), w, n, k, c1, Pushed(commit));
      AtBranch(Now(), w, n, k, c1, commit);
      AtBranch(Now().(calls := Now().calls[k := Listing(Now().calls, k) + [Pushed(commit)]]), w, n, k,
               c1.(log := c1.log + [Pushed(commit)]), commit);
      s := remote.PushTarget(k, n(k.target), commit, f.fastForward, f.push);
      ghost var c2 := AfterPush(c1, commit, f);
      if s == Stopped {
        return Died;
      }
      if s == Raised {
        return Threw(commit, PushFailed);
      }
      s := Mark(k, InReconciliation, None, None, None, Some(Intent(commit, true)), f.confirm, w, c2);
      return if s == Proceed then WentOn(commit) else Died;
    }

    method ClaimBranch(k: Key, expected: string, deliveryCommit: string, f: TargetFates, ghost w: World, ghost c: Cell)
      returns (r: TryEnd)
      requires At(Now(), w, n, k, c) && c.row.Some?
      modifies store, remote
      ensures var p := Claiming(c, n(k.target), expected, deliveryCommit, f);
        At(Now(), w, n, k, p.c) && r == EndOf(p)
    {
      AtRead(Now(), w, n, k, c);
      AtLog(Now(), w, n, k, c, LookedUp);
      var s, remoteCommit := remote.RemoteBranchCommit(k, n(k.target), f.lookupUnreadable, f.lookup);
      ghost var c1 := Issued(c, LookedUp, f.lookup);
      if s == Stopped {
        return Died;
      }
      if s == Raised {
        return Threw("", LookupFailed);
      }
      if remoteCommit.Some? {
        if expected == "" || remoteCommit.value != expected {
          return Threw("", UnclaimedBranch);
        }
        return WentOn(expected);
      }
      if expected != "" && f.known {
        r := PushBranch(k, expected, f, w, c1);
        return;
      }
      r := BuildBranch(k, deliveryCommit, f, w, c1);
    }

    method BuildBranch(k: Key, deliveryCommit: string, f: TargetFates, ghost w: World, ghost c: Cell) returns (r: TryEnd)
      requires At(Now(), w, n, k, c) && c.row.Some?
      modifies store, remote
      ensures var p := Building(c, n(k.target), deliveryCommit, f); At(Now(), w, n, k, p.c) && r == EndOf(p)
    {
      AtLog(Now(), w, n, k, c, Built(deliveryCommit));
      var s := remote.CreateTargetCommit(k, deliveryCommit, f.build);
      if s == Stopped {
        return Died;
      }
      if s == Raised {
        return Threw("", BuildFailed);
      }
      r := PushBranch(k, f.built, f, w, Issued(c, Built(deliveryCommit), f.build));
    }

    method PublishPr(k: Key, commit: string, f: TargetFates, ghost w: World, ghost c: Cell) returns (r: TryEnd)
      requires At(Now(), w, n, k, c) && c.row.Some?
      modifies store, remote
      ensures var p := Publishing(c, n(k.target), k.target, commit, f);
        At(Now(), w, n, k, p.c) && r == EndOf(p)
    {
      var pr := Pr(f.number, f.url, n(k.target), k.target);
      AtLog(Now(), w, n, k, c, Created);
      AtPr(Now(), w, n, k, c, pr);
      AtPr(Now().(calls := Now().calls[k := Listing(Now().calls, k) + [Created]]), w, n, k,
           c.(log := c.log + [Created]), pr);
      var s := remote.CreatePullRequest(k, pr, f.create);
      ghost var c1 := Issued(c, Created, f.create);
      ghost var c2 := if Applied(f.create) then c1.(prs := c1.prs + [pr]) else c1;
      if s == Stopped {
        return Died;
      }
      if s == Raised {
        return Threw(commit, CreateFailed);
      }
      s := Mark(k, Succeeded, Some("success"), Some(pr.number), Some(pr.url),
                Some(TargetResult(Some(commit), Some(true), Some(false), None)), f.record, w, c2);
      return if s == Proceed then Reached(pr.url, false) else Died;
    }

    /** The body of the `try`. */
    method TryTarget(k: Key, deliveryCommit: string, f: TargetFates, ghost w: World, ghost c: Cell) returns (r: TryEnd)
      requires At(Now(), w, n, k, c)
      modifies store, remote
      ensures var p := Body(c, n(k.target), k.target, deliveryCommit, f);
        At(Now(), w, n, k, p.c) && r == EndOf(p)
    {
      var expected;
      r, expected := OpenTarget(k, f, w, c);
      RowsInPlace(c, n(k.target), k.target, expected, deliveryCommit, f);
      if !r.WentOn? {
        return;
      }
      ghost var listed := Opening(c, n(k.target), f);
      r := ClaimBranch(k, expected, deliveryCommit, f, w, listed.c);
      if !r.WentOn? {
        return;
      }
      ghost var claimed := Claiming(listed.c, n(k.target), expected, deliveryCommit, f);
      r := PublishPr(k, r.commit, f, w, claimed.c);
    }

    /** One turn of the loop: the `try` and its handler. */
    method DeliverTarget(k: Key, deliveryCommit: string, f: TargetFates) returns (end: TargetEnd)
      modifies store, remote
      ensures TargetOutcome(Now(), end) == G.DeliverTarget(old(Now()), n, k, deliveryCommit, f)
    {
      ghost var w := Now();
      ghost var c := CellOf(w, n, k);
      AtStart(w, n, k);
      var r := TryTarget(k, deliveryCommit, f, w, c);
      ThrownHasRow(c, n(k.target), k.target, deliveryCommit, f);
      end := Handle(k, r, f, w, Body(c, n(k.target), k.target, deliveryCommit, f));
    }

    /** The `except` clause. */
    method Handle(k: Key, r: TryEnd, f: TargetFates, ghost w: World, ghost p: Progress) returns (end: TargetEnd)
      requires At(Now(), w, n, k, p.c) && r == EndOf(p) && (p.Thrown? ==> p.c.row.Some?)
      modifies store, remote
      ensures var o := Handled(p, n(k.target), f); Now() == Put(w, n, k, o.c) && end == o.end
    {
      match r
      case Reached(url, adopted) => return Delivered(url, adopted);
      case WentOn(_) => return Interrupted;
      case Died => return Interrupted;
      case Threw(commit, reason) =>
        var s := Mark(k, Failed, Some("failure"), None, None, Some(FailureResult(commit, reason)), f.fail, w, p.c);
        return if s == Proceed then NotDelivered(reason) else Interrupted;
    }

    /** From the durable action row to the delivery commit: the commit, or how the attempt ended. */
    method PrepareCommit(action: string, a: AttemptFates) returns (r: Result<string, AttemptEnd>)
      modifies store`actions
      ensures var p := Prepare(Lookup(old(store.actions), action), a);
        store.actions == Stow(old(store.actions), action, p.action) && r == PreparedEnd(p)
    {
      var s := store.EnsureAction(action, a.ensure);
      if s != Proceed {
        return Err(Cut);
      }
      var previous := store.actions[action].deliveryCommit;
      s := store.MarkAction(action, Running, None, None, a.start);
      if s != Proceed {
        return Err(Cut);
      }
      r := RefreshAndBuild(action, previous, a);
    }

    method RefreshAndBuild(action: string, previous: string, a: AttemptFates) returns (r: Result<string, AttemptEnd>)
      requires action in store.actions
      modifies store`actions
      ensures var p := DeliveryCommit(Lookup(old(store.actions), action), previous, a);
        store.actions == Stow(old(store.actions), action, p.action) && r == PreparedEnd(p)
    {
      var caught := CallEnds(a.refresh);
      if caught == Proceed {
        if previous != "" && a.known {
          return Ok(previous);
        }
        caught := if a.manifestMissing then Raised else CallEnds(a.build);
      }
      if caught == Stopped {
        return Err(Cut);
      }
      if caught == Raised {
        var s := store.MarkAction(action, Failed, Some("failure"), Some(previous), a.fail);
        return Err(if s == Proceed then ActionFailed else Cut);
      }
      var s := store.MarkAction(action, Running, None, Some(a.built), a.keep);
      return if s == Proceed then Ok(a.built) else Err(Cut);
    }

    /**
     One attempt: at most one pull request per branch pair, nothing of a settled target changes, targets are
     built from one delivery commit, and a reporting attempt leaves it in the action row.
     */
    method Deliver(a: Attempt) returns (end: AttemptEnd)
      modifies store, remote
      ensures AttemptOutcome(Now(), end) == G.Deliver(old(Now()), n, a)
      ensures old(WorldInv(Now(), n)) ==> WorldInv(Now(), n) && WorldEvolves(old(Now()), Now(), n)
      ensures WorldBuildsFrom(old(Now()), Now(), a.action, CommitUsed(old(Now()), a))
      ensures end.Reported? ==> RowOfReport(old(Now()), Now(), a, end)
    {
      AttemptBuildsFrom(Now(), n, a);
      ReportedRow(Now(), n, a);
      if WorldInv(Now(), n) {
        AttemptStep(Now(), n, a);
      }
      end := RunAttempt(a);
    }

    method RunAttempt(a: Attempt) returns (end: AttemptEnd)
      modifies store, remote
      ensures AttemptOutcome(Now(), end) == G.Deliver(old(Now()), n, a)
    {
      if a.plan == [] {
        return Refused;
      }
      var prepared := PrepareCommit(a.action, a.fates);
      if prepared.Err? {
        return prepared.error;
      }
      ghost var w := Now();
      ghost var s := SweepTargets(w, n, a.action, prepared.value, a.plan);
      SweepKeepsActions(w, n, a.action, prepared.value, a.plan);
      var whole, results, failures := DeliverTargets(a.action, prepared.value, a.plan);
      if !whole {
        return Cut;
      }
      end := Report(a.action, results, failures, prepared.value, a.fates.finish);
    }

    /** The loop over the target branches, until it is through or cut short. */
    method DeliverTargets(action: string, deliveryCommit: string, plan: seq<TargetPlan>)
      returns (whole: bool, results: seq<TargetReport>, failures: seq<string>)
      modifies store, remote
      ensures Sweep(Now(), results, failures, whole) == SweepTargets(old(Now()), n, action, deliveryCommit, plan)
    {
      ghost var w := Now();
      whole, results, failures := true, [], [];
      for i := 0 to |plan|
        invariant whole && SweepTargets(w, n, action, deliveryCommit, plan[..i]) == Sweep(Now(), results, failures, true)
      {
        var t := plan[i];
        SweepNext(plan, i);
        var o := DeliverTarget(Key(action, t.target), deliveryCommit, t.fates);
        match o {
          case Delivered(url, adopted) => results := results + [TargetReport(t.target, url, adopted)];
          case NotDelivered(_) => failures := failures + [t.target];
          case Interrupted =>
            SweepCut(w, n, action, deliveryCommit, plan, i + 1);
            whole := false;
            return;
        }
      }
      assert plan[..|plan|] == plan;
    }

    /** The final action row. */
    method Report(action: string, results: seq<TargetReport>, failures: seq<string>, deliveryCommit: string, finish: Fate)
      returns (end: AttemptEnd)
      requires action in store.actions
      modifies store`actions
      ensures end == if WriteEnds(finish).Proceed? then Reported(results, failures) else Cut
      ensures store.actions == Stow(old(store.actions), action, Acted(Lookup(old(store.actions), action), ActionRow(
        if failures != [] then Failed else Succeeded,
        Some(if results != [] && failures != [] then "partial_success" else if failures != [] then "failure" else "success"),
        deliveryCommit), finish))
    {
      var outcome := if results != [] && failures != [] then "partial_success" else if failures != [] then "failure" else "success";
      var status := if failures != [] then Failed else Succeeded;
      var s := store.MarkAction(action, status, Some(outcome), Some(deliveryCommit), finish);
      return if s == Proceed then Reported(results, failures) else Cut;
    }
  }

  lemma {:induction false} SweepNext(plan: seq<TargetPlan>, i: nat)
    requires i < |plan|
    ensures plan[..i + 1][|plan[..i + 1]| - 1] == plan[i] && plan[..i + 1][..|plan[..i + 1]| - 1] == plan[..i]
  {
  }

  /** A sweep that was cut short stays as it was left. */
  lemma {:induction false} SweepCut(w: World, n: Naming, action: string, dc: string, plan: seq<TargetPlan>, i: nat)
    requires i <= |plan| && !SweepTargets(w, n, action, dc, plan[..i]).complete
    ensures SweepTargets(w, n, action, dc, plan) == SweepTargets(w, n, action, dc, plan[..i])
    decreases |plan|
  {
    if i < |plan| {
      assert plan[..|plan| - 1][..i] == plan[..i];
      SweepCut(w, n, action, dc, plan[..|plan| - 1], i);
    } else {
      assert plan[..i] == plan;
    }
  }
}
