/**
 GitHub pull request delivery (`GitHubPrDelivery.deliver` over `DeliveryStore`), as a function of
 what every durable write and external call does.  A crash or an uncaught error may end an attempt
 between any two of them, and an external call may take effect and still raise.
 */
module GithubDelivery {
  import opened Prelude

  type Text = s: string | |s| > 0 witness "x"

  /** What one write or call does: `Late` means it took effect before the failure showed. */
  datatype Fate = Done | Raises | RaisesLate | Dies | DiesLate

  /** How it looks to `deliver`: go on, an error its handler catches, or the end of the attempt. */
  datatype Signal = Proceed | Raised | Stopped

  predicate Applied(f: Fate) { f.Done? || f.RaisesLate? || f.DiesLate? }

  /** A failing durable write raises a database error, which no handler in `deliver` catches. */
  function WriteEnds(f: Fate): Signal { if f.Done? then Proceed else Stopped }

  function CallEnds(f: Fate): Signal {
    match f
    case Done => Proceed
    case Raises => Raised
    case RaisesLate => Raised
    case _ => Stopped
  }

  // ---------- durable rows and the remote ----------

  datatype Status = Pending | Running | InReconciliation | Succeeded | Failed

  datatype Reason = ListFailed | ManyMatches | LookupFailed | UnclaimedBranch | BuildFailed | PushFailed | CreateFailed

  /** The JSON kept in a target row; `None` is an absent key. */
  datatype TargetResult = TargetResult(
    expectedCommit: Option<string>, branchPushed: Option<bool>, adopted: Option<bool>, reason: Option<Reason>)

  datatype TargetRow = TargetRow(
    status: Status, outcome: Option<string>, remoteRef: Option<string>,
    externalId: Option<string>, externalUrl: Option<Text>, result: Option<TargetResult>)

  datatype ActionRow = ActionRow(status: Status, outcome: Option<string>, deliveryCommit: string)

  datatype Pr = Pr(number: string, url: Text, source: string, target: string)

  datatype Call =
    | Listed
    | LookedUp
    | Built(deliveryCommit: string)
    | Pushed(commit: string)
    | Created

  /** A target of a delivery action, which its intent key names; a changed configuration is another action. */
  datatype Key = Key(action: string, target: string)

  /**
   The action rows and target rows of a run, the remote its actions share (the branches, and the pull
   requests in any state by source and target branch), and the external calls issued for each target row.
   */
  datatype World = World(
    actions: map<string, ActionRow>, rows: map<Key, TargetRow>, branches: map<string, string>,
    prs: map<(string, string), seq<Pr>>, calls: map<Key, seq<Call>>)

  /** What the delivery of one target reads and writes: its row, its branch, its pull requests. */
  datatype Cell = Cell(row: Option<TargetRow>, branch: Option<string>, prs: seq<Pr>, log: seq<Call>)

  /** The name of the delivery branch for a target; any function will do. */
  type Naming = string -> string

  const NEW_ROW := TargetRow(Pending, None, None, None, None, None)

  function Lookup<K, V>(m: map<K, V>, k: K): Option<V> {
    if k in m then Some(m[k]) else None
  }

  function Listing<K, V>(m: map<K, seq<V>>, k: K): seq<V> {
    if k in m then m[k] else []
  }

  function CellOf(w: World, n: Naming, k: Key): Cell {
    Cell(Lookup(w.rows, k), Lookup(w.branches, n(k.target)), Listing(w.prs, (n(k.target), k.target)), Listing(w.calls, k))
  }

  function Stow<K, V>(m: map<K, V>, k: K, v: Option<V>): map<K, V> {
    if v.Some? then m[k := v.value] else m - {k}
  }

  function StowListing<K, V(==)>(m: map<K, seq<V>>, k: K, v: seq<V>): map<K, seq<V>> {
    if v == Listing(m, k) then m else m[k := v]
  }

  function Put(w: World, n: Naming, k: Key, c: Cell): World {
    World(w.actions, Stow(w.rows, k, c.row), Stow(w.branches, n(k.target), c.branch),
          StowListing(w.prs, (n(k.target), k.target), c.prs), StowListing(w.calls, k, c.log))
  }

  function Coalesce<T>(given: Option<T>, stored: Option<T>): Option<T> {
    if given.Some? then given else stored
  }

  function Marked(row: TargetRow, status: Status, outcome: Option<string>, remoteRef: Option<string>,
                  externalId: Option<string>, externalUrl: Option<Text>, result: Option<TargetResult>): TargetRow
  {
    TargetRow(status, outcome, Coalesce(remoteRef, row.remoteRef), Coalesce(externalId, row.externalId),
              Coalesce(externalUrl, row.externalUrl), Coalesce(result, row.result))
  }

  /** `persisted_result.get("expectedCommit", "")`. */
  function Expected(c: Cell): string {
    if c.row.Some? && c.row.value.result.Some? && c.row.value.result.value.expectedCommit.Some?
    then c.row.value.result.value.expectedCommit.value else ""
  }

  /** A row that `deliver` skips. */
  predicate Settled(c: Cell) {
    c.row.Some? && c.row.value.status.Succeeded? && c.row.value.externalUrl.Some?
  }

  // ---------- one target ----------

  datatype TargetFates = TargetFates(
    ensure: Fate, reconcile: Fate, list: Fate, lookup: Fate, lookupUnreadable: bool,
    known: bool, build: Fate, built: Text, intend: Fate, push: Fate, fastForward: bool, confirm: Fate,
    create: Fate, number: string, url: Text, record: Fate, fail: Fate)

  /** Where the body of the `try` stands: `commit` is the local `target_commit`. */
  datatype Progress =
    | Go(c: Cell, commit: string)
    | Thrown(c: Cell, commit: string, reason: Reason)
    | Halted(c: Cell)
    | Finished(c: Cell, url: Text, adopted: bool)

  datatype TargetEnd = Delivered(url: Text, adopted: bool) | NotDelivered(reason: Reason) | Interrupted

  datatype CellOutcome = CellOutcome(c: Cell, end: TargetEnd)

  datatype TargetOutcome = TargetOutcome(w: World, end: TargetEnd)

  function Row(c: Cell): TargetRow {
    if c.row.Some? then c.row.value else NEW_ROW
  }

  function Stored(c: Cell, row: TargetRow, f: Fate): Cell {
    if Applied(f) then c.(row := Some(row)) else c
  }

  function Issued(c: Cell, call: Call, f: Fate): Cell {
    if f.Dies? then c else c.(log := c.log + [call])
  }

  /** Marks the target as succeeded with a pull request. */
  function Recorded(c: Cell, branch: string, pr: Pr, result: TargetResult, f: Fate): Progress {
    var row := Marked(Row(c), Succeeded, Some("success"), Some(branch), Some(pr.number), Some(pr.url), Some(result));
    var c1 := Stored(c, row, f);
    if WriteEnds(f).Proceed? then Finished(c1, pr.url, result.adopted == Some(true)) else Halted(c1)
  }

  /** The listing: adopt the one match, refuse several, or go on. */
  function Reconciling(c: Cell, branch: string, f: TargetFates): Progress {
    var c1 := Issued(c, Listed, f.list);
    match CallEnds(f.list)
    case Stopped => Halted(c1)
    case Raised => Thrown(c1, "", ListFailed)
    case Proceed =>
      if |c1.prs| > 1 then Thrown(c1, "", ManyMatches)
      else if |c1.prs| == 1 then
        Recorded(c1, branch, c1.prs[0], TargetResult(None, None, Some(true), None), f.record)
      else Go(c1, "")
  }

  /** From the durable row to the listing; a settled row is skipped. */
  function Resuming(c: Cell, branch: string, f: TargetFates): Progress {
    if Settled(c) then Finished(c, Row(c).externalUrl.value, true) else
    var c1 := Stored(c, Marked(Row(c), InReconciliation, None, Some(branch), None, None, None), f.reconcile);
    if WriteEnds(f.reconcile).Proceed? then Reconciling(c1, branch, f) else Halted(c1)
  }

  function Opening(c: Cell, branch: string, f: TargetFates): Progress {
    var c1 := if c.row.Some? then c else Stored(c, NEW_ROW, f.ensure);
    if WriteEnds(f.ensure).Proceed? then Resuming(c1, branch, f) else Halted(c1)
  }

  function Intent(commit: string, pushed: bool): TargetResult {
    TargetResult(Some(commit), Some(pushed), None, None)
  }

  function Intended(c: Cell, branch: string, commit: string, pushed: bool, f: Fate): Cell {
    Stored(c, Marked(Row(c), InReconciliation, None, Some(branch), None, None, Some(Intent(commit, pushed))), f)
  }

  /** A push without force: refused unless the branch is new, already there, or fast-forwards. */
  predicate Rejected(at: Option<string>, commit: string, fastForward: bool) {
    at.Some? && at.value != commit && !fastForward
  }

  function AfterPush(c: Cell, commit: string, f: TargetFates): Cell {
    var c1 := Issued(c, Pushed(commit), f.push);
    if Applied(f.push) && !Rejected(c.branch, commit, f.fastForward) then c1.(branch := Some(commit)) else c1
  }

  function PushEnds(c: Cell, commit: string, f: TargetFates): Signal {
    if f.push.Done? && Rejected(c.branch, commit, f.fastForward) then Raised else CallEnds(f.push)
  }

  /** Write-ahead intent, push, confirmation. */
  function Pushing(c: Cell, branch: string, commit: string, f: TargetFates): Progress {
    var c1 := Intended(c, branch, commit, false, f.intend);
    if !WriteEnds(f.intend).Proceed? then Halted(c1) else
    var c2 := AfterPush(c1, commit, f);
    match PushEnds(c1, commit, f)
    case Stopped => Halted(c2)
    case Raised => Thrown(c2, commit, PushFailed)
    case Proceed =>
      var c3 := Intended(c2, branch, commit, true, f.confirm);
      if WriteEnds(f.confirm).Proceed? then Go(c3, commit) else Halted(c3)
  }

  /** What `git ls-remote` shows; a failing command reads as an absent branch. */
  function Seen(at: Option<string>, unreadable: bool): Option<string> {
    if unreadable then None else at
  }

  /** No pull request yet: reuse the claimed branch, or build and push. */
  function Claiming(c: Cell, branch: string, expected: string, deliveryCommit: string, f: TargetFates): Progress {
    var c1 := Issued(c, LookedUp, f.lookup);
    match CallEnds(f.lookup)
    case Stopped => Halted(c1)
    case Raised => Thrown(c1, "", LookupFailed)
    case Proceed =>
      match Seen(c1.branch, f.lookupUnreadable)
      case Some(commit) =>
        if expected == "" || commit != expected then Thrown(c1, "", UnclaimedBranch) else Go(c1, expected)
      case None =>
        if expected != "" && f.known then Pushing(c1, branch, expected, f) else Building(c1, branch, deliveryCommit, f)
  }

  /** A new target commit is built from the delivery commit and pushed. */
  function Building(c: Cell, branch: string, deliveryCommit: string, f: TargetFates): Progress {
    var c1 := Issued(c, Built(deliveryCommit), f.build);
    match CallEnds(f.build)
    case Stopped => Halted(c1)
    case Raised => Thrown(c1, "", BuildFailed)
    case Proceed => Pushing(c1, branch, f.built, f)
  }

  function Publishing(c: Cell, branch: string, target: string, commit: string, f: TargetFates): Progress {
    var pr := Pr(f.number, f.url, branch, target);
    var c1 := Issued(c, Created, f.create);
    var c2 := if Applied(f.create) then c1.(prs := c1.prs + [pr]) else c1;
    match CallEnds(f.create)
    case Stopped => Halted(c2)
    case Raised => Thrown(c2, commit, CreateFailed)
    case Proceed => Recorded(c2, branch, pr, TargetResult(Some(commit), Some(true), Some(false), None), f.record)
  }

  /** The body of the `try`. */
  function Body(c: Cell, branch: string, target: string, deliveryCommit: string, f: TargetFates): Progress {
    var listed := Opening(c, branch, f);
    if !listed.Go? then listed else
    var claimed := Claiming(listed.c, branch, Expected(c), deliveryCommit, f);
    if !claimed.Go? then claimed else
    Publishing(claimed.c, branch, target, claimed.commit, f)
  }

  function FailureResult(commit: string, reason: Reason): TargetResult {
    TargetResult(if commit == "" then None else Some(commit), None, None, Some(reason))
  }

  /** The `except` clause, which rewrites the row's result. */
  function Handled(p: Progress, branch: string, f: TargetFates): CellOutcome {
    match p
    case Finished(c, url, adopted) => CellOutcome(c, Delivered(url, adopted))
    case Halted(c) => CellOutcome(c, Interrupted)
    case Go(c, _) => CellOutcome(c, Interrupted)
    case Thrown(c, commit, reason) =>
      var row := Marked(Row(c), Failed, Some("failure"), Some(branch), None, None, Some(FailureResult(commit, reason)));
      CellOutcome(Stored(c, row, f.fail), if WriteEnds(f.fail).Proceed? then NotDelivered(reason) else Interrupted)
  }

  function DeliverCell(c: Cell, branch: string, target: string, deliveryCommit: string, f: TargetFates): CellOutcome {
    Handled(Body(c, branch, target, deliveryCommit, f), branch, f)
  }

  function DeliverTarget(w: World, n: Naming, k: Key, deliveryCommit: string, f: TargetFates): TargetOutcome {
    var o := DeliverCell(CellOf(w, n, k), n(k.target), k.target, deliveryCommit, f);
    TargetOutcome(Put(w, n, k, o.c), o.end)
  }

  // ---------- one attempt, and runs of attempts ----------

  datatype TargetPlan = TargetPlan(target: string, fates: TargetFates)

  datatype AttemptFates = AttemptFates(
    ensure: Fate, start: Fate, refresh: Fate, known: bool, manifestMissing: bool,
    build: Fate, built: Text, keep: Fate, fail: Fate, finish: Fate)

  /** A call of `deliver` for one action. */
  datatype Attempt = Attempt(action: string, plan: seq<TargetPlan>, fates: AttemptFates)

  datatype TargetReport = TargetReport(target: string, url: Text, adopted: bool)

  datatype AttemptEnd =
    | Refused
    | ActionFailed
    | Reported(delivered: seq<TargetReport>, failed: seq<string>)
    | Cut

  datatype AttemptOutcome = AttemptOutcome(w: World, end: AttemptEnd)

  datatype Sweep = Sweep(w: World, delivered: seq<TargetReport>, failed: seq<string>, complete: bool)

  /** The loop over the target branches. */
  function SweepTargets(w: World, n: Naming, action: string, deliveryCommit: string, plan: seq<TargetPlan>): Sweep {
    if plan == [] then Sweep(w, [], [], true) else
    var t := plan[|plan| - 1];
    var before := SweepTargets(w, n, action, deliveryCommit, plan[..|plan| - 1]);
    if !before.complete then before else
    var o := DeliverTarget(before.w, n, Key(action, t.target), deliveryCommit, t.fates);
    match o.end
    case Delivered(url, adopted) => Sweep(o.w, before.delivered + [TargetReport(t.target, url, adopted)], before.failed, true)
    case NotDelivered(_) => Sweep(o.w, before.delivered, before.failed + [t.target], true)
    case Interrupted => Sweep(o.w, before.delivered, before.failed, false)
  }

  function Acted(action: Option<ActionRow>, row: ActionRow, f: Fate): Option<ActionRow> {
    if Applied(f) then Some(row) else action
  }

  datatype Prepared =
    | Prepared(action: Option<ActionRow>, commit: string)
    | NotPrepared(action: Option<ActionRow>, end: AttemptEnd)

  function PreparationFailed(action: Option<ActionRow>, previous: string, f: Fate): Prepared {
    NotPrepared(Acted(action, ActionRow(Failed, Some("failure"), previous), f),
                if WriteEnds(f).Proceed? then ActionFailed else Cut)
  }

  /** Refresh the clone, then reuse the remembered delivery commit or build one. */
  function DeliveryCommit(action: Option<ActionRow>, previous: string, a: AttemptFates): Prepared {
    match CallEnds(a.refresh)
    case Stopped => NotPrepared(action, Cut)
    case Raised => PreparationFailed(action, previous, a.fail)
    case Proceed =>
      if previous != "" && a.known then Prepared(action, previous)
      else if a.manifestMissing then PreparationFailed(action, previous, a.fail)
      else match CallEnds(a.build)
        case Stopped => NotPrepared(action, Cut)
        case Raised => PreparationFailed(action, previous, a.fail)
        case Proceed =>
          var kept := Acted(action, ActionRow(Running, None, a.built), a.keep);
          if WriteEnds(a.keep).Proceed? then Prepared(kept, a.built) else NotPrepared(kept, Cut)
  }

  /** The durable action row and the delivery commit it remembers. */
  function Prepare(action: Option<ActionRow>, a: AttemptFates): Prepared {
    var a1 := if action.Some? then action else Acted(action, ActionRow(Pending, None, ""), a.ensure);
    if !WriteEnds(a.ensure).Proceed? then NotPrepared(a1, Cut) else
    var previous := a1.value.deliveryCommit;
    var a2 := Acted(a1, ActionRow(Running, None, previous), a.start);
    if !WriteEnds(a.start).Proceed? then NotPrepared(a2, Cut)
    else DeliveryCommit(a2, previous, a)
  }

  function WithAction(w: World, action: string, row: Option<ActionRow>): World { w.(actions := Stow(w.actions, action, row)) }

  function Deliver(w: World, n: Naming, a: Attempt): AttemptOutcome {
    if a.plan == [] then AttemptOutcome(w, Refused) else
    var p := Prepare(Lookup(w.actions, a.action), a.fates);
    var u := WithAction(w, a.action, p.action);
    if p.NotPrepared? then AttemptOutcome(u, p.end) else
    var s := SweepTargets(u, n, a.action, p.commit, a.plan);
    if !s.complete then AttemptOutcome(s.w, Cut) else
    var outcome := if s.failed == [] then "success" else if s.delivered == [] then "failure" else "partial_success";
    var row := ActionRow(if s.failed == [] then Succeeded else Failed, Some(outcome), p.commit);
    AttemptOutcome(WithAction(s.w, a.action, Acted(Lookup(s.w.actions, a.action), row, a.fates.finish)),
                   if WriteEnds(a.fates.finish).Proceed? then Reported(s.delivered, s.failed) else Cut)
  }

  function Run(w: World, n: Naming, attempts: seq<Attempt>): World
    decreases |attempts|
  {
    if attempts == [] then w else Run(Deliver(w, n, attempts[0]).w, n, attempts[1..])
  }
}
