/**
 The persistent FIFO lease store for Agent processes (`LlmSlotStore`), as a state machine over
 its two tables.  A raised error rolls the transaction back, so every error reply carries the
 tables the call started from.
 */
module LlmSlots {
  import opened Prelude

  datatype WaiterState = Queued | Granted | Released | Expired | Canceled

  datatype Waiter = Waiter(
    position: nat, owner: string, runId: Option<string>, stageId: string, state: WaiterState,
    enqueuedAt: int, heartbeatAt: int, expiresAt: int, grantedAt: Option<int>, finishedAt: Option<int>)

  datatype LeaseRow = LeaseRow(
    requestId: string, owner: string, runId: Option<string>, stageId: string,
    acquiredAt: int, heartbeatAt: int, expiresAt: int, rowVersion: nat)

  /** The handle a caller keeps: a copy of the lease row joined with its waiter. */
  datatype Lease = Lease(
    slot: nat, requestId: string, owner: string, runId: Option<string>, stageId: string,
    acquiredAt: int, expiresAt: int, position: nat, enqueuedAt: int)

  datatype SlotError = InvalidArgument | UnknownWaiter | OwnerMismatch | LeaseMissing | NotEligible | LeaseLost

  /** `llm_slot_waiters` by request, `llm_slot_leases` by slot, and the next queue position. */
  datatype Tables = Tables(waiters: map<string, Waiter>, leases: map<nat, LeaseRow>, nextPosition: nat)

  datatype Reply<+T> = Reply(tables: Tables, result: Result<T, SlotError>)

  const EMPTY := Tables(map[], map[], 1)

  // ---------- the transactions ----------

  function ExpiredRequests(t: Tables, now: int): set<string> {
    set s | s in t.leases && t.leases[s].expiresAt <= now :: t.leases[s].requestId
  }

  function ReapedWaiter(w: Waiter, leaseExpired: bool, now: int): Waiter {
    if (w.state.Granted? && leaseExpired) || (w.state.Queued? && w.expiresAt <= now)
    then w.(state := Expired, finishedAt := Some(now))
    else w
  }

  function Reaped(t: Tables, now: int): Tables {
    var expired := ExpiredRequests(t, now);
    Tables(map r | r in t.waiters :: ReapedWaiter(t.waiters[r], r in expired, now),
           map s | s in t.leases && now < t.leases[s].expiresAt :: t.leases[s],
           t.nextPosition)
  }

  function Enqueue(t: Tables, requestId: string, owner: string, stageId: string, runId: Option<string>,
                   ttl: int, now: int): Reply<nat>
  {
    if ttl < 1 then Reply(t, Err(InvalidArgument))
    else if requestId in t.waiters then
      if t.waiters[requestId].owner != owner then Reply(t, Err(OwnerMismatch))
      else Reply(t, Ok(t.waiters[requestId].position))
    else
      var w := Waiter(t.nextPosition, owner, runId, stageId, Queued, now, now, now + ttl, None, None);
      Reply(t.(waiters := t.waiters[requestId := w], nextPosition := t.nextPosition + 1), Ok(t.nextPosition))
  }

  /** The waiter is queued and no queued waiter has a smaller position. */
  ghost predicate IsHead(t: Tables, requestId: string) {
    requestId in t.waiters && t.waiters[requestId].state.Queued? &&
    forall q | q in t.waiters && t.waiters[q].state.Queued? ::
      t.waiters[requestId].position <= t.waiters[q].position
  }

  /** The smallest free slot in [from, capacity), if any. */
  function FirstFree(occupied: set<nat>, from: nat, capacity: nat): (slot: Option<nat>)
    requires from <= capacity
    ensures slot.Some? ==> from <= slot.value < capacity && slot.value !in occupied
    ensures slot.Some? ==> forall k: nat | from <= k < slot.value :: k in occupied
    ensures slot.None? ==> forall k: nat | from <= k < capacity :: k in occupied
    decreases capacity - from
  {
    if from == capacity then None
    else if from !in occupied then Some(from)
    else FirstFree(occupied, from + 1, capacity)
  }

  function LeaseView(w: Waiter, slot: nat, row: LeaseRow): Lease {
    Lease(slot, row.requestId, row.owner, row.runId, row.stageId, row.acquiredAt, row.expiresAt,
          w.position, w.enqueuedAt)
  }

  ghost predicate HasLease(t: Tables, requestId: string, owner: string) {
    exists s :: s in t.leases && t.leases[s].requestId == requestId && t.leases[s].owner == owner
  }

  ghost function SlotOf(t: Tables, requestId: string, owner: string): (s: nat)
    requires HasLease(t, requestId, owner)
    ensures s in t.leases && t.leases[s].requestId == requestId && t.leases[s].owner == owner
  {
    var s :| s in t.leases && t.leases[s].requestId == requestId && t.leases[s].owner == owner; s
  }

  /** The tables after a waiter's queue heartbeat, written by every poll of a queued waiter. */
  function Touched(t: Tables, requestId: string, ttl: int, now: int): Tables
    requires requestId in t.waiters
  {
    t.(waiters := t.waiters[requestId := t.waiters[requestId].(heartbeatAt := now, expiresAt := now + ttl)])
  }

  function Grant(t: Tables, requestId: string, slot: nat, ttl: int, now: int): Tables
    requires requestId in t.waiters
  {
    var w := t.waiters[requestId];
    t.(leases := t.leases[slot := LeaseRow(requestId, w.owner, w.runId, w.stageId, now, now, now + ttl, 1)],
       waiters := t.waiters[requestId := w.(state := Granted, grantedAt := Some(now))])
  }

  /** A queued waiter's poll, on reaped tables. */
  ghost function Poll(u: Tables, requestId: string, capacity: nat, ttl: int, now: int): Reply<Option<Lease>>
    requires requestId in u.waiters
  {
    var v := Touched(u, requestId, ttl, now);
    if !IsHead(v, requestId) || |v.leases| >= capacity then Reply(v, Ok(None))
    else match FirstFree(v.leases.Keys, 0, capacity)
      case None => Reply(v, Ok(None))
      case Some(slot) =>
        var g := Grant(v, requestId, slot, ttl, now);
        Reply(g, Ok(Some(LeaseView(u.waiters[requestId], slot, g.leases[slot]))))
  }

  ghost function TryAcquire(t: Tables, requestId: string, owner: string, capacity: int, ttl: int, now: int)
    : Reply<Option<Lease>>
  {
    if capacity < 1 || ttl < 1 then Reply(t, Err(InvalidArgument)) else
    var u := Reaped(t, now);
    if requestId !in u.waiters then Reply(t, Err(UnknownWaiter)) else
    var w := u.waiters[requestId];
    if w.owner != owner then Reply(t, Err(OwnerMismatch))
    else if w.state.Granted? then
      if !HasLease(u, requestId, owner) then Reply(t, Err(LeaseMissing))
      else
        var s := SlotOf(u, requestId, owner);
        Reply(u, Ok(Some(LeaseView(w, s, u.leases[s]))))
    else if !w.state.Queued? then Reply(t, Err(NotEligible))
    else Poll(u, requestId, capacity, ttl, now)
  }

  /** The row a handle still points at. */
  predicate Holds(t: Tables, lease: Lease) {
    lease.slot in t.leases && t.leases[lease.slot].requestId == lease.requestId &&
    t.leases[lease.slot].owner == lease.owner
  }

  function Heartbeat(t: Tables, lease: Lease, ttl: int, now: int): Reply<Lease> {
    if ttl < 1 then Reply(t, Err(InvalidArgument))
    else if Holds(t, lease) && now < t.leases[lease.slot].expiresAt then
      var row := t.leases[lease.slot];
      Reply(t.(leases := t.leases[lease.slot :=
                 row.(heartbeatAt := now, expiresAt := now + ttl, rowVersion := row.rowVersion + 1)]),
            Ok(lease.(expiresAt := now + ttl)))
    else Reply(t, Err(LeaseLost))
  }

  function Release(t: Tables, lease: Lease, now: int): Reply<bool> {
    if !Holds(t, lease) then Reply(t, Ok(false)) else
    var u := t.(leases := t.leases - {lease.slot});
    if lease.requestId in u.waiters && u.waiters[lease.requestId].owner == lease.owner
       && u.waiters[lease.requestId].state.Granted?
    then
      var w := u.waiters[lease.requestId].(state := Released, finishedAt := Some(now));
      Reply(u.(waiters := u.waiters[lease.requestId := w]), Ok(true))
    else Reply(u, Ok(true))
  }

  function CancelWaiter(t: Tables, requestId: string, owner: string, now: int): Reply<bool> {
    if requestId in t.waiters && t.waiters[requestId].owner == owner && t.waiters[requestId].state.Queued? then
      var w := t.waiters[requestId].(state := Canceled, finishedAt := Some(now));
      Reply(t.(waiters := t.waiters[requestId := w]), Ok(true))
    else Reply(t, Ok(false))
  }

  // ---------- runs ----------

  datatype Op =
    | OpEnqueue(requestId: string, owner: string, stageId: string, runId: Option<string>, ttl: int, now: int)
    | OpTryAcquire(requestId: string, owner: string, capacity: int, ttl: int, now: int)
    | OpHeartbeat(lease: Lease, ttl: int, now: int)
    | OpRelease(lease: Lease, now: int)
    | OpCancel(requestId: string, owner: string, now: int)
    | OpReap(now: int)

  ghost function Step(t: Tables, op: Op): Tables {
    match op
    case OpEnqueue(r, o, g, run, ttl, now) => Enqueue(t, r, o, g, run, ttl, now).tables
    case OpTryAcquire(r, o, c, ttl, now) => TryAcquire(t, r, o, c, ttl, now).tables
    case OpHeartbeat(l, ttl, now) => Heartbeat(t, l, ttl, now).tables
    case OpRelease(l, now) => Release(t, l, now).tables
    case OpCancel(r, o, now) => CancelWaiter(t, r, o, now).tables
    case OpReap(now) => Reaped(t, now)
  }

  ghost function Run(t: Tables, ops: seq<Op>): Tables
    decreases |ops|
  {
    if ops == [] then t else Run(Step(t, ops[0]), ops[1..])
  }

  // ---------- the inductive invariant ----------

  ghost predicate PositionsUnique(ws: map<string, Waiter>, next: nat) {
    (forall r | r in ws :: ws[r].position < next) &&
    (forall r, q | r in ws && q in ws && r != q :: ws[r].position != ws[q].position)
  }

  /** A waiter was granted at some time exactly when it carries a grant stamp. */
  ghost predicate StampsAgree(ws: map<string, Waiter>) {
    forall r | r in ws ::
      (ws[r].state.Granted? || ws[r].state.Released? ==> ws[r].grantedAt.Some?) &&
      (ws[r].state.Queued? || ws[r].state.Canceled? ==> ws[r].grantedAt.None?)
  }

  /** No overtaking: whoever was ever granted stood before everyone who still queues. */
  ghost predicate NoOvertaking(ws: map<string, Waiter>) {
    forall r, q | r in ws && q in ws && ws[r].grantedAt.Some? && ws[q].state.Queued? ::
      ws[r].position < ws[q].position
  }

  ghost predicate QueueInv(ws: map<string, Waiter>, next: nat) {
    PositionsUnique(ws, next) && StampsAgree(ws) && NoOvertaking(ws)
  }

  /** Every lease belongs to a granted waiter with the same owner, run and stage. */
  ghost predicate LeasesBacked(t: Tables) {
    forall s | s in t.leases ::
      var row := t.leases[s];
      row.requestId in t.waiters && t.waiters[row.requestId].state.Granted? &&
      t.waiters[row.requestId].owner == row.owner &&
      t.waiters[row.requestId].runId == row.runId && t.waiters[row.requestId].stageId == row.stageId
  }

  ghost predicate OneLeasePerRequest(t: Tables) {
    forall s, u | s in t.leases && u in t.leases && s != u :: t.leases[s].requestId != t.leases[u].requestId
  }

  ghost predicate GrantsBacked(t: Tables) {
    forall r | r in t.waiters && t.waiters[r].state.Granted? :: HasLease(t, r, t.waiters[r].owner)
  }

  /** Leases and granted waiters are in one-to-one correspondence. */
  ghost predicate LeaseInv(t: Tables) {
    LeasesBacked(t) && OneLeasePerRequest(t) && GrantsBacked(t)
  }

  ghost predicate Inv(t: Tables) {
    QueueInv(t.waiters, t.nextPosition) && LeaseInv(t)
  }

  /** Grants stay backed when a step keeps the owner of each remaining grant and its lease. */
  lemma {:induction false} GrantsStayBacked(t: Tables, u: Tables)
    requires GrantsBacked(t)
    requires forall r | r in u.waiters && u.waiters[r].state.Granted? ::
      r in t.waiters && t.waiters[r].state.Granted? && t.waiters[r].owner == u.waiters[r].owner
    requires forall s | s in t.leases && t.leases[s].requestId in u.waiters && u.waiters[t.leases[s].requestId].state.Granted? ::
      s in u.leases && u.leases[s].requestId == t.leases[s].requestId && u.leases[s].owner == t.leases[s].owner
    ensures GrantsBacked(u)
  {
  }

  lemma {:induction false} ReapedKeepsQueue(t: Tables, now: int)
    requires QueueInv(t.waiters, t.nextPosition)
    ensures QueueInv(Reaped(t, now).waiters, t.nextPosition)
  {
    QueuedStayQueued(t.waiters, Reaped(t, now).waiters, t.nextPosition);
  }

  /** Waiters that keep position and grant stamp, and of which none queues anew, keep the queue. */
  lemma {:induction false} QueuedStayQueued(ws: map<string, Waiter>, us: map<string, Waiter>, next: nat)
    requires QueueInv(ws, next) && us.Keys == ws.Keys
    requires forall r | r in ws :: us[r].position == ws[r].position && us[r].grantedAt == ws[r].grantedAt
    requires forall r | r in ws :: us[r].state == ws[r].state || us[r].state.Expired?
    ensures QueueInv(us, next)
  {
  }

  lemma {:induction false} ReapedKeepsLeases(t: Tables, now: int)
    requires LeaseInv(t)
    ensures LeaseInv(Reaped(t, now))
  {
    var u := Reaped(t, now);
    forall s | s in u.leases
      ensures t.leases[s].requestId !in ExpiredRequests(t, now)
    {
    }
    GrantsStayBacked(t, u);
  }

  lemma {:induction false} ReapedKeepsInv(t: Tables, now: int)
    requires Inv(t)
    ensures Inv(Reaped(t, now))
  {
    ReapedKeepsQueue(t, now);
    ReapedKeepsLeases(t, now);
  }

  lemma {:induction false} GrantKeepsLeases(t: Tables, requestId: string, slot: nat, ttl: int, now: int)
    requires LeaseInv(t) && requestId in t.waiters && t.waiters[requestId].state.Queued? && slot !in t.leases
    ensures LeaseInv(Grant(t, requestId, slot, ttl, now))
  {
    var g := Grant(t, requestId, slot, ttl, now);
    forall r | r in g.waiters && g.waiters[r].state.Granted?
      ensures HasLease(g, r, g.waiters[r].owner)
    {
      if r == requestId {
        assert g.leases[slot].requestId == r;
      } else {
        assert HasLease(t, r, t.waiters[r].owner);
        var s := SlotOf(t, r, t.waiters[r].owner);
        assert s in g.leases && g.leases[s] == t.leases[s];
      }
    }
  }

  lemma {:induction false} TouchedKeepsInv(t: Tables, requestId: string, ttl: int, now: int)
    requires Inv(t) && requestId in t.waiters
    ensures Inv(Touched(t, requestId, ttl, now))
  {
  }

  lemma {:induction false} GrantKeepsQueue(t: Tables, requestId: string, slot: nat, ttl: int, now: int)
    requires QueueInv(t.waiters, t.nextPosition) && IsHead(t, requestId)
    ensures QueueInv(Grant(t, requestId, slot, ttl, now).waiters, t.nextPosition)
  {
  }

  lemma {:induction false} TryAcquireKeepsInv(t: Tables, requestId: string, owner: string, capacity: int, ttl: int, now: int)
    requires Inv(t)
    ensures Inv(TryAcquire(t, requestId, owner, capacity, ttl, now).tables)
  {
    var u := Reaped(t, now);
    ReapedKeepsInv(t, now);
    if capacity >= 1 && ttl >= 1 && requestId in u.waiters && u.waiters[requestId].state.Queued? {
      var v := Touched(u, requestId, ttl, now);
      TouchedKeepsInv(u, requestId, ttl, now);
      var free := FirstFree(v.leases.Keys, 0, capacity);
      if IsHead(v, requestId) && free.Some? {
        GrantKeepsLeases(v, requestId, free.value, ttl, now);
        GrantKeepsQueue(v, requestId, free.value, ttl, now);
      }
    }
  }

  lemma {:induction false} HeartbeatKeepsLeases(t: Tables, lease: Lease, ttl: int, now: int)
    requires LeaseInv(t)
    ensures LeaseInv(Heartbeat(t, lease, ttl, now).tables)
  {
    if Heartbeat(t, lease, ttl, now).tables != t {
      RenewedKeepsLeases(t, lease.slot, Heartbeat(t, lease, ttl, now).tables);
    }
  }

  predicate SameLease(a: LeaseRow, b: LeaseRow) {
    b.requestId == a.requestId && b.owner == a.owner && b.runId == a.runId && b.stageId == a.stageId
  }

  lemma {:induction false} RenewedKeepsLeases(t: Tables, slot: nat, u: Tables)
    requires LeaseInv(t) && u.waiters == t.waiters && u.leases.Keys == t.leases.Keys && slot in t.leases
    requires forall s | s in t.leases :: SameLease(t.leases[s], u.leases[s])
    ensures LeaseInv(u)
  {
    GrantsStayBacked(t, u);
  }

  lemma {:induction false} ReleaseKeepsInv(t: Tables, lease: Lease, now: int)
    requires Inv(t)
    ensures Inv(Release(t, lease, now).tables)
  {
    if Holds(t, lease) {
      var u := t.(leases := t.leases - {lease.slot},
                  waiters := t.waiters[lease.requestId :=
                    t.waiters[lease.requestId].(state := Released, finishedAt := Some(now))]);
      assert u == Release(t, lease, now).tables;
      assert QueueInv(u.waiters, u.nextPosition);
      GrantsStayBacked(t, u);
    }
  }

  lemma {:induction false} EnqueueKeepsInv(t: Tables, requestId: string, w: Waiter)
    requires Inv(t) && requestId !in t.waiters && w.state.Queued? && w.position == t.nextPosition && w.grantedAt.None?
    ensures Inv(t.(waiters := t.waiters[requestId := w], nextPosition := t.nextPosition + 1))
  {
  }

  lemma {:induction false} CancelKeepsInv(t: Tables, requestId: string, owner: string, now: int)
    requires Inv(t)
    ensures Inv(CancelWaiter(t, requestId, owner, now).tables)
  {
    GrantsStayBacked(t, CancelWaiter(t, requestId, owner, now).tables);
  }

  lemma {:induction false} StepKeepsInv(t: Tables, op: Op)
    requires Inv(t)
    ensures Inv(Step(t, op))
  {
    match op
    case OpEnqueue(r, o, g, run, ttl, now) =>
      if ttl >= 1 && r !in t.waiters {
        EnqueueKeepsInv(t, r, Waiter(t.nextPosition, o, run, g, Queued, now, now, now + ttl, None, None));
      }
    case OpTryAcquire(r, o, c, ttl, now) => TryAcquireKeepsInv(t, r, o, c, ttl, now);
    case OpHeartbeat(l, ttl, now) => HeartbeatKeepsInv(t, l, ttl, now);
    case OpRelease(l, now) => ReleaseKeepsInv(t, l, now);
    case OpCancel(r, o, now) => CancelKeepsInv(t, r, o, now);
    case OpReap(now) => ReapedKeepsInv(t, now);
  }

  lemma {:induction false} HeartbeatKeepsInv(t: Tables, lease: Lease, ttl: int, now: int)
    requires Inv(t)
    ensures Inv(Heartbeat(t, lease, ttl, now).tables)
  {
    HeartbeatKeepsLeases(t, lease, ttl, now);
  }

  /** Whatever was called, in whatever order and with whatever clock, the invariant holds. */
  lemma {:induction false} RunKeepsInv(t: Tables, ops: seq<Op>)
    requires Inv(t)
    ensures Inv(Run(t, ops))
    decreases |ops|
  {
    if ops != [] {
      StepKeepsInv(t, ops[0]);
      RunKeepsInv(Step(t, ops[0]), ops[1..]);
    }
  }

  // ---------- what a poll answers ----------

  /** Fewer leases than capacity leave a slot below capacity free, whatever slots are taken. */
  lemma {:induction false} Pigeonhole(occupied: set<nat>, capacity: nat)
    requires |occupied| < capacity
    ensures exists s: nat :: s < capacity && s !in occupied
    decreases capacity
  {
    if capacity - 1 in occupied {
      Pigeonhole(occupied - {capacity - 1}, capacity - 1);
      var s: nat :| s < capacity - 1 && s !in occupied - {capacity - 1};
      assert s !in occupied;
    }
  }

  /** The answer to a queued waiter's poll, given the reaped tables `u`. */
  ghost predicate PollAnswer(u: Tables, requestId: string, capacity: nat, ttl: int, now: int, reply: Reply<Option<Lease>>)
    requires requestId in u.waiters
  {
    reply.result.Ok? &&
    (reply.result.value.Some? <==> IsHead(u, requestId) && |u.leases| < capacity) &&
    (reply.result.value.None? ==> reply.tables == Touched(u, requestId, ttl, now)) &&
    (reply.result.value.Some? ==>
      var lease := reply.result.value.value;
      lease.slot < capacity && lease.slot !in u.leases && (forall k: nat | k < lease.slot :: k in u.leases) &&
      reply.tables.leases.Keys == u.leases.Keys + {lease.slot} &&
      Holds(reply.tables, lease) && lease.requestId == requestId && lease.expiresAt == now + ttl)
  }

  lemma {:induction false} PollIsFair(u: Tables, requestId: string, capacity: nat, ttl: int, now: int)
    requires requestId in u.waiters && u.waiters[requestId].state.Queued?
    ensures PollAnswer(u, requestId, capacity, ttl, now, Poll(u, requestId, capacity, ttl, now))
  {
    HeadIgnoresTouch(u, requestId, ttl, now);
    if |u.leases| < capacity {
      assert |u.leases| == |u.leases.Keys|;
      Pigeonhole(u.leases.Keys, capacity);
    }
  }

  /**
   The outcome of `try_acquire`, decided by the reaped tables alone: a granted waiter gets its
   lease back; a queued waiter gets one exactly when it is the head of the queue and capacity
   remains, in the smallest free slot; anyone else is refused.  In particular the "lease missing"
   and "no free slot" branches are never taken, even after capacity was lowered.
   */
  lemma {:induction false} TryAcquireOutcome(t: Tables, requestId: string, owner: string, capacity: int, ttl: int, now: int)
    requires Inv(t) && capacity >= 1 && ttl >= 1
    requires requestId in t.waiters && t.waiters[requestId].owner == owner
    ensures
      var u := Reaped(t, now);
      var reply := TryAcquire(t, requestId, owner, capacity, ttl, now);
      match u.waiters[requestId].state
      case Queued => PollAnswer(u, requestId, capacity, ttl, now, reply)
      case Granted => reply.tables == u && reply.result.Ok? && reply.result.value.Some? &&
                      Holds(u, reply.result.value.value) && reply.result.value.value.requestId == requestId
      case _ => reply == Reply(t, Err(NotEligible))
  {
    var u := Reaped(t, now);
    ReapedKeepsLeases(t, now);
    if u.waiters[requestId].state.Queued? {
      PollIsFair(u, requestId, capacity, ttl, now);
    }
    assert u.waiters[requestId].state.Granted? ==> HasLease(u, requestId, owner);
  }

  lemma {:induction false} HeadIgnoresTouch(t: Tables, requestId: string, ttl: int, now: int)
    requires requestId in t.waiters && t.waiters[requestId].state.Queued?
    ensures IsHead(Touched(t, requestId, ttl, now), requestId) <==> IsHead(t, requestId)
  {
    var v := Touched(t, requestId, ttl, now);
    if IsHead(v, requestId) {
      forall q | q in t.waiters && t.waiters[q].state.Queued?
        ensures t.waiters[requestId].position <= t.waiters[q].position
      {
        assert q in v.waiters && v.waiters[q].state.Queued?;
      }
    }
    if IsHead(t, requestId) {
      forall q | q in v.waiters && v.waiters[q].state.Queued?
        ensures v.waiters[requestId].position <= v.waiters[q].position
      {
        assert q in t.waiters && t.waiters[q].state.Queued?;
      }
    }
  }

  // ---------- fairness, capacity and finality over runs ----------

  /** The queued waiters standing before a given one. */
  ghost function Ahead(t: Tables, requestId: string): set<string>
    requires requestId in t.waiters
  {
    set q | q in t.waiters && t.waiters[q].state.Queued? && t.waiters[q].position < t.waiters[requestId].position
  }

  /** Waiters keep their identity; only queued and granted ones still change state. */
  ghost predicate WaiterEvolves(w: Waiter, x: Waiter) {
    x.position == w.position && x.owner == w.owner && x.enqueuedAt == w.enqueuedAt &&
    x.runId == w.runId && x.stageId == w.stageId &&
    (x.state.Queued? ==> w.state.Queued?) &&
    (w.state.Released? || w.state.Expired? || w.state.Canceled? ==> x == w)
  }

  ghost predicate Evolves(t: Tables, u: Tables) {
    (forall r | r in t.waiters :: r in u.waiters && WaiterEvolves(t.waiters[r], u.waiters[r])) &&
    (forall r | r in u.waiters && r !in t.waiters :: t.nextPosition <= u.waiters[r].position) &&
    t.nextPosition <= u.nextPosition
  }

  lemma {:induction false} ReapedEvolves(t: Tables, now: int)
    ensures Evolves(t, Reaped(t, now))
  {
  }

  lemma {:induction false} TryAcquireEvolves(t: Tables, requestId: string, owner: string, capacity: int, ttl: int, now: int)
    ensures Evolves(t, TryAcquire(t, requestId, owner, capacity, ttl, now).tables)
  {
    ReapedEvolves(t, now);
    var u := Reaped(t, now);
    var v := TryAcquire(t, requestId, owner, capacity, ttl, now).tables;
    if v != t && v != u {
      var w, x := u.waiters[requestId], v.waiters[requestId];
      assert v.waiters == u.waiters[requestId := x] && v.nextPosition == u.nextPosition;
      assert w.state.Queued? && WaiterEvolves(w, x);
    }
  }

  lemma {:induction false} ReleaseEvolves(t: Tables, l: Lease, now: int)
    requires Inv(t)
    ensures Evolves(t, Step(t, OpRelease(l, now)))
  {
  }

  lemma {:induction false} StepEvolves(t: Tables, op: Op)
    requires Inv(t)
    ensures Evolves(t, Step(t, op))
  {
    match op
    case OpTryAcquire(r, o, c, ttl, now) => TryAcquireEvolves(t, r, o, c, ttl, now);
    case OpReap(now) => ReapedEvolves(t, now);
    case OpRelease(l, now) => ReleaseEvolves(t, l, now);
    case _ =>
  }

  lemma {:induction false} RunEvolves(t: Tables, ops: seq<Op>)
    requires Inv(t)
    ensures Evolves(t, Run(t, ops))
    decreases |ops|
  {
    if ops != [] {
      var u := Step(t, ops[0]);
      StepKeepsInv(t, ops[0]);
      StepEvolves(t, ops[0]);
      RunEvolves(u, ops[1..]);
      var v := Run(u, ops[1..]);
      forall r | r in v.waiters && r !in t.waiters ensures t.nextPosition <= v.waiters[r].position {
        if r in u.waiters {
          assert WaiterEvolves(u.waiters[r], v.waiters[r]);
        }
      }
    }
  }

  /** FIFO over whole runs: nobody already ahead of a waiter is joined by a newcomer. */
  lemma {:induction false} AheadNeverGrows(t: Tables, ops: seq<Op>, requestId: string)
    requires Inv(t) && requestId in t.waiters
    ensures requestId in Run(t, ops).waiters && Ahead(Run(t, ops), requestId) <= Ahead(t, requestId)
  {
    RunEvolves(t, ops);
    var u := Run(t, ops);
    assert WaiterEvolves(t.waiters[requestId], u.waiters[requestId]);
    forall q | q in Ahead(u, requestId) ensures q in Ahead(t, requestId) {
      assert q in t.waiters ==> WaiterEvolves(t.waiters[q], u.waiters[q]);
    }
  }

  /**
   From empty tables, after any run: a waiter ever granted stands before every queued one, and no
   two waiters share a position.
   */
  lemma {:induction false} NoOvertakingInAnyRun(ops: seq<Op>, granted: string, queued: string)
    requires granted in Run(EMPTY, ops).waiters && Run(EMPTY, ops).waiters[granted].grantedAt.Some?
    requires queued in Run(EMPTY, ops).waiters && Run(EMPTY, ops).waiters[queued].state.Queued?
    ensures Run(EMPTY, ops).waiters[granted].position < Run(EMPTY, ops).waiters[queued].position
  {
    RunKeepsInv(EMPTY, ops);
  }

  ghost predicate FixedCapacity(ops: seq<Op>, capacity: nat) {
    forall i | 0 <= i < |ops| && ops[i].OpTryAcquire? :: ops[i].capacity == capacity
  }

  ghost predicate WithinCapacity(t: Tables, capacity: nat) {
    forall s | s in t.leases :: s < capacity
  }

  lemma {:induction false} StepWithinCapacity(t: Tables, op: Op, capacity: nat)
    requires WithinCapacity(t, capacity) && (op.OpTryAcquire? ==> op.capacity == capacity)
    ensures WithinCapacity(Step(t, op), capacity)
  {
  }

  lemma {:induction false} RunWithinCapacity(t: Tables, ops: seq<Op>, capacity: nat)
    requires WithinCapacity(t, capacity) && FixedCapacity(ops, capacity)
    ensures WithinCapacity(Run(t, ops), capacity)
    decreases |ops|
  {
    if ops != [] {
      StepWithinCapacity(t, ops[0], capacity);
      RunWithinCapacity(Step(t, ops[0]), ops[1..], capacity);
    }
  }

  lemma {:induction false} BoundedSetCard(s: set<nat>, capacity: nat)
    requires forall x | x in s :: x < capacity
    ensures |s| <= capacity
  {
    if capacity > 0 {
      BoundedSetCard(s - {capacity - 1}, capacity - 1);
    }
  }

  /** At a fixed capacity C there are never more than C leases, all in slots below C. */
  lemma {:induction false} CapacityNeverExceeded(ops: seq<Op>, capacity: nat)
    requires FixedCapacity(ops, capacity)
    ensures WithinCapacity(Run(EMPTY, ops), capacity) && |Run(EMPTY, ops).leases| <= capacity
  {
    RunWithinCapacity(EMPTY, ops, capacity);
    var u := Run(EMPTY, ops);
    BoundedSetCard(u.leases.Keys, capacity);
    assert |u.leases| == |u.leases.Keys|;
  }

  ghost predicate NoLeaseFor(t: Tables, requestId: string) {
    forall s | s in t.leases :: t.leases[s].requestId != requestId
  }

  ghost predicate Finished(t: Tables, requestId: string) {
    requestId in t.waiters &&
    (t.waiters[requestId].state.Released? || t.waiters[requestId].state.Expired? || t.waiters[requestId].state.Canceled?)
  }

  /** A granted request whose lease disappears in a step is finished by that very step. */
  lemma {:induction false} LostLeaseFinishes(t: Tables, op: Op, requestId: string)
    requires Inv(t) && requestId in t.waiters && t.waiters[requestId].state.Granted?
    requires NoLeaseFor(Step(t, op), requestId)
    ensures Finished(Step(t, op), requestId)
  {
    StepKeepsInv(t, op);
    StepEvolves(t, op);
    var u := Step(t, op);
    assert WaiterEvolves(t.waiters[requestId], u.waiters[requestId]);
    assert u.waiters[requestId].state.Granted? ==> HasLease(u, requestId, u.waiters[requestId].owner);
  }

  /** Once a request is finished no run gives it a lease again. */
  lemma {:induction false} FinishedNeverLeasesAgain(t: Tables, ops: seq<Op>, requestId: string)
    requires Inv(t) && Finished(t, requestId)
    ensures Finished(Run(t, ops), requestId) && NoLeaseFor(Run(t, ops), requestId)
  {
    RunKeepsInv(t, ops);
    RunEvolves(t, ops);
    assert WaiterEvolves(t.waiters[requestId], Run(t, ops).waiters[requestId]);
  }

  /**
   A handle of a finished request is inert for ever: after any run its heartbeat fails, its release
   answers false, and neither changes anything, so a successor in the same slot is untouched.
   */
  lemma {:induction false} StaleHandleIsInert(t: Tables, ops: seq<Op>, lease: Lease, ttl: int, now: int)
    requires Inv(t) && Finished(t, lease.requestId) && ttl >= 1
    ensures Heartbeat(Run(t, ops), lease, ttl, now) == Reply(Run(t, ops), Err(LeaseLost))
    ensures Release(Run(t, ops), lease, now) == Reply(Run(t, ops), Ok(false))
  {
    FinishedNeverLeasesAgain(t, ops, lease.requestId);
  }

  /**
   A lost heartbeat reaps and then raises, which undoes the reap: an expired lease stays in its slot, and
   its waiter granted, through any number of late heartbeats, each of which fails for its own handle.
   */
  lemma {:induction false} LostHeartbeatUndoesItsReap(t: Tables, ops: seq<Op>, slot: nat, lease: Lease, ttl: int, now: int)
    requires slot in t.leases && t.leases[slot].expiresAt <= now
    requires forall op | op in ops :: op.OpHeartbeat? && t.leases[slot].expiresAt <= op.now
    ensures Run(t, ops).waiters == t.waiters && slot in Run(t, ops).leases && Run(t, ops).leases[slot] == t.leases[slot]
    ensures slot !in Reaped(Run(t, ops), now).leases
    ensures lease.slot == slot && ttl >= 1 ==> Heartbeat(Run(t, ops), lease, ttl, now) == Reply(Run(t, ops), Err(LeaseLost))
    decreases |ops|
  {
    if ops != [] {
      var u := Step(t, ops[0]);
      assert ops[0] in ops;
      assert u.waiters == t.waiters && slot in u.leases && u.leases[slot] == t.leases[slot];
      forall op | op in ops[1..] ensures op.OpHeartbeat? && u.leases[slot].expiresAt <= op.now {
        assert op in ops;
      }
      LostHeartbeatUndoesItsReap(u, ops[1..], slot, lease, ttl, now);
    }
  }

  /** A heartbeat or release only ever touches the row of the handle's own request. */
  lemma {:induction false} HandleTouchesOnlyItsOwn(t: Tables, lease: Lease, ttl: int, now: int, slot: nat)
    requires slot in t.leases && t.leases[slot].requestId != lease.requestId
    ensures slot in Heartbeat(t, lease, ttl, now).tables.leases
    ensures Heartbeat(t, lease, ttl, now).tables.leases[slot] == t.leases[slot]
    ensures slot in Release(t, lease, now).tables.leases
    ensures Release(t, lease, now).tables.leases[slot] == t.leases[slot]
  {
  }

  /** Reaping takes exactly the leases that are due: a live lease survives every reap. */
  lemma {:induction false} ReapIsExact(t: Tables, now: int, slot: nat)
    requires slot in t.leases
    ensures slot in Reaped(t, now).leases <==> now < t.leases[slot].expiresAt
    ensures slot in Reaped(t, now).leases ==> Reaped(t, now).leases[slot] == t.leases[slot]
  {
  }
}
