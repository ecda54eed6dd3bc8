/**
 What each call of the slot store does, told by the rows before and after it, and what the next call then
 finds: a release frees its slot for the head of the queue, a heartbeat and a poll keep a row alive.
 */
module LlmSlotLaws {
  import opened Prelude
  import opened LlmSlots

  /** The lease row a handle stands for: same slot, request and owner. */
  ghost predicate RowOf(t: Tables, lease: Lease) {
    lease.slot in t.leases && t.leases[lease.slot].requestId == lease.requestId && t.leases[lease.slot].owner == lease.owner
  }

  /** All waiters but this one are as they were. */
  ghost predicate OtherWaitersKept(t: Tables, u: Tables, requestId: string) {
    u.waiters - {requestId} == t.waiters - {requestId} && u.nextPosition == t.nextPosition
  }

  // ---------- release ----------

  /**
   A release answers true exactly when the handle's row is there. Then the row is gone, the request has
   no lease any more and is released, every other row is unchanged; otherwise nothing changes.
   */
  lemma {:induction false} ReleaseFrees(t: Tables, lease: Lease, now: int)
    requires Inv(t)
    ensures var r := Release(t, lease, now);
      r.result == Ok(RowOf(t, lease)) && (!RowOf(t, lease) ==> r.tables == t) &&
      (RowOf(t, lease) ==> (
        r.tables.leases == t.leases - {lease.slot} && |r.tables.leases| == |t.leases| - 1 && NoLeaseFor(r.tables, lease.requestId) &&
        OtherWaitersKept(t, r.tables, lease.requestId) && lease.requestId in t.waiters && lease.requestId in r.tables.waiters &&
        r.tables.waiters[lease.requestId] == t.waiters[lease.requestId].(state := Released, finishedAt := Some(now))))
  {
    if RowOf(t, lease) {
      OneLeaseFewer(t.leases, lease.slot);
      assert LeasesBacked(t) && OneLeasePerRequest(t);
    }
  }

  lemma {:induction false} OneLeaseFewer(leases: map<nat, LeaseRow>, slot: nat)
    requires slot in leases
    ensures |leases - {slot}| == |leases| - 1
  {
    assert leases.Keys == (leases - {slot}).Keys + {slot};
    assert |leases| == |leases.Keys| && |leases - {slot}| == |(leases - {slot}).Keys|;
  }

  /** Nothing is due before this time, and the waiter is the queued head. */
  ghost predicate WaitingHead(t: Tables, requestId: string, later: int) {
    IsHead(t, requestId) && later < t.waiters[requestId].expiresAt && forall s | s in t.leases :: later < t.leases[s].expiresAt
  }

  lemma {:induction false} NothingToReap(t: Tables, requestId: string, later: int)
    requires Inv(t) && WaitingHead(t, requestId, later)
    ensures var u := Reaped(t, later); u.leases == t.leases && IsHead(u, requestId) && u.waiters[requestId] == t.waiters[requestId]
  {
    assert ExpiredRequests(t, later) == {};
  }

  lemma {:induction false} HeadIsServed(t: Tables, requestId: string, capacity: nat, ttl: int, later: int)
    requires Inv(t) && WaitingHead(t, requestId, later) && capacity >= 1 && ttl >= 1
    ensures var r := TryAcquire(t, requestId, t.waiters[requestId].owner, capacity, ttl, later).result;
      r.Ok? && (r.value.Some? <==> |t.leases| < capacity) && (r.value.Some? ==> r.value.value.requestId == requestId)
  {
    NothingToReap(t, requestId, later);
    TryAcquireOutcome(t, requestId, t.waiters[requestId].owner, capacity, ttl, later);
  }

  /**
   The freed slot goes to the head of the queue: with all leases live and at capacity its poll gets
   nothing, and after one of the leases was released it gets a lease.
   */
  lemma {:induction false} FreedSlotGoesToTheHead(t: Tables, lease: Lease, now: int, head: string, capacity: nat, ttl: int, later: int)
    requires Inv(t) && RowOf(t, lease) && WaitingHead(t, head, later) && |t.leases| == capacity && ttl >= 1
    ensures
      var owner := t.waiters[head].owner;
      var before := TryAcquire(t, head, owner, capacity, ttl, later);
      var after := TryAcquire(Release(t, lease, now).tables, head, owner, capacity, ttl, later);
      before.result == Ok(None) && after.result.Ok? && after.result.value.Some? && after.result.value.value.requestId == head
  {
    ReleaseFrees(t, lease, now);
    ReleaseKeepsInv(t, lease, now);
    var u := Release(t, lease, now).tables;
    assert lease.slot in t.leases && capacity >= 1 by {
      assert lease.slot in t.leases.Keys && |t.leases| == |t.leases.Keys|;
    }
    assert t.waiters[lease.requestId].state.Granted?;
    HeadAfterRelease(t, u, lease.requestId, head, later);
    HeadIsServed(t, head, capacity, ttl, later);
    HeadIsServed(u, head, capacity, ttl, later);
  }

  lemma {:induction false} HeadAfterRelease(t: Tables, u: Tables, released: string, head: string, later: int)
    requires WaitingHead(t, head, later) && released != head && OtherWaitersKept(t, u, released)
    requires released in u.waiters && u.waiters[released].state.Released?
    requires forall s | s in u.leases :: s in t.leases && u.leases[s] == t.leases[s]
    ensures WaitingHead(u, head, later) && u.waiters[head] == t.waiters[head]
  {
    assert head in t.waiters - {released};
    forall q | q in u.waiters && u.waiters[q].state.Queued? ensures u.waiters[head].position <= u.waiters[q].position {
      assert q in u.waiters - {released};
    }
  }

  // ---------- heartbeat ----------

  /**
   A heartbeat succeeds exactly for a live lease of the handle. Then only that row's times and version
   change, and the row and the handle last until `now + ttl`; otherwise nothing changes.
   */
  lemma {:induction false} HeartbeatRenews(t: Tables, lease: Lease, ttl: int, now: int)
    ensures var r := Heartbeat(t, lease, ttl, now);
      (r.result.Ok? <==> ttl >= 1 && RowOf(t, lease) && now < t.leases[lease.slot].expiresAt) &&
      (r.result.Err? ==> r.tables == t && r.result == Err(if ttl < 1 then InvalidArgument else LeaseLost)) &&
      (r.result.Ok? ==> (
        r.result.value == lease.(expiresAt := now + ttl) && r.tables.waiters == t.waiters &&
        r.tables.nextPosition == t.nextPosition && r.tables.leases - {lease.slot} == t.leases - {lease.slot} &&
        RowOf(r.tables, r.result.value) && r.tables.leases[lease.slot] == t.leases[lease.slot].(
          heartbeatAt := now, expiresAt := now + ttl, rowVersion := t.leases[lease.slot].rowVersion + 1)))
  {
  }

  /** The renewed lease survives every reap before its new expiry and none after it. */
  lemma {:induction false} RenewedLeaseLives(t: Tables, lease: Lease, ttl: int, now: int, reap: int)
    requires Heartbeat(t, lease, ttl, now).result.Ok?
    ensures lease.slot in Reaped(Heartbeat(t, lease, ttl, now).tables, reap).leases <==> reap < now + ttl
  {
    HeartbeatRenews(t, lease, ttl, now);
    ReapIsExact(Heartbeat(t, lease, ttl, now).tables, reap, lease.slot);
  }

  // ---------- enqueue and cancel ----------

  /**
   A first enqueue puts a queued row behind all others; a repeated one of the same owner changes nothing
   and tells the first position.
   */
  lemma {:induction false} EnqueueGoesLast(t: Tables, requestId: string, owner: string, stageId: string, runId: Option<string>,
                                           ttl: int, now: int)
    requires Inv(t)
    ensures var r := Enqueue(t, requestId, owner, stageId, runId, ttl, now);
      (r.result.Ok? <==> ttl >= 1 && (requestId in t.waiters ==> t.waiters[requestId].owner == owner)) &&
      (r.result.Err? ==> r.tables == t && r.result == Err(if ttl < 1 then InvalidArgument else OwnerMismatch)) &&
      (r.result.Ok? && requestId in t.waiters ==> r.tables == t && r.result.value == t.waiters[requestId].position) &&
      (r.result.Ok? && requestId !in t.waiters ==> (
        r.tables.leases == t.leases && requestId in r.tables.waiters && r.tables.waiters - {requestId} == t.waiters &&
        r.tables.waiters[requestId] == Waiter(r.result.value, owner, runId, stageId, Queued, now, now, now + ttl, None, None) &&
        forall q | q in t.waiters :: t.waiters[q].position < r.result.value))
  {
  }

  /** Exactly a queued request of this owner is canceled, for good and without a lease; anything else changes nothing. */
  lemma {:induction false} CancelEnds(t: Tables, requestId: string, owner: string, now: int)
    requires Inv(t)
    ensures var r := CancelWaiter(t, requestId, owner, now);
      r.result.Ok? &&
      (r.result.value <==> requestId in t.waiters && t.waiters[requestId].owner == owner && t.waiters[requestId].state.Queued?) &&
      (!r.result.value ==> r.tables == t) &&
      (r.result.value ==> (
        r.tables.leases == t.leases && OtherWaitersKept(t, r.tables, requestId) && requestId in r.tables.waiters &&
        r.tables.waiters[requestId] == t.waiters[requestId].(state := Canceled, finishedAt := Some(now)) &&
        NoLeaseFor(r.tables, requestId)))
  {
  }

  // ---------- reap and grant ----------

  /** Its lease, or its place in the queue, is due. */
  ghost predicate IsDue(t: Tables, requestId: string, now: int)
    requires requestId in t.waiters
  {
    var w := t.waiters[requestId];
    (w.state.Queued? && w.expiresAt <= now) ||
    (w.state.Granted? && exists s :: s in t.leases && t.leases[s].requestId == requestId && t.leases[s].expiresAt <= now)
  }

  /** The reap expires exactly the waiters that are due, and changes no other. */
  lemma {:induction false} ReapOfWaiters(t: Tables, now: int, requestId: string)
    requires requestId in t.waiters
    ensures var u := Reaped(t, now);
      requestId in u.waiters && u.waiters.Keys == t.waiters.Keys && u.nextPosition == t.nextPosition &&
      u.waiters[requestId] ==
        if IsDue(t, requestId, now) then t.waiters[requestId].(state := Expired, finishedAt := Some(now)) else t.waiters[requestId]
  {
    if t.waiters[requestId].state.Granted? {
      assert requestId in ExpiredRequests(t, now) <==>
        exists s :: s in t.leases && t.leases[s].requestId == requestId && t.leases[s].expiresAt <= now;
    }
  }

  /** A handle tells what the lease row and the waiter row say. */
  ghost predicate Tells(t: Tables, lease: Lease) {
    RowOf(t, lease) && lease.requestId in t.waiters &&
    var row, w := t.leases[lease.slot], t.waiters[lease.requestId];
    lease.runId == row.runId && lease.stageId == row.stageId && lease.acquiredAt == row.acquiredAt &&
    lease.expiresAt == row.expiresAt && lease.position == w.position && lease.enqueuedAt == w.enqueuedAt
  }

  /** What a grant changes on the reaped tables: one new lease and one waiter. */
  ghost predicate GrantedOn(u: Tables, v: Tables, lease: Lease, requestId: string, ttl: int, now: int)
    requires requestId in u.waiters
  {
    v.leases == u.leases[lease.slot := LeaseRow(requestId, u.waiters[requestId].owner, u.waiters[requestId].runId,
                                               u.waiters[requestId].stageId, now, now, now + ttl, 1)] &&
    OtherWaitersKept(u, v, requestId) && requestId in v.waiters && v.waiters[requestId] ==
      u.waiters[requestId].(state := Granted, grantedAt := Some(now), heartbeatAt := now, expiresAt := now + ttl)
  }

  /** Every acquire that returns a lease tells its rows, and a new grant changes only its own two rows. */
  lemma {:induction false} AcquiredLease(t: Tables, requestId: string, owner: string, capacity: int, ttl: int, now: int)
    requires Inv(t)
    ensures var u, r := Reaped(t, now), TryAcquire(t, requestId, owner, capacity, ttl, now);
      r.result.Ok? && r.result.value.Some? ==> (
        requestId in u.waiters &&
        var lease := r.result.value.value;
        lease.requestId == requestId && lease.owner == owner && Tells(r.tables, lease) &&
        if u.waiters[requestId].state.Granted? then r.tables == u else GrantedOn(u, r.tables, lease, requestId, ttl, now))
  {
    var u, r := Reaped(t, now), TryAcquire(t, requestId, owner, capacity, ttl, now);
    if r.result.Ok? && r.result.value.Some? {
      ReapedKeepsLeases(t, now);
      if u.waiters[requestId].state.Granted? {
        ViewTells(u, requestId, owner);
      } else {
        GrantTells(u, requestId, capacity, ttl, now);
      }
    }
  }

  lemma {:induction false} ViewTells(u: Tables, requestId: string, owner: string)
    requires requestId in u.waiters && HasLease(u, requestId, owner)
    ensures var s := SlotOf(u, requestId, owner); Tells(u, LeaseView(u.waiters[requestId], s, u.leases[s]))
  {
  }

  lemma {:induction false} GrantTells(u: Tables, requestId: string, capacity: nat, ttl: int, now: int)
    requires requestId in u.waiters
    ensures var r := Poll(u, requestId, capacity, ttl, now);
      r.result.Ok? && r.result.value.Some? ==> (
        var lease := r.result.value.value;
        lease.requestId == requestId && lease.owner == u.waiters[requestId].owner && Tells(r.tables, lease) &&
        GrantedOn(u, r.tables, lease, requestId, ttl, now))
  {
  }

  /** The refusals of an acquire, which change nothing: bad arguments, an unknown or foreign request, a finished one. */
  lemma {:induction false} AcquireRefused(t: Tables, requestId: string, owner: string, capacity: int, ttl: int, now: int)
    requires Inv(t)
    ensures var u, r := Reaped(t, now), TryAcquire(t, requestId, owner, capacity, ttl, now);
      (r.result.Err? <==> (
        capacity < 1 || ttl < 1 || requestId !in t.waiters || t.waiters[requestId].owner != owner ||
        !(u.waiters[requestId].state.Queued? || u.waiters[requestId].state.Granted?))) &&
      (r.result.Err? ==> r.tables == t && r.result == Err(
        if capacity < 1 || ttl < 1 then InvalidArgument
        else if requestId !in t.waiters then UnknownWaiter
        else if t.waiters[requestId].owner != owner then OwnerMismatch else NotEligible))
  {
    if capacity >= 1 && ttl >= 1 && requestId in t.waiters && t.waiters[requestId].owner == owner {
      TryAcquireOutcome(t, requestId, owner, capacity, ttl, now);
    }
  }

  /** A poll that gets nothing keeps its place alive: it is not reaped before `now + ttl`. */
  lemma {:induction false} PollKeepsThePlace(t: Tables, requestId: string, owner: string, capacity: int, ttl: int, now: int, reap: int)
    requires Inv(t)
    ensures var r := TryAcquire(t, requestId, owner, capacity, ttl, now);
      r.result == Ok(None) ==> (
        requestId in r.tables.waiters && r.tables.waiters[requestId].state.Queued? &&
        (Reaped(r.tables, reap).waiters[requestId].state.Queued? <==> reap < now + ttl))
  {
    var r := TryAcquire(t, requestId, owner, capacity, ttl, now);
    if r.result == Ok(None) {
      ReapedKeepsLeases(t, now);
      TryAcquireOutcome(t, requestId, owner, capacity, ttl, now);
      ReapOfWaiters(r.tables, reap, requestId);
    }
  }
}
