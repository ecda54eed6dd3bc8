/**
 `LlmSlotStore` itself: the tables as fields, each public method one `BEGIN IMMEDIATE` transaction
 that saves the tables, runs the SQL statements in their order, and restores them on an error.
 Every method is proved to compute the transition of the same name in LlmSlots.
 */
module LlmSlotStores {
  import opened Prelude
  import S = LlmSlots
  import opened LlmSlots
  import opened LlmSlotLaws

  // The statements of the reap.

  function DeleteLeases(leases: map<nat, LeaseRow>, requests: set<string>): map<nat, LeaseRow> {
    map s | s in leases && leases[s].requestId !in requests :: leases[s]
  }

  function ExpireGranted(ws: map<string, Waiter>, requests: set<string>, now: int): map<string, Waiter> {
    map r | r in ws ::
      if r in requests && ws[r].state.Granted? then ws[r].(state := Expired, finishedAt := Some(now)) else ws[r]
  }

  function StaleRequests(ws: map<string, Waiter>, now: int): set<string> {
    set r | r in ws && ws[r].state.Queued? && ws[r].expiresAt <= now
  }

  function ExpireStale(ws: map<string, Waiter>, now: int): map<string, Waiter> {
    map r | r in ws ::
      if ws[r].state.Queued? && ws[r].expiresAt <= now then ws[r].(state := Expired, finishedAt := Some(now)) else ws[r]
  }

  /** Run one after another, the statements amount to the reap. */
  lemma {:induction false} ReapByStatements(t: Tables, now: int)
    requires OneLeasePerRequest(t)
    ensures
      var expired := ExpiredRequests(t, now);
      var granted := ExpireGranted(t.waiters, expired, now);
      Reaped(t, now).leases == DeleteLeases(t.leases, expired) &&
      Reaped(t, now).waiters == ExpireStale(granted, now) &&
      StaleRequests(granted, now) == StaleRequests(t.waiters, now)
  {
  }

  lemma {:induction false} ReapCount(t: Tables, now: int)
    requires LeasesBacked(t)
    ensures
      |ExpiredRequests(t, now)| + |StaleRequests(t.waiters, now)| == |StateChanges(t, Reaped(t, now))|
  {
    assert StateChanges(t, Reaped(t, now)) == ExpiredRequests(t, now) + StaleRequests(t.waiters, now);
    assert ExpiredRequests(t, now) !! StaleRequests(t.waiters, now);
  }

  /** The waiters whose state differs between two tables. */
  ghost function StateChanges(t: Tables, u: Tables): set<string> {
    set r | r in t.waiters && r in u.waiters && u.waiters[r].state != t.waiters[r].state
  }

  class LlmSlotStore {
    var waiters: map<string, Waiter>
    var leases: map<nat, LeaseRow>
    var nextPosition: nat

    function Db(): Tables
      reads this
    {
      Tables(waiters, leases, nextPosition)
    }

    ghost predicate Valid()
      reads this
    {
      Inv(Db())
    }

    constructor ()
      ensures Valid() && Db() == EMPTY
    {
      waiters, leases, nextPosition := map[], map[], 1;
    }

    method Rollback(saved: Tables)
      modifies this
      ensures Db() == saved
    {
      waiters, leases, nextPosition := saved.waiters, saved.leases, saved.nextPosition;
    }

    method Enqueue(requestId: string, owner: string, stageId: string, runId: Option<string>, ttl: int, now: int)
      returns (r: Result<nat, SlotError>)
      requires Valid()
      modifies this
      ensures Valid() && Reply(Db(), r) == S.Enqueue(old(Db()), requestId, owner, stageId, runId, ttl, now)
      ensures r.Ok? ==> requestId in waiters && waiters[requestId].position == r.value
    {
      StepKeepsInv(Db(), OpEnqueue(requestId, owner, stageId, runId, ttl, now));
      if ttl < 1 {
        return Err(InvalidArgument);
      }
      if requestId in waiters {
        if waiters[requestId].owner != owner {
          return Err(OwnerMismatch);
        }
        return Ok(waiters[requestId].position);
      }
      r := Ok(nextPosition);
      waiters := waiters[requestId :=
        Waiter(nextPosition, owner, runId, stageId, Queued, now, now, now + ttl, None, None)];
      nextPosition := nextPosition + 1;
    }

    /** The reported number is the number of waiters the reap turned to expired. */
    method ReapExpiredLocked(now: int) returns (count: nat)
      requires Valid()
      modifies this
      ensures Valid() && Db() == Reaped(old(Db()), now)
      ensures count == |StateChanges(old(Db()), Db())|
    {
      ghost var before := Db();
      ReapedKeepsInv(before, now);
      ReapByStatements(before, now);
      ReapCount(before, now);
      var expired := ExpiredRequests(Db(), now);
      leases := DeleteLeases(leases, expired);
      waiters := ExpireGranted(waiters, expired, now);
      var stale := StaleRequests(waiters, now);
      waiters := ExpireStale(waiters, now);
      count := |expired| + |stale|;
    }

    method ReapExpired(now: int) returns (count: nat)
      requires Valid()
      modifies this
      ensures Valid() && Db() == Reaped(old(Db()), now)
      ensures count == |StateChanges(old(Db()), Db())|
    {
      count := ReapExpiredLocked(now);
    }

    /** `SELECT request_id ... WHERE state='queued' ORDER BY queue_position LIMIT 1`. */
    method FirstQueued() returns (first: Option<string>)
      ensures first.Some? ==> IsHead(Db(), first.value)
      ensures first.None? ==> forall q | q in waiters :: !waiters[q].state.Queued?
    {
      var queued := set q | q in waiters && waiters[q].state.Queued?;
      var rest := queued;
      first := None;
      while rest != {}
        invariant rest <= queued
        invariant first.None? ==> rest == queued
        invariant first.Some? ==> first.value in queued
        invariant first.Some? ==> forall q | q in queued - rest :: waiters[first.value].position <= waiters[q].position
        decreases rest
      {
        var q :| q in rest;
        if first.None? || waiters[q].position < waiters[first.value].position {
          first := Some(q);
        }
        rest := rest - {q};
      }
      assert queued - rest == queued;
      assert forall q | q in waiters && waiters[q].state.Queued? :: q in queued;
    }

    method TryAcquire(requestId: string, owner: string, capacity: int, ttl: int, now: int)
      returns (r: Result<Option<Lease>, SlotError>)
      requires Valid()
      modifies this
      ensures Valid() && Reply(Db(), r) == S.TryAcquire(old(Db()), requestId, owner, capacity, ttl, now)
    {
      TryAcquireKeepsInv(Db(), requestId, owner, capacity, ttl, now);
      if capacity < 1 {
        return Err(InvalidArgument);
      }
      if ttl < 1 {
        return Err(InvalidArgument);
      }
      var saved := Db();
      r := TryAcquireLocked(requestId, owner, capacity, ttl, now);
      if r.Err? {
        Rollback(saved);
      }
    }

    /** The transaction of `try_acquire`; on an error its writes are still there to be rolled back. */
    method TryAcquireLocked(requestId: string, owner: string, capacity: nat, ttl: int, now: int)
      returns (r: Result<Option<Lease>, SlotError>)
      requires Valid() && capacity >= 1 && ttl >= 1
      modifies this
      ensures Reply(if r.Ok? then Db() else old(Db()), r) == S.TryAcquire(old(Db()), requestId, owner, capacity, ttl, now)
    {
      var _ := ReapExpiredLocked(now);
      if requestId !in waiters {
        return Err(UnknownWaiter);
      }
      var waiter := waiters[requestId];
      if waiter.owner != owner {
        return Err(OwnerMismatch);
      }
      if waiter.state == Granted {
        var lease := SelectLease(requestId, owner);
        if lease.None? {
          return Err(LeaseMissing);
        }
        return Ok(lease);
      }
      if waiter.state != Queued {
        return Err(NotEligible);
      }
      r := PollQueued(requestId, capacity, ttl, now);
    }

    method SelectLease(requestId: string, owner: string) returns (lease: Option<Lease>)
      requires OneLeasePerRequest(Db()) && requestId in waiters
      ensures lease.Some? <==> HasLease(Db(), requestId, owner)
      ensures lease.Some? ==>
        var s := SlotOf(Db(), requestId, owner); lease.value == LeaseView(waiters[requestId], s, leases[s])
    {
      var held := set s | s in leases && leases[s].requestId == requestId && leases[s].owner == owner;
      if held == {} {
        assert forall s | s in leases && leases[s].requestId == requestId && leases[s].owner == owner :: s in held;
        return None;
      }
      var s :| s in held;
      assert HasLease(Db(), requestId, owner);
      return Some(LeaseView(waiters[requestId], s, leases[s]));
    }

    /** The rest of `try_acquire` for a waiter that is still queued. */
    method PollQueued(requestId: string, capacity: nat, ttl: int, now: int) returns (r: Result<Option<Lease>, SlotError>)
      requires PositionsUnique(waiters, nextPosition) && requestId in waiters && waiters[requestId].state.Queued?
      modifies this
      ensures Reply(Db(), r) == Poll(old(Db()), requestId, capacity, ttl, now)
    {
      var waiter := waiters[requestId];
      waiters := waiters[requestId := waiter.(heartbeatAt := now, expiresAt := now + ttl)];
      var first := FirstQueued();
      if first != Some(requestId) {
        assert !IsHead(Db(), requestId);
        return Ok(None);
      }
      if |leases| >= capacity {
        return Ok(None);
      }
      var slot: nat := 0;
      while slot < capacity && slot in leases
        invariant slot <= capacity
        invariant forall k: nat | k < slot :: k in leases
      {
        slot := slot + 1;
      }
      if slot == capacity {
        return Ok(None);
      }
      assert FirstFree(leases.Keys, 0, capacity) == Some(slot);
      leases := leases[slot := LeaseRow(requestId, waiter.owner, waiter.runId, waiter.stageId, now, now, now + ttl, 1)];
      waiters := waiters[requestId := waiters[requestId].(state := Granted, grantedAt := Some(now))];
      return Ok(Some(LeaseView(waiter, slot, leases[slot])));
    }

    /** The reap on the failing path is undone by the rollback that the raised error causes. */
    method Heartbeat(lease: Lease, ttl: int, now: int) returns (r: Result<Lease, SlotError>)
      requires Valid()
      modifies this
      ensures Valid() && Reply(Db(), r) == S.Heartbeat(old(Db()), lease, ttl, now)
    {
      HeartbeatKeepsInv(Db(), lease, ttl, now);
      r := HeartbeatTransaction(lease, ttl, now);
    }

    method HeartbeatTransaction(lease: Lease, ttl: int, now: int) returns (r: Result<Lease, SlotError>)
      requires Valid()
      modifies this
      ensures Reply(Db(), r) == S.Heartbeat(old(Db()), lease, ttl, now)
    {
      if ttl < 1 {
        return Err(InvalidArgument);
      }
      var saved := Db();
      if lease.slot in leases && leases[lease.slot].requestId == lease.requestId
         && leases[lease.slot].owner == lease.owner && leases[lease.slot].expiresAt > now
      {
        var row := leases[lease.slot];
        leases := leases[lease.slot :=
          row.(heartbeatAt := now, expiresAt := now + ttl, rowVersion := row.rowVersion + 1)];
      } else {
        var _ := ReapExpiredLocked(now);
        Rollback(saved);
        return Err(LeaseLost);
      }
      return Ok(Lease(lease.slot, lease.requestId, lease.owner, lease.runId, lease.stageId,
                      lease.acquiredAt, now + ttl, lease.position, lease.enqueuedAt));
    }

    method Release(lease: Lease, now: int) returns (r: Result<bool, SlotError>)
      requires Valid()
      modifies this
      ensures Valid() && Reply(Db(), r) == S.Release(old(Db()), lease, now)
      ensures r == Ok(RowOf(old(Db()), lease)) && (r == Ok(false) ==> Db() == old(Db()))
      ensures r == Ok(true) ==> leases == old(leases) - {lease.slot} && NoLeaseFor(Db(), lease.requestId) && Finished(Db(), lease.requestId)
    {
      ReleaseKeepsInv(Db(), lease, now);
      ReleaseFrees(Db(), lease, now);
      r := ReleaseTransaction(lease, now);
    }

    method ReleaseTransaction(lease: Lease, now: int) returns (r: Result<bool, SlotError>)
      modifies this
      ensures Reply(Db(), r) == S.Release(old(Db()), lease, now)
    {
      if lease.slot in leases && leases[lease.slot].requestId == lease.requestId
         && leases[lease.slot].owner == lease.owner
      {
        leases := map s | s in leases && s != lease.slot :: leases[s];
        assert leases == old(leases) - {lease.slot};
        if lease.requestId in waiters && waiters[lease.requestId].owner == lease.owner
           && waiters[lease.requestId].state == Granted
        {
          waiters := waiters[lease.requestId :=
            waiters[lease.requestId].(state := Released, finishedAt := Some(now))];
        }
        return Ok(true);
      }
      return Ok(false);
    }

    method CancelWaiter(requestId: string, owner: string, now: int) returns (r: Result<bool, SlotError>)
      requires Valid()
      modifies this
      ensures Valid() && Reply(Db(), r) == S.CancelWaiter(old(Db()), requestId, owner, now)
    {
      StepKeepsInv(Db(), OpCancel(requestId, owner, now));
      if requestId in waiters && waiters[requestId].owner == owner && waiters[requestId].state == Queued {
        waiters := waiters[requestId := waiters[requestId].(state := Canceled, finishedAt := Some(now))];
        return Ok(true);
      }
      return Ok(false);
    }

    /** After the reap the active count is the number of granted waiters. */
    method Snapshot(now: int) returns (active: nat, waiting: nat, reclaimed: nat)
      requires Valid()
      modifies this
      ensures Valid() && Db() == Reaped(old(Db()), now)
      ensures active == |set r | r in waiters && waiters[r].state.Granted?|
      ensures waiting == |set r | r in waiters && waiters[r].state.Queued?|
      ensures reclaimed == |StateChanges(old(Db()), Db())|
    {
      reclaimed := ReapExpiredLocked(now);
      active := |leases|;
      waiting := |set r | r in waiters && waiters[r].state.Queued?|;
      LeasesCountGrants(Db());
    }
  }

  ghost function HolderOf(t: Tables, slots: set<nat>): set<string>
    requires forall s | s in slots :: s in t.leases
  {
    set s | s in slots :: t.leases[s].requestId
  }

  lemma {:induction false} DistinctHolders(t: Tables, slots: set<nat>)
    requires OneLeasePerRequest(t) && forall s | s in slots :: s in t.leases
    ensures |HolderOf(t, slots)| == |slots|
  {
    if slots != {} {
      var s :| s in slots;
      DistinctHolders(t, slots - {s});
      assert HolderOf(t, slots) == HolderOf(t, slots - {s}) + {t.leases[s].requestId};
    }
  }

  /** The one-to-one correspondence, counted: as many leases as granted waiters. */
  lemma {:induction false} LeasesCountGrants(t: Tables)
    requires Inv(t)
    ensures |t.leases| == |set r | r in t.waiters && t.waiters[r].state.Granted?|
  {
    DistinctHolders(t, t.leases.Keys);
    var granted := set r | r in t.waiters && t.waiters[r].state.Granted?;
    forall r | r in granted ensures r in HolderOf(t, t.leases.Keys) {
      assert HasLease(t, r, t.waiters[r].owner);
      var s := SlotOf(t, r, t.waiters[r].owner);
      assert t.leases[s].requestId == r;
    }
    assert granted == HolderOf(t, t.leases.Keys);
    assert |t.leases| == |t.leases.Keys|;
  }
}
