/**
 * Properties of the queue manager that relate several calls: restart's
 * independence from the store's save, the dequeue failure path and its
 * re-invocation, the stack overflow a head without an attempt causes, the
 * enqueue scenarios, the lookups' agreement with each other and with
 * dequeue, and single-flight hand-off over any sequence of calls.
 */
module QueueManagerProperties {
  import opened Wrappers
  import opened TransferStore
  import ExecutionGate
  import opened QueueManager

  // ---------------------------------------------------------------------
  // Restart

  /** A non-positive id is refused before the store is consulted: the
      outcome does not depend on the environment at all. */
  lemma RestartRejectsIdBeforeLookup(c: Conveyor, env1: Env, env2: Env, transferId: int)
    requires transferId <= 0
    ensures EnqueueRestartOfTransferOperation(c, env1, transferId)
            == EnqueueRestartOfTransferOperation(c, env2, transferId)
            == (Fail(IllegalArgument(IllegalTransferIdMessage)), c)
  {
  }

  /** Restart performs no save: whether saving throws makes no difference. */
  lemma RestartPerformsNoSave(c: Conveyor, env: Env, transferId: int)
    ensures EnqueueRestartOfTransferOperation(c, env.(failing := env.failing + {Save}), transferId)
            == EnqueueRestartOfTransferOperation(c, env.(failing := env.failing - {Save}), transferId)
  {
  }

  /** A restarted transfer is not dispatched by the restart itself: it
      stays ENQUEUED and the permit and hand-offs are as before. */
  lemma RestartDoesNotDequeue(c: Conveyor, env: Env, transferId: int)
    requires EnqueueRestartOfTransferOperation(c, env, transferId).0.Pass?
    ensures var after := EnqueueRestartOfTransferOperation(c, env, transferId).1;
            && FindTransfer(after.store, transferId).Some?
            && IsEnqueued(FindTransfer(after.store, transferId).value)
            && after.gate == c.gate && after.handoffs == c.handoffs
  {
    var after := EnqueueRestartOfTransferOperation(c, env, transferId).1;
    var k := IndexOfId(c.store.transfers, transferId).value;
    assert after.store.transfers[k].id == transferId;
    var found := IndexOfId(after.store.transfers, transferId);
    assert found == Some(k);
  }

  // ---------------------------------------------------------------------
  // Dequeue

  /** With the permit held, dequeue reads nothing and changes nothing. */
  lemma DequeueWhileBusyIsNoOp(c: Conveyor, env: Env, fuel: nat)
    requires fuel > 0 && c.gate.busy
    ensures DequeueNextOperation(c, env, fuel) == (AlreadyBusy, c)
  {
  }

  /** With nothing ENQUEUED, dequeue takes and releases the permit and
      leaves everything else, the error status included, as it was. */
  lemma DequeueOnEmptyQueue(c: Conveyor, env: Env, fuel: nat)
    requires fuel > 0 && !c.gate.busy
    requires NoneEnqueued(c.store.transfers) && FindByState !in env.failing
    ensures DequeueNextOperation(c, env, fuel) == (Idle, c)
  {
  }

  /**
   * The failure path: when a cycle fails, dequeue releases the permit, sends
   * exactly one notification for that cycle and invokes itself again; what it
   * returns is what that re-invocation returns, so no exception reaches the
   * caller.
   */
  lemma DequeueFailureReinvokes(c: Conveyor, env: Env, fuel: nat)
    requires fuel > 0 && !c.gate.busy
    requires DequeueCycle(c.(gate := c.gate.(busy := true)), env).Failed?
    ensures var failed := DequeueCycle(c.(gate := c.gate.(busy := true)), env).after;
            && !Recover(failed).gate.busy
            && Recover(failed).notified == c.notified + 1
            && DequeueNextOperation(c, env, fuel)
               == DequeueNextOperation(Recover(failed), NextRetry(env), fuel - 1)
  {
  }

  /**
   * A head transfer without a last attempt fails every cycle (the source
   * dereferences the missing attempt), whatever the store does, so dequeue
   * re-invokes itself until the stack overflows: one notification per
   * cycle, no hand-off, the store untouched, the permit released.
   */
  lemma HeadWithoutAttemptNeverDispatches(c: Conveyor, env: Env, fuel: nat)
    requires !c.gate.busy
    requires !NoneEnqueued(c.store.transfers)
    requires EnqueuedTransfers(c.store.transfers)[0].id !in c.store.lastAttempt
    ensures var r := DequeueNextOperation(c, env, fuel);
            && r.0 == Exhausted
            && r.1.notified == c.notified + fuel
            && r.1.store == c.store
            && r.1.handoffs == c.handoffs
            && !r.1.gate.busy
  {
    DequeueHandOff(c, env, fuel);
    DequeueNotifies(c, env, fuel);
    var i := HeadIsStored(c.store.transfers);
  }

  /**
   * A transient store failure is drained past: if the first cycle fails and
   * the store then behaves, the second cycle hands the head off, after
   * exactly one notification.
   */
  lemma TransientFailureIsDrainedPast(c: Conveyor, env: Env, fuel: nat)
    requires fuel >= 2 && !c.gate.busy
    requires env.retryFailing == []
    requires !NoneEnqueued(c.store.transfers)
    requires EnqueuedTransfers(c.store.transfers)[0].id in c.store.lastAttempt
    ensures var r := DequeueNextOperation(c, env, fuel);
            && r.0 == HandedOff(EnqueuedTransfers(c.store.transfers)[0].id)
            && r.1.gate.busy
            && r.1.notified == c.notified + (if DequeueCycle(c.(gate := c.gate.(busy := true)), env).Failed? then 1 else 0)
  {
    var held := c.(gate := c.gate.(busy := true));
    var cycle := DequeueCycle(held, env);
    if cycle.Failed? {
      DequeueFailureReinvokes(c, env, fuel);
      var next := Recover(cycle.after);
      assert NextRetry(env).failing == {};
      var held2 := next.(gate := next.gate.(busy := true));
      CycleHandsOffHead(held2, NextRetry(env));
      var cycle2 := DequeueCycle(held2, NextRetry(env));
      assert DequeueNextOperation(next, NextRetry(env), fuel - 1) == (cycle2.drain, cycle2.after);
    } else {
      CycleHandsOffHead(held, env);
      assert DequeueNextOperation(c, env, fuel) == (cycle.drain, cycle.after);
    }
  }

  /**
   * A cycle that meets no throwing store call, on a head with a last
   * attempt, hands that head off and keeps the permit.
   */
  lemma CycleHandsOffHead(c: Conveyor, env: Env)
    requires c.gate.busy
    requires !NoneEnqueued(c.store.transfers)
    requires EnqueuedTransfers(c.store.transfers)[0].id in c.store.lastAttempt
    requires FindByState !in env.failing && FindLastAttempt !in env.failing && Save !in env.failing
    ensures var done := DequeueCycle(c, env);
            && done.Done? && done.drain == HandedOff(EnqueuedTransfers(c.store.transfers)[0].id)
            && done.after.gate.busy && done.after.notified == c.notified
  {
    CycleHandOff(c, env);
    var i := HeadIsStored(c.store.transfers);
  }

  // ---------------------------------------------------------------------
  // Enqueue

  /** No store call of a dequeue cycle throws. */
  ghost predicate CycleUnhindered(env: Env) {
    && FindByState !in env.failing
    && FindLastAttempt !in env.failing
    && Save !in env.failing
  }

  /** The environment lets an enqueue save and prepare its transfer, and lets
      the first cycle succeed both of the dequeue it triggers and of a dequeue
      called directly under the same environment. */
  ghost predicate Healthy(env: Env, account: IrodsAccount) {
    && account in env.gridAccounts
    && env.preparesAttempt
    && CycleUnhindered(env)
    && CycleUnhindered(NextRetry(env))
  }

  /** The store after `c`'s store gained `t` as its only ENQUEUED transfer. */
  lemma OnlyEnqueuedIsFirst(ts: seq<Transfer>, k: nat)
    requires k < |ts| && IsEnqueued(ts[k])
    requires forall j :: 0 <= j < |ts| && j != k ==> !IsEnqueued(ts[j])
    ensures IsFirstEnqueued(ts, k)
    ensures |EnqueuedTransfers(ts)| > 0 && EnqueuedTransfers(ts)[0] == ts[k]
  {
    EnqueuedTransfersHead(ts, k);
  }

  /**
   * A dequeue on a free permit whose first cycle meets no throwing store call
   * hands off the first ENQUEUED transfer, when it has a last attempt, and
   * leaves its stored record PROCESSING and every other record as it was.
   */
  lemma DequeueDispatchesHead(c: Conveyor, env: Env, fuel: nat, k: nat)
    requires WellFormed(c.store) && !c.gate.busy && fuel > 0
    requires IsFirstEnqueued(c.store.transfers, k)
    requires c.store.transfers[k].id in c.store.lastAttempt
    requires FindByState !in env.failing && FindLastAttempt !in env.failing && Save !in env.failing
    ensures var r := DequeueNextOperation(c, env, fuel);
            && r.0 == HandedOff(c.store.transfers[k].id)
            && r.1.gate.busy
            && r.1.store.transfers == c.store.transfers[k := Moved(c.store.transfers[k], r.1.clock)]
            && FindTransfer(r.1.store, c.store.transfers[k].id).Some?
            && FindTransfer(r.1.store, c.store.transfers[k].id).value.state == Some(Processing)
  {
    var ts := c.store.transfers;
    EnqueuedTransfersHead(ts, k);
    var cycle := DequeueCycle(c.(gate := c.gate.(busy := true)), env);
    assert !cycle.Failed?;
    DequeueHandOff(c, env, fuel);
    var r := DequeueNextOperation(c, env, fuel);
    assert r.1.store.transfers == ts[k := Moved(ts[k], r.1.clock)];
    IndexOfStoredId(r.1.store, k);
  }

  /** Where an enqueue that resolves `account` and saves hands over to dequeue. */
  function PreparedForDequeue(c: Conveyor, env: Env, t: Transfer, account: IrodsAccount)
    : (r: (Conveyor, Transfer))
    requires account in env.gridAccounts
  {
    SaveAndPrepare(c, env, MarkedForQueue(t, env.gridAccounts[account], c.clock + 1), c.clock + 1)
  }

  /**
   * Enqueue into a queue with nothing waiting makes the saved transfer the
   * only ENQUEUED one, hence the head; returns its position.
   */
  lemma SavedIsSoleEnqueued(c: Conveyor, env: Env, t: Transfer, account: IrodsAccount)
    returns (k: nat)
    requires WellFormed(c.store) && NoneEnqueued(c.store.transfers)
    requires account in env.gridAccounts
    ensures var (start, saved) := PreparedForDequeue(c, env, t, account);
            && k < |start.store.transfers|
            && start.store.transfers[k] == saved
            && IsFirstEnqueued(start.store.transfers, k)
            && (forall j :: 0 <= j < |start.store.transfers| && j != k ==>
                  !IsEnqueued(start.store.transfers[j]))
            && WellFormed(start.store)
            && (env.preparesAttempt ==> saved.id in start.store.lastAttempt)
  {
    var (start, saved) := PreparedForDequeue(c, env, t, account);
    var ts := start.store.transfers;
    k :| 0 <= k < |ts| && ts[k] == saved;
    forall j | 0 <= j < |ts| && j != k
      ensures !IsEnqueued(ts[j])
    {
      assert ts[j] == c.store.transfers[j];
    }
    OnlyEnqueuedIsFirst(ts, k);
  }

  /**
   * Enqueue on an idle conveyor with an empty queue runs the new transfer at
   * once: it is handed off within the same call, the permit stays held, the
   * stored record is PROCESSING and nothing is left waiting.
   */
  lemma EnqueueOnIdleConveyorDispatchesIt(
    c: Conveyor, env: Env, fuel: nat, t: Transfer, account: IrodsAccount)
    requires WellFormed(c.store) && !c.gate.busy && NoneEnqueued(c.store.transfers)
    requires Healthy(env, account) && fuel > 0
    ensures var r := EnqueueTransferOperation(c, env, fuel, Some(t), Some(account));
            && r.outcome == Success(HandedOff(r.transfer.value.id))
            && r.after.gate.busy
            && FindTransfer(r.after.store, r.transfer.value.id).Some?
            && FindTransfer(r.after.store, r.transfer.value.id).value.state == Some(Processing)
            && r.transfer.value.state == Some(Processing)
            && NoneEnqueued(r.after.store.transfers)
  {
    var (start, saved) := PreparedForDequeue(c, env, t, account);
    var r := EnqueueTransferOperation(c, env, fuel, Some(t), Some(account));
    var dequeued := DequeueNextOperation(start, NextRetry(env), fuel);
    var k := SavedIsSoleEnqueued(c, env, t, account);
    DequeueDispatchesHead(start, NextRetry(env), fuel, k);
    assert r == EnqueueResult(Success(dequeued.0), dequeued.1, Some(Moved(saved, dequeued.1.clock)));
    var after := dequeued.1;
    MovingSoleEnqueuedLeavesNone(start.store.transfers, k, Moved(start.store.transfers[k], after.clock));
  }

  /**
   * Enqueue on an idle conveyor whose preparation records no attempt: the
   * saved transfer heads the queue without a last attempt, every dequeue
   * cycle fails on it and re-invokes dequeue, and the re-invocations
   * overflow the stack. The error reaches the caller; the transfer stays
   * stored and ENQUEUED, nothing is handed off and the permit is free.
   */
  lemma EnqueueWithoutAttemptOverflows(
    c: Conveyor, env: Env, fuel: nat, t: Transfer, account: IrodsAccount)
    requires WellFormed(c.store) && !c.gate.busy && NoneEnqueued(c.store.transfers)
    requires c.store.lastAttempt == map[]
    requires account in env.gridAccounts && Save !in env.failing && !env.preparesAttempt
    ensures var r := EnqueueTransferOperation(c, env, fuel, Some(t), Some(account));
            && r.outcome == Failure(StackOverflow)
            && r.after.notified == c.notified + fuel
            && !r.after.gate.busy
            && r.after.handoffs == c.handoffs
            && r.transfer.Some?
            && FindTransfer(r.after.store, r.transfer.value.id) == Some(r.transfer.value)
            && IsEnqueued(r.transfer.value)
  {
    var (start, saved) := PreparedForDequeue(c, env, t, account);
    var k := SavedIsSoleEnqueued(c, env, t, account);
    EnqueuedTransfersHead(start.store.transfers, k);
    assert start.store.lastAttempt == map[];
    HeadWithoutAttemptNeverDispatches(start, NextRetry(env), fuel);
    IndexOfStoredId(start.store, k);
  }

  /**
   * The transfer enqueue returns is the stored record as the call leaves it:
   * after a success or a stack overflow, looking its id up in a well-formed
   * store finds exactly that transfer, PROCESSING when dequeue handed it off
   * and ENQUEUED otherwise.
   */
  lemma EnqueueReturnsStoredRecord(
    c: Conveyor, env: Env, fuel: nat, t: Transfer, account: IrodsAccount)
    requires WellFormed(c.store)
    ensures var r := EnqueueTransferOperation(c, env, fuel, Some(t), Some(account));
            r.outcome.Success? || r.outcome == Failure(StackOverflow) ==>
              && r.transfer.Some?
              && FindTransfer(r.after.store, r.transfer.value.id) == Some(r.transfer.value)
  {
    if account in env.gridAccounts && Save !in env.failing {
      var (start, saved) := PreparedForDequeue(c, env, t, account);
      var k :| 0 <= k < |start.store.transfers| && start.store.transfers[k] == saved;
      DequeueFindsRecord(start, NextRetry(env), fuel, k);
    }
  }

  /**
   * After dequeue, a stored record is found under its id as dequeue left it:
   * moved to PROCESSING when it was the transfer handed off, unchanged
   * otherwise.
   */
  lemma DequeueFindsRecord(c: Conveyor, env: Env, fuel: nat, k: nat)
    requires WellFormed(c.store) && k < |c.store.transfers|
    ensures var t := c.store.transfers[k];
            var r := DequeueNextOperation(c, env, fuel);
            FindTransfer(r.1.store, t.id)
            == Some(if r.0 == HandedOff(t.id) then Moved(t, r.1.clock) else t)
  {
    var ts := c.store.transfers;
    var r := DequeueNextOperation(c, env, fuel);
    DequeueHandOff(c, env, fuel);
    DequeueKeepsRecords(c, env, fuel);
    IndexOfStoredId(r.1.store, k);
    if r.0.HandedOff? {
      var i := HeadIsStored(ts);
      assert r.0 == HandedOff(ts[k].id) <==> i == k;
    }
  }

  /** Replacing the only ENQUEUED transfer by one that is not leaves none. */
  lemma MovingSoleEnqueuedLeavesNone(ts: seq<Transfer>, k: nat, m: Transfer)
    requires k < |ts| && !IsEnqueued(m)
    requires forall j :: 0 <= j < |ts| && j != k ==> !IsEnqueued(ts[j])
    ensures NoneEnqueued(ts[k := m])
  {
  }

  /**
   * Enqueue while another transfer holds the permit only queues: the
   * triggered dequeue returns at once, nothing is handed off, and the new
   * transfer is stored ENQUEUED.
   */
  lemma EnqueueWhileBusyOnlyQueues(
    c: Conveyor, env: Env, fuel: nat, t: Transfer, account: IrodsAccount)
    requires WellFormed(c.store) && c.gate.busy
    requires account in env.gridAccounts && Save !in env.failing && fuel > 0
    ensures var r := EnqueueTransferOperation(c, env, fuel, Some(t), Some(account));
            && r.outcome == Success(AlreadyBusy)
            && r.after == PreparedForDequeue(c, env, t, account).0
            && r.transfer == Some(PreparedForDequeue(c, env, t, account).1)
            && r.after.gate == c.gate
            && r.after.handoffs == c.handoffs
            && FindTransfer(r.after.store, r.transfer.value.id) == Some(r.transfer.value)
            && IsEnqueued(r.transfer.value)
  {
    var (start, saved) := PreparedForDequeue(c, env, t, account);
    var ts := start.store.transfers;
    var k :| 0 <= k < |ts| && ts[k] == saved;
    IndexOfStoredId(start.store, k);
  }

  /**
   * The end-to-end scenario: enqueue J1 on an idle, empty conveyor and it is
   * dispatched; enqueue J2 while J1 runs and it waits ENQUEUED; once the
   * executor reports J1 complete (releasing the permit), a dequeue
   * dispatches J2.
   */
  lemma SecondTransferWaitsForTheFirst(
    env: Env, fuel: nat, j1: Transfer, j2: Transfer, account: IrodsAccount)
    requires Healthy(env, account) && fuel > 0
    ensures var r1 := EnqueueTransferOperation(InitialConveyor, env, fuel, Some(j1), Some(account));
            var r2 := EnqueueTransferOperation(r1.after, env, fuel, Some(j2), Some(account));
            var completed := r2.after.(gate := ExecutionGate.Release(r2.after.gate));
            var r3 := DequeueNextOperation(completed, env, fuel);
            && r1.outcome == Success(HandedOff(r1.transfer.value.id))
            && r2.outcome == Success(AlreadyBusy)
            && FindTransfer(r2.after.store, r2.transfer.value.id).value.state == Some(Enqueued)
            && r3.0 == HandedOff(r2.transfer.value.id)
  {
    var c0 := InitialConveyor;
    assert WellFormed(c0.store);
    EnqueueOnIdleConveyorDispatchesIt(c0, env, fuel, j1, account);
    var r1 := EnqueueTransferOperation(c0, env, fuel, Some(j1), Some(account));
    EnqueueWhileBusyOnlyQueues(r1.after, env, fuel, j2, account);
    var r2 := EnqueueTransferOperation(r1.after, env, fuel, Some(j2), Some(account));
    var k := SavedIsSoleEnqueued(r1.after, env, j2, account);
    var completed := r2.after.(gate := ExecutionGate.Release(r2.after.gate));
    DequeueDispatchesHead(completed, env, fuel, k);
  }

  // ---------------------------------------------------------------------
  // Single flight over any sequence of calls

  /** One call into the queue manager. */
  datatype Op =
    | EnqueueOp(transfer: Option<Transfer>, account: Option<IrodsAccount>)
    | EnqueueByLocationsOp(irodsFile: string, localFile: string,
                           account: Option<IrodsAccount>, transferType: string)
    | RestartOp(transferId: int)
    | DequeueOp
    | PurgeOp
    | ListAllOp
    | FindByTransferIdOp(transferId: int)
    | LoadChildrenOp(loaded: Transfer)

  /** A call with the environment and dequeue budget it runs under. */
  datatype Call = Call(env: Env, fuel: nat, op: Op)

  /** The conveyor after one call; read passthroughs leave it as it was. */
  function Step(c: Conveyor, call: Call): Conveyor {
    match call.op
    case EnqueueOp(t, a) => EnqueueTransferOperation(c, call.env, call.fuel, t, a).after
    case EnqueueByLocationsOp(i, l, a, k) =>
      EnqueueTransferByLocations(c, call.env, call.fuel, i, l, a, k).after
    case RestartOp(id) => EnqueueRestartOfTransferOperation(c, call.env, id).1
    case DequeueOp => DequeueNextOperation(c, call.env, call.fuel).1
    case PurgeOp => PurgeAllFromQueue(c, call.env).1
    case ListAllOp => c
    case FindByTransferIdOp(_) => c
    case LoadChildrenOp(_) => c
  }

  /** The conveyor after a sequence of calls, in order. */
  function Run(c: Conveyor, calls: seq<Call>): Conveyor
    decreases |calls|
  {
    if |calls| == 0 then c else Run(Step(c, calls[0]), calls[1..])
  }

  /**
   * `d` follows `c` under the permit discipline: earlier hand-offs are kept;
   * a held permit stays held and nothing is handed off; from a free permit at
   * most one transfer is handed off, and the permit is held afterwards
   * exactly when one was.
   */
  ghost predicate RespectsPermit(c: Conveyor, d: Conveyor) {
    && |d.handoffs| >= |c.handoffs|
    && d.handoffs[..|c.handoffs|] == c.handoffs
    && (c.gate.busy ==> d.gate.busy && d.handoffs == c.handoffs)
    && (!c.gate.busy ==> (d.gate.busy <==> |d.handoffs| == |c.handoffs| + 1)
                         && |d.handoffs| <= |c.handoffs| + 1)
  }

  /** Every kind of call respects the permit. */
  lemma StepRespectsPermit(c: Conveyor, call: Call)
    ensures RespectsPermit(c, Step(c, call))
  {
    match call.op
    case EnqueueByLocationsOp(i, l, a, k) =>
      EnqueueByLocationsRespectsPermit(c, call.env, call.fuel, i, l, a, k);
    case EnqueueOp(t, a) =>
      EnqueueRespectsPermit(c, call.env, call.fuel, t, a);
    case RestartOp(id) =>
      RestartRespectsPermit(c, call.env, id);
    case DequeueOp =>
      DequeueRespectsPermit(c, call.env, call.fuel);
    case PurgeOp =>
      PurgeRespectsPermit(c, call.env);
    case ListAllOp =>
    case FindByTransferIdOp(_) =>
    case LoadChildrenOp(_) =>
  }

  /** Enqueue's part of `StepRespectsPermit`. */
  lemma EnqueueRespectsPermit(
    c: Conveyor, env: Env, fuel: nat, t: Option<Transfer>, a: Option<IrodsAccount>)
    ensures RespectsPermit(c, EnqueueTransferOperation(c, env, fuel, t, a).after)
  {
    var r := EnqueueTransferOperation(c, env, fuel, t, a);
    if t.None? || a.None? || a.value !in env.gridAccounts || Save in env.failing {
      assert r.after.handoffs == c.handoffs && r.after.gate == c.gate;
    } else {
      var stamp := c.clock + 1;
      var (start, _) := SaveAndPrepare(c, env, MarkedForQueue(t.value, env.gridAccounts[a.value], stamp), stamp);
      assert r.after == DequeueNextOperation(start, NextRetry(env), fuel).1;
      DequeueRespectsPermit(start, NextRetry(env), fuel);
    }
  }

  /** Enqueue by locations' part of `StepRespectsPermit`. */
  lemma EnqueueByLocationsRespectsPermit(
    c: Conveyor, env: Env, fuel: nat, irodsFile: string, localFile: string,
    account: Option<IrodsAccount>, transferType: string)
    ensures RespectsPermit(c, EnqueueTransferByLocations(c, env, fuel, irodsFile, localFile, account, transferType).after)
  {
    var created := c.clock + 1;
    var t := Transfer(0, None, irodsFile, localFile, transferType, None, Some(created), None);
    EnqueueRespectsPermit(c.(clock := created), env, fuel, Some(t), account);
    assert EnqueueTransferByLocations(c, env, fuel, irodsFile, localFile, account, transferType).after
           == EnqueueTransferOperation(c.(clock := created), env, fuel, Some(t), account).after;
  }

  /** Restart's part of `StepRespectsPermit`. */
  lemma RestartRespectsPermit(c: Conveyor, env: Env, transferId: int)
    ensures RespectsPermit(c, EnqueueRestartOfTransferOperation(c, env, transferId).1)
  {
  }

  /** Dequeue's part of `StepRespectsPermit`. */
  lemma DequeueRespectsPermit(c: Conveyor, env: Env, fuel: nat)
    ensures RespectsPermit(c, DequeueNextOperation(c, env, fuel).1)
  {
    DequeueHandOff(c, env, fuel);
  }

  /** Purge's part of `StepRespectsPermit`. */
  lemma PurgeRespectsPermit(c: Conveyor, env: Env)
    ensures RespectsPermit(c, PurgeAllFromQueue(c, env).1)
  {
  }

  /** While the permit is held, no sequence of calls hands anything off. */
  lemma {:induction false} HeldPermitBlocksDispatch(c: Conveyor, calls: seq<Call>)
    requires c.gate.busy
    ensures Run(c, calls).gate.busy && Run(c, calls).handoffs == c.handoffs
    decreases |calls|
  {
    if |calls| > 0 {
      StepRespectsPermit(c, calls[0]);
      HeldPermitBlocksDispatch(Step(c, calls[0]), calls[1..]);
    }
  }

  /**
   * Single flight: since nothing in the queue manager releases the permit
   * after a hand-off (the executor does, on completion), any sequence of
   * calls hands off at most one transfer, keeping earlier hand-offs as they
   * were.
   */
  lemma {:induction false} AtMostOneHandoff(c: Conveyor, calls: seq<Call>)
    ensures |c.handoffs| <= |Run(c, calls).handoffs| <= |c.handoffs| + 1
    ensures Run(c, calls).handoffs[..|c.handoffs|] == c.handoffs
    ensures |Run(c, calls).handoffs| == |c.handoffs| + 1 ==> Run(c, calls).gate.busy
    decreases |calls|
  {
    if |calls| > 0 {
      var d := Step(c, calls[0]);
      StepRespectsPermit(c, calls[0]);
      if d.gate.busy {
        HeldPermitBlocksDispatch(d, calls[1..]);
      } else {
        AtMostOneHandoff(d, calls[1..]);
        assert d.handoffs == c.handoffs;
      }
    }
  }

  /** Every call keeps the store's ids positive, fresh and unique. */
  lemma StepPreservesWellFormed(c: Conveyor, call: Call)
    requires WellFormed(c.store)
    ensures WellFormed(Step(c, call).store)
  {
    match call.op
    case RestartOp(id) =>
      RestartPreservesWellFormed(c, call.env, id);
    case EnqueueOp(t, a) =>
    case EnqueueByLocationsOp(_, _, _, _) =>
    case DequeueOp =>
      DequeueKeepsRecords(c, call.env, call.fuel);
    case PurgeOp =>
    case ListAllOp =>
    case FindByTransferIdOp(_) =>
    case LoadChildrenOp(_) =>
  }

  /** Restart rewrites one record in place, keeping every id. */
  lemma RestartPreservesWellFormed(c: Conveyor, env: Env, transferId: int)
    requires WellFormed(c.store)
    ensures WellFormed(EnqueueRestartOfTransferOperation(c, env, transferId).1.store)
  {
    var r := EnqueueRestartOfTransferOperation(c, env, transferId);
    if r.0.Pass? {
      assert forall j :: 0 <= j < |c.store.transfers| ==>
               r.1.store.transfers[j].id == c.store.transfers[j].id;
    }
  }

  /** Any sequence of calls keeps the store well formed. */
  lemma {:induction false} RunPreservesWellFormed(c: Conveyor, calls: seq<Call>)
    requires WellFormed(c.store)
    ensures WellFormed(Run(c, calls).store)
    decreases |calls|
  {
    if |calls| > 0 {
      StepPreservesWellFormed(c, calls[0]);
      RunPreservesWellFormed(Step(c, calls[0]), calls[1..]);
    }
  }

  // ---------------------------------------------------------------------
  // Lookups

  /**
   * In a well-formed store, listing and finding by id agree: a transfer is
   * listed exactly when finding its id returns it.
   */
  lemma ListedIffFoundById(c: Conveyor, env: Env, t: Transfer)
    requires WellFormed(c.store)
    requires FindAll !in env.failing && FindInitializedById !in env.failing
    ensures ListAllTransfersInQueue(c, env).Success?
    ensures t in ListAllTransfersInQueue(c, env).value
            <==> FindTransferByTransferId(c, env, t.id) == Success(Some(t))
  {
    var ts := c.store.transfers;
    assert ListAllTransfersInQueue(c, env).value == ts;
    if t in ts {
      var i :| 0 <= i < |ts| && ts[i] == t;
      IndexOfStoredId(c.store, i);
    }
  }

  /**
   * A transfer dequeue hands off carries the id it reports, and loading its
   * children afterwards finds its last attempt.
   */
  lemma HandedOffTransferHasAttempt(c: Conveyor, env: Env, fuel: nat, loadEnv: Env)
    requires InitializeChildren !in loadEnv.failing
    ensures var r := DequeueNextOperation(c, env, fuel);
            r.0.HandedOff? ==>
              && |r.1.handoffs| > |c.handoffs|
              && r.1.handoffs[|c.handoffs|].transfer.id == r.0.transferId
              && var loaded := InitializeGivenTransferByLoadingChildren(
                   r.1, loadEnv, r.1.handoffs[|c.handoffs|].transfer);
                 loaded.Success? && loaded.value.lastAttempt.Some?
  {
    var r := DequeueNextOperation(c, env, fuel);
    DequeueHandOff(c, env, fuel);
    DequeueKeepsRecords(c, env, fuel);
    if r.0.HandedOff? {
      var i := HeadIsStored(c.store.transfers);
    }
  }
}
