/**
 * The basic queue manager of the transfer conveyor: enqueue a transfer,
 * restart one, dequeue the next (at most one transfer is handed to the
 * executor at a time, guarded by the executor's busy flag), purge the queue,
 * and read passthroughs to the store.
 *
 * The whole dispatcher is one immutable `Conveyor` value; every operation is a
 * function from a conveyor to its result and the conveyor after it. What the
 * dispatcher cannot see is an `Env` parameter: which store calls throw, the
 * grid-account lookup, and whether the accounting service records an attempt
 * when it prepares a transfer.
 */
module QueueManager {
  import opened Wrappers
  import opened TransferStore
  import ExecutionGate

  /** The caller's iRODS credential. */
  datatype IrodsAccount = IrodsAccount(userName: string, zone: string, host: string)

  /** A transfer given to the executor, with the attempt it runs under. */
  datatype Handoff = Handoff(transfer: Transfer, attempt: TransferAttempt)

  /**
   * The dispatcher's state: the store, the executor's busy flag and error
   * status, a clock that every date reading advances, the number of
   * unhandled-exception notifications sent to the callback listener, and the
   * hand-offs made to the executor, oldest first.
   */
  datatype Conveyor = Conveyor(
    store: Store,
    gate: ExecutionGate.Gate,
    clock: nat,
    notified: nat,
    handoffs: seq<Handoff>)

  const InitialConveyor: Conveyor := Conveyor(EmptyStore, ExecutionGate.IdleGate, 0, 0, [])

  /** The store calls that can throw. */
  datatype StoreCall =
    | FindAll | FindByState | FindById | FindInitializedById
    | FindLastAttempt | Save | PurgeEntireQueue | InitializeChildren

  /**
   * The outside world for one call. `failing` lists the store calls that
   * throw during the call itself; for a dequeue that is its first cycle.
   * `retryFailing` lists, in order, those that throw in each further dequeue
   * cycle: the re-invocations after a failed cycle, and for an enqueue, the
   * cycles of the dequeue it triggers. None throw once the list is used up.
   * `gridAccounts` is the grid-account lookup; `preparesAttempt` says whether
   * preparing a transfer for processing records a fresh attempt for it.
   */
  datatype Env = Env(
    failing: set<StoreCall>,
    retryFailing: seq<set<StoreCall>>,
    gridAccounts: map<IrodsAccount, GridAccount>,
    preparesAttempt: bool)

  /** The environment of the next dequeue cycle: after a failed one, or the
      first cycle of the dequeue an enqueue triggers. */
  function NextRetry(env: Env): (r: Env)
    ensures r.gridAccounts == env.gridAccounts && r.preparesAttempt == env.preparesAttempt
    ensures |env.retryFailing| > 0 ==> r.failing == env.retryFailing[0]
                                       && r.retryFailing == env.retryFailing[1..]
    ensures |env.retryFailing| == 0 ==> r.failing == {} && r.retryFailing == []
  {
    if |env.retryFailing| == 0 then env.(failing := {})
    else env.(failing := env.retryFailing[0], retryFailing := env.retryFailing[1..])
  }

  /** The exceptions a caller can see. */
  datatype QueueError =
    | IllegalArgument(message: string)
    | Rejected(message: string)
    | ExecutionFailure(message: string)
    | Busy
    | NullDereference
    | StackOverflow   // an error, not an exception: no catch block handles it

  const IllegalTransferIdMessage := "illegal transferId"
  const TransferLookupMessage := "unable to lookup transfer by id"
  const AttemptLookupMessage := "unable to lookup last transfer attempt"
  const NoPreviousAttemptMessage := "no previous attempt found to base restart on"
  const NullTransferMessage := "null transfer"
  const NullAccountMessage := "null irodsAccount"
  const UnresolvedAccountMessage := "unable to resolve gridAccount from given irodsAccount"
  const SaveFailedMessage := "error saving transfer"
  const ListFailedMessage := "error listing transfers"
  /** An execution exception that only wraps the store's exception. */
  const WrappedStoreFailure := ""

  /** How a dequeue ended. */
  datatype Drain =
    | AlreadyBusy               // the permit was held: returned at once
    | Idle                      // nothing ENQUEUED: permit released
    | HandedOff(transferId: int) // the head went to the executor: permit kept
    | Exhausted                 // the stack overflowed: the re-invocation budget ran out

  /** A transfer as dequeue moves it: PROCESSING, updated at `stamp`. */
  function Moved(t: Transfer, stamp: nat): (r: Transfer)
    ensures r.state == Some(Processing) && r.updatedAt == Some(stamp)
    ensures r == t.(state := r.state, updatedAt := r.updatedAt)
  {
    t.(state := Some(Processing), updatedAt := Some(stamp))
  }

  /** One pass of dequeue after the permit is taken. */
  datatype Cycle = Done(drain: Drain, after: Conveyor) | Failed(after: Conveyor)

  /**
   * The body of dequeue, run with the permit held. It reads the ENQUEUED
   * transfers; with none it releases the permit. Otherwise it takes the
   * first, resets the error status to OK, looks up its last attempt, stamps
   * the attempt's start, moves the transfer to PROCESSING, saves it and hands
   * it to the executor, keeping the permit. A throwing store call, or a head
   * without an attempt (whose start the source then sets on a null
   * reference), fails the cycle; only the reset status and the clock survive
   * a failure.
   */
  function DequeueCycle(c: Conveyor, env: Env): (r: Cycle)
    ensures r.Failed? ==> && r.after.store == c.store
                          && r.after.handoffs == c.handoffs
                          && r.after.notified == c.notified
                          && r.after.gate.busy == c.gate.busy
                          && r.after.clock >= c.clock
    ensures r.Failed? <==>
              || FindByState in env.failing
              || (&& !NoneEnqueued(c.store.transfers)
                  && (|| FindLastAttempt in env.failing
                      || Save in env.failing
                      || EnqueuedTransfers(c.store.transfers)[0].id !in c.store.lastAttempt))
    ensures r.Done? ==> r.drain.Idle? || r.drain.HandedOff?
    ensures r.Done? && r.drain.Idle? <==> r.Done? && NoneEnqueued(c.store.transfers)
    ensures r.Done? && r.drain.Idle? ==> r.after == c.(gate := ExecutionGate.Release(c.gate))
  {
    if FindByState in env.failing then Failed(c)
    else
      var queued := EnqueuedTransfers(c.store.transfers);
      if |queued| == 0 then
        Done(Idle, c.(gate := ExecutionGate.Release(c.gate)))
      else
        var head := queued[0];
        var reset := c.(gate := ExecutionGate.SetStatus(c.gate, ExecutionGate.Ok));
        if FindLastAttempt in env.failing then Failed(reset)
        else if head.id !in reset.store.lastAttempt then Failed(reset)
        else
          var attempt := reset.store.lastAttempt[head.id].(attemptStart := Some(reset.clock + 1));
          var stamp := reset.clock + 2;
          var moved := Moved(head, stamp);
          var stamped := reset.(clock := stamp);
          if Save in env.failing then Failed(stamped)
          else
            var (saved, _) := SaveTransfer(stamped.store, moved);
            Done(HandedOff(head.id),
                 stamped.(store := saved, handoffs := stamped.handoffs + [Handoff(moved, attempt)]))
  }

  /** A cycle rewrites at most one record, in place, keeping every id. */
  lemma CycleKeepsRecords(c: Conveyor, env: Env)
    ensures var r := DequeueCycle(c, env);
            && |r.after.store.transfers| == |c.store.transfers|
            && (forall j :: 0 <= j < |c.store.transfers| ==>
                  r.after.store.transfers[j].id == c.store.transfers[j].id)
            && (WellFormed(c.store) ==> WellFormed(r.after.store))
            && r.after.store.lastAttempt == c.store.lastAttempt
            && r.after.store.nextId == c.store.nextId
            && r.after.clock >= c.clock
  {
    var r := DequeueCycle(c, env);
    if r.Done? && r.drain.HandedOff? {
      var i := HeadIsStored(c.store.transfers);
      var moved := Moved(c.store.transfers[i], c.clock + 2);
      SaveTransferUpserts(c.store, moved);
      SaveKeepsWellFormed(c.store, moved);
    }
  }

  /**
   * A cycle that hands off resets the status to OK, keeps the permit,
   * appends one hand-off, the first ENQUEUED transfer moved to PROCESSING
   * with a started attempt, and rewrites that transfer in the store.
   */
  lemma CycleHandOff(c: Conveyor, env: Env)
    ensures var r := DequeueCycle(c, env);
            r.Done? && r.drain.HandedOff? ==>
              && r.after.gate == ExecutionGate.SetStatus(c.gate, ExecutionGate.Ok)
              && r.after.notified == c.notified
              && r.after.clock > c.clock
              && |r.after.handoffs| == |c.handoffs| + 1
              && r.after.handoffs[..|c.handoffs|] == c.handoffs
              && r.drain.transferId in c.store.lastAttempt
              && (forall i :: IsFirstEnqueued(c.store.transfers, i) ==>
                    && r.drain.transferId == c.store.transfers[i].id
                    && r.after.handoffs[|c.handoffs|].transfer == Moved(c.store.transfers[i], r.after.clock)
                    && r.after.handoffs[|c.handoffs|].attempt.attemptStart.Some?
                    && (WellFormed(c.store) ==>
                          r.after.store.transfers
                          == c.store.transfers[i := Moved(c.store.transfers[i], r.after.clock)]))
  {
    var r := DequeueCycle(c, env);
    if r.Done? && r.drain.HandedOff? {
      var i := HeadIsStored(c.store.transfers);
      var moved := Moved(c.store.transfers[i], c.clock + 2);
      SaveTransferUpserts(c.store, moved);
      SaveKeepsWellFormed(c.store, moved);
    }
  }

  /** The head of the ENQUEUED list is stored at the first ENQUEUED position. */
  lemma HeadIsStored(ts: seq<Transfer>) returns (i: nat)
    requires !NoneEnqueued(ts)
    ensures IsFirstEnqueued(ts, i) && EnqueuedTransfers(ts)[0] == ts[i]
    ensures IndexOfId(ts, ts[i].id).Some?
  {
    FirstEnqueuedExists(ts);
    i :| IsFirstEnqueued(ts, i);
    EnqueuedTransfersHead(ts, i);
  }

  /** After a failed cycle: release the permit and notify the listener once. */
  function Recover(c: Conveyor): (r: Conveyor)
    ensures !r.gate.busy && r.gate.status == c.gate.status
    ensures r.notified == c.notified + 1
    ensures r.store == c.store && r.handoffs == c.handoffs && r.clock == c.clock
  {
    c.(gate := ExecutionGate.Release(c.gate), notified := c.notified + 1)
  }

  /**
   * Dequeue the next transfer. If the permit is held it returns at once.
   * Otherwise it runs one cycle; on failure it releases the permit, notifies
   * the listener and invokes itself again. The source recurses without
   * bound, so the stack overflows after enough failed cycles; here each
   * re-invocation spends one unit of `fuel`, the depth the stack allows, and a
   * call with none left returns `Exhausted` without touching the conveyor.
   * Nothing in dequeue catches the overflow: it reaches the caller. What the
   * hand-off, the records and the notifications look like afterwards is
   * stated by `DequeueHandOff`, `DequeueKeepsRecords` and `DequeueNotifies`.
   */
  function DequeueNextOperation(c: Conveyor, env: Env, fuel: nat): (r: (Drain, Conveyor))
    decreases fuel
    ensures fuel == 0 ==> r == (Exhausted, c)
    ensures r.0 == AlreadyBusy <==> fuel > 0 && c.gate.busy
    ensures r.0 == AlreadyBusy ==> r.1 == c
    ensures !r.0.HandedOff? ==> r.1.store == c.store && r.1.handoffs == c.handoffs
  {
    if fuel == 0 then (Exhausted, c)
    else
      var (acquired, held) := ExecutionGate.TryAcquire(c.gate);
      if !acquired then (AlreadyBusy, c)
      else
        match DequeueCycle(c.(gate := held), env)
        case Done(drain, after) => (drain, after)
        case Failed(after) => DequeueNextOperation(Recover(after), NextRetry(env), fuel - 1)
  }

  /**
   * Dequeue rewrites records in place only: every stored id stays at its
   * position, the attempts and the next id are untouched, so a well-formed
   * store stays well formed; the clock never goes back.
   */
  lemma {:induction false} DequeueKeepsRecords(c: Conveyor, env: Env, fuel: nat)
    ensures var r := DequeueNextOperation(c, env, fuel);
            && r.1.store.lastAttempt == c.store.lastAttempt
            && r.1.store.nextId == c.store.nextId
            && |r.1.store.transfers| == |c.store.transfers|
            && (forall j :: 0 <= j < |c.store.transfers| ==>
                  r.1.store.transfers[j].id == c.store.transfers[j].id)
            && (WellFormed(c.store) ==> WellFormed(r.1.store))
            && r.1.clock >= c.clock
    decreases fuel
  {
    if fuel > 0 && !c.gate.busy {
      var cycle := DequeueCycle(c.(gate := c.gate.(busy := true)), env);
      CycleKeepsRecords(c.(gate := c.gate.(busy := true)), env);
      if cycle.Failed? {
        DequeueKeepsRecords(Recover(cycle.after), NextRetry(env), fuel - 1);
      }
    }
  }

  /**
   * One notification per failed cycle: never more than the stack depth
   * allows, and one per frame when the stack overflowed.
   */
  lemma {:induction false} DequeueNotifies(c: Conveyor, env: Env, fuel: nat)
    ensures var r := DequeueNextOperation(c, env, fuel);
            && c.notified <= r.1.notified <= c.notified + fuel
            && (r.0 == Exhausted ==> r.1.notified == c.notified + fuel)
    decreases fuel
  {
    if fuel > 0 && !c.gate.busy {
      var cycle := DequeueCycle(c.(gate := c.gate.(busy := true)), env);
      if cycle.Failed? {
        DequeueNotifies(Recover(cycle.after), NextRetry(env), fuel - 1);
      }
    }
  }

  /**
   * From a free permit, dequeue ends holding it exactly when it handed a
   * transfer off. An idle end means nothing is ENQUEUED. A hand-off appends
   * one record, the first ENQUEUED transfer moved to PROCESSING, rewrites
   * that transfer in the store, and resets the error status to OK.
   */
  lemma {:induction false} DequeueHandOff(c: Conveyor, env: Env, fuel: nat)
    ensures var r := DequeueNextOperation(c, env, fuel);
            && (!c.gate.busy ==> (r.1.gate.busy <==> r.0.HandedOff?))
            && (r.0.Idle? ==> NoneEnqueued(r.1.store.transfers))
            && (r.0.HandedOff? ==>
                  && r.1.gate.status == ExecutionGate.Ok
                  && !NoneEnqueued(c.store.transfers)
                  && r.0.transferId in c.store.lastAttempt
                  && |r.1.handoffs| == |c.handoffs| + 1
                  && r.1.handoffs[..|c.handoffs|] == c.handoffs
                  && (forall i :: IsFirstEnqueued(c.store.transfers, i) ==>
                        && r.0.transferId == c.store.transfers[i].id
                        && r.1.handoffs[|c.handoffs|].transfer == Moved(c.store.transfers[i], r.1.clock)
                        && (WellFormed(c.store) ==>
                              r.1.store.transfers
                              == c.store.transfers[i := Moved(c.store.transfers[i], r.1.clock)])))
    decreases fuel
  {
    if fuel > 0 && !c.gate.busy {
      var cycle := DequeueCycle(c.(gate := c.gate.(busy := true)), env);
      CycleHandOff(c.(gate := c.gate.(busy := true)), env);
      if cycle.Failed? {
        DequeueHandOff(Recover(cycle.after), NextRetry(env), fuel - 1);
      }
    }
  }

  /**
   * Restart a transfer from its last attempt. A non-positive id is an
   * illegal argument, raised before any lookup; a throwing lookup is an
   * execution failure; a transfer without a last attempt is rejected; an id
   * with an attempt but no transfer dereferences null. Otherwise the stored
   * transfer, whatever its state, becomes ENQUEUED with a new update time.
   * Nothing is saved and no dequeue is triggered.
   */
  function EnqueueRestartOfTransferOperation(c: Conveyor, env: Env, transferId: int)
    : (r: (Outcome<QueueError>, Conveyor))
    ensures transferId <= 0 ==> r == (Fail(IllegalArgument(IllegalTransferIdMessage)), c)
    ensures r.0.Fail? ==> r.1 == c
    ensures transferId > 0 && FindById !in env.failing && FindLastAttempt !in env.failing
            && transferId !in c.store.lastAttempt
            ==> r.0 == Fail(Rejected(NoPreviousAttemptMessage))
    ensures r.0.Pass? <==> && transferId > 0
                           && FindById !in env.failing && FindLastAttempt !in env.failing
                           && transferId in c.store.lastAttempt
                           && FindTransfer(c.store, transferId).Some?
    ensures r.0.Pass? ==>
              var k := IndexOfId(c.store.transfers, transferId).value;
              && r.1.clock > c.clock
              && |r.1.store.transfers| == |c.store.transfers|
              && IsEnqueued(r.1.store.transfers[k])
              && r.1.store.transfers[k] == c.store.transfers[k].(state := Some(Enqueued), updatedAt := Some(r.1.clock))
              && (forall j :: 0 <= j < |c.store.transfers| && j != k ==>
                    r.1.store.transfers[j] == c.store.transfers[j])
              && r.1.store.lastAttempt == c.store.lastAttempt
              && r.1.store.nextId == c.store.nextId
              && r.1.gate == c.gate && r.1.notified == c.notified && r.1.handoffs == c.handoffs
  {
    if transferId <= 0 then (Fail(IllegalArgument(IllegalTransferIdMessage)), c)
    else if FindById in env.failing then (Fail(ExecutionFailure(TransferLookupMessage)), c)
    else
      var found := FindTransfer(c.store, transferId);
      // The rejection check accepts every transfer.
      if FindLastAttempt in env.failing then (Fail(ExecutionFailure(AttemptLookupMessage)), c)
      else if transferId !in c.store.lastAttempt then (Fail(Rejected(NoPreviousAttemptMessage)), c)
      else if found.None? then (Fail(NullDereference), c)
      else
        var k := IndexOfId(c.store.transfers, transferId).value;
        var stamp := c.clock + 1;
        var restarted := c.store.transfers[k].(state := Some(Enqueued), updatedAt := Some(stamp));
        (Pass, c.(clock := stamp, store := c.store.(transfers := c.store.transfers[k := restarted])))
  }

  /** What enqueue returns: its outcome, the conveyor after it, and the
      caller's transfer as this call left it. */
  datatype EnqueueResult = EnqueueResult(
    outcome: Result<Drain, QueueError>,
    after: Conveyor,
    transfer: Option<Transfer>)

  /**
   * Enqueue a transfer for an account. A null transfer or account is an
   * illegal argument; an account with no grid account is an execution
   * failure raised before the transfer is touched. Otherwise the transfer
   * gets the grid account, state ENQUEUED and a new update time and is
   * saved (a throwing save is an execution failure); then it is prepared for
   * processing and dequeue runs once, under the faults `env.retryFailing`
   * scripts. Dequeue catches its failed cycles itself, and the outcome
   * carries how it ended, unless its re-invocations overflowed the stack:
   * that error passes every catch block and reaches the caller.
   *
   * The store manages the object it saved, so the caller's transfer is the
   * stored record: when dequeue hands off this very transfer, the object it
   * moves to PROCESSING is the caller's, and the result returns it so.
   */
  function EnqueueTransferOperation(
    c: Conveyor, env: Env, fuel: nat, transfer: Option<Transfer>, account: Option<IrodsAccount>)
    : (r: EnqueueResult)
    ensures transfer.None? ==> r == EnqueueResult(Failure(IllegalArgument(NullTransferMessage)), c, None)
    ensures transfer.Some? && account.None? ==>
              r == EnqueueResult(Failure(IllegalArgument(NullAccountMessage)), c, transfer)
    ensures transfer.Some? && account.Some? && account.value !in env.gridAccounts ==>
              r == EnqueueResult(Failure(ExecutionFailure(UnresolvedAccountMessage)), c, transfer)
    ensures r.outcome.Failure? && r.outcome.error != StackOverflow ==>
              r.after.store == c.store && r.after.gate == c.gate
              && r.after.notified == c.notified && r.after.handoffs == c.handoffs
    ensures r.outcome == Failure(StackOverflow) ==>
              && r.transfer.Some? && IsEnqueued(r.transfer.value)
              && r.after.handoffs == c.handoffs
              && (WellFormed(c.store) ==> FindTransfer(r.after.store, r.transfer.value.id).Some?)
    ensures WellFormed(c.store) ==> WellFormed(r.after.store)
    ensures r.outcome == Failure(ExecutionFailure(SaveFailedMessage)) <==>
              transfer.Some? && account.Some? && account.value in env.gridAccounts && Save in env.failing
    ensures r.outcome.Success? ==>
              && !r.outcome.value.Exhausted?
              && transfer.Some? && account.Some? && account.value in env.gridAccounts
              && r.transfer.Some?
              && r.transfer.value.gridAccount == Some(env.gridAccounts[account.value])
              && r.transfer.value.state
                 == (if r.outcome.value == HandedOff(r.transfer.value.id) then Some(Processing)
                     else Some(Enqueued))
              && r.transfer.value.updatedAt.Some? && r.transfer.value.updatedAt.value > c.clock
              && r.transfer.value.irodsAbsolutePath == transfer.value.irodsAbsolutePath
              && r.transfer.value.localAbsolutePath == transfer.value.localAbsolutePath
              && (WellFormed(c.store) ==>
                    && WellFormed(r.after.store)
                    && r.transfer.value.id > 0
                    && FindTransfer(r.after.store, r.transfer.value.id).Some?)
              && (IndexOfId(c.store.transfers, transfer.value.id).Some? ==>
                    && r.transfer.value.id == transfer.value.id
                    && |r.after.store.transfers| == |c.store.transfers|)
              && (IndexOfId(c.store.transfers, transfer.value.id).None? ==>
                    && r.transfer.value.id == c.store.nextId
                    && |r.after.store.transfers| == |c.store.transfers| + 1)
  {
    if transfer.None? then EnqueueResult(Failure(IllegalArgument(NullTransferMessage)), c, None)
    else if account.None? then EnqueueResult(Failure(IllegalArgument(NullAccountMessage)), c, transfer)
    else if account.value !in env.gridAccounts then
      EnqueueResult(Failure(ExecutionFailure(UnresolvedAccountMessage)), c, transfer)
    else
      // The rejection check accepts every transfer.
      var stamp := c.clock + 1;
      var marked := MarkedForQueue(transfer.value, env.gridAccounts[account.value], stamp);
      if Save in env.failing then
        EnqueueResult(Failure(ExecutionFailure(SaveFailedMessage)), c.(clock := stamp), Some(marked))
      else
        var (start, saved) := SaveAndPrepare(c, env, marked, stamp);
        var (drain, after) := DequeueNextOperation(start, NextRetry(env), fuel);
        DequeueKeepsRecords(start, NextRetry(env), fuel);
        SavedTransferStaysStored(start.store, after.store, saved);
        var current := if drain == HandedOff(saved.id) then Moved(saved, after.clock) else saved;
        if drain == Exhausted then EnqueueResult(Failure(StackOverflow), after, Some(current))
        else EnqueueResult(Success(drain), after, Some(current))
  }

  /** The transfer as enqueue changes it before saving. */
  function MarkedForQueue(t: Transfer, gridAccount: GridAccount, stamp: nat): (r: Transfer)
    ensures r.gridAccount == Some(gridAccount) && IsEnqueued(r) && r.updatedAt == Some(stamp)
    ensures r == t.(gridAccount := r.gridAccount, state := r.state, updatedAt := r.updatedAt)
  {
    t.(gridAccount := Some(gridAccount), state := Some(Enqueued), updatedAt := Some(stamp))
  }

  /**
   * Enqueue's save and preparation: the conveyor its dequeue starts from
   * (clock at `stamp`) and the transfer as saved.
   */
  function SaveAndPrepare(c: Conveyor, env: Env, marked: Transfer, stamp: nat): (r: (Conveyor, Transfer))
    ensures r.1 in r.0.store.transfers
    ensures r.0.gate == c.gate && r.0.notified == c.notified && r.0.handoffs == c.handoffs
    ensures r.0.clock == stamp
    ensures WellFormed(c.store) ==> WellFormed(r.0.store) && r.1.id > 0
    ensures env.preparesAttempt ==> r.1.id in r.0.store.lastAttempt
  {
    SaveTransferUpserts(c.store, marked);
    SaveKeepsWellFormed(c.store, marked);
    var (st, saved) := SaveTransfer(c.store, marked);
    (c.(clock := stamp, store := PrepareTransferForProcessing(st, saved, env.preparesAttempt)), saved)
  }

  /** Dequeue keeps every stored id in place, so a saved transfer stays findable. */
  lemma SavedTransferStaysStored(before: Store, after: Store, saved: Transfer)
    requires saved in before.transfers
    requires |after.transfers| == |before.transfers|
    requires forall j :: 0 <= j < |before.transfers| ==> after.transfers[j].id == before.transfers[j].id
    ensures FindTransfer(after, saved.id).Some?
  {
    var i :| 0 <= i < |before.transfers| && before.transfers[i] == saved;
    assert after.transfers[i].id == saved.id;
  }

  /**
   * The accounting service's preparation of a saved transfer, reduced to
   * its effect on the store: when `recordsAttempt` holds, a fresh, unstarted
   * attempt becomes the transfer's last attempt.
   */
  function PrepareTransferForProcessing(st: Store, saved: Transfer, recordsAttempt: bool): (r: Store)
    ensures r.transfers == st.transfers && r.nextId == st.nextId
    ensures recordsAttempt ==> r.lastAttempt == st.lastAttempt[saved.id := TransferAttempt(None)]
    ensures !recordsAttempt ==> r == st
  {
    if recordsAttempt then st.(lastAttempt := st.lastAttempt[saved.id := TransferAttempt(None)])
    else st
  }

  /**
   * Enqueue by locations: build a new transfer (created now, no id, no
   * state) for the two paths and the transfer type, then enqueue it.
   */
  function EnqueueTransferByLocations(
    c: Conveyor, env: Env, fuel: nat, irodsFile: string, localFile: string,
    account: Option<IrodsAccount>, transferType: string)
    : (r: EnqueueResult)
    ensures account.None? ==> r.outcome == Failure(IllegalArgument(NullAccountMessage))
    ensures r.transfer.Some?
    ensures r.transfer.value.irodsAbsolutePath == irodsFile
    ensures r.transfer.value.localAbsolutePath == localFile
    ensures r.transfer.value.transferType == transferType
    ensures r.transfer.value.createdAt == Some(c.clock + 1)
    ensures r.outcome.Success? && WellFormed(c.store) ==>
              r.transfer.value.id == c.store.nextId
              && |r.after.store.transfers| == |c.store.transfers| + 1
  {
    var created := c.clock + 1;
    var t := Transfer(0, None, irodsFile, localFile, transferType, None, Some(created), None);
    EnqueueTransferOperation(c.(clock := created), env, fuel, Some(t), account)
  }

  /**
   * Purge the queue. With the permit held it fails as busy and changes
   * nothing. Otherwise it takes the permit, deletes every transfer and
   * attempt, and releases the permit on both the success and the error path.
   */
  function PurgeAllFromQueue(c: Conveyor, env: Env): (r: (Outcome<QueueError>, Conveyor))
    ensures c.gate.busy ==> r == (Fail(Busy), c)
    ensures !c.gate.busy && PurgeEntireQueue in env.failing ==>
              r == (Fail(ExecutionFailure(WrappedStoreFailure)), c)
    ensures r.0.Pass? <==> !c.gate.busy && PurgeEntireQueue !in env.failing
    ensures r.0.Pass? ==> && r.1.store.transfers == [] && r.1.store.lastAttempt == map[]
                          && r.1.store.nextId == c.store.nextId
                          && r.1.gate == c.gate && r.1.clock == c.clock
                          && r.1.notified == c.notified && r.1.handoffs == c.handoffs
  {
    var (acquired, held) := ExecutionGate.TryAcquire(c.gate);
    if !acquired then (Fail(Busy), c)
    else
      var outcome: Outcome<QueueError> :=
        if PurgeEntireQueue in env.failing then Fail(ExecutionFailure(WrappedStoreFailure)) else Pass;
      var purged := if outcome.Pass? then c.store.(transfers := [], lastAttempt := map[]) else c.store;
      // released in the `finally` block, whichever way the purge went
      (outcome, c.(store := purged, gate := ExecutionGate.Release(held)))
  }

  /** Every stored transfer, in store order; a throwing store call is an execution failure. */
  function ListAllTransfersInQueue(c: Conveyor, env: Env): (r: Result<seq<Transfer>, QueueError>)
    ensures r.Failure? <==> FindAll in env.failing
    ensures r.Failure? ==> r.error == ExecutionFailure(ListFailedMessage)
    ensures r.Success? ==> |r.value| == |c.store.transfers|
                           && forall i :: 0 <= i < |r.value| ==> r.value[i] == c.store.transfers[i]
  {
    if FindAll in env.failing then Failure(ExecutionFailure(ListFailedMessage))
    else Success(c.store.transfers)
  }

  /** The stored transfer with the given id, or none. */
  function FindTransferByTransferId(c: Conveyor, env: Env, transferId: int)
    : (r: Result<Option<Transfer>, QueueError>)
    ensures r.Failure? <==> FindInitializedById in env.failing
    ensures r.Failure? ==> r.error == ExecutionFailure(WrappedStoreFailure)
    ensures r.Success? && r.value.Some? ==> r.value.value in c.store.transfers
                                            && r.value.value.id == transferId
    ensures r.Success? && r.value.None? ==>
              forall i :: 0 <= i < |c.store.transfers| ==> c.store.transfers[i].id != transferId
  {
    if FindInitializedById in env.failing then Failure(ExecutionFailure(WrappedStoreFailure))
    else Success(FindTransfer(c.store, transferId))
  }

  /** A transfer together with its lazily loaded child: the last attempt. */
  datatype TransferWithChildren = TransferWithChildren(
    transfer: Transfer,
    lastAttempt: Option<TransferAttempt>)

  /** Load a transfer's children; a throwing store call is an execution failure. */
  function InitializeGivenTransferByLoadingChildren(c: Conveyor, env: Env, transfer: Transfer)
    : (r: Result<TransferWithChildren, QueueError>)
    ensures r.Failure? <==> InitializeChildren in env.failing
    ensures r.Failure? ==> r.error == ExecutionFailure(WrappedStoreFailure)
    ensures r.Success? ==> && r.value.transfer == transfer
                           && (r.value.lastAttempt.Some? <==> transfer.id in c.store.lastAttempt)
                           && (r.value.lastAttempt.Some? ==>
                                 r.value.lastAttempt.value == c.store.lastAttempt[transfer.id])
  {
    if InitializeChildren in env.failing then Failure(ExecutionFailure(WrappedStoreFailure))
    else if transfer.id in c.store.lastAttempt then
      Success(TransferWithChildren(transfer, Some(c.store.lastAttempt[transfer.id])))
    else Success(TransferWithChildren(transfer, None))
  }
}
