/**
 * The transfer records the queue manager reads and writes, and the store that
 * holds them: an ordered list of transfers plus, per transfer id, the last
 * transfer attempt recorded for it.
 */
module TransferStore {
  import opened Wrappers

  /** Lifecycle state of a transfer; a transfer built by a caller has none yet. */
  datatype TransferState = Enqueued | Processing | Complete | Error

  /** The stored account that owns a transfer. */
  datatype GridAccount = GridAccount(gridAccountId: nat)

  /**
   * A transfer between an iRODS path and a local path. `id` is 0 until the
   * store assigns one; timestamps are readings of the dispatcher's clock.
   */
  datatype Transfer = Transfer(
    id: int,
    state: Option<TransferState>,
    irodsAbsolutePath: string,
    localAbsolutePath: string,
    transferType: string,
    gridAccount: Option<GridAccount>,
    createdAt: Option<nat>,
    updatedAt: Option<nat>)

  /** One execution record of a transfer; `attemptStart` is set at hand-off. */
  datatype TransferAttempt = TransferAttempt(attemptStart: Option<nat>)

  /**
   * Transfers in the order the store lists them, the last attempt per
   * transfer id (an absent key is the null the attempt lookup returns), and
   * the next id the store will assign.
   */
  datatype Store = Store(
    transfers: seq<Transfer>,
    lastAttempt: map<int, TransferAttempt>,
    nextId: nat)

  const EmptyStore: Store := Store([], map[], 1)

  predicate IsEnqueued(t: Transfer) {
    t.state == Some(Enqueued)
  }

  /** Ids are positive, below `nextId`, and unique across the stored transfers. */
  ghost predicate WellFormed(st: Store) {
    && st.nextId >= 1
    && (forall i :: 0 <= i < |st.transfers| ==> 0 < st.transfers[i].id < st.nextId)
    && (forall i, j :: 0 <= i < j < |st.transfers| ==> st.transfers[i].id != st.transfers[j].id)
  }

  /** `i` is the position of the first ENQUEUED transfer in `ts`. */
  ghost predicate IsFirstEnqueued(ts: seq<Transfer>, i: int) {
    && 0 <= i < |ts|
    && IsEnqueued(ts[i])
    && forall j :: 0 <= j < i ==> !IsEnqueued(ts[j])
  }

  ghost predicate NoneEnqueued(ts: seq<Transfer>) {
    forall i :: 0 <= i < |ts| ==> !IsEnqueued(ts[i])
  }

  /**
   * The store's lookup by state ENQUEUED: the enqueued transfers, in the
   * order the store lists them, so that the first element is the head of the
   * queue. `EnqueuedTransfersMembers` states that it holds exactly them.
   */
  function EnqueuedTransfers(ts: seq<Transfer>): (r: seq<Transfer>)
    ensures forall k :: 0 <= k < |r| ==> IsEnqueued(r[k])
    ensures |r| == 0 <==> NoneEnqueued(ts)
    ensures |r| <= |ts|
  {
    if |ts| == 0 then []
    else
      var rest := EnqueuedTransfers(ts[1..]);
      assert !IsEnqueued(ts[0]) ==> (NoneEnqueued(ts) <==> NoneEnqueued(ts[1..])) by {
        if !IsEnqueued(ts[0]) && !NoneEnqueued(ts) {
          var i :| 0 <= i < |ts| && IsEnqueued(ts[i]);
          assert ts[1..][i - 1] == ts[i];
        }
      }
      if IsEnqueued(ts[0]) then [ts[0]] + rest else rest
  }

  /** The ENQUEUED lookup holds every ENQUEUED transfer of `ts` and nothing else. */
  lemma {:induction false} EnqueuedTransfersMembers(ts: seq<Transfer>)
    ensures forall k :: 0 <= k < |EnqueuedTransfers(ts)| ==> EnqueuedTransfers(ts)[k] in ts
    ensures forall i :: 0 <= i < |ts| && IsEnqueued(ts[i]) ==> ts[i] in EnqueuedTransfers(ts)
  {
    if |ts| > 0 {
      EnqueuedTransfersMembers(ts[1..]);
      var rest := EnqueuedTransfers(ts[1..]);
      var r := EnqueuedTransfers(ts);
      assert r == if IsEnqueued(ts[0]) then [ts[0]] + rest else rest;
      forall i | 0 <= i < |ts| && IsEnqueued(ts[i])
        ensures ts[i] in r
      {
        if i == 0 {
          assert r[0] == ts[0];
        } else {
          assert ts[1..][i - 1] == ts[i];
        }
      }
      forall k | 0 <= k < |r|
        ensures r[k] in ts
      {
        var j := if IsEnqueued(ts[0]) then k - 1 else k;
        if j >= 0 {
          assert r[k] == rest[j] && rest[j] in ts[1..];
        }
      }
    }
  }

  /** The head of the ENQUEUED lookup is the first ENQUEUED transfer. */
  lemma {:induction false} EnqueuedTransfersHead(ts: seq<Transfer>, i: int)
    requires IsFirstEnqueued(ts, i)
    ensures |EnqueuedTransfers(ts)| > 0 && EnqueuedTransfers(ts)[0] == ts[i]
  {
    if i > 0 {
      assert IsFirstEnqueued(ts[1..], i - 1);
      EnqueuedTransfersHead(ts[1..], i - 1);
    }
  }

  /** Every non-empty list holding an ENQUEUED transfer has a first one. */
  lemma {:induction false} FirstEnqueuedExists(ts: seq<Transfer>)
    requires !NoneEnqueued(ts)
    ensures exists i :: IsFirstEnqueued(ts, i)
  {
    if IsEnqueued(ts[0]) {
      assert IsFirstEnqueued(ts, 0);
    } else {
      FirstEnqueuedExists(ts[1..]);
      var i :| IsFirstEnqueued(ts[1..], i);
      assert IsFirstEnqueued(ts, i + 1);
    }
  }

  /** Position of the first transfer with the given id, if any. */
  function IndexOfId(ts: seq<Transfer>, id: int): (r: Option<nat>)
    ensures r.Some? ==> r.value < |ts| && ts[r.value].id == id
                        && forall j :: 0 <= j < r.value ==> ts[j].id != id
    ensures r.None? ==> forall j :: 0 <= j < |ts| ==> ts[j].id != id
  {
    if |ts| == 0 then None
    else if ts[0].id == id then Some(0)
    else
      match IndexOfId(ts[1..], id)
      case None => None
      case Some(k) => Some(k + 1)
  }

  /** In a well-formed store the position of a stored transfer's id is its own. */
  lemma IndexOfStoredId(st: Store, i: int)
    requires WellFormed(st) && 0 <= i < |st.transfers|
    ensures IndexOfId(st.transfers, st.transfers[i].id) == Some(i)
  {
  }

  /** The transfer stored under `id`, or none (the store's find by id). */
  function FindTransfer(st: Store, id: int): (r: Option<Transfer>)
    ensures r.Some? <==> exists i :: 0 <= i < |st.transfers| && st.transfers[i].id == id
    ensures r.Some? ==> r.value in st.transfers && r.value.id == id
  {
    match IndexOfId(st.transfers, id)
    case None => None
    case Some(k) => Some(st.transfers[k])
  }

  /**
   * Save as an upsert: a transfer whose id is stored replaces that record in
   * place; any other transfer is appended under the next fresh id. Returns
   * the new store and the record as saved. `SaveTransferUpserts` and
   * `SaveKeepsWellFormed` state what it does to the records.
   */
  function SaveTransfer(st: Store, t: Transfer): (r: (Store, Transfer))
    ensures r.0.lastAttempt == st.lastAttempt
    ensures r.1.id == t.id || r.1.id == st.nextId
  {
    match IndexOfId(st.transfers, t.id)
    case Some(k) => (st.(transfers := st.transfers[k := t]), t)
    case None =>
      var saved := t.(id := st.nextId);
      (st.(transfers := st.transfers + [saved], nextId := st.nextId + 1), saved)
  }

  /**
   * A stored id is updated in place and every other record is kept; an
   * unknown id is appended under `nextId`, which then advances. Either way
   * the saved record is in the store.
   */
  lemma SaveTransferUpserts(st: Store, t: Transfer)
    ensures var r := SaveTransfer(st, t);
            && r.1 in r.0.transfers
            && (IndexOfId(st.transfers, t.id).Some? ==>
                  var k := IndexOfId(st.transfers, t.id).value;
                  && r.1 == t
                  && r.0.nextId == st.nextId
                  && |r.0.transfers| == |st.transfers|
                  && r.0.transfers[k] == t
                  && (forall j :: 0 <= j < |st.transfers| && j != k ==> r.0.transfers[j] == st.transfers[j]))
            && (IndexOfId(st.transfers, t.id).None? ==>
                  && r.1 == t.(id := st.nextId)
                  && r.0.nextId == st.nextId + 1
                  && r.0.transfers == st.transfers + [r.1])
  {
    var r := SaveTransfer(st, t);
    match IndexOfId(st.transfers, t.id)
    case Some(k) =>
      assert r.0.transfers[k] == t;
    case None =>
      assert r.0.transfers[|st.transfers|] == r.1;
  }

  /** Saving keeps ids positive, below `nextId` and unique. */
  lemma SaveKeepsWellFormed(st: Store, t: Transfer)
    ensures WellFormed(st) ==> WellFormed(SaveTransfer(st, t).0)
  {
    SaveTransferUpserts(st, t);
  }
}
