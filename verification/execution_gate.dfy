/**
 * The executor's busy flag and error status, as the queue manager uses them:
 * a single-permit, non-blocking try-lock (`setBusyForAnOperation` throws a
 * busy exception instead of waiting) and the last recorded error status.
 */
module ExecutionGate {

  datatype ErrorStatus = Ok | Error

  datatype Gate = Gate(busy: bool, status: ErrorStatus)

  const IdleGate: Gate := Gate(false, ErrorStatus.Ok)

  /**
   * Try to take the permit: succeeds exactly when it is free, and a failed
   * attempt leaves the gate as it was. Either way the permit is then held.
   */
  function TryAcquire(g: Gate): (r: (bool, Gate))
    ensures r.0 <==> !g.busy
    ensures r.1.busy && r.1.status == g.status
    ensures !r.0 ==> r.1 == g
  {
    if g.busy then (false, g) else (true, g.(busy := true))
  }

  /** Give the permit back, whoever holds it; the status is kept. */
  function Release(g: Gate): (r: Gate)
    ensures !r.busy && r.status == g.status
    ensures TryAcquire(r).0
  {
    g.(busy := false)
  }

  /** Record an error status without touching the permit. */
  function SetStatus(g: Gate, s: ErrorStatus): (r: Gate)
    ensures r.busy == g.busy && r.status == s
  {
    g.(status := s)
  }

  /** Two acquisitions in a row never both succeed. */
  lemma MutualExclusion(g: Gate)
    ensures !(TryAcquire(g).0 && TryAcquire(TryAcquire(g).1).0)
  {
  }
}
