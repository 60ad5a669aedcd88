/** One durable ingestion job: the row, what the worker and the operator endpoints do to it, and the
    record that they update in place. After apps/catalog-api/app/services/ingestion_service.py,
    workers/tasks.py and api/v1/ingestion_jobs.py. Times are seconds. */
module Jobs {
  import opened Values
  import opened Snowflake

  datatype JobStatus = Queued | Running | Succeeded | Failed | Cancelled | DeadLetter

  datatype Job = Job(
    source: string, mode: SyncMode, status: JobStatus, attempts: nat, lease: Option<int>, cancelRequested: bool,
    nextRetryAt: Option<int>, deadLetteredAt: Option<int>, error: Option<string>,
    cursorBefore: Cursor, cursorAfter: Cursor, retryOf: Option<nat>)

  /** The worker settings, where a lease outlasts the hard time limit of its worker; `retryCap` is
      Celery's own limit, which the settings do not change. */
  datatype Settings = Settings(lease: int, limit: int, maxRetries: nat, backoff: int, retryCap: nat) {
    predicate Valid() { 0 < limit <= lease && backoff >= 1 }
  }

  datatype Start = Ignored | CancelledAtStart | Claimed

  // ---------------------------------------------------------------- specification

  function NewJob(source: string, mode: SyncMode, cursor: Cursor, retryOf: Option<nat>): Job {
    Job(source, mode, Queued, 0, None, false, None, None, None, cursor, map[], retryOf)
  }

  predicate Settled(s: JobStatus) { s == Succeeded || s == Cancelled || s == DeadLetter }

  predicate Leased(j: Job, now: int) { j.status == Running && j.lease.Some? && j.lease.value > now }

  function StartOf(j: Job, now: int): Start {
    if Settled(j.status) || Leased(j, now) then Ignored else if j.cancelRequested then CancelledAtStart else Claimed
  }

  /** What `run_ingestion_job` commits before it talks to the source. */
  function Begun(j: Job, now: int, lease: int, cursor: Cursor): Job {
    match StartOf(j, now)
    case Ignored => j
    case CancelledAtStart => j.(status := Cancelled, lease := None)
    case Claimed =>
      j.(cursorBefore := cursor, status := Running, attempts := j.attempts + 1, lease := Some(now + lease),
         nextRetryAt := None, error := None)
  }

  /** The end of an attempt whose discovery returned: a cancellation requested meanwhile wins. */
  function Completed(j: Job, cursor: Cursor): Job {
    if j.cancelRequested then j.(status := Cancelled, lease := None)
    else j.(cursorAfter := cursor, status := Succeeded, lease := None, nextRetryAt := None)
  }

  function Power(n: nat): nat { if n == 0 then 1 else 2 * Power(n - 1) }

  function Countdown(s: Settings, retries: nat): int { s.backoff * Power(retries) }

  /** A failure together with the retry bookkeeping of its worker: the dead-letter queue, or the time
      of a retry, whose message Celery refuses beyond its own limit. */
  function FailedAttempt(j: Job, s: Settings, retries: nat, now: int, error: string): (Job, Option<int>) {
    var failed := j.(status := Failed, lease := None, error := Some(error));
    if retries + 1 > s.maxRetries
    then (failed.(status := DeadLetter, deadLetteredAt := Some(now), nextRetryAt := None), None)
    else
      var countdown := Countdown(s, retries);
      (failed.(nextRetryAt := Some(now + countdown)), if retries + 1 > s.retryCap then None else Some(countdown))
  }

  /** A cancel request that read the row `seen`: it writes what differs from what it read. */
  function CancelRequested(j: Job, seen: Job): Job {
    var flag := !seen.cancelRequested || j.cancelRequested;
    if seen.status == Queued then j.(cancelRequested := flag, status := Cancelled)
    else if seen.status == Running then j.(cancelRequested := flag)
    else j
  }

  /** A field that was read as set is cleared; one that was read as null is not written. */
  function Cleared<T>(current: Option<T>, seen: Option<T>): Option<T> {
    if seen.Some? then None else current
  }

  /** A replay that read the dead-lettered row `seen`. */
  function Replayed(j: Job, seen: Job): Job {
    j.(status := Queued, cancelRequested := !seen.cancelRequested && j.cancelRequested,
       deadLetteredAt := Cleared(j.deadLetteredAt, seen.deadLetteredAt), error := Cleared(j.error, seen.error),
       nextRetryAt := Cleared(j.nextRetryAt, seen.nextRetryAt))
  }

  predicate Retryable(j: Job) { j.status == Failed || j.status == Cancelled }

  // ---------------------------------------------------------------- the record

  class JobRecord {
    const source: string
    const mode: SyncMode
    const retryOf: Option<nat>
    var status: JobStatus
    var attempts: nat
    var lease: Option<int>
    var cancelRequested: bool
    var nextRetryAt: Option<int>
    var deadLetteredAt: Option<int>
    var error: Option<string>
    var cursorBefore: Cursor
    var cursorAfter: Cursor

    constructor (j: Job)
      ensures Row() == j
    {
      source, mode, retryOf, status, attempts, lease := j.source, j.mode, j.retryOf, j.status, j.attempts, j.lease;
      cancelRequested, nextRetryAt, deadLetteredAt := j.cancelRequested, j.nextRetryAt, j.deadLetteredAt;
      error, cursorBefore, cursorAfter := j.error, j.cursorBefore, j.cursorAfter;
    }

    function Row(): Job
      reads this
    {
      Job(source, mode, status, attempts, lease, cancelRequested, nextRetryAt, deadLetteredAt, error, cursorBefore,
          cursorAfter, retryOf)
    }

    method Begin(now: int, leaseSeconds: int, cursor: Cursor) returns (start: Start)
      modifies this
      ensures Row() == Begun(old(Row()), now, leaseSeconds, cursor) && start == StartOf(old(Row()), now)
    {
      if status == Succeeded || status == Cancelled || status == DeadLetter { return Ignored; }
      if status == Running && lease.Some? && lease.value > now { return Ignored; }
      if cancelRequested {
        status := Cancelled;
        lease := None;
        return CancelledAtStart;
      }
      cursorBefore := cursor;
      status := Running;
      attempts := attempts + 1;
      lease := Some(now + leaseSeconds);
      nextRetryAt, error := None, None;
      start := Claimed;
    }

    method Complete(cursor: Cursor) returns (applied: bool)
      modifies this
      ensures Row() == Completed(old(Row()), cursor) && applied == !old(cancelRequested)
    {
      if cancelRequested {
        status := Cancelled;
        lease := None;
        return false;
      }
      cursorAfter := cursor;
      status := Succeeded;
      lease, nextRetryAt := None, None;
      applied := true;
    }

    method Fail(s: Settings, retries: nat, now: int, message: string) returns (countdown: Option<int>)
      modifies this
      ensures (Row(), countdown) == FailedAttempt(old(Row()), s, retries, now, message)
    {
      status := Failed;
      lease := None;
      error := Some(message);
      if retries + 1 > s.maxRetries {
        status := DeadLetter;
        deadLetteredAt := Some(now);
        nextRetryAt := None;
        return None;
      }
      countdown := Some(Countdown(s, retries));
      nextRetryAt := Some(now + countdown.value);
      if retries + 1 > s.retryCap { return None; }
    }

    method RequestCancel()
      modifies this
      ensures Row() == CancelRequested(old(Row()), old(Row()))
    {
      if status == Queued || status == Running {
        cancelRequested := true;
        if status == Queued { status := Cancelled; }
      }
    }

    method Replay() returns (ok: bool)
      modifies this
      ensures ok == (old(status) == DeadLetter)
      ensures Row() == if ok then Replayed(old(Row()), old(Row())) else old(Row())
    {
      if status != DeadLetter { return false; }
      status := Queued;
      cancelRequested := false;
      deadLetteredAt, error, nextRetryAt := None, None, None;
      ok := true;
    }
  }
}
