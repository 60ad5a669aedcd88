/** The lease protocol of one job as interleaved steps of workers, the broker and operators: messages
    may be delivered late, copied or lost, workers may die, and an operator's request may commit
    long after it read the row. */
module JobProtocol {
  import opened Values
  import opened Snowflake
  import opened Jobs

  /** A task message; `waited` is the backoff its chain of retries has gone through. */
  datatype Message = Message(retries: nat, due: int, waited: int)

  /** An attempt whose process is alive. */
  datatype Live = Live(claimedAt: int, message: Message)

  /** An operator request that has read the row and not yet committed. */
  datatype Pending = Cancelling(seen: Job) | Replaying(seen: Job, submitted: bool)

  /** The last three fields count what the retry budget has to pay for. */
  datatype World = World(
    now: int, job: Job, messages: seq<Message>, live: seq<Live>, requests: seq<Pending>,
    replays: nat, copies: nat, lost: nat)

  datatype Event =
    | Tick(to: int)
    | Deliver(m: nat, cursor: Cursor) // the cursor is that of the source at the time
    | Lose(m: nat)                    // a delivery that dies before it commits anything
    | Copy(a: nat)                    // the broker redelivers the message of a live attempt
    | Recopy(m: nat)                  // or one that is still waiting
    | Complete(a: nat, cursor: Cursor)
    | Fail(a: nat, error: string)
    | Crash(a: nat)                   // the worker is lost and its message is requeued
    | Kill(a: nat)                    // the hard limit ends the process; the message is acknowledged
    | ReadForCancel
    | ReadForReplay
    | Submit(r: nat)                  // a replay enqueues before it commits
    | CommitRequest(r: nat)

  function Without<T>(s: seq<T>, i: nat): seq<T>
    requires i < |s|
  {
    s[..i] + s[i + 1..]
  }

  /** Time passes no live attempt's hard limit: the pool has killed it by then. */
  predicate Enabled(w: World, e: Event, s: Settings) {
    match e
    case Tick(to) => w.now <= to && forall a | a in w.live :: to < a.claimedAt + s.limit
    case Deliver(m, _) => m < |w.messages| && w.messages[m].due <= w.now
    case Lose(m) => m < |w.messages|
    case Copy(a) => a < |w.live|
    case Recopy(m) => m < |w.messages|
    case Complete(a, _) => a < |w.live|
    case Fail(a, _) => a < |w.live|
    case Crash(a) => a < |w.live|
    case Kill(a) => a < |w.live|
    case ReadForCancel => w.job.status == Queued || w.job.status == Running
    case ReadForReplay => w.job.status == DeadLetter
    case Submit(r) => r < |w.requests| && w.requests[r].Replaying? && !w.requests[r].submitted
    case CommitRequest(r) => r < |w.requests|
  }

  function Next(w: World, e: Event, s: Settings): World {
    if !Enabled(w, e, s) then w
    else match e
      case Tick(to) => w.(now := to)
      case Deliver(m, cursor) =>
        var taken := w.(messages := Without(w.messages, m), job := Begun(w.job, w.now, s.lease, cursor));
        if StartOf(w.job, w.now) == Claimed then taken.(live := w.live + [Live(w.now, w.messages[m])]) else taken
      case Lose(m) => w.(messages := Without(w.messages, m))
      case Copy(a) => w.(messages := w.messages + [w.live[a].message], copies := w.copies + 1)
      case Recopy(m) => w.(messages := w.messages + [w.messages[m]], copies := w.copies + 1)
      case Complete(a, cursor) => w.(live := Without(w.live, a), job := Completed(w.job, cursor))
      case Fail(a, error) =>
        var m := w.live[a].message;
        var (job, countdown) := FailedAttempt(w.job, s, m.retries, w.now, error);
        w.(live := Without(w.live, a), job := job,
           messages := if countdown.Some?
             then w.messages + [Message(m.retries + 1, w.now + countdown.value, m.waited + countdown.value)]
             else w.messages)
      case Crash(a) =>
        w.(live := Without(w.live, a), messages := w.messages + [w.live[a].message.(due := w.now)], lost := w.lost + 1)
      case Kill(a) => w.(live := Without(w.live, a))
      case ReadForCancel => w.(requests := w.requests + [Cancelling(w.job)])
      case ReadForReplay => w.(requests := w.requests + [Replaying(w.job, false)])
      case Submit(r) =>
        w.(requests := w.requests[r := w.requests[r].(submitted := true)],
           messages := w.messages + [Message(0, w.now, 0)], replays := w.replays + 1)
      case CommitRequest(r) =>
        var q := w.requests[r];
        w.(requests := Without(w.requests, r),
           job := if q.Cancelling? then CancelRequested(w.job, q.seen) else Replayed(w.job, q.seen))
  }

  function Run(w: World, events: seq<Event>, s: Settings): World {
    if events == [] then w else Next(Run(w, events[..|events| - 1], s), events[|events| - 1], s)
  }

  /** A job with its first message on the way. */
  function Submitted(j: Job, now: int): World { World(now, j, [Message(0, now, 0)], [], [], 0, 0, 0) }

  function Fresh(source: string, mode: SyncMode, cursor: Cursor, now: int): World {
    Submitted(NewJob(source, mode, cursor, None), now)
  }

  // ---------------------------------------------------------------- lease exclusion

  predicate Exclusive(w: World) { |w.live| <= 1 }

  /** While an attempt is live its lease, or a cancellation, keeps every delivery from claiming. */
  predicate Guarded(w: World, s: Settings) {
    && Exclusive(w)
    && (forall a | a in w.live :: w.now < a.claimedAt + s.limit)
    && (w.live != [] ==>
          w.job.status == Cancelled || (w.job.status == Running && w.job.lease == Some(w.live[0].claimedAt + s.lease)))
  }

  predicate CommitsReplay(w: World, e: Event) {
    e.CommitRequest? && e.r < |w.requests| && w.requests[e.r].Replaying?
  }

  /** Every step keeps the guard, but for the commit of a replay, which keeps it if and only if no
      attempt is live at that moment. */
  lemma StepKeepsGuard(w: World, e: Event, s: Settings)
    requires s.Valid() && Guarded(w, s)
    ensures Guarded(Next(w, e, s), s) <==> !(CommitsReplay(w, e) && w.live != [])
  {
  }

  /** No replay of the run commits while an attempt is live. */
  predicate Careful(w: World, events: seq<Event>, s: Settings) {
    forall i | 0 <= i < |events| ::
      var before := Run(w, events[..i], s);
      CommitsReplay(before, events[i]) ==> before.live == []
  }

  /** Lease exclusion: with a lease no shorter than the hard limit, no two attempts of a job are ever
      live together, whatever workers, broker and operators do, if replays commit with care. */
  lemma {:induction false} AttemptsExclude(w: World, events: seq<Event>, s: Settings)
    requires s.Valid() && Guarded(w, s) && Careful(w, events, s)
    ensures Guarded(Run(w, events, s), s)
  {
    if events != [] {
      var n := |events| - 1;
      assert forall i | 0 <= i < n :: events[..n][..i] == events[..i];
      AttemptsExclude(w, events[..n], s);
      StepKeepsGuard(Run(w, events[..n], s), events[n], s);
    }
  }

  /** A replay that still finds the job dead-lettered when it commits is careful. */
  lemma RecheckedReplayIsCareful(w: World, s: Settings)
    requires Guarded(w, s) && w.job.status == DeadLetter
    ensures w.live == []
  {
  }
}
