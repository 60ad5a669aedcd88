/** What the job protocol keeps over every run, and the interleavings in which it does not. */
module JobTheorems {
  import opened Values
  import opened Snowflake
  import opened Jobs
  import opened JobProtocol

  /** The delivery of the first message of a source without a cursor. */
  const DELIVERY := Deliver(0, map[])

  lemma RunMore(w: World, events: seq<Event>, e: Event, s: Settings)
    ensures Run(w, events + [e], s) == Next(Run(w, events, s), e, s)
  {
  }

  // ---------------------------------------------------------------- exclusion needs both conditions

  lemma {:induction false} RunOn(w: World, p: seq<Event>, q: seq<Event>, s: Settings)
    ensures Run(w, p + q, s) == Run(Run(w, p, s), q, s)
  {
    if q == [] {
      assert p + q == p;
    } else {
      RunOn(w, p, q[..|q| - 1], s);
      assert (p + q)[..|p + q| - 1] == p + q[..|q| - 1];
    }
  }

  lemma RunFour(w: World, a: Event, b: Event, c: Event, d: Event, s: Settings)
    ensures Run(w, [a, b, c, d], s) == Next(Next(Next(Next(w, a, s), b, s), c, s), d, s)
  {
    hide Next;
    assert [a, b, c, d][..3] == [a, b, c] && [a, b, c][..2] == [a, b] && [a, b][..1] == [a] && [a][..0] == [];
    assert Run(w, [], s) == w && Run(w, [a], s) == Next(w, a, s) && Run(w, [a, b], s) == Next(Run(w, [a], s), b, s);
    assert Run(w, [a, b, c], s) == Next(Run(w, [a, b], s), c, s);
  }

  lemma TwoReads(w: World, s: Settings)
    requires w.job.status == DeadLetter && w.requests == []
    ensures Next(Next(w, ReadForReplay, s), ReadForReplay, s) ==
      w.(requests := [Replaying(w.job, false), Replaying(w.job, false)])
  {
  }

  lemma FirstCommit(w: World, q: Pending, s: Settings)
    requires q == Replaying(w.job, false) && w.requests == [q, q] && w.messages == []
    ensures var r := Next(Next(w, Submit(0), s), CommitRequest(0), s);
      && r.job == Replayed(w.job, w.job) && r.now == w.now && r.live == w.live
      && r.messages == [Message(0, w.now, 0)] && r.requests == [q]
  {
    hide Replayed;
  }

  /** The first of two replays that read the same dead-lettered row. */
  lemma FirstReplay(w: World, s: Settings)
    requires w.job.status == DeadLetter && w.messages == [] && w.live == [] && w.requests == []
    ensures var r := Run(w, [ReadForReplay, ReadForReplay, Submit(0), CommitRequest(0)], s);
      && r.job == Replayed(w.job, w.job) && r.now == w.now && r.live == []
      && r.messages == [Message(0, w.now, 0)] && r.requests == [Replaying(w.job, false)]
  {
    RunFour(w, ReadForReplay, ReadForReplay, Submit(0), CommitRequest(0), s);
    hide Run, Next, Replayed;
    TwoReads(w, s);
    FirstCommit(Next(Next(w, ReadForReplay, s), ReadForReplay, s), Replaying(w.job, false), s);
  }

  lemma ClaimStep(w: World, s: Settings, m: Message)
    requires w.job.status == Queued && !w.job.cancelRequested && w.messages == [m] && m.due <= w.now
    ensures var r := Next(w, DELIVERY, s);
      && r == w.(messages := [], live := w.live + [Live(w.now, m)], job := r.job) && !r.job.cancelRequested
  {
  }

  lemma CommitOverStep(w: World, s: Settings, seen: Job)
    requires w.requests == [Replaying(seen, false)] && w.messages == [] && !w.job.cancelRequested
    ensures var r := Next(Next(w, Submit(0), s), CommitRequest(0), s);
      && r.live == w.live && r.now == w.now && r.messages == [Message(0, w.now, 0)] && r.job.status == Queued
      && !r.job.cancelRequested
  {
  }

  /** The second commits over the attempt that the first one started. */
  lemma SecondReplay(w: World, s: Settings, m: Message, seen: Job)
    requires w.job.status == Queued && !w.job.cancelRequested && w.messages == [m] && m.due <= w.now
    requires w.live == [] && w.requests == [Replaying(seen, false)]
    ensures |Run(w, [DELIVERY, Submit(0), CommitRequest(0), DELIVERY], s).live| == 2
  {
    RunFour(w, DELIVERY, Submit(0), CommitRequest(0), DELIVERY, s);
    hide Next, Run;
    ClaimStep(w, s, m);
    CommitOverStep(Next(w, DELIVERY, s), s, seen);
    ClaimStep(Next(Next(Next(w, DELIVERY, s), Submit(0), s), CommitRequest(0), s), s, Message(0, w.now, 0));
  }

  /** Two replays that both read DEAD_LETTER bring any dead-lettered job to two live attempts. */
  lemma StaleReplayBreaksExclusion(w: World, s: Settings) returns (events: seq<Event>)
    requires w.job.status == DeadLetter && w.messages == [] && w.live == [] && w.requests == []
    ensures !Exclusive(Run(w, events, s))
  {
    var p, q := [ReadForReplay, ReadForReplay, Submit(0), CommitRequest(0)],
      [DELIVERY, Submit(0), CommitRequest(0), DELIVERY];
    FirstReplay(w, s);
    SecondReplay(Run(w, p, s), s, Message(0, w.now, 0), w.job);
    RunOn(w, p, q, s);
    events := p + q;
  }

  lemma FailsForGood(w: World, s: Settings, m: Message)
    requires w.live == [Live(w.now, m)] && s.maxRetries <= m.retries
    ensures var r := Next(w, Fail(0, ""), s);
      r.job.status == DeadLetter && r.messages == w.messages && r.live == [] && r.requests == w.requests
  {
  }

  /** And a new job whose only permitted attempt fails is such a job. */
  lemma DeadLetterIsReachable(s: Settings, now: int) returns (events: seq<Event>)
    requires s.maxRetries == 0
    ensures var r := Run(Fresh("s", Full, map[], now), events, s);
      r.job.status == DeadLetter && r.messages == [] && r.live == [] && r.requests == []
  {
    var w := Fresh("s", Full, map[], now);
    ClaimStep(w, s, Message(0, now, 0));
    FailsForGood(Next(w, DELIVERY, s), s, Message(0, now, 0));
    hide Next;
    events := [DELIVERY] + [Fail(0, "")];
    RunMore(w, [DELIVERY], Fail(0, ""), s);
    RunMore(w, [], DELIVERY, s);
    assert [] + [DELIVERY] == [DELIVERY] && Run(w, [], s) == w;
  }

  /** So exclusion fails in a run of a new job with valid settings. */
  lemma ExclusionCanFail(s: Settings, now: int) returns (events: seq<Event>)
    requires s.Valid() && s.maxRetries == 0
    ensures Guarded(Fresh("s", Full, map[], now), s) && !Exclusive(Run(Fresh("s", Full, map[], now), events, s))
  {
    var w := Fresh("s", Full, map[], now);
    var p := DeadLetterIsReachable(s, now);
    var q := StaleReplayBreaksExclusion(Run(w, p, s), s);
    hide Run;
    RunOn(w, p, q, s);
    events := p + q;
  }

  /** A lease shorter than the hard limit lets the broker's redelivery start a second attempt. */
  lemma ShortLeaseBreaksExclusion(s: Settings, w: World) returns (events: seq<Event>)
    requires 0 < s.lease < s.limit && w == Fresh("s", Full, map[], 0)
    ensures !Exclusive(Run(w, events, s))
  {
    assert Run(w, [], s) == w;
    var e1, e2 := [] + [DELIVERY], [] + [DELIVERY] + [Copy(0)];
    RunMore(w, [], DELIVERY, s);
    RunMore(w, e1, Copy(0), s);
    assert Run(w, e2, s).live == [Live(0, Message(0, 0, 0))] && Run(w, e2, s).messages == [Message(0, 0, 0)];
    var e3 := e2 + [Tick(s.lease)];
    RunMore(w, e2, Tick(s.lease), s);
    events := e3 + [DELIVERY];
    RunMore(w, e3, DELIVERY, s);
  }

  // ---------------------------------------------------------------- lease and RUNNING

  /** The lease is set exactly while the job is RUNNING. */
  predicate Paired(j: Job) { j.lease.Some? <==> j.status == Running }

  /** A commit of a cancellation that read QUEUED, or of a replay, on a job that is RUNNING by now. */
  predicate Stale(w: World, e: Event) {
    && e.CommitRequest? && e.r < |w.requests| && w.job.status == Running
    && (w.requests[e.r].Cancelling? ==> w.requests[e.r].seen.status == Queued)
  }

  lemma StepKeepsPairing(w: World, e: Event, s: Settings)
    requires Paired(w.job)
    ensures Paired(Next(w, e, s).job) <==> !Stale(w, e)
  {
  }

  predicate NeverStale(w: World, events: seq<Event>, s: Settings) {
    forall i | 0 <= i < |events| :: !Stale(Run(w, events[..i], s), events[i])
  }

  lemma {:induction false} LeaseIffRunning(w: World, events: seq<Event>, s: Settings)
    requires Paired(w.job) && NeverStale(w, events, s)
    ensures Paired(Run(w, events, s).job)
  {
    if events != [] {
      var n := |events| - 1;
      assert forall i | 0 <= i < n :: events[..n][..i] == events[..i];
      LeaseIffRunning(w, events[..n], s);
      StepKeepsPairing(Run(w, events[..n], s), events[n], s);
    }
  }

  // ---------------------------------------------------------------- cancellation

  /** The commit of a replay that read the flag as set. */
  predicate ClearsFlag(w: World, e: Event) {
    CommitsReplay(w, e) && w.requests[e.r].seen.cancelRequested
  }

  lemma CancelledStepStartsNothing(w: World, e: Event, s: Settings)
    requires w.job.cancelRequested && !ClearsFlag(w, e)
    ensures Next(w, e, s).job.cancelRequested && Next(w, e, s).job.attempts == w.job.attempts
  {
  }

  /** Once a cancellation is committed no new attempt starts until a replay clears it. */
  lemma {:induction false} CancellationSticks(w: World, events: seq<Event>, s: Settings)
    requires w.job.cancelRequested
    requires forall i | 0 <= i < |events| :: !ClearsFlag(Run(w, events[..i], s), events[i])
    ensures Run(w, events, s).job.cancelRequested && Run(w, events, s).job.attempts == w.job.attempts
  {
    if events != [] {
      var n := |events| - 1;
      assert forall i | 0 <= i < n :: events[..n][..i] == events[..i];
      CancellationSticks(w, events[..n], s);
      CancelledStepStartsNothing(Run(w, events[..n], s), events[n], s);
    }
  }

  // ---------------------------------------------------------------- retry budget and backoff

  /** The attempts that a queue of messages, and the retries of the live attempts, may still start. */
  function Queue(ms: seq<Message>, max: nat): int {
    if ms == [] then 0 else Queue(ms[..|ms| - 1], max) + max + 1 - ms[|ms| - 1].retries
  }

  function Carried(live: seq<Live>, max: nat): int {
    if live == [] then 0 else Carried(live[..|live| - 1], max) + max - live[|live| - 1].message.retries
  }

  /** A chain's message knows how long its chain has backed off. */
  predicate OnSchedule(m: Message, s: Settings) {
    m.retries <= s.maxRetries && m.retries <= s.retryCap && m.waited == s.backoff * (Power(m.retries) - 1)
  }

  predicate Scheduled(w: World, s: Settings) {
    (forall m | m in w.messages :: OnSchedule(m, s)) && (forall a | a in w.live :: OnSchedule(a.message, s))
  }

  /** What the settings, the replays, the broker's copies and lost workers allow. */
  function Allowance(w: World, s: Settings): int { (s.maxRetries + 1) * (1 + w.replays + w.copies) + w.lost }

  predicate Paid(w: World, s: Settings) {
    w.job.attempts + Queue(w.messages, s.maxRetries) + Carried(w.live, s.maxRetries) <= Allowance(w, s)
  }

  lemma {:induction false} QueueWithout(ms: seq<Message>, i: nat, max: nat)
    requires i < |ms|
    ensures Queue(Without(ms, i), max) == Queue(ms, max) - (max + 1 - ms[i].retries)
  {
    var n := |ms| - 1;
    if i == n {
      assert Without(ms, i) == ms[..n];
    } else {
      QueueWithout(ms[..n], i, max);
      assert Without(ms, i)[..n - 1] == Without(ms[..n], i);
    }
  }

  lemma {:induction false} CarriedWithout(live: seq<Live>, i: nat, max: nat)
    requires i < |live|
    ensures Carried(Without(live, i), max) == Carried(live, max) - (max - live[i].message.retries)
  {
    var n := |live| - 1;
    if i == n {
      assert Without(live, i) == live[..n];
    } else {
      CarriedWithout(live[..n], i, max);
      assert Without(live, i)[..n - 1] == Without(live[..n], i);
    }
  }

  lemma Appended(ms: seq<Message>, m: Message, live: seq<Live>, a: Live, max: nat)
    ensures Queue(ms + [m], max) == Queue(ms, max) + max + 1 - m.retries
    ensures Carried(live + [a], max) == Carried(live, max) + max - a.message.retries
  {
  }

  lemma RetryIsOnSchedule(m: Message, due: int, s: Settings)
    requires OnSchedule(m, s) && m.retries < s.maxRetries && m.retries < s.retryCap
    ensures OnSchedule(Message(m.retries + 1, due, m.waited + Countdown(s, m.retries)), s)
  {
  }

  lemma StepKeepsSchedule(w: World, e: Event, s: Settings)
    requires Scheduled(w, s)
    ensures Scheduled(Next(w, e, s), s)
  {
    if Enabled(w, e, s) && e.Fail? {
      var m := w.live[e.a].message;
      assert w.live[e.a] in w.live;
      if m.retries < s.maxRetries && m.retries < s.retryCap {
        RetryIsOnSchedule(m, w.now + Countdown(s, m.retries), s);
      }
      hide OnSchedule, Countdown;
    }
    hide Begun, Completed, CancelRequested, Replayed, Power;
  }

  lemma AllowanceGrows(w: World, s: Settings)
    ensures Allowance(w.(replays := w.replays + 1), s) == Allowance(w, s) + s.maxRetries + 1
    ensures Allowance(w.(copies := w.copies + 1), s) == Allowance(w, s) + s.maxRetries + 1
    ensures Allowance(w.(lost := w.lost + 1), s) == Allowance(w, s) + 1
  {
  }

  lemma AllowanceDepends(w: World, r: World, s: Settings)
    requires r.replays == w.replays && r.copies == w.copies && r.lost == w.lost
    ensures Allowance(r, s) == Allowance(w, s)
  {
  }

  lemma BegunCounts(j: Job, now: int, lease: int, cursor: Cursor)
    ensures Begun(j, now, lease, cursor).attempts == j.attempts + if StartOf(j, now) == Claimed then 1 else 0
  {
  }

  lemma DeliverIsPaid(w: World, m: nat, cursor: Cursor, s: Settings)
    requires Scheduled(w, s) && Paid(w, s)
    ensures Paid(Next(w, Deliver(m, cursor), s), s)
  {
    hide Allowance, Queue, Carried, Without, Begun, StartOf;
    AllowanceDepends(w, Next(w, Deliver(m, cursor), s), s);
    if Enabled(w, Deliver(m, cursor), s) {
      QueueWithout(w.messages, m, s.maxRetries);
      Appended([], w.messages[m], w.live, Live(w.now, w.messages[m]), s.maxRetries);
      assert OnSchedule(w.messages[m], s);
      BegunCounts(w.job, w.now, s.lease, cursor);
    }
  }

  lemma FailIsPaid(w: World, a: nat, error: string, s: Settings)
    requires Scheduled(w, s) && Paid(w, s)
    ensures Paid(Next(w, Fail(a, error), s), s)
  {
    hide Allowance, Queue, Carried, Without;
    AllowanceDepends(w, Next(w, Fail(a, error), s), s);
    if a < |w.live| {
      var m := w.live[a].message;
      CarriedWithout(w.live, a, s.maxRetries);
      var countdown := Countdown(s, m.retries);
      Appended(w.messages, Message(m.retries + 1, w.now + countdown, m.waited + countdown), [], w.live[a],
               s.maxRetries);
      assert OnSchedule(m, s);
    }
  }

  lemma LossIsPaid(w: World, e: Event, s: Settings)
    requires Scheduled(w, s) && Paid(w, s) && (e.Lose? || e.Complete? || e.Kill? || e.Crash?)
    ensures Paid(Next(w, e, s), s)
  {
    hide Allowance, Queue, Carried, Without, Power;
    AllowanceGrows(w, s);
    if Enabled(w, e, s) {
      AllowanceDepends(if e.Crash? then w.(lost := w.lost + 1) else w, Next(w, e, s), s);
      if e.Lose? {
        QueueWithout(w.messages, e.m, s.maxRetries);
        assert OnSchedule(w.messages[e.m], s);
      } else {
        CarriedWithout(w.live, e.a, s.maxRetries);
        assert OnSchedule(w.live[e.a].message, s);
        Appended(w.messages, w.live[e.a].message.(due := w.now), [], w.live[e.a], s.maxRetries);
      }
    }
  }

  lemma GrantIsPaid(w: World, e: Event, s: Settings)
    requires Scheduled(w, s) && Paid(w, s) && (e.Copy? || e.Recopy? || e.Submit?)
    ensures Paid(Next(w, e, s), s)
  {
    hide Allowance, Queue, Carried;
    AllowanceGrows(w, s);
    if Enabled(w, e, s) {
      AllowanceDepends(if !e.Submit? then w.(copies := w.copies + 1)
                       else w.(replays := w.replays + 1), Next(w, e, s), s);
      var added := if e.Copy? then w.live[e.a].message else if e.Recopy? then w.messages[e.m] else Message(0, w.now, 0);
      Appended(w.messages, added, [], Live(0, added), s.maxRetries);
    }
  }

  lemma StepKeepsBudget(w: World, e: Event, s: Settings)
    requires Scheduled(w, s) && Paid(w, s)
    ensures Scheduled(Next(w, e, s), s) && Paid(Next(w, e, s), s)
  {
    StepKeepsSchedule(w, e, s);
    match e
    case Deliver(m, cursor) => DeliverIsPaid(w, m, cursor, s);
    case Fail(a, error) => FailIsPaid(w, a, error, s);
    case Lose(_) => LossIsPaid(w, e, s);
    case Complete(_, _) => LossIsPaid(w, e, s);
    case Crash(_) => LossIsPaid(w, e, s);
    case Kill(_) => LossIsPaid(w, e, s);
    case Copy(_) => GrantIsPaid(w, e, s);
    case Recopy(_) => GrantIsPaid(w, e, s);
    case Submit(_) => GrantIsPaid(w, e, s);
    case _ => AllowanceDepends(w, Next(w, e, s), s); hide Scheduled, Queue, Carried, Allowance;
  }

  lemma {:induction false} NothingOwed(w: World, s: Settings)
    requires Scheduled(w, s)
    ensures Queue(w.messages, s.maxRetries) >= 0 && Carried(w.live, s.maxRetries) >= 0
    decreases |w.messages| + |w.live|
  {
    hide OnSchedule, Power;
    if w.messages != [] {
      assert OnSchedule(w.messages[|w.messages| - 1], s);
      Bounds(w.messages[|w.messages| - 1], s);
      NothingOwed(w.(messages := w.messages[..|w.messages| - 1]), s);
    } else if w.live != [] {
      assert OnSchedule(w.live[|w.live| - 1].message, s);
      Bounds(w.live[|w.live| - 1].message, s);
      NothingOwed(w.(live := w.live[..|w.live| - 1]), s);
    }
  }

  lemma Bounds(m: Message, s: Settings)
    requires OnSchedule(m, s)
    ensures m.retries <= s.maxRetries
  {
  }

  lemma {:induction false} RunKeepsBudget(w: World, events: seq<Event>, s: Settings)
    requires Scheduled(w, s) && Paid(w, s)
    ensures Scheduled(Run(w, events, s), s) && Paid(Run(w, events, s), s)
  {
    hide Scheduled, Paid;
    if events != [] {
      RunKeepsBudget(w, events[..|events| - 1], s);
      StepKeepsBudget(Run(w, events[..|events| - 1], s), events[|events| - 1], s);
    }
  }

  lemma FreshIsPaid(w: World, s: Settings)
    requires w == Submitted(w.job, w.now) && w.job.attempts == 0
    ensures Scheduled(w, s) && Paid(w, s)
  {
  }

  /** The retry budget over every run from the submission of a job on, stale requests included. */
  lemma BudgetOf(w: World, events: seq<Event>, s: Settings)
    requires w == Submitted(w.job, w.now) && w.job.attempts == 0
    ensures var r := Run(w, events, s);
      r.job.attempts <= (s.maxRetries + 1) * (1 + r.replays + r.copies) + r.lost
  {
    FreshIsPaid(w, s);
    hide Submitted, Run, Scheduled, Queue, Carried;
    RunKeepsBudget(w, events, s);
    NothingOwed(Run(w, events, s), s);
  }

  /** And so for a new job. */
  lemma RetryBudget(source: string, mode: SyncMode, cursor: Cursor, now: int, events: seq<Event>, s: Settings)
    ensures var r := Run(Fresh(source, mode, cursor, now), events, s);
      r.job.attempts <= (s.maxRetries + 1) * (1 + r.replays + r.copies) + r.lost
  {
    BudgetOf(Fresh(source, mode, cursor, now), events, s);
  }

  /** Without copies by the broker: the replays and the lost workers are all that adds to the retries. */
  lemma BudgetWithoutCopies(source: string, mode: SyncMode, cursor: Cursor, now: int, events: seq<Event>, s: Settings)
    requires Run(Fresh(source, mode, cursor, now), events, s).copies == 0
    ensures var r := Run(Fresh(source, mode, cursor, now), events, s);
      r.job.attempts <= (s.maxRetries + 1) * (1 + r.replays) + r.lost
  {
    RetryBudget(source, mode, cursor, now, events, s);
  }

  /** A chain after `retries` failed attempts. */
  predicate Failing(w: World, retries: nat) {
    && w.job.attempts == retries && (w.job.status == Queued || w.job.status == Failed) && !w.job.cancelRequested
    && |w.messages| == 1 && w.messages[0].retries == retries && w.live == []
    && w.replays == 0 && w.copies == 0 && w.lost == 0
  }

  /** The first step of a round, and the claim that follows it. */
  lemma ClaimsWhenDue(w: World, retries: nat, to: int, s: Settings)
    requires Failing(w, retries) && w.now <= to && w.messages[0].due <= to
    ensures var r := Next(Next(w, Tick(to), s), DELIVERY, s);
      && r.job.attempts == retries + 1 && !r.job.cancelRequested && r.messages == []
      && r.live == [Live(to, w.messages[0])]
      && r.replays == w.replays && r.copies == w.copies && r.lost == w.lost && r.now == to
  {
  }

  lemma FailsAlone(w: World, m: Message, to: int, s: Settings)
    requires w.live == [Live(to, m)] && w.messages == [] && w.now == to
    ensures var r, f := Next(Next(w, Fail(0, ""), s), Tick(to), s), FailedAttempt(w.job, s, m.retries, to, "");
      && r.job == f.0 && r.live == [] && r.replays == w.replays && r.copies == w.copies && r.lost == w.lost
      && |r.messages| == (if f.1.Some? then 1 else 0) && (f.1.Some? ==> r.messages[0].retries == m.retries + 1)
  {
    hide FailedAttempt;
  }

  lemma FailsOnce(w: World, retries: nat, s: Settings) returns (round: seq<Event>)
    requires Failing(w, retries)
    ensures var r := Run(w, round, s);
      && r.job.attempts == retries + 1 && r.replays == r.copies == r.lost == 0
      && (retries < s.maxRetries && retries < s.retryCap ==> Failing(r, retries + 1))
  {
    var to := if w.messages[0].due <= w.now then w.now else w.messages[0].due;
    round := [Tick(to), DELIVERY, Fail(0, ""), Tick(to)];
    RunFour(w, Tick(to), DELIVERY, Fail(0, ""), Tick(to), s);
    ClaimsWhenDue(w, retries, to, s);
    var claimed := Next(Next(w, Tick(to), s), DELIVERY, s);
    hide Run, Next;
    FailsAlone(claimed, w.messages[0], to, s);
  }

  lemma {:induction false} FailsOften(w: World, retries: nat, s: Settings) returns (events: seq<Event>)
    requires Failing(w, 0) && retries <= s.maxRetries && retries <= s.retryCap
    ensures Failing(Run(w, events, s), retries)
  {
    if retries == 0 {
      events := [];
    } else {
      var before := FailsOften(w, retries - 1, s);
      var round := FailsOnce(Run(w, before, s), retries - 1, s);
      RunOn(w, before, round, s);
      events := before + round;
    }
  }

  /** The budget is met exactly: a job whose attempts all fail makes maxRetries + 1 of them. */
  lemma BudgetIsReached(source: string, mode: SyncMode, cursor: Cursor, now: int, s: Settings)
    returns (events: seq<Event>)
    requires s.maxRetries <= s.retryCap
    ensures var r := Run(Fresh(source, mode, cursor, now), events, s);
      r.job.attempts == s.maxRetries + 1 && r.replays == r.copies == r.lost == 0
  {
    var w := Fresh(source, mode, cursor, now);
    var before := FailsOften(w, s.maxRetries, s);
    var last := FailsOnce(Run(w, before, s), s.maxRetries, s);
    RunOn(w, before, last, s);
    events := before + last;
  }

  lemma CopiedTwice(now: int, s: Settings)
    requires s.maxRetries == 1 && s.retryCap >= 1
    ensures var r := Next(Next(Next(Next(Fresh("s", Full, map[], now), DELIVERY, s), Copy(0), s), Fail(0, ""), s),
                          DELIVERY, s);
      && r.job.attempts == 2 && r.live == [Live(now, Message(0, now, 0))]
      && !r.job.cancelRequested && r.now == now && |r.messages| == 1 && r.messages[0].due == now + s.backoff
      && r.copies == 1 && r.replays == r.lost == 0
  {
  }

  lemma ThirdAttempt(w: World, now: int, s: Settings)
    requires s.backoff >= 1 && s.maxRetries == 1 && s.retryCap >= 1 && w.now == now
    requires w.live == [Live(now, Message(0, now, 0))] && !w.job.cancelRequested
    requires |w.messages| == 1 && w.messages[0].due == now + s.backoff
    ensures var r := Next(Next(Next(Next(w, Fail(0, ""), s), Tick(now + s.backoff), s), DELIVERY, s), Tick(now), s);
      r.job.attempts == w.job.attempts + 1 && r.copies == w.copies && r.replays == w.replays && r.lost == w.lost
  {
  }

  /** And copies add to it: one copied message brings a job with one retry to three attempts. */
  lemma CopiesSpendMore(now: int, s: Settings) returns (events: seq<Event>)
    requires s.Valid() && s.maxRetries == 1 && s.retryCap >= 1
    ensures var r := Run(Fresh("s", Full, map[], now), events, s);
      r.job.attempts == 3 && r.copies == 1 && r.replays == r.lost == 0
  {
    var w := Fresh("s", Full, map[], now);
    var first, last := [DELIVERY, Copy(0), Fail(0, ""), DELIVERY],
      [Fail(0, ""), Tick(now + s.backoff), DELIVERY, Tick(now)];
    RunFour(w, DELIVERY, Copy(0), Fail(0, ""), DELIVERY, s);
    CopiedTwice(now, s);
    RunOn(w, first, last, s);
    hide Next;
    RunFour(Run(w, first, s), Fail(0, ""), Tick(now + s.backoff), DELIVERY, Tick(now), s);
    ThirdAttempt(Run(w, first, s), now, s);
    events := first + last;
  }

  lemma DeadLetterSpends(w: World, a: nat, error: string, s: Settings)
    requires Scheduled(w, s) && a < |w.live| && w.job.status != DeadLetter
    requires Next(w, Fail(a, error), s).job.status == DeadLetter
    ensures w.live[a].message.retries == s.maxRetries
    ensures w.live[a].message.waited == s.backoff * (Power(s.maxRetries) - 1)
  {
    RetryIsDue(w, a, error, s);
    hide Next, Power;
    assert OnSchedule(w.live[a].message, s);
  }

  /** A chain that is dead-lettered has backed off for exactly backoff * (2 ^ maxRetries - 1) seconds. */
  lemma DeadLetterBackoff(source: string, mode: SyncMode, cursor: Cursor, now: int, events: seq<Event>, s: Settings,
      a: nat, error: string)
    requires var r := Run(Fresh(source, mode, cursor, now), events, s);
      a < |r.live| && r.job.status != DeadLetter && Next(r, Fail(a, error), s).job.status == DeadLetter
    ensures var r := Run(Fresh(source, mode, cursor, now), events, s);
      r.live[a].message.retries == s.maxRetries && r.live[a].message.waited == s.backoff * (Power(s.maxRetries) - 1)
  {
    var w := Fresh(source, mode, cursor, now);
    FreshIsPaid(w, s);
    hide Fresh, Run, Next, Scheduled, Paid, Power;
    RunKeepsBudget(w, events, s);
    DeadLetterSpends(Run(w, events, s), a, error, s);
  }

  // ---------------------------------------------------------------- bookkeeping

  /** The row says when it was dead-lettered, and when and why it will be retried. */
  predicate Bookkept(j: Job) {
    && (j.status == DeadLetter <==> j.deadLetteredAt.Some?)
    && (j.status == Failed ==> j.nextRetryAt.Some?) && (j.status == Failed || j.status == DeadLetter ==> j.error.Some?)
    && (j.status != Failed && j.status != Cancelled ==> j.nextRetryAt.None?)
  }

  /** The job's books are in order, and so were those of every dead-lettered row that a replay read. */
  predicate Booked(w: World) {
    Bookkept(w.job) && forall q | q in w.requests && q.Replaying? :: q.seen.status == DeadLetter && Bookkept(q.seen)
  }

  /** A commit that leaves the books wrong: of a replay while a retry is scheduled, or of a cancellation
      that read QUEUED on a job that is dead-lettered by now. */
  predicate Misfiles(w: World, e: Event) {
    && e.CommitRequest? && e.r < |w.requests|
    && (if w.requests[e.r].Replaying? then w.job.nextRetryAt.Some?
        else w.requests[e.r].seen.status == Queued && w.job.status == DeadLetter)
  }

  lemma ServingKeepsBooks(w: World, r: nat, s: Settings)
    requires Booked(w) && r < |w.requests|
    ensures Booked(Next(w, CommitRequest(r), s)) <==> !Misfiles(w, CommitRequest(r))
  {
    assert w.requests[r] in w.requests;
    assert forall q | q in Without(w.requests, r) :: q in w.requests;
    hide Without;
  }

  lemma WorkKeepsBooks(w: World, e: Event, s: Settings)
    requires Guarded(w, s) && Bookkept(w.job) && !e.CommitRequest?
    ensures Bookkept(Next(w, e, s).job)
  {
    hide Without, Countdown;
  }

  lemma RequestsStayBooked(w: World, e: Event, s: Settings)
    requires Booked(w) && !e.CommitRequest? && Bookkept(Next(w, e, s).job)
    ensures Booked(Next(w, e, s))
  {
    hide Without, Countdown, Begun, Completed, FailedAttempt, Bookkept;
    if e.Submit? && Enabled(w, e, s) {
      assert w.requests[e.r] in w.requests;
    }
  }

  /** Every step keeps the books exactly if it does not commit such a request. */
  lemma StepKeepsBooks(w: World, e: Event, s: Settings)
    requires Guarded(w, s) && Booked(w)
    ensures Booked(Next(w, e, s)) <==> !Misfiles(w, e)
  {
    if e.CommitRequest? {
      if e.r < |w.requests| { ServingKeepsBooks(w, e.r, s); }
    } else {
      WorkKeepsBooks(w, e, s);
      RequestsStayBooked(w, e, s);
      hide Next, Booked, Bookkept;
    }
  }

  lemma {:induction false} BooksStayInOrder(w: World, events: seq<Event>, s: Settings)
    requires s.Valid() && Guarded(w, s) && Careful(w, events, s) && Booked(w)
    requires forall i | 0 <= i < |events| :: !Misfiles(Run(w, events[..i], s), events[i])
    ensures Booked(Run(w, events, s))
  {
    if events != [] {
      var n := |events| - 1;
      assert forall i | 0 <= i < n :: events[..n][..i] == events[..i];
      BooksStayInOrder(w, events[..n], s);
      AttemptsExclude(w, events[..n], s);
      StepKeepsBooks(Run(w, events[..n], s), events[n], s);
    }
  }

  // ---------------------------------------------------------------- the end of a chain

  /** A failed attempt's next message is due exactly when the row says. The chain ends dead-lettered
      when the settings allow no retry, and silently when only Celery refuses it. */
  lemma RetryIsDue(w: World, a: nat, error: string, s: Settings)
    requires a < |w.live|
    ensures var r, m := Next(w, Fail(a, error), s), w.live[a].message;
      if m.retries >= s.maxRetries
      then r.job.status == DeadLetter && r.job.deadLetteredAt == Some(w.now) && r.messages == w.messages
      else
        && r.job.status == Failed && r.job.nextRetryAt == Some(w.now + s.backoff * Power(m.retries))
        && if m.retries >= s.retryCap then r.messages == w.messages
           else
             && |r.messages| == |w.messages| + 1 && r.messages[|w.messages|].retries == m.retries + 1
             && r.job.nextRetryAt == Some(r.messages[|w.messages|].due)
  {
  }

  /** Over every run a chain of retries ends with exactly the smaller of the two limits spent; it then
      ends in the dead-letter queue if and only if the settings stay within Celery's own limit. */
  lemma ChainsEndDeadLettered(source: string, mode: SyncMode, cursor: Cursor, now: int, events: seq<Event>, s: Settings,
      a: nat, error: string)
    requires a < |Run(Fresh(source, mode, cursor, now), events, s).live|
    ensures var w := Run(Fresh(source, mode, cursor, now), events, s);
      var r, m := Next(w, Fail(a, error), s), w.live[a].message;
      && (r.messages == w.messages <==> m.retries == if s.maxRetries <= s.retryCap then s.maxRetries else s.retryCap)
      && (r.messages == w.messages ==> (r.job.status == DeadLetter <==> s.maxRetries <= s.retryCap))
      && (r.messages == w.messages && r.job.status != DeadLetter ==> r.job.status == Failed && r.job.nextRetryAt.Some?)
  {
    var f := Fresh(source, mode, cursor, now);
    FreshIsPaid(f, s);
    hide Fresh, Run;
    RunKeepsBudget(f, events, s);
    var w := Run(f, events, s);
    assert OnSchedule(w.live[a].message, s);
    RetryIsDue(w, a, error, s);
  }

  // ---------------------------------------------------------------- recovery

  /** A redelivered message recovers a lost attempt if and only if the lease has run out by then. */
  lemma RecoveryIsExact(w: World, m: nat, cursor: Cursor, s: Settings)
    requires Enabled(w, Deliver(m, cursor), s) && w.job.status == Running && w.job.lease.Some? && !w.job.cancelRequested
    ensures Next(w, Deliver(m, cursor), s).job.attempts == w.job.attempts + 1 <==> w.job.lease.value <= w.now
    ensures w.job.lease.value > w.now ==> Next(w, Deliver(m, cursor), s) == w.(messages := Without(w.messages, m))
  {
  }

  /** A RUNNING job without a process and without a message. */
  predicate Stranded(w: World) {
    && w.job.status == Running && w.live == [] && w.messages == []
    && forall q | q in w.requests :: q.Cancelling? && q.seen.status == Running
  }

  lemma StrandedStep(w: World, e: Event, s: Settings)
    requires Stranded(w)
    ensures Stranded(Next(w, e, s)) && Next(w, e, s).job.attempts == w.job.attempts
  {
    if (e.CommitRequest? || e.Submit?) && e.r < |w.requests| {
      assert w.requests[e.r] in w.requests;
      assert forall q | q in Without(w.requests, e.r) :: q in w.requests;
    }
  }

  /** Such a job is RUNNING forever: no delivery, cancellation or replay reaches it any more. */
  lemma {:induction false} StrandedForever(w: World, events: seq<Event>, s: Settings)
    requires Stranded(w)
    ensures Stranded(Run(w, events, s)) && Run(w, events, s).job.attempts == w.job.attempts
  {
    hide Next, Stranded;
    if events != [] {
      StrandedForever(w, events[..|events| - 1], s);
      StrandedStep(Run(w, events[..|events| - 1], s), events[|events| - 1], s);
    }
  }

  /** A worker lost within its lease strands its job: the message is requeued at once, delivered while
      the lease lasts, and dropped. */
  lemma CrashStrands(w: World, a: Live, s: Settings)
    requires w.live == [a] && w.messages == [] && w.requests == [] && Leased(w.job, w.now)
    ensures Stranded(Next(Next(w, Crash(0), s), DELIVERY, s))
  {
  }
}
