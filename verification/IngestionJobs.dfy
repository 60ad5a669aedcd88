/** Jobs, cursors and the catalog together: what `run_ingestion_job` commits around a discovery, as
    transitions of the database and as methods over an open session. */
module IngestionJobs {
  import opened Values
  import opened Assets
  import opened SearchIndex
  import opened Store
  import opened Jobs
  import Snowflake
  import Reconcile
  import Ingestion
  import Proposals
  import Runs
  import P = JobProtocol
  import T = JobTheorems

  // ---------------------------------------------------------------- specification

  function CursorOf(db: Db, source: string): Snowflake.Cursor {
    if source in db.sync then db.sync[source].cursor else map[]
  }

  function LastJobOf(db: Db, source: string): Option<nat> {
    if source in db.sync then db.sync[source].lastJob else None
  }

  /** A claim creates the sync row of a source that has none. */
  function BeginJob(db: Db, id: nat, now: int, lease: int): Db
    requires id < |db.jobs|
  {
    var j := db.jobs[id];
    var begun := db.(jobs := db.jobs[id := Begun(j, now, lease, CursorOf(db, j.source))]);
    if StartOf(j, now) == Claimed && j.source !in db.sync
    then begun.(sync := db.sync[j.source := SyncState(map[], None)]) else begun
  }

  /** How an attempt's discovery came out: an exception, or a result to apply for a source. */
  datatype Discovery = Raised(error: string) | Found(source: Snowflake.DataSource, result: Snowflake.DiscoveryResult)

  /** The commit of a successful attempt: catalog, cursor and job change together. */
  function Synced(db: Db, id: nat, f: Discovery, now: int): Option<Db>
    requires id < |db.jobs|
  {
    if f.Raised? || db.jobs[id].cancelRequested then None
    else
      var r := Reconcile.Synchronize(db.catalog, f.source.id, f.source.tenant, f.result.assets, now);
      if r.Err? then None
      else
        Some(db.(catalog := r.value.catalog,
                 jobs := db.jobs[id := Completed(db.jobs[id], f.result.cursor)],
                 sync := db.sync[f.source.id := SyncState(f.result.cursor, Some(id))]))
  }

  function FailJob(db: Db, id: nat, s: Settings, retries: nat, now: int, error: string): Db
    requires id < |db.jobs|
  {
    db.(jobs := db.jobs[id := FailedAttempt(db.jobs[id], s, retries, now, error).0])
  }

  /** The end of an attempt; whatever goes wrong, down to the commit, ends as a failed attempt. */
  function FinishJob(db: Db, id: nat, f: Discovery, s: Settings, retries: nat, now: int, fails: bool): Db
    requires id < |db.jobs|
  {
    if f.Raised? then FailJob(db, id, s, retries, now, f.error)
    else if fails then FailJob(db, id, s, retries, now, "StoreError")
    else if db.jobs[id].cancelRequested then db.(jobs := db.jobs[id := Completed(db.jobs[id], map[])])
    else if Synced(db, id, f, now).Some? then Synced(db, id, f, now).value
    else FailJob(db, id, s, retries, now, "StoreError")
  }

  // ---------------------------------------------------------------- the session's form

  method StoreJob(db: Session, id: nat, record: JobRecord)
    requires id < |db.work.jobs|
    modifies db`work
    ensures db.work == old(db.work).(jobs := old(db.work).jobs[id := record.Row()])
  {
    db.work := db.work.(jobs := db.work.jobs[id := record.Row()]);
  }

  method GetOrCreateSyncState(db: Session, source: string) returns (state: SyncState)
    modifies db`work
    ensures db.work == if source in old(db.work).sync then old(db.work)
                       else old(db.work).(sync := old(db.work).sync[source := SyncState(map[], None)])
    ensures source in db.work.sync && state == db.work.sync[source]
  {
    if source !in db.work.sync { db.work := db.work.(sync := db.work.sync[source := SyncState(map[], None)]); }
    state := db.work.sync[source];
  }

  /** The locked half of `run_ingestion_job`, up to the commit of the claim. */
  method Begin(db: Session, id: nat, now: int, lease: int) returns (start: Start)
    requires db.work == db.committed && id < |db.work.jobs|
    modifies db
    ensures db.work == db.committed == BeginJob(old(db.committed), id, now, lease)
    ensures start == StartOf(old(db.committed).jobs[id], now)
  {
    hide Begun;
    var record := new JobRecord(db.work.jobs[id]);
    var cursor := if record.source in db.work.sync then db.work.sync[record.source].cursor else map[];
    start := record.Begin(now, lease, cursor);
    if start == Claimed { var state := GetOrCreateSyncState(db, record.source); }
    StoreJob(db, id, record);
    var ok := db.Commit(false);
  }

  /** `_apply_successful_discovery`, in the transaction that the caller commits. */
  method ApplySuccessfulDiscovery(db: Session, id: nat, record: JobRecord, f: Discovery, now: int) returns (ok: bool)
    requires id < |db.work.jobs| && record.Row() == db.work.jobs[id] && f.Found? && !record.cancelRequested
    requires Reconcile.WellFormed(db.work.catalog)
    modifies db`work, record
    ensures ok == Synced(old(db.work), id, f, now).Some?
    ensures ok ==> db.work == Synced(old(db.work), id, f, now).value
  {
    hide Reconcile.Synchronize;
    var r := Ingestion.SynchronizeDiscovery(db, f.source.id, f.source.tenant, f.result.assets, now);
    if r.Err? { return false; }
    var applied := record.Complete(f.result.cursor);
    var state := GetOrCreateSyncState(db, f.source.id);
    db.work := db.work.(sync := db.work.sync[f.source.id := SyncState(f.result.cursor, Some(id))]);
    StoreJob(db, id, record);
    ok := true;
  }

  /** The rest of `run_ingestion_job`, with the retry bookkeeping of its worker. */
  method Finish(db: Session, id: nat, f: Discovery, s: Settings, retries: nat, now: int, fails: bool)
    requires db.work == db.committed && id < |db.work.jobs| && Reconcile.WellFormed(db.work.catalog)
    modifies db
    ensures db.committed == FinishJob(old(db.committed), id, f, s, retries, now, fails)
  {
    hide Synced, FailedAttempt, Completed;
    var error := if f.Raised? then f.error else "StoreError";
    if f.Found? {
      var record := new JobRecord(db.work.jobs[id]);
      var ok := true;
      if record.cancelRequested {
        var applied := record.Complete(map[]);
        StoreJob(db, id, record);
      } else {
        ok := ApplySuccessfulDiscovery(db, id, record, f, now);
      }
      if ok { ok := db.Commit(fails); }
      if ok { return; }
    }
    db.Rollback();
    var failed := new JobRecord(db.work.jobs[id]);
    var countdown := failed.Fail(s, retries, now, error);
    StoreJob(db, id, failed);
    var ok := db.Commit(false);
  }

  // ---------------------------------------------------------------- runs

  /** The database beside the protocol of each of its jobs. */
  datatype Fleet = Fleet(db: Db, now: int, worlds: seq<P.World>)

  /** What happens to one job: a step of its protocol, but that its attempts end by a discovery. */
  datatype Event =
    | Tick(to: int)
    | Submit(source: string, mode: Snowflake.SyncMode)
    | Retry(prior: nat)
    | Handles(id: nat, step: P.Event)
    | Finishes(id: nat, a: nat, discovery: Discovery, fails: bool)

  /** The rows of the database are the jobs of the protocols. */
  predicate Coupled(w: Fleet) {
    && |w.worlds| == |w.db.jobs|
    && forall id | 0 <= id < |w.worlds| :: w.worlds[id].job == w.db.jobs[id] && w.worlds[id].now == w.now
  }

  /** The step of the job's protocol; a delivery reads the cursor of the job's source. */
  function StepOf(w: Fleet, e: Event, id: nat): P.Event
    requires id < |w.worlds| && |w.worlds| == |w.db.jobs| && (e.Handles? || e.Finishes?)
  {
    match e
    case Handles(_, step) => if step.Deliver? then P.Deliver(step.m, CursorOf(w.db, w.db.jobs[id].source)) else step
    case Finishes(_, a, f, fails) =>
      if f.Raised? then P.Fail(a, f.error)
      else if fails then P.Fail(a, "StoreError")
      else if w.db.jobs[id].cancelRequested then P.Complete(a, map[])
      else if Synced(w.db, id, f, w.now).Some? then P.Complete(a, f.result.cursor)
      else P.Fail(a, "StoreError")
  }

  predicate Enabled(w: Fleet, e: Event, s: Settings) {
    && |w.worlds| == |w.db.jobs|
    && match e
       case Tick(to) => w.now <= to && forall world | world in w.worlds :: P.Enabled(world, P.Tick(to), s)
       case Submit(_, _) => true
       case Retry(prior) => prior < |w.db.jobs| && Retryable(w.db.jobs[prior])
       case Handles(id, step) =>
         && id < |w.worlds| && !step.Tick? && !step.Complete? && !step.Fail?
         && P.Enabled(w.worlds[id], StepOf(w, e, id), s)
       case Finishes(id, a, f, _) =>
         id < |w.worlds| && a < |w.worlds[id].live| && (f.Found? ==> f.source.id == w.db.jobs[id].source)
  }

  function Enqueued(db: Db, source: string, mode: Snowflake.SyncMode, retryOf: Option<nat>): Db {
    db.(jobs := db.jobs + [NewJob(source, mode, CursorOf(db, source), retryOf)])
  }

  /** The commit of a request writes what differs from what it read, whatever the row says by now. */
  function Served(db: Db, id: nat, q: P.Pending): Db
    requires id < |db.jobs|
  {
    var j := db.jobs[id];
    db.(jobs := db.jobs[id := if q.Cancelling? then CancelRequested(j, q.seen) else Replayed(j, q.seen)])
  }

  /** What a step commits. */
  function Committed(w: Fleet, e: Event, s: Settings): Db
    requires Enabled(w, e, s)
  {
    match e
    case Tick(_) => w.db
    case Submit(source, mode) => Enqueued(w.db, source, mode, None)
    case Retry(prior) => Enqueued(w.db, w.db.jobs[prior].source, w.db.jobs[prior].mode, Some(prior))
    case Handles(id, step) =>
      if step.Deliver? then BeginJob(w.db, id, w.now, s.lease)
      else if step.CommitRequest? then Served(w.db, id, w.worlds[id].requests[step.r])
      else w.db
    case Finishes(id, a, f, fails) => FinishJob(w.db, id, f, s, w.worlds[id].live[a].message.retries, w.now, fails)
  }

  /** And what the protocols do beside it. */
  function Proceeded(w: Fleet, e: Event, s: Settings): seq<P.World>
    requires Enabled(w, e, s)
  {
    match e
    case Tick(to) => seq(|w.worlds|, id requires 0 <= id < |w.worlds| => P.Next(w.worlds[id], P.Tick(to), s))
    case Submit(source, mode) => w.worlds + [P.Submitted(NewJob(source, mode, CursorOf(w.db, source), None), w.now)]
    case Retry(prior) =>
      var j := w.db.jobs[prior];
      w.worlds + [P.Submitted(NewJob(j.source, j.mode, CursorOf(w.db, j.source), Some(prior)), w.now)]
    case _ => w.worlds[e.id := P.Next(w.worlds[e.id], StepOf(w, e, e.id), s)]
  }

  function Next(w: Fleet, e: Event, s: Settings): Fleet {
    if Enabled(w, e, s) then Fleet(Committed(w, e, s), if e.Tick? then e.to else w.now, Proceeded(w, e, s)) else w
  }

  function Run(w: Fleet, events: seq<Event>, s: Settings): Fleet {
    if events == [] then w else Next(Run(w, events[..|events| - 1], s), events[|events| - 1], s)
  }

  // ---------------------------------------------------------------- the jobs of a fleet

  lemma DeliveryIsCoupled(w: Fleet, id: nat, m: nat, s: Settings)
    requires id < |w.worlds| == |w.db.jobs| && w.worlds[id].job == w.db.jobs[id] && w.worlds[id].now == w.now
    requires m < |w.worlds[id].messages| && w.worlds[id].messages[m].due <= w.now
    ensures var r := BeginJob(w.db, id, w.now, s.lease);
      && r.jobs == w.db.jobs[id := r.jobs[id]]
      && P.Next(w.worlds[id], P.Deliver(m, CursorOf(w.db, w.db.jobs[id].source)), s).job == r.jobs[id]
  {
    hide Begun, StartOf, P.Without;
  }

  lemma FinishIsCoupled(w: Fleet, e: Event, s: Settings)
    requires e.Finishes? && Enabled(w, e, s) && w.worlds[e.id].job == w.db.jobs[e.id] && w.worlds[e.id].now == w.now
    ensures var r := Committed(w, e, s);
      r.jobs == w.db.jobs[e.id := r.jobs[e.id]] && P.Next(w.worlds[e.id], StepOf(w, e, e.id), s).job == r.jobs[e.id]
  {
    hide FailedAttempt, Completed, P.Without, Reconcile.Synchronize;
  }

  lemma HandlingIsCoupled(w: Fleet, e: Event, s: Settings)
    requires e.Handles? && Enabled(w, e, s) && w.worlds[e.id].job == w.db.jobs[e.id] && w.worlds[e.id].now == w.now
    ensures var r := Committed(w, e, s);
      r.jobs == w.db.jobs[e.id := r.jobs[e.id]] && P.Next(w.worlds[e.id], StepOf(w, e, e.id), s).job == r.jobs[e.id]
  {
    hide BeginJob, CancelRequested, Replayed, P.Without, CursorOf;
    if e.step.Deliver? { DeliveryIsCoupled(w, e.id, e.step.m, s); }
  }

  lemma ClockStays(world: P.World, e: P.Event, s: Settings)
    requires !e.Tick?
    ensures P.Next(world, e, s).now == world.now
  {
    hide P.Without, FailedAttempt, Completed, Begun, CancelRequested, Replayed;
  }

  /** The database and the protocols move together: whatever a step commits to the row of a job is what
      the protocol of that job says. */
  lemma StepKeepsCoupled(w: Fleet, e: Event, s: Settings)
    requires Coupled(w)
    ensures Coupled(Next(w, e, s))
  {
    if Enabled(w, e, s) {
      if e.Handles? || e.Finishes? {
        if e.Handles? { HandlingIsCoupled(w, e, s); } else { FinishIsCoupled(w, e, s); }
        ClockStays(w.worlds[e.id], StepOf(w, e, e.id), s);
        hide Committed, StepOf, P.Next;
      } else {
        hide NewJob, CursorOf;
      }
    }
  }

  /** The steps of a run that concern a job which is there from its beginning. */
  function Trace(w: Fleet, events: seq<Event>, id: nat, s: Settings): seq<P.Event> {
    if events == [] then []
    else
      var p, e := events[..|events| - 1], events[|events| - 1];
      var before, m := Trace(w, p, id, s), Run(w, p, s);
      if !Enabled(m, e, s) || id >= |m.worlds| then before
      else if e.Tick? then before + [P.Tick(e.to)]
      else if (e.Handles? || e.Finishes?) && e.id == id then before + [StepOf(m, e, id)]
      else before
  }

  lemma WorldsStay(w: Fleet, e: Event, s: Settings, id: nat)
    requires id < |w.worlds|
    ensures var r := Next(w, e, s);
      && id < |r.worlds|
      && r.worlds[id] ==
         if !Enabled(w, e, s) then w.worlds[id]
         else if e.Tick? then P.Next(w.worlds[id], P.Tick(e.to), s)
         else if (e.Handles? || e.Finishes?) && e.id == id then P.Next(w.worlds[id], StepOf(w, e, id), s)
         else w.worlds[id]
  {
    hide P.Next, StepOf, Committed;
  }

  lemma ProtocolMore(world: P.World, events: seq<P.Event>, e: P.Event, s: Settings)
    ensures P.Run(world, events + [e], s) == P.Next(P.Run(world, events, s), e, s)
  {
    hide P.Next;
  }

  /** Along every run each job runs its protocol, so that what holds of all runs of the protocol holds of
      it in the fleet. */
  lemma {:induction false} JobsRunTheirProtocol(w: Fleet, events: seq<Event>, id: nat, s: Settings)
    requires Coupled(w) && id < |w.worlds|
    ensures var r := Run(w, events, s);
      Coupled(r) && id < |r.worlds| && r.worlds[id] == P.Run(w.worlds[id], Trace(w, events, id, s), s)
  {
    hide Next, StepOf, P.Next, P.Enabled;
    if events != [] {
      var p, e := events[..|events| - 1], events[|events| - 1];
      JobsRunTheirProtocol(w, p, id, s);
      var m := Run(w, p, s);
      StepKeepsCoupled(m, e, s);
      WorldsStay(m, e, s, id);
      var before := Trace(w, p, id, s);
      ProtocolMore(w.worlds[id], before, P.Tick(if e.Tick? then e.to else 0), s);
      if (e.Handles? || e.Finishes?) && e.id == id && Enabled(m, e, s) {
        ProtocolMore(w.worlds[id], before, StepOf(m, e, id), s);
      }
    }
  }

  // ---------------------------------------------------------------- agreement of the cursors

  /** A cursor is empty, or it is the `cursor_after` of the SUCCEEDED job that its sync row names. */
  predicate CursorAgrees(db: Db, source: string) {
    match LastJobOf(db, source)
    case None => CursorOf(db, source) == map[]
    case Some(id) =>
      && id < |db.jobs| && db.jobs[id].status == Succeeded && db.jobs[id].source == source
      && db.jobs[id].cursorAfter == CursorOf(db, source)
  }

  ghost predicate AllAgree(db: Db) { forall source: string :: CursorAgrees(db, source) }

  /** A sync row names the job as its last successful one. */
  predicate Named(db: Db, id: nat) { exists source | source in db.sync :: db.sync[source].lastJob == Some(id) }

  predicate Guarded(w: Fleet, s: Settings) { forall id | 0 <= id < |w.worlds| :: P.Guarded(w.worlds[id], s) }

  ghost predicate Sound(w: Fleet, s: Settings) { Coupled(w) && AllAgree(w.db) && Guarded(w, s) }

  /** The job whose success a step commits. */
  predicate Succeeds(w: Fleet, e: Event, s: Settings) {
    e.Finishes? && Enabled(w, e, s) && !e.fails && Synced(w.db, e.id, e.discovery, w.now).Some?
  }

  lemma FinishPublishes(db: Db, id: nat, f: Discovery, s: Settings, retries: nat, now: int, fails: bool)
    requires id < |db.jobs|
    ensures var r := FinishJob(db, id, f, s, retries, now, fails);
      if !fails && Synced(db, id, f, now).Some? then r == Synced(db, id, f, now).value
      else r.catalog == db.catalog && r.proposals == db.proposals && r.sync == db.sync
  {
    hide FailedAttempt, Completed, Reconcile.Synchronize;
  }

  /** Nothing but jobs, and sync rows without a job, changes. */
  lemma OthersPublishNothing(w: Fleet, e: Event, s: Settings)
    requires AllAgree(w.db) && Enabled(w, e, s) && !e.Finishes?
    ensures var r := Committed(w, e, s);
      && r.catalog == w.db.catalog && r.proposals == w.db.proposals
      && forall source: string ::
        CursorOf(r, source) == CursorOf(w.db, source) && LastJobOf(r, source) == LastJobOf(w.db, source)
  {
    hide Begun, CancelRequested, Replayed, NewJob, StartOf, StepOf, P.Enabled;
    if e.Handles? && e.step.Deliver? { assert CursorAgrees(w.db, w.db.jobs[e.id].source); }
    hide CursorAgrees;
  }

  /** Cursor and catalog advance together: a step that completes a discovery publishes its catalog, its
      cursor and the job's success at once; every other step, failed, cancelled and dead-lettered attempts
      and stale requests included, leaves assets, version rows, documents and every cursor as they were. */
  lemma AdvanceTogether(w: Fleet, e: Event, s: Settings)
    requires AllAgree(w.db)
    ensures var r := Next(w, e, s).db;
      if Succeeds(w, e, s) then
        && r.catalog == Reconcile.Synchronize(w.db.catalog, e.discovery.source.id, e.discovery.source.tenant,
                                              e.discovery.result.assets, w.now).value.catalog
        && CursorOf(r, e.discovery.source.id) == r.jobs[e.id].cursorAfter == e.discovery.result.cursor
        && LastJobOf(r, e.discovery.source.id) == Some(e.id) && r.jobs[e.id].status == Succeeded
        && (forall source: string | source != e.discovery.source.id ::
              CursorOf(r, source) == CursorOf(w.db, source) && LastJobOf(r, source) == LastJobOf(w.db, source))
      else
        && r.catalog == w.db.catalog && r.proposals == w.db.proposals
        && (forall source: string ::
              CursorOf(r, source) == CursorOf(w.db, source) && LastJobOf(r, source) == LastJobOf(w.db, source))
  {
    hide FinishJob, Reconcile.Synchronize, Proceeded, CursorAgrees;
    if Enabled(w, e, s) {
      if e.Finishes? {
        FinishPublishes(w.db, e.id, e.discovery, s, w.worlds[e.id].live[e.a].message.retries, w.now, e.fails);
      } else {
        OthersPublishNothing(w, e, s);
        hide Committed;
      }
    }
  }

  // ---------------------------------------------------------------- which commits break the agreement

  /** The commit of a replay of a named job, or of a cancellation of one that read QUEUED. */
  predicate Unnames(db: Db, id: nat, q: P.Pending) {
    Named(db, id) && (q.Replaying? || q.seen.status == Queued)
  }

  /** A request that commits keeps every cursor in agreement exactly if it is not such a request. */
  lemma ServingIsExact(db: Db, id: nat, q: P.Pending)
    requires AllAgree(db) && id < |db.jobs|
    ensures AllAgree(Served(db, id, q)) <==> !Unnames(db, id, q)
  {
    var r := Served(db, id, q);
    forall source: string
      ensures CursorAgrees(db, source)
      ensures CursorOf(r, source) == CursorOf(db, source) && LastJobOf(r, source) == LastJobOf(db, source)
    {
    }
    if Unnames(db, id, q) {
      var source :| source in db.sync && db.sync[source].lastJob == Some(id);
      assert !CursorAgrees(r, source);
    } else {
      forall source: string ensures CursorAgrees(r, source) {
        assert LastJobOf(db, source) == Some(id) ==> Named(db, id);
      }
    }
  }

  predicate Commits(w: Fleet, e: Event) {
    && e.Handles? && e.step.CommitRequest? && e.id < |w.worlds| == |w.db.jobs| && e.step.r < |w.worlds[e.id].requests|
  }

  /** A commit that breaks the agreement, or lets a second attempt of a live job begin. */
  predicate Harmful(w: Fleet, e: Event) {
    && Commits(w, e)
    && var q := w.worlds[e.id].requests[e.step.r];
    && (Unnames(w.db, e.id, q) || (q.Replaying? && w.worlds[e.id].live != []))
  }

  lemma TicksKeepGuard(w: Fleet, to: int, s: Settings)
    requires s.Valid() && Guarded(w, s) && Enabled(w, Tick(to), s)
    ensures Guarded(Next(w, Tick(to), s), s)
  {
    hide P.Next, P.Guarded, P.Enabled;
    forall id | 0 <= id < |w.worlds| ensures P.Guarded(P.Next(w.worlds[id], P.Tick(to), s), s) {
      P.StepKeepsGuard(w.worlds[id], P.Tick(to), s);
    }
  }

  lemma SubmittedIsGuarded(j: Job, now: int, s: Settings)
    ensures P.Guarded(P.Submitted(j, now), s)
  {
  }

  /** The guards of all jobs are kept unless a replay commits over a live attempt. */
  lemma StepKeepsGuard(w: Fleet, e: Event, s: Settings)
    requires s.Valid() && Coupled(w) && Guarded(w, s)
    ensures Guarded(Next(w, e, s), s) <==>
            !(Commits(w, e) && w.worlds[e.id].requests[e.step.r].Replaying? && w.worlds[e.id].live != [])
  {
    hide P.Next, P.Guarded, Committed, NewJob, P.Submitted;
    if Enabled(w, e, s) {
      match e
      case Tick(to) => TicksKeepGuard(w, to, s);
      case Submit(source, mode) => SubmittedIsGuarded(NewJob(source, mode, CursorOf(w.db, source), None), w.now, s);
      case Retry(prior) =>
        var j := w.db.jobs[prior];
        SubmittedIsGuarded(NewJob(j.source, j.mode, CursorOf(w.db, j.source), Some(prior)), w.now, s);
      case _ =>
        P.StepKeepsGuard(w.worlds[e.id], StepOf(w, e, e.id), s);
        hide Enabled;
        OneWorldGuarded(w, e.id, P.Next(w.worlds[e.id], StepOf(w, e, e.id), s), s);
    }
  }

  lemma OneWorldGuarded(w: Fleet, id: nat, world: P.World, s: Settings)
    requires id < |w.worlds| && Guarded(w, s)
    ensures Guarded(w.(worlds := w.worlds[id := world]), s) <==> P.Guarded(world, s)
  {
    hide P.Guarded;
    assert w.worlds[id := world][id] == world;
  }

  lemma SucceededStays(w: Fleet, e: Event, s: Settings, id: nat)
    requires Coupled(w) && Guarded(w, s) && !Commits(w, e) && id < |w.db.jobs| && w.db.jobs[id].status == Succeeded
    ensures id < |Next(w, e, s).db.jobs| && Next(w, e, s).db.jobs[id] == w.db.jobs[id]
  {
    hide Reconcile.Synchronize, FailedAttempt, Proceeded;
    assert P.Guarded(w.worlds[id], s);
  }

  lemma StepKeepsAgreement(w: Fleet, e: Event, s: Settings)
    requires Coupled(w) && AllAgree(w.db) && Guarded(w, s) && !Commits(w, e)
    ensures AllAgree(Next(w, e, s).db)
  {
    var r := Next(w, e, s);
    AdvanceTogether(w, e, s);
    forall source: string ensures CursorAgrees(r.db, source) {
      assert CursorAgrees(w.db, source);
      if Succeeds(w, e, s) && source == e.discovery.source.id {
        SourceStays(w, e, s);
      } else if LastJobOf(w.db, source).Some? {
        SucceededStays(w, e, s, LastJobOf(w.db, source).value);
      }
    }
  }

  lemma SourceStays(w: Fleet, e: Event, s: Settings)
    requires Succeeds(w, e, s)
    ensures e.id < |Next(w, e, s).db.jobs| && Next(w, e, s).db.jobs[e.id].source == e.discovery.source.id
  {
    hide Reconcile.Synchronize, Proceeded;
  }

  /** Every step, of any worker or operator, keeps the fleet sound exactly if it is no harmful commit. */
  lemma StepKeepsSound(w: Fleet, e: Event, s: Settings)
    requires s.Valid() && Sound(w, s)
    ensures Sound(Next(w, e, s), s) <==> !Harmful(w, e)
  {
    StepKeepsCoupled(w, e, s);
    StepKeepsGuard(w, e, s);
    hide Coupled, Guarded, AllAgree, Named;
    if Commits(w, e) {
      ServingIsExact(w.db, e.id, w.worlds[e.id].requests[e.step.r]);
      CommitServes(w, e, s);
    } else {
      StepKeepsAgreement(w, e, s);
    }
    hide Next, Commits, Unnames;
  }

  lemma CommitServes(w: Fleet, e: Event, s: Settings)
    requires Commits(w, e)
    ensures Next(w, e, s).db == Served(w.db, e.id, w.worlds[e.id].requests[e.step.r])
  {
    hide Served, Proceeded;
  }

  /** The cursors of every run: in each state that workers, deliveries and concurrent operators reach
      without a harmful commit, every cursor is its last successful job's. */
  lemma {:induction false} CursorsAlwaysAgree(w: Fleet, events: seq<Event>, s: Settings)
    requires s.Valid() && Sound(w, s)
    requires forall i | 0 <= i < |events| :: !Harmful(Run(w, events[..i], s), events[i])
    ensures Sound(Run(w, events, s), s)
  {
    hide Sound, Next, Harmful;
    if events != [] {
      var n := |events| - 1;
      assert forall i | 0 <= i < n :: events[..n][..i] == events[..i];
      CursorsAlwaysAgree(w, events[..n], s);
      assert Run(w, events, s) == Next(Run(w, events[..n], s), events[n], s);
      StepKeepsSound(Run(w, events[..n], s), events[n], s);
    }
  }

  lemma EmptyIsSound(db: Db, now: int, s: Settings)
    requires db.jobs == [] && db.sync == map[]
    ensures Sound(Fleet(db, now, []), s)
  {
  }

  /** A request whose job is still in the status that it read is harmless. */
  lemma RecheckedIsHarmless(w: Fleet, id: nat, r: nat, s: Settings)
    requires Sound(w, s) && id < |w.worlds| && r < |w.worlds[id].requests|
    requires var q := w.worlds[id].requests[r];
      w.db.jobs[id].status == if q.Replaying? then DeadLetter else q.seen.status
    ensures !Harmful(w, Handles(id, P.CommitRequest(r)))
  {
    assert P.Guarded(w.worlds[id], s);
    if Named(w.db, id) {
      var source :| source in w.db.sync && w.db.sync[source].lastJob == Some(id);
      assert CursorAgrees(w.db, source);
    }
  }

  // ---------------------------------------------------------------- what carries over

  /** The retry budget of a job of a fleet, from its submission on. */
  lemma FleetBudget(w: Fleet, events: seq<Event>, id: nat, s: Settings)
    requires Coupled(w) && id < |w.worlds| && w.worlds[id] == P.Submitted(w.db.jobs[id], w.now)
    requires w.db.jobs[id].attempts == 0
    ensures var r := Run(w, events, s);
      && id < |r.worlds| == |r.db.jobs|
      && var world := r.worlds[id];
      r.db.jobs[id].attempts <= (s.maxRetries + 1) * (1 + world.replays + world.copies) + world.lost
  {
    hide Run, P.Run, Trace, P.Submitted;
    JobsRunTheirProtocol(w, events, id, s);
    T.BudgetOf(w.worlds[id], Trace(w, events, id, s), s);
  }

  // ---------------------------------------------------------------- runs that break it

  lemma RunMore(w: Fleet, events: seq<Event>, e: Event, s: Settings)
    ensures Run(w, events + [e], s) == Next(Run(w, events, s), e, s)
  {
    hide Next;
  }

  /** A discovery that finds nothing and moves the cursor. */
  function Nothing(source: Snowflake.DataSource, cursor: Snowflake.Cursor): Discovery {
    Found(source, Snowflake.DiscoveryResult([], cursor, Snowflake.Full, None))
  }

  const DELIVERS := Handles(0, P.Deliver(0, map[]))

  /** One job of a source, no attempt of it alive, with its messages and requests. */
  predicate Alone(w: Fleet, source: string, status: JobStatus, messages: nat, requests: seq<P.Pending>) {
    && |w.db.jobs| == 1 && Coupled(w) && w.db.jobs[0].source == source && w.db.jobs[0].status == status
    && !w.db.jobs[0].cancelRequested && w.worlds[0].live == [] && w.worlds[0].requests == requests
    && |w.worlds[0].messages| == messages
    && (messages > 0 ==> w.worlds[0].messages[0].due <= w.now && w.worlds[0].messages[0].retries == 0)
  }

  predicate Attempting(w: Fleet, source: string, requests: seq<P.Pending>) {
    && |w.db.jobs| == 1 && Coupled(w) && w.db.jobs[0].source == source && !w.db.jobs[0].cancelRequested
    && |w.worlds[0].live| == 1 && w.worlds[0].live[0].message.retries == 0
    && w.worlds[0].requests == requests && w.worlds[0].messages == []
  }

  lemma BeginsAlone(w: Fleet, source: string, requests: seq<P.Pending>, s: Settings)
    requires Alone(w, source, Queued, 1, requests)
    ensures Attempting(Next(w, DELIVERS, s), source, requests)
  {
    StepKeepsCoupled(w, DELIVERS, s);
    assert P.Without(w.worlds[0].messages, 0) == [];
  }

  lemma SucceedsAlone(w: Fleet, source: Snowflake.DataSource, cursor: Snowflake.Cursor, requests: seq<P.Pending>,
        s: Settings)
    requires Attempting(w, source.id, requests)
    ensures var r := Next(w, Finishes(0, 0, Nothing(source, cursor), false), s);
      Alone(r, source.id, Succeeded, 0, requests) && LastJobOf(r.db, source.id) == Some(0)
  {
    StepKeepsCoupled(w, Finishes(0, 0, Nothing(source, cursor), false), s);
    assert P.Without(w.worlds[0].live, 0) == [];
  }

  lemma FailsAlone(w: Fleet, source: string, requests: seq<P.Pending>, s: Settings)
    requires Attempting(w, source, requests) && s.maxRetries == 0
    ensures Alone(Next(w, Finishes(0, 0, Raised("RuntimeError"), false), s), source, DeadLetter, 0, requests)
  {
    StepKeepsCoupled(w, Finishes(0, 0, Raised("RuntimeError"), false), s);
    assert P.Without(w.worlds[0].live, 0) == [];
  }

  lemma SubmitsAlone(w: Fleet, source: string, s: Settings)
    requires w.db.jobs == [] && w.worlds == []
    ensures Alone(Next(w, Submit(source, Snowflake.Full), s), source, Queued, 1, [])
  {
  }

  lemma ReadsForCancel(w: Fleet, source: string, s: Settings) returns (read: P.Pending)
    requires Alone(w, source, Queued, 1, [])
    ensures Alone(Next(w, Handles(0, P.ReadForCancel), s), source, Queued, 1, [read])
    ensures read.Cancelling? && read.seen.status == Queued
  {
    read := P.Cancelling(w.db.jobs[0]);
  }

  lemma ReadsForReplay(w: Fleet, source: string, requests: seq<P.Pending>, s: Settings) returns (read: P.Pending)
    requires Alone(w, source, DeadLetter, 0, requests)
    ensures Alone(Next(w, Handles(0, P.ReadForReplay), s), source, DeadLetter, 0, requests + [read])
    ensures read.Replaying? && !read.submitted && !read.seen.cancelRequested
  {
    read := P.Replaying(w.db.jobs[0], false);
  }

  lemma SubmitsReplay(w: Fleet, source: string, status: JobStatus, first: P.Pending, rest: seq<P.Pending>, s: Settings)
    requires Alone(w, source, status, 0, [first] + rest) && first.Replaying? && !first.submitted
    ensures Alone(Next(w, Handles(0, P.Submit(0)), s), source, status, 1, [first.(submitted := true)] + rest)
    ensures Next(w, Handles(0, P.Submit(0)), s).db == w.db
  {
    assert ([first] + rest)[0 := first.(submitted := true)] == [first.(submitted := true)] + rest;
    StepKeepsCoupled(w, Handles(0, P.Submit(0)), s);
  }

  /** The commit of a request that read QUEUED or DEAD_LETTER, whatever has happened since. */
  lemma ServesAlone(w: Fleet, source: string, status: JobStatus, messages: nat, first: P.Pending, rest: seq<P.Pending>,
        s: Settings)
    requires Alone(w, source, status, messages, [first] + rest)
    requires if first.Cancelling? then first.seen.status == Queued else !first.seen.cancelRequested
    ensures var r := Next(w, Handles(0, P.CommitRequest(0)), s);
      && r.db.sync == w.db.sync && r.db.jobs != []
      && r.db.jobs[0].status == (if first.Cancelling? then JobStatus.Cancelled else Queued)
      && (first.Replaying? ==> Alone(r, source, Queued, messages, rest))
  {
    StepKeepsCoupled(w, Handles(0, P.CommitRequest(0)), s);
    assert ([first] + rest)[0] == first && P.Without([first] + rest, 0) == rest;
    hide P.Without;
  }

  lemma UnnamedBySuccess(w: Fleet, r: Fleet, source: string)
    requires LastJobOf(w.db, source) == Some(0) && r.db.sync == w.db.sync && r.db.jobs != []
    requires r.db.jobs[0].status != Succeeded
    ensures !CursorAgrees(r.db, source)
  {
  }

  /** A cancellation that read QUEUED and commits after the job has succeeded turns the job behind a
      cursor into a cancelled one. */
  lemma StaleCancelBreaksAgreement(db: Db, now: int, source: Snowflake.DataSource, cursor: Snowflake.Cursor,
        s: Settings)
      returns (events: seq<Event>)
    requires db.jobs == [] && db.sync == map[]
    ensures !CursorAgrees(Run(Fleet(db, now, []), events, s).db, source.id)
  {
    hide Run, Nothing, Next, Alone, Attempting;
    var w := Fleet(db, now, []);
    var e1 := [] + [Submit(source.id, Snowflake.Full)];
    var e2 := e1 + [Handles(0, P.ReadForCancel)];
    var e3 := e2 + [DELIVERS];
    var e4 := e3 + [Finishes(0, 0, Nothing(source, cursor), false)];
    events := e4 + [Handles(0, P.CommitRequest(0))];
    RunNothing(w, s);
    RunMore(w, [], Submit(source.id, Snowflake.Full), s);
    RunMore(w, e1, Handles(0, P.ReadForCancel), s);
    RunMore(w, e2, DELIVERS, s);
    RunMore(w, e3, Finishes(0, 0, Nothing(source, cursor), false), s);
    RunMore(w, e4, Handles(0, P.CommitRequest(0)), s);
    SubmitsAlone(w, source.id, s);
    var read := ReadsForCancel(Run(w, e1, s), source.id, s);
    BeginsAlone(Run(w, e2, s), source.id, [read], s);
    SucceedsAlone(Run(w, e3, s), source, cursor, [read], s);
    assert [read] == [read] + [];
    ServesAlone(Run(w, e4, s), source.id, Succeeded, 0, read, [], s);
    UnnamedBySuccess(Run(w, e4, s), Run(w, events, s), source.id);
  }

  lemma RunNothing(w: Fleet, s: Settings)
    ensures Run(w, [], s) == w
  {
  }

  /** A new job's only attempt fails, and two replays read it. */
  lemma TwoReplaysRead(w: Fleet, source: string, s: Settings)
    returns (events: seq<Event>, one: P.Pending, two: P.Pending)
    requires w.db.jobs == [] && w.worlds == [] && s.maxRetries == 0
    ensures Alone(Run(w, events, s), source, DeadLetter, 0, [one, two])
    ensures one.Replaying? && two.Replaying? && !one.submitted && !two.submitted
    ensures !one.seen.cancelRequested && !two.seen.cancelRequested
  {
    hide Run, Next, Alone, Attempting;
    var e1 := [] + [Submit(source, Snowflake.Full)];
    var e2 := e1 + [DELIVERS];
    var e3 := e2 + [Finishes(0, 0, Raised("RuntimeError"), false)];
    var e4 := e3 + [Handles(0, P.ReadForReplay)];
    events := e4 + [Handles(0, P.ReadForReplay)];
    RunNothing(w, s);
    RunMore(w, [], Submit(source, Snowflake.Full), s);
    RunMore(w, e1, DELIVERS, s);
    RunMore(w, e2, Finishes(0, 0, Raised("RuntimeError"), false), s);
    RunMore(w, e3, Handles(0, P.ReadForReplay), s);
    RunMore(w, e4, Handles(0, P.ReadForReplay), s);
    SubmitsAlone(w, source, s);
    BeginsAlone(Run(w, e1, s), source, [], s);
    FailsAlone(Run(w, e2, s), source, [], s);
    one := ReadsForReplay(Run(w, e3, s), source, [], s);
    assert [] + [one] == [one];
    two := ReadsForReplay(Run(w, e4, s), source, [one], s);
    assert [one] + [two] == [one, two];
  }

  /** And so does the second of two replays that read the same dead-lettered job, once the first has
      brought it to success. */
  lemma StaleReplayBreaksAgreement(db: Db, now: int, source: Snowflake.DataSource, cursor: Snowflake.Cursor,
        s: Settings)
      returns (events: seq<Event>)
    requires db.jobs == [] && db.sync == map[] && s.maxRetries == 0
    ensures !CursorAgrees(Run(Fleet(db, now, []), events, s).db, source.id)
  {
    hide Run, Nothing, Next, Alone, Attempting;
    var w := Fleet(db, now, []);
    var read, one, two := TwoReplaysRead(w, source.id, s);
    var e0 := read + [Handles(0, P.Submit(0))];
    var e1 := e0 + [Handles(0, P.CommitRequest(0))];
    var e2 := e1 + [DELIVERS];
    var e3 := e2 + [Finishes(0, 0, Nothing(source, cursor), false)];
    events := e3 + [Handles(0, P.CommitRequest(0))];
    RunMore(w, read, Handles(0, P.Submit(0)), s);
    RunMore(w, e0, Handles(0, P.CommitRequest(0)), s);
    RunMore(w, e1, DELIVERS, s);
    RunMore(w, e2, Finishes(0, 0, Nothing(source, cursor), false), s);
    RunMore(w, e3, Handles(0, P.CommitRequest(0)), s);
    assert [one, two] == [one] + [two] && [two] == [two] + [];
    SubmitsReplay(Run(w, read, s), source.id, DeadLetter, one, [two], s);
    ServesAlone(Run(w, e0, s), source.id, DeadLetter, 1, one.(submitted := true), [two], s);
    BeginsAlone(Run(w, e1, s), source.id, [two], s);
    SucceedsAlone(Run(w, e2, s), source, cursor, [two], s);
    ServesAlone(Run(w, e3, s), source.id, Succeeded, 0, two, [], s);
    UnnamedBySuccess(Run(w, e3, s), Run(w, events, s), source.id);
  }

  /** To the rest of the catalog a completed attempt is one discovery step of a run. */
  lemma SuccessIsADiscoveryStep(w: Fleet, e: Event, s: Settings, req: Proposals.Request, faults: Proposals.Faults)
    requires Succeeds(w, e, s) && req.tenant == e.discovery.source.tenant && req.now == w.now && !faults.store
    ensures var step := Runs.Step(Runs.Discovery(e.discovery.source.id, e.discovery.result.assets), req, faults);
      Next(w, e, s).db.catalog == Runs.Next(w.db, step).catalog
  {
  }
}
