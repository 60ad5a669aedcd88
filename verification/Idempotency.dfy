/** Idempotent replay of mutating requests, after apps/catalog-api/app/services/idempotency_service.py.
    A request hash is its body: the digest is only compared. */
module Idempotency {
  import opened Values

  /** The columns of the unique constraint; the tenant is not among them. */
  datatype Context = Context(subject: string, key: string, method_: string, path: string)

  datatype Response = Response(status: int, body: Json)

  datatype Record = Record(tenant: string, body: string, response: Response, expiresAt: int)

  type Records = map<Context, Record>

  datatype Answer = Fresh | Replayed(response: Response) | Conflict

  /** Row-level security restricts the purge of expired records to the caller's tenant. */
  datatype Settings = Settings(ttl: nat, rowLevelSecurity: bool)

  // ---------------------------------------------------------------- specification

  predicate Visible(records: Records, tenant: string, c: Context) { c in records && records[c].tenant == tenant }

  function Replay(records: Records, tenant: string, c: Context, body: string, now: int): (Records, Answer) {
    if !Visible(records, tenant, c) then (records, Fresh)
    else if records[c].expiresAt < now then (records - {c}, Fresh)
    else if records[c].body != body then (records, Conflict)
    else (records, Replayed(records[c].response))
  }

  predicate Purgeable(r: Record, tenant: string, now: int, s: Settings) {
    r.expiresAt < now && (s.rowLevelSecurity ==> r.tenant == tenant)
  }

  function Purged(records: Records, tenant: string, now: int, s: Settings): Records {
    map c | c in records && !Purgeable(records[c], tenant, now, s) :: records[c]
  }

  /** None is a unique violation, which leaves the records as they were. */
  function Stored(records: Records, tenant: string, c: Context, body: string, response: Response, now: int,
      s: Settings): Option<Records>
  {
    var purged := Purged(records, tenant, now, s);
    if c in purged then None else Some(purged[c := Record(tenant, body, response, now + s.ttl)])
  }

  // ---------------------------------------------------------------- the session's form

  class IdempotencyTable {
    var records: Records

    constructor (records: Records)
      ensures this.records == records
    {
      this.records := records;
    }

    method ReplayResponse(tenant: string, c: Context, body: string, now: int) returns (answer: Answer)
      modifies this
      ensures (records, answer) == Replay(old(records), tenant, c, body, now)
    {
      if c !in records || records[c].tenant != tenant { return Fresh; }
      var record := records[c];
      if record.expiresAt < now {
        records := records - {c};
        return Fresh;
      }
      if record.body != body { return Conflict; }
      answer := Replayed(record.response);
    }

    method StoreResponse(tenant: string, c: Context, body: string, response: Response, now: int, s: Settings)
      returns (ok: bool)
      modifies this
      ensures ok == Stored(old(records), tenant, c, body, response, now, s).Some?
      ensures records == if ok then Stored(old(records), tenant, c, body, response, now, s).value else old(records)
    {
      var kept := map k | k in records && !Purgeable(records[k], tenant, now, s) :: records[k];
      if c in kept { return false; }
      records := kept[c := Record(tenant, body, response, now + s.ttl)];
      ok := true;
    }
  }

  // ---------------------------------------------------------------- runs

  /** A request: when it asks for a replay, and, should its handler run, what that answers and when. */
  datatype Request = Request(tenant: string, context: Context, body: string, now: int, completes: bool,
                             response: Response, doneAt: int)

  /** A run of a handler body, and whether its response was recorded. */
  datatype Execution = Execution(request: Request, stored: bool)

  datatype World = World(records: Records, executions: seq<Execution>)

  function Handle(w: World, r: Request, s: Settings): World {
    var (records, answer) := Replay(w.records, r.tenant, r.context, r.body, r.now);
    if answer != Fresh then World(records, w.executions)
    else if !r.completes then World(records, w.executions + [Execution(r, false)])
    else
      var stored := Stored(records, r.tenant, r.context, r.body, r.response, r.doneAt, s);
      World(if stored.Some? then stored.value else records, w.executions + [Execution(r, stored.Some?)])
  }

  function Run(requests: seq<Request>, s: Settings): World {
    if requests == [] then World(map[], []) else Handle(Run(requests[..|requests| - 1], s), requests[|requests| - 1], s)
  }

  /** Requests are served one after the other. */
  predicate Serial(requests: seq<Request>) {
    && (forall i | 0 <= i < |requests| :: requests[i].now <= requests[i].doneAt)
    && (forall i, j | 0 <= i < j < |requests| :: requests[i].doneAt <= requests[j].now)
  }

  function RecordOf(r: Request, s: Settings): Record { Record(r.tenant, r.body, r.response, r.doneAt + s.ttl) }

  predicate SameKey(a: Request, b: Request) { a.tenant == b.tenant && a.context == b.context }

  /** A recorded response stays in the table, as it was answered, until its time to live is over. */
  predicate Remembered(w: World, e: Execution, clock: int, s: Settings) {
    e.stored && e.request.doneAt + s.ttl >= clock ==>
      e.request.context in w.records && w.records[e.request.context] == RecordOf(e.request, s)
  }

  /** Once recorded, a handler's body does not run again within the time to live. */
  predicate Spaced(executions: seq<Execution>, s: Settings) {
    forall i, j | 0 <= i < j < |executions| && executions[i].stored
      && SameKey(executions[i].request, executions[j].request) ::
      executions[j].request.now > executions[i].request.doneAt + s.ttl
  }

  predicate Sound(w: World, clock: int, s: Settings) {
    (forall e | e in w.executions :: Remembered(w, e, clock, s)) && Spaced(w.executions, s)
  }

  /** A request that runs its handler comes after the time to live of every recorded run of its key. */
  lemma FreshComesLater(w: World, r: Request, clock: int, s: Settings, e: Execution)
    requires Remembered(w, e, clock, s) && clock <= r.now && e.stored && SameKey(e.request, r)
    requires Replay(w.records, r.tenant, r.context, r.body, r.now).1 == Fresh
    ensures r.now > e.request.doneAt + s.ttl
  {
  }

  lemma HandleKeepsSound(w: World, r: Request, clock: int, s: Settings)
    requires Sound(w, clock, s) && clock <= r.now <= r.doneAt
    ensures Sound(Handle(w, r, s), r.doneAt, s)
  {
    hide Replay, Stored, Remembered;
    var next := Handle(w, r, s);
    forall e | e in next.executions ensures Remembered(next, e, r.doneAt, s) { RememberedNext(w, r, clock, s, e); }
    if next.executions != w.executions {
      var n := |w.executions|;
      forall i | 0 <= i < n && w.executions[i].stored && SameKey(w.executions[i].request, r)
        ensures r.now > w.executions[i].request.doneAt + s.ttl
      {
        FreshComesLater(w, r, clock, s, w.executions[i]);
      }
    }
  }

  lemma RememberedNext(w: World, r: Request, clock: int, s: Settings, e: Execution)
    requires clock <= r.now <= r.doneAt && e in Handle(w, r, s).executions
    requires e in w.executions ==> Remembered(w, e, clock, s)
    ensures Remembered(Handle(w, r, s), e, r.doneAt, s)
  {
  }

  function Clock(requests: seq<Request>, start: int): int {
    if requests == [] then start else requests[|requests| - 1].doneAt
  }

  /** At most once: over any serial sequence of requests, a handler whose response was recorded does not
      run again for its tenant and key within the time to live, and the record stays as it was. */
  lemma {:induction false} AtMostOncePerWindow(requests: seq<Request>, start: int, s: Settings)
    requires Serial(requests) && (requests != [] ==> start <= requests[0].now)
    ensures Sound(Run(requests, s), Clock(requests, start), s)
  {
    if requests != [] {
      hide Handle, Sound;
      var p := requests[..|requests| - 1];
      AtMostOncePerWindow(p, start, s);
      HandleKeepsSound(Run(p, s), requests[|requests| - 1], Clock(p, start), s);
    } else {
      assert Run(requests, s).executions == [];
    }
  }

  /** Within the window an equal body gets the recorded response verbatim, a different one a conflict,
      and neither runs the handler or changes a record. */
  lemma RepeatsAreAnswered(w: World, r: Request, clock: int, s: Settings, e: Execution)
    requires Sound(w, clock, s) && clock <= r.now && e in w.executions && e.stored && SameKey(e.request, r)
    requires r.now <= e.request.doneAt + s.ttl
    ensures Handle(w, r, s) == w
    ensures Replay(w.records, r.tenant, r.context, r.body, r.now).1 ==
            if r.body == e.request.body then Replayed(e.request.response) else Conflict
  {
  }

  // ---------------------------------------------------------------- uniqueness

  /** Another tenant's record under the same key that the purge leaves behind. */
  predicate Foreign(records: Records, r: Request, s: Settings) {
    && r.context in records && records[r.context].tenant != r.tenant
    && (s.rowLevelSecurity || records[r.context].expiresAt >= r.doneAt)
  }

  /** Storing after a null replay breaks the unique constraint if and only if a record of another tenant
      is in the way: the constraint leaves the tenant out. */
  lemma StoreIsExact(w: World, r: Request, s: Settings)
    requires r.completes && r.now <= r.doneAt && Replay(w.records, r.tenant, r.context, r.body, r.now).1 == Fresh
    ensures var next := Handle(w, r, s);
      && next.executions == w.executions + [Execution(r, !Foreign(w.records, r, s))]
      && (!Foreign(w.records, r, s) ==> r.context in next.records && next.records[r.context] == RecordOf(r, s))
  {
  }

  /** So two tenants that share subject, key, method and path break the promise: the second tenant's
      handler runs on each of its repeated requests, and none of its responses is recorded. */
  lemma SharedKeyRunsTwice(a: Request, b: Request, s: Settings)
    requires a.context == b.context && a.tenant != b.tenant && a.completes && b.completes
    requires a.now <= a.doneAt <= b.now <= b.doneAt <= a.doneAt + s.ttl
    ensures Run([a, b, b.(now := b.doneAt)], s).executions ==
            [Execution(a, true), Execution(b, false), Execution(b.(now := b.doneAt), false)]
  {
    var c := b.(now := b.doneAt);
    assert [a, b, c][..2] == [a, b] && [a, b][..1] == [a] && [a][..0] == [];
    var w0 := World(map[], []);
    assert Run([], s) == w0;
    StoreIsExact(w0, a, s);
    var w1 := Handle(w0, a, s);
    assert Run([a], s) == w1;
    StoreIsExact(w1, b, s);
    var w2 := Handle(w1, b, s);
    assert Run([a, b], s) == w2;
    assert w2.records[a.context] == RecordOf(a, s);
    StoreIsExact(w2, c, s);
  }

  /** No two tenants use one key. */
  predicate KeysArePrivate(requests: seq<Request>) {
    forall i, j | 0 <= i < |requests| && 0 <= j < |requests| && requests[i].context == requests[j].context ::
      requests[i].tenant == requests[j].tenant
  }

  predicate Owned(records: Records, requests: seq<Request>) {
    forall c | c in records :: exists i | 0 <= i < |requests| ::
      requests[i].context == c && requests[i].tenant == records[c].tenant
  }

  /** While keys are private and handlers complete, every handler run is recorded. */
  lemma {:induction false} PrivateKeysAreRecorded(requests: seq<Request>, s: Settings)
    requires Serial(requests) && KeysArePrivate(requests) && forall r | r in requests :: r.completes
    ensures Owned(Run(requests, s).records, requests)
    ensures forall e | e in Run(requests, s).executions :: e.stored
  {
    if requests != [] {
      hide Handle, Owned, Serial;
      var n := |requests| - 1;
      var p, r := requests[..n], requests[n];
      assert requests == p + [r];
      PrefixIsPrivate(p, r);
      PrivateKeysAreRecorded(p, s);
      HandleRecords(Run(p, s), p, r, s);
      HandleOwns(Run(p, s), p, r, s);
    }
  }

  lemma PrefixIsPrivate(p: seq<Request>, r: Request)
    requires KeysArePrivate(p + [r]) && Serial(p + [r])
    ensures KeysArePrivate(p) && Serial(p) && r.now <= r.doneAt
  {
    var all := p + [r];
    assert forall i | 0 <= i < |p| :: p[i] == all[i];
    assert all[|p|] == r;
  }

  lemma HandleRecords(w: World, p: seq<Request>, r: Request, s: Settings)
    requires Owned(w.records, p) && KeysArePrivate(p + [r]) && r.completes && r.now <= r.doneAt
    requires forall e | e in w.executions :: e.stored
    ensures forall e | e in Handle(w, r, s).executions :: e.stored
  {
    var all := p + [r];
    if r.context in w.records {
      var i :| 0 <= i < |p| && p[i].context == r.context && p[i].tenant == w.records[r.context].tenant;
      assert all[i] == p[i] && all[|p|] == r;
    }
    if Replay(w.records, r.tenant, r.context, r.body, r.now).1 == Fresh { StoreIsExact(w, r, s); }
    hide Stored, KeysArePrivate, Owned;
  }

  lemma HandleOwns(w: World, requests: seq<Request>, r: Request, s: Settings)
    requires Owned(w.records, requests)
    ensures Owned(Handle(w, r, s).records, requests + [r])
  {
    var next := Handle(w, r, s).records;
    forall c | c in next
      ensures exists i | 0 <= i < |requests + [r]| ::
                (requests + [r])[i].context == c && (requests + [r])[i].tenant == next[c].tenant
    {
      if c in w.records && next[c] == w.records[c] {
        var i :| 0 <= i < |requests| && requests[i].context == c && requests[i].tenant == w.records[c].tenant;
        assert (requests + [r])[i] == requests[i];
      } else {
        assert (requests + [r])[|requests|] == r;
      }
    }
  }
}
