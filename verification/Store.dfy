/** The catalog database as a value, and the session that changes it: work happens on an uncommitted
    copy which a commit publishes whole and a rollback discards. */
module Store {
  import opened Values
  import opened Columns
  import opened Assets
  import opened SearchIndex
  import Jobs
  import Snowflake

  datatype Catalog = Catalog(assets: map<Key, Asset>, documents: map<Key, Document>)

  // ---------------------------------------------------------------- governance proposals

  /** A SHA-256 digest. Nothing but collision freedom is used, so a digest is its preimage. */
  datatype Digest = OfIntent(intent: Intent) | OfNonce(nonce: string)

  datatype ProposalType = AssetCuration | CertificationReview | QualitySchedule

  datatype Status = PendingReview | Approved | Rejected | Cancelled | Expired | Executed | Blocked

  /** The immutable part of a proposal: what its hash covers. */
  datatype Intent = Intent(
    proposalType: ProposalType, resource: Key, title: string, text: string,
    diff: map<string, Json>, evidence: seq<Json>, impact: map<string, Json>,
    preconditions: map<string, Json>, initiator: string,
    channel: string, agent: Option<string>, model: Option<string>, host: Option<string>)

  datatype Proposal = Proposal(
    tenant: string, intent: Intent, hash: Digest, expiresAt: int,
    status: Status,
    approvedBy: Option<string>, approvedAt: Option<int>, approvalVersion: nat,
    rejectedBy: Option<string>, cancelledBy: Option<string>, reviewNote: Option<string>,
    nonceDigest: Option<Digest>, confirmBy: Option<int>,
    attempts: nat, executedBy: Option<string>, executedAt: Option<int>,
    outcome: Option<string>, blockedReason: Option<string>, auditEvent: Option<nat>)

  datatype AuditEvent =
    | PolicyDecision(actor: string, action: string, outcome: string)
    | Transition(actor: string, action: string, proposal: nat, outcome: string)

  datatype CertificationRequest = CertificationRequest(asset: Key, requestedBy: string, note: Option<string>)

  datatype ScheduleRequest = ScheduleRequest(proposal: nat, asset: Key, requestedBy: string, schedule: Json)

  // ---------------------------------------------------------------- what columns take

  /** PostgreSQL keeps no NUL in a text, and no text longer than its column. */
  predicate Writable(s: string) { '\0' !in s }

  predicate Fits(s: string, max: nat) { |s| <= max && Writable(s) }

  /** The values other than null and text that the database driver writes to a text column, in a form of
      its own. Nothing is known about it: what is proved holds for every driver. */
  const DRIVER_TAKES: set<Json>

  predicate TextColumnTakes(v: Json, max: Option<nat>) {
    match v
    case JNull => true
    case JText(s) => Writable(s) && (max.Some? ==> |s| <= max.value)
    case _ => v in DRIVER_TAKES
  }

  /** The curated columns of an asset; a domain must exist. */
  predicate ColumnTakes(domains: set<string>, f: CuratedField, v: Json) {
    match f
    case Description => TextColumnTakes(v, None)
    case Owner => TextColumnTakes(v, Some(255))
    case Classification => TextColumnTakes(v, Some(100))
    case DomainId => v.JNull? || (v.JText? && v.text in domains)
    case _ => true
  }

  predicate Storable(domains: set<string>, c: Curated) { forall f | f in c :: ColumnTakes(domains, f, c[f]) }

  predicate OptFits(s: Option<string>, max: nat) { s.Some? ==> Fits(s.value, max) }

  predicate OptWritable(s: Option<string>) { s.Some? ==> Writable(s.value) }

  predicate FitsInteger(n: int) { -0x8000_0000 <= n < 0x8000_0000 }

  predicate ColumnFits(c: Column) {
    && Fits(c.name, 255) && Fits(c.dataType, 255) && FitsInteger(c.position)
    && OptWritable(c.defaultValue) && OptWritable(c.comment)
  }

  /** The rows of an asset and of its columns take what was discovered. */
  predicate RowsTake(d: Discovered) {
    && Fits(d.qualifiedName, 1024) && Fits(d.name, 255) && OptFits(d.databaseName, 255) && OptFits(d.schemaName, 255)
    && OptWritable(d.description) && (d.rowCount.Some? ==> FitsInteger(d.rowCount.value))
    && forall n | n in ByName(d.columns) :: ColumnFits(ByName(d.columns)[n])
  }

  /** What a steward has said goes into the search document too, which is a text: a JSON column takes tags
      with a NUL, the document does not. */
  predicate Indexable(c: Curated) {
    && Writable(TextOf(CuratedValue(c, Description))) && Writable(TextOf(CuratedValue(c, Owner)))
    && Writable(TextOf(CuratedValue(c, Classification)))
    && forall t | t in TagTexts(CuratedValue(c, Tags)) :: Writable(t)
  }

  /** How far a source has been synchronized, and by which job. */
  datatype SyncState = SyncState(cursor: Snowflake.Cursor, lastJob: Option<nat>)

  /** The id of a proposal or a job is its index: neither is ever deleted. A governance domain is an id,
      and domains are not deleted either. */
  datatype Db = Db(
    catalog: Catalog, proposals: seq<Proposal>, audit: seq<AuditEvent>,
    certifications: seq<CertificationRequest>, schedules: seq<ScheduleRequest>,
    jobs: seq<Jobs.Job>, sync: map<string, SyncState>, domains: set<string>)

  class Session {
    var committed: Db
    var work: Db

    constructor (db: Db)
      ensures committed == work == db
    {
      committed, work := db, db;
    }

    /** `db.commit()`; a store failure raises and publishes nothing. */
    method Commit(fails: bool) returns (ok: bool)
      modifies this
      ensures ok == !fails && work == old(work)
      ensures committed == if ok then old(work) else old(committed)
    {
      ok := !fails;
      if ok { committed := work; }
    }

    /** `db.rollback()`, also what closing the session of a failed request does. */
    method Rollback()
      modifies this
      ensures committed == old(committed) && work == committed
    {
      work := committed;
    }
  }
}
