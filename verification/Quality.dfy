/** Rules, their version ledger, quality runs and asset contexts: the operations of
    apps/quality-api/app/services/quality_service.py and execution_service.py on their store. */
module Quality {
  import opened Values
  import opened QualityRules
  import opened QualityScore

  datatype Rule = Rule(definition: Definition, version: nat, nextRunAt: Option<int>)

  /** A stored result; its evidence embeds the rule's definition. */
  datatype RuleResult = RuleResult(rule: nat, version: nat, evaluation: Evaluation, definition: Definition)

  datatype RunStatus = Queued | Running | Succeeded | Failed | Cancelled

  datatype Run = Run(
    asset: string, status: RunStatus, snapshot: Profile, versions: map<nat, nat>, score: Option<int>,
    explainable: bool, completedAt: Option<int>, results: seq<RuleResult>)

  datatype Context = Context(latestAt: Option<int>, latestScore: Option<int>)

  /** A rule's and a run's id is its index; the ledger is unique by (rule, version). */
  datatype QualityDb = QualityDb(
    rules: seq<Rule>, ledger: map<(nat, nat), Definition>, runs: seq<Run>, contexts: map<string, Context>,
    profiles: map<string, Profile>)

  datatype RulePayload = RulePayload(
    asset: string, column: Option<string>, name: string, ruleType: RuleType, severity: Severity, owner: Option<string>,
    parameters: map<string, Json>, cron: Option<string>, nextRunAt: Option<int>)

  /** A field of a partial update: left out, explicitly null, or given. */
  datatype Patch<T> = Unset | Null | Set(value: T)

  datatype RuleUpdate = RuleUpdate(
    name: Patch<string>, severity: Patch<Severity>, owner: Patch<string>, parameters: Patch<map<string, Json>>,
    enabled: Patch<bool>, cron: Patch<string>, nextRunAt: Patch<int>)

  datatype Failure = InvalidParameters | StoreError

  const SECONDS_PER_DAY := 24 * 3600

  // ---------------------------------------------------------------- rules

  function CreateRule(db: QualityDb, p: RulePayload): (QualityDb, Result<nat, Failure>) {
    if !ValidParameters(p.ruleType, p.parameters) then (db, Err(InvalidParameters))
    else
      var d := Definition(p.name, p.asset, p.column, p.ruleType, p.severity, p.owner, JObject(p.parameters),
                          true, p.cron);
      (db.(rules := db.rules + [Rule(d, 1, p.nextRunAt)], ledger := db.ledger[(|db.rules|, 1) := d]), Ok(|db.rules|))
  }

  function Patched<T>(p: Patch<T>, current: T): T { if p.Set? then p.value else current }

  function PatchedOption<T>(p: Patch<T>, current: Option<T>): Option<T> {
    match p case Unset => current case Null => None case Set(v) => Some(v)
  }

  /** A null in a column that may not be null fails the commit. */
  predicate Rejected(u: RuleUpdate) { u.name.Null? || u.severity.Null? || u.enabled.Null? }

  /** An explicit null for the parameters is stored as a JSON null. */
  function Updated(r: Rule, u: RuleUpdate): Rule {
    var d := r.definition.(
      name := Patched(u.name, r.definition.name), severity := Patched(u.severity, r.definition.severity),
      owner := PatchedOption(u.owner, r.definition.owner),
      parameters := match u.parameters
                    case Unset => r.definition.parameters
                    case Null => JNull
                    case Set(m) => JObject(m),
      enabled := Patched(u.enabled, r.definition.enabled), cron := PatchedOption(u.cron, r.definition.cron));
    r.(definition := d, nextRunAt := PatchedOption(u.nextRunAt, r.nextRunAt))
  }

  function UpdateRule(db: QualityDb, id: nat, u: RuleUpdate): (QualityDb, Result<(), Failure>)
    requires id < |db.rules|
  {
    var r := db.rules[id];
    if u.parameters.Set? && !ValidParameters(r.definition.ruleType, u.parameters.value)
    then (db, Err(InvalidParameters))
    else if Rejected(u) then (db, Err(StoreError))
    else if Updated(r, u) == r then (db, Ok(()))
    else
      var next := Updated(r, u).(version := r.version + 1);
      (db.(rules := db.rules[id := next], ledger := db.ledger[(id, next.version) := next.definition]), Ok(()))
  }

  // ---------------------------------------------------------------- runs

  function QueuedRun(asset: string, snapshot: Profile): Run {
    Run(asset, Queued, snapshot, map[], None, false, None, [])
  }

  function CreateRun(db: QualityDb, asset: string, snapshot: Profile): QualityDb {
    var effective := if snapshot != map[] then snapshot else if asset in db.profiles then db.profiles[asset] else map[];
    db.(runs := db.runs + [QueuedRun(asset, effective)])
  }

  predicate Applies(r: Rule, asset: string) { r.definition.asset == asset && r.definition.enabled }

  function ResultOf(rules: seq<Rule>, id: nat, e: Evaluation): RuleResult
    requires id < |rules|
  {
    RuleResult(id, rules[id].version, e, rules[id].definition)
  }

  /** The store's JSON has no infinite number. */
  predicate Storable(e: Evaluation) { !Infinite(e) }

  /** The results of the first n rules; the first exception, of an evaluation or of the store, ends the run. */
  function Results(rules: seq<Rule>, n: nat, asset: string, snapshot: Profile,
        now: int): Result<seq<RuleResult>, Raised>
    requires n <= |rules|
  {
    if n == 0 then Ok([])
    else
      var before := Results(rules, n - 1, asset, snapshot, now);
      if before.Err? || !Applies(rules[n - 1], asset) then before
      else
        var e := Evaluate(rules[n - 1].definition, snapshot, now);
        if e.Err? then Err(e.error)
        else if !Storable(e.value) then Err(NotStorable)
        else Ok(before.value + [ResultOf(rules, n - 1, e.value)])
  }

  function Grades(rs: seq<RuleResult>): seq<Graded> {
    if rs == [] then []
    else
      var r := rs[|rs| - 1];
      Grades(rs[..|rs| - 1]) + if r.evaluation.evaluated
        then [Graded(r.definition.severity, r.evaluation.score)] else []
  }

  function Versions(rs: seq<RuleResult>): map<nat, nat> {
    if rs == [] then map[] else var r := rs[|rs| - 1]; Versions(rs[..|rs| - 1])[r.rule := r.version]
  }

  predicate Explainable(rs: seq<RuleResult>) {
    rs != [] && forall r | r in rs :: r.evaluation.evaluated && r.evaluation.evidence != map[]
  }

  function Finished(run: Run, rs: seq<RuleResult>, now: int): Run {
    run.(status := Succeeded, versions := Versions(rs), score := TechnicalScore(Grades(rs)),
         explainable := Explainable(rs),
         completedAt := Some(now), results := rs)
  }

  function ContextOf(db: QualityDb, asset: string): Context {
    if asset in db.contexts then db.contexts[asset] else Context(None, None)
  }

  predicate Unfinished(run: Run) { run.status != Succeeded && run.status != Cancelled }

  function StartRun(db: QualityDb, id: nat): QualityDb
    requires id < |db.runs|
  {
    if !Unfinished(db.runs[id]) then db else db.(runs := db.runs[id := db.runs[id].(status := Running)])
  }

  /** The end of the execution that a worker has started. */
  function FinishRun(db: QualityDb, id: nat, now: int, fails: bool): QualityDb
    requires id < |db.runs| && db.runs[id].status == Running
  {
    var run := db.runs[id];
    var rs := Results(db.rules, |db.rules|, run.asset, run.snapshot, now);
    if rs.Err? || fails then db.(runs := db.runs[id := run.(status := Failed, completedAt := Some(now))])
    else
      var done, context := Finished(run, rs.value, now), ContextOf(db, run.asset);
      db.(runs := db.runs[id := done],
          contexts := db.contexts[run.asset := if done.explainable then Context(Some(now), done.score) else context])
  }

  function ExecuteRun(db: QualityDb, id: nat, now: int, fails: bool): QualityDb
    requires id < |db.runs|
  {
    if Unfinished(db.runs[id]) then FinishRun(StartRun(db, id), id, now, fails) else db
  }

  predicate IsDue(r: Rule, now: int) {
    r.definition.enabled && r.definition.cron.Some? && r.nextRunAt.Some? && r.nextRunAt.value <= now
  }

  /** Queue one run for each due rule among the first n, and move its schedule on by a day. */
  function Dispatched(db: QualityDb, n: nat, now: int): QualityDb
    requires n <= |db.rules|
    ensures |Dispatched(db, n, now).rules| == |db.rules|
  {
    if n == 0 then db
    else
      var before := Dispatched(db, n - 1, now);
      if !IsDue(db.rules[n - 1], now) then before
      else
        var r := db.rules[n - 1];
        var asset := r.definition.asset;
        var snapshot := if asset in db.profiles then db.profiles[asset]
          else map["scheduled_at" := JInt(now), "profile_provider" := JText("missing")];
        before.(rules := before.rules[n - 1 := r.(nextRunAt := Some(now + SECONDS_PER_DAY))],
                runs := before.runs + [QueuedRun(asset, snapshot)])
  }
}
