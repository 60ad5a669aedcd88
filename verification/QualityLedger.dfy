/** The ledger promise: every stored result says which version of its rule judged it, and the ledger
    still holds that version's definition. */
module QualityLedger {
  import opened Values
  import opened QualityRules
  import opened QualityScore
  import opened Quality

  datatype Event =
    | CreatesRule(payload: RulePayload)
    | UpdatesRule(rule: nat, update: RuleUpdate)
    | Profiles(asset: string, profile: Profile)
    | Dispatches
    | CreatesRun(asset: string, snapshot: Profile)
    | StartsRun(run: nat)
    | FinishesRun(run: nat, fails: bool)

  datatype Timed = Timed(event: Event, now: int)

  function Next(db: QualityDb, t: Timed): QualityDb {
    match t.event
    case CreatesRule(p) => CreateRule(db, p).0
    case UpdatesRule(id, u) => if id < |db.rules| then UpdateRule(db, id, u).0 else db
    case Profiles(asset, p) => db.(profiles := db.profiles[asset := p])
    case Dispatches => Dispatched(db, |db.rules|, t.now)
    case CreatesRun(asset, snapshot) => CreateRun(db, asset, snapshot)
    case StartsRun(id) => if id < |db.runs| then StartRun(db, id) else db
    case FinishesRun(id, fails) =>
      if id < |db.runs| && db.runs[id].status == Running then FinishRun(db, id, t.now, fails) else db
  }

  function Run(db: QualityDb, events: seq<Timed>): QualityDb {
    if events == [] then db else Next(Run(db, events[..|events| - 1]), events[|events| - 1])
  }

  const EMPTY := QualityDb([], map[], [], map[], map[])

  // ---------------------------------------------------------------- the invariant

  /** Each rule's ledger holds the versions 1 to its own, without gaps; the last is what the rule says. */
  predicate Ledgered(db: QualityDb) {
    && (forall k | k in db.ledger :: k.0 < |db.rules| && 1 <= k.1 <= db.rules[k.0].version)
    && (forall id: nat, v: nat | id < |db.rules| && 1 <= v <= db.rules[id].version :: (id, v) in db.ledger)
    && (forall id: nat | id < |db.rules| ::
          db.rules[id].version >= 1 && db.ledger[(id, db.rules[id].version)] == db.rules[id].definition)
  }

  /** The definition is the ledger's, and evaluating it on the snapshot gives the stored evaluation. */
  predicate Recorded(ledger: map<(nat, nat), Definition>, r: RuleResult, snapshot: Profile, at: int) {
    && (r.rule, r.version) in ledger && ledger[(r.rule, r.version)] == r.definition
    && Evaluate(r.definition, snapshot, at) == Ok(r.evaluation)
  }

  /** A succeeded run's results are on the ledger, and its score and explainability are theirs; no other
      run has any. */
  predicate Accounted(ledger: map<(nat, nat), Definition>, run: Quality.Run) {
    if run.status == Succeeded then
      && run.completedAt.Some?
      && (forall r | r in run.results ::
            && Recorded(ledger, r, run.snapshot, run.completedAt.value) && r.rule in run.versions
            && run.versions[r.rule] == r.version)
      && run.score == TechnicalScore(Grades(run.results)) && run.explainable == Explainable(run.results)
    else run.results == [] && !run.explainable
  }

  predicate ExplainableRun(db: QualityDb, i: nat, asset: string) {
    i < |db.runs| && db.runs[i].explainable && db.runs[i].asset == asset && db.runs[i].completedAt.Some?
  }

  /** The context carries time and score of an explainable run of the asset that none completed after. */
  ghost predicate ContextAgrees(db: QualityDb, asset: string, clock: int) {
    var c := ContextOf(db, asset);
    match c.latestAt
    case None => c.latestScore == None && forall i: nat :: !ExplainableRun(db, i, asset)
    case Some(t) =>
      && t <= clock
      && (exists i: nat ::
          ExplainableRun(db, i, asset) && db.runs[i].completedAt.value == t && db.runs[i].score == c.latestScore)
      && (forall i: nat | ExplainableRun(db, i, asset) :: db.runs[i].completedAt.value <= t)
  }

  /** Checked, or nulled by an update. */
  predicate ParametersKept(d: Definition) {
    d.parameters == JNull || (d.parameters.JObject? && ValidParameters(d.ruleType, d.parameters.members))
  }

  ghost predicate Sound(db: QualityDb, clock: int) {
    && Ledgered(db)
    && (forall id | 0 <= id < |db.rules| :: ParametersKept(db.rules[id].definition))
    && (forall i | 0 <= i < |db.runs| :: Accounted(db.ledger, db.runs[i]))
    && (forall asset: string :: ContextAgrees(db, asset, clock))
  }

  // ---------------------------------------------------------------- results of a run

  /** Each applicable rule among the first n was judged once, at its version, by its definition. */
  ghost predicate JudgedAll(db: QualityDb, rs: seq<RuleResult>, n: nat, asset: string, snapshot: Profile, now: int)
    requires n <= |db.rules|
  {
    var versions := Versions(rs);
    && (forall r | r in rs ::
        Recorded(db.ledger, r, snapshot, now) && r.rule in versions && versions[r.rule] == r.version)
    && (forall k: nat :: k in versions <==> k < n && Applies(db.rules[k], asset))
    && (forall k | k in versions :: versions[k] == db.rules[k].version)
    && |versions| == |rs|
  }

  lemma JudgedOneMore(db: QualityDb, rs: seq<RuleResult>, n: nat, asset: string, snapshot: Profile, now: int,
      r: RuleResult)
    requires n < |db.rules| && JudgedAll(db, rs, n, asset, snapshot, now) && Applies(db.rules[n], asset)
    requires r.rule == n && r.version == db.rules[n].version && Recorded(db.ledger, r, snapshot, now)
    ensures JudgedAll(db, rs + [r], n + 1, asset, snapshot, now)
  {
  }

  lemma {:induction false} ResultsAreJudged(db: QualityDb, n: nat, asset: string, snapshot: Profile, now: int)
    requires n <= |db.rules| && Ledgered(db) && Results(db.rules, n, asset, snapshot, now).Ok?
    ensures JudgedAll(db, Results(db.rules, n, asset, snapshot, now).value, n, asset, snapshot, now)
  {
    hide Evaluate, Applies, JudgedAll, Ledgered;
    if n == 0 {
      JudgedNone(db, asset, snapshot, now);
    } else {
      ResultsAreJudged(db, n - 1, asset, snapshot, now);
      var rs := Results(db.rules, n - 1, asset, snapshot, now).value;
      if Applies(db.rules[n - 1], asset) {
        var e := Evaluate(db.rules[n - 1].definition, snapshot, now).value;
        ResultIsRecorded(db, n - 1, e, snapshot, now);
        JudgedOneMore(db, rs, n - 1, asset, snapshot, now, ResultOf(db.rules, n - 1, e));
      } else {
        JudgedSkip(db, rs, n - 1, asset, snapshot, now);
      }
    }
  }

  lemma JudgedNone(db: QualityDb, asset: string, snapshot: Profile, now: int)
    ensures JudgedAll(db, [], 0, asset, snapshot, now)
  {
  }

  lemma JudgedSkip(db: QualityDb, rs: seq<RuleResult>, n: nat, asset: string, snapshot: Profile, now: int)
    requires n < |db.rules| && JudgedAll(db, rs, n, asset, snapshot, now) && !Applies(db.rules[n], asset)
    ensures JudgedAll(db, rs, n + 1, asset, snapshot, now)
  {
  }

  lemma ResultIsRecorded(db: QualityDb, id: nat, e: Evaluation, snapshot: Profile, now: int)
    requires id < |db.rules| && Ledgered(db) && Evaluate(db.rules[id].definition, snapshot, now) == Ok(e)
    ensures Recorded(db.ledger, ResultOf(db.rules, id, e), snapshot, now)
  {
    hide Evaluate;
  }

  // ---------------------------------------------------------------- steps

  /** A ledger only grows, so what was recorded stays recorded. */
  lemma RecordedStays(before: map<(nat, nat), Definition>, after: map<(nat, nat), Definition>, run: Quality.Run)
    requires forall k | k in before :: k in after && after[k] == before[k]
    requires Accounted(before, run)
    ensures Accounted(after, run)
  {
    hide Evaluate, TechnicalScore, Grades, Explainable;
  }

  /** Steps that leave runs and contexts alone and only add to the ledger. */
  lemma RulesStep(db: QualityDb, r: QualityDb, clock: int, later: int)
    requires Sound(db, clock) && clock <= later && r.runs == db.runs && r.contexts == db.contexts
    requires Ledgered(r) && forall id | 0 <= id < |r.rules| :: ParametersKept(r.rules[id].definition)
    requires forall k | k in db.ledger :: k in r.ledger && r.ledger[k] == db.ledger[k]
    ensures Sound(r, later)
  {
    hide Ledgered, ParametersKept, Accounted;
    forall i | 0 <= i < |r.runs|
      ensures Accounted(r.ledger, r.runs[i])
    {
      RecordedStays(db.ledger, r.ledger, r.runs[i]);
    }
    forall asset: string ensures ContextAgrees(r, asset, later) { ContextStays(db, r, asset, clock, later); }
  }

  /** The explainable runs of an asset and its context are all that agreement is about. */
  lemma ContextStays(db: QualityDb, r: QualityDb, asset: string, clock: int, later: int)
    requires ContextAgrees(db, asset, clock) && clock <= later && ContextOf(r, asset) == ContextOf(db, asset)
    requires |db.runs| <= |r.runs|
    requires forall i | 0 <= i < |db.runs| && ExplainableRun(db, i, asset) :: r.runs[i] == db.runs[i]
    requires forall i | 0 <= i < |r.runs| && ExplainableRun(r, i, asset) :: ExplainableRun(db, i, asset)
    ensures ContextAgrees(r, asset, later)
  {
  }

  lemma CreateExtendsLedger(db: QualityDb, p: RulePayload)
    requires Ledgered(db)
    ensures var r := CreateRule(db, p).0;
      && Ledgered(r) && (forall k | k in db.ledger :: k in r.ledger && r.ledger[k] == db.ledger[k])
      && |db.rules| <= |r.rules| && (forall i | 0 <= i < |db.rules| :: r.rules[i] == db.rules[i])
      && (forall i | |db.rules| <= i < |r.rules| :: ParametersKept(r.rules[i].definition))
  {
    hide ValidParameters, Ledgered;
    var d := Definition(p.name, p.asset, p.column, p.ruleType, p.severity, p.owner, JObject(p.parameters),
                        true, p.cron);
    FirstVersion(db, d, p.nextRunAt);
  }

  lemma FirstVersion(db: QualityDb, d: Definition, at: Option<int>)
    requires Ledgered(db)
    ensures (|db.rules|, 1) !in db.ledger
    ensures Ledgered(db.(rules := db.rules + [Rule(d, 1, at)], ledger := db.ledger[(|db.rules|, 1) := d]))
  {
  }

  lemma CreateKeepsSound(db: QualityDb, p: RulePayload, clock: int, now: int)
    requires Sound(db, clock) && clock <= now
    ensures Sound(CreateRule(db, p).0, now)
  {
    hide Ledgered, ParametersKept, ContextAgrees, Accounted;
    CreateExtendsLedger(db, p);
    RulesStep(db, CreateRule(db, p).0, clock, now);
  }

  lemma UpdateExtendsLedger(db: QualityDb, id: nat, u: RuleUpdate)
    requires Ledgered(db) && id < |db.rules| && ParametersKept(db.rules[id].definition)
    ensures var r := UpdateRule(db, id, u).0;
      && Ledgered(r) && (forall k | k in db.ledger :: k in r.ledger && r.ledger[k] == db.ledger[k])
      && |r.rules| == |db.rules| && (forall i | 0 <= i < |db.rules| && i != id :: r.rules[i] == db.rules[i])
      && ParametersKept(r.rules[id].definition)
  {
    hide ValidParameters, Updated, Ledgered, ParametersKept, Rejected;
    var r, next := UpdateRule(db, id, u).0, Updated(db.rules[id], u);
    if r != db {
      NextVersion(db, id, next.definition, next.nextRunAt);
      UpdatedParameters(db.rules[id], u);
    }
  }

  /** A new version goes right after the last one. */
  lemma NextVersion(db: QualityDb, id: nat, d: Definition, at: Option<int>)
    requires Ledgered(db) && id < |db.rules|
    ensures var v := db.rules[id].version + 1;
      && (id, v) !in db.ledger
      && Ledgered(db.(rules := db.rules[id := Rule(d, v, at)], ledger := db.ledger[(id, v) := d]))
  {
    var v := db.rules[id].version + 1;
    var rules, ledger := db.rules[id := Rule(d, v, at)], db.ledger[(id, v) := d];
    assert (id, v) !in db.ledger;
    forall k: nat, n: nat | k < |rules| && 1 <= n <= rules[k].version ensures (k, n) in ledger {
      assert (k, n) in db.ledger || (k, n) == (id, v);
    }
  }

  lemma UpdatedParameters(r: Rule, u: RuleUpdate)
    requires ParametersKept(r.definition)
    requires u.parameters.Set? ==> ValidParameters(r.definition.ruleType, u.parameters.value)
    ensures ParametersKept(Updated(r, u).definition)
  {
  }

  lemma UpdateKeepsSound(db: QualityDb, id: nat, u: RuleUpdate, clock: int, now: int)
    requires Sound(db, clock) && clock <= now && id < |db.rules|
    ensures Sound(UpdateRule(db, id, u).0, now)
  {
    hide Ledgered, ParametersKept, ContextAgrees, Accounted;
    UpdateExtendsLedger(db, id, u);
    RulesStep(db, UpdateRule(db, id, u).0, clock, now);
  }

  lemma SameLedger(db: QualityDb, r: QualityDb)
    requires Ledgered(db) && r.rules == db.rules && r.ledger == db.ledger
    ensures Ledgered(r)
  {
  }

  /** Steps that only queue new runs. */
  lemma RunsStep(db: QualityDb, r: QualityDb, clock: int, later: int)
    requires Sound(db, clock) && clock <= later && r == db.(runs := r.runs)
    requires |db.runs| <= |r.runs| && forall i | 0 <= i < |db.runs| :: r.runs[i] == db.runs[i]
    requires forall i | |db.runs| <= i < |r.runs| ::
      r.runs[i].status == Queued && r.runs[i].results == [] && !r.runs[i].explainable
    ensures Sound(r, later)
  {
    SameLedger(db, r);
    hide Ledgered, ParametersKept, Recorded, ContextAgrees;
    forall i | 0 <= i < |r.runs| ensures Accounted(r.ledger, r.runs[i]) {
      if i < |db.runs| { assert Accounted(db.ledger, db.runs[i]); }
    }
    forall asset: string ensures ContextAgrees(r, asset, later) { ContextStays(db, r, asset, clock, later); }
  }

  lemma {:induction false} DispatchedShape(db: QualityDb, n: nat, now: int)
    requires n <= |db.rules|
    ensures var r := Dispatched(db, n, now);
      && r == db.(rules := r.rules, runs := r.runs)
      && (forall i | 0 <= i < |db.rules| ::
          r.rules[i].definition == db.rules[i].definition && r.rules[i].version == db.rules[i].version)
      && (forall i | n <= i < |db.rules| :: r.rules[i] == db.rules[i])
      && |db.runs| <= |r.runs| && (forall i | 0 <= i < |db.runs| :: r.runs[i] == db.runs[i])
      && (forall i | |db.runs| <= i < |r.runs| ::
          r.runs[i].status == Queued && r.runs[i].results == [] && !r.runs[i].explainable)
  {
    hide IsDue;
    if n > 0 { DispatchedShape(db, n - 1, now); }
  }

  lemma SameDefinitions(db: QualityDb, rules: seq<Rule>)
    requires Ledgered(db) && |rules| == |db.rules|
    requires forall i | 0 <= i < |rules| ::
      rules[i].definition == db.rules[i].definition && rules[i].version == db.rules[i].version
    ensures Ledgered(db.(rules := rules))
  {
  }

  lemma DispatchKeepsSound(db: QualityDb, clock: int, now: int)
    requires Sound(db, clock) && clock <= now
    ensures Sound(Dispatched(db, |db.rules|, now), now)
  {
    DispatchedShape(db, |db.rules|, now);
    var r := Dispatched(db, |db.rules|, now);
    SameDefinitions(db, r.rules);
    hide Ledgered, ParametersKept, Accounted, ContextAgrees, Dispatched;
    RulesStep(db, db.(rules := r.rules), clock, now);
    hide Sound;
    RunsStep(db.(rules := r.rules), r, now, now);
  }

  // ---------------------------------------------------------------- executions

  /** A run that has not succeeded is started, or marked as failed. */
  lemma MarkingKeepsSound(db: QualityDb, id: nat, marked: Quality.Run, clock: int, now: int)
    requires Sound(db, clock) && clock <= now && id < |db.runs| && db.runs[id].status != Succeeded
    requires marked.status != Succeeded
    requires marked == db.runs[id].(status := marked.status, completedAt := marked.completedAt)
    ensures Sound(db.(runs := db.runs[id := marked]), now)
  {
    hide Ledgered, ParametersKept, Recorded, ContextAgrees;
    var r := db.(runs := db.runs[id := marked]);
    SameLedger(db, r);
    forall i | 0 <= i < |r.runs| ensures Accounted(r.ledger, r.runs[i]) {
      assert Accounted(db.ledger, db.runs[i]);
    }
    forall asset: string ensures ContextAgrees(r, asset, now) {
      assert Accounted(db.ledger, db.runs[id]);
      ContextStays(db, r, asset, clock, now);
    }
  }

  lemma TimeKeepsSound(db: QualityDb, clock: int, now: int)
    requires Sound(db, clock) && clock <= now
    ensures Sound(db, now)
  {
    RunsStep(db, db, clock, now);
  }

  lemma StartKeepsSound(db: QualityDb, id: nat, clock: int, now: int)
    requires Sound(db, clock) && clock <= now && id < |db.runs|
    ensures Sound(StartRun(db, id), now)
  {
    hide Sound;
    if Unfinished(db.runs[id]) {
      MarkingKeepsSound(db, id, db.runs[id].(status := Running), clock, now);
    } else {
      TimeKeepsSound(db, clock, now);
    }
  }

  lemma SuccessIsAccounted(db: QualityDb, run: Quality.Run, now: int)
    requires Ledgered(db) && Results(db.rules, |db.rules|, run.asset, run.snapshot, now).Ok?
    ensures Accounted(db.ledger, Finished(run, Results(db.rules, |db.rules|, run.asset, run.snapshot, now).value, now))
  {
    ResultsAreJudged(db, |db.rules|, run.asset, run.snapshot, now);
    hide Recorded, Results, Versions, Ledgered, Explainable;
  }

  lemma SuccessAgrees(db: QualityDb, r: QualityDb, id: nat, clock: int, now: int)
    requires id < |db.runs| && !db.runs[id].explainable && ContextAgrees(db, db.runs[id].asset, clock) && clock <= now
    requires |r.runs| == |db.runs| && r.runs == db.runs[id := r.runs[id]]
    requires r.runs[id].asset == db.runs[id].asset && r.runs[id].completedAt == Some(now)
    requires ContextOf(r, db.runs[id].asset) ==
      if r.runs[id].explainable then Context(Some(now), r.runs[id].score) else ContextOf(db, db.runs[id].asset)
    ensures ContextAgrees(r, db.runs[id].asset, now)
  {
    var asset := db.runs[id].asset;
    if r.runs[id].explainable {
      assert ExplainableRun(r, id, asset);
      forall i: nat | ExplainableRun(r, i, asset) && i != id ensures r.runs[i].completedAt.value <= now {
        assert ExplainableRun(db, i, asset);
      }
    } else {
      ContextStays(db, r, asset, clock, now);
    }
  }

  lemma SuccessKeepsAccounts(db: QualityDb, r: QualityDb, id: nat)
    requires id < |db.runs| && r.ledger == db.ledger && |r.runs| == |db.runs| && Accounted(r.ledger, r.runs[id])
    requires forall i | 0 <= i < |db.runs| :: Accounted(db.ledger, db.runs[i]) && (i != id ==> r.runs[i] == db.runs[i])
    ensures forall i | 0 <= i < |r.runs| :: Accounted(r.ledger, r.runs[i])
  {
    hide Accounted;
  }

  lemma SuccessKeepsContexts(db: QualityDb, r: QualityDb, id: nat, clock: int, now: int)
    requires id < |db.runs| && !db.runs[id].explainable && clock <= now && forall asset: string ::
      ContextAgrees(db, asset, clock)
    requires |r.runs| == |db.runs| && r.runs == db.runs[id := r.runs[id]]
    requires r.runs[id].asset == db.runs[id].asset && r.runs[id].completedAt == Some(now)
    requires forall asset: string ::
      if asset == db.runs[id].asset && r.runs[id].explainable
      then ContextOf(r, asset) == Context(Some(now), r.runs[id].score)
      else ContextOf(r, asset) == ContextOf(db, asset)
    ensures forall asset: string :: ContextAgrees(r, asset, now)
  {
    hide ContextAgrees, ContextOf;
    forall asset: string ensures ContextAgrees(r, asset, now) {
      if asset == db.runs[id].asset {
        SuccessAgrees(db, r, id, clock, now);
      } else {
        ContextStays(db, r, asset, clock, now);
      }
    }
  }

  lemma SuccessKeepsSound(db: QualityDb, id: nat, clock: int, now: int)
    requires Sound(db, clock) && clock <= now && id < |db.runs| && db.runs[id].status == Running
    requires Results(db.rules, |db.rules|, db.runs[id].asset, db.runs[id].snapshot, now).Ok?
    ensures Sound(FinishRun(db, id, now, false), now)
  {
    hide Results, Ledgered, ParametersKept, ContextAgrees, Accounted, Finished;
    var run, r := db.runs[id], FinishRun(db, id, now, false);
    SameLedger(db, r);
    SuccessIsAccounted(db, run, now);
    assert Accounted(db.ledger, run);
    FinishedShape(run, Results(db.rules, |db.rules|, run.asset, run.snapshot, now).value, now);
    SuccessKeepsAccounts(db, r, id);
    UnfinishedIsUnexplained(db.ledger, run);
    SuccessKeepsContexts(db, r, id, clock, now);
  }

  lemma UnfinishedIsUnexplained(ledger: map<(nat, nat), Definition>, run: Quality.Run)
    requires Accounted(ledger, run) && run.status != Succeeded
    ensures !run.explainable
  {
  }

  lemma FinishKeepsSound(db: QualityDb, id: nat, fails: bool, clock: int, now: int)
    requires Sound(db, clock) && clock <= now && id < |db.runs| && db.runs[id].status == Running
    ensures Sound(FinishRun(db, id, now, fails), now)
  {
    hide Sound, Results;
    if fails || Results(db.rules, |db.rules|, db.runs[id].asset, db.runs[id].snapshot, now).Err? {
      MarkingKeepsSound(db, id, db.runs[id].(status := Failed, completedAt := Some(now)), clock, now);
    } else {
      SuccessKeepsSound(db, id, clock, now);
    }
  }

  /** A whole execution, whatever comes of it. */
  lemma ExecutionKeepsSound(db: QualityDb, id: nat, fails: bool, clock: int, now: int)
    requires Sound(db, clock) && clock <= now && id < |db.runs|
    ensures Sound(ExecuteRun(db, id, now, fails), now)
  {
    hide Sound, FinishRun;
    StartKeepsSound(db, id, clock, now);
    if Unfinished(db.runs[id]) {
      FinishKeepsSound(StartRun(db, id), id, fails, now, now);
    } else {
      TimeKeepsSound(db, clock, now);
    }
  }

  lemma FinishedShape(run: Quality.Run, rs: seq<RuleResult>, now: int)
    ensures var done := Finished(run, rs, now); done.asset == run.asset && done.completedAt == Some(now)
  {
  }

  // ---------------------------------------------------------------- every run

  lemma StepKeepsSound(db: QualityDb, t: Timed, clock: int)
    requires Sound(db, clock) && clock <= t.now
    ensures Sound(Next(db, t), t.now)
  {
    hide Sound, CreateRule, UpdateRule, StartRun, FinishRun, Dispatched;
    TimeKeepsSound(db, clock, t.now);
    match t.event
    case CreatesRule(p) => CreateKeepsSound(db, p, clock, t.now);
    case UpdatesRule(id, u) => if id < |db.rules| { UpdateKeepsSound(db, id, u, clock, t.now); }
    case Profiles(asset, p) => ProfilesKeepSound(db, asset, p, clock, t.now);
    case Dispatches => DispatchKeepsSound(db, clock, t.now);
    case CreatesRun(asset, snapshot) => RunsStep(db, CreateRun(db, asset, snapshot), clock, t.now);
    case StartsRun(id) => if id < |db.runs| { StartKeepsSound(db, id, clock, t.now); }
    case FinishesRun(id, fails) =>
      if id < |db.runs| && db.runs[id].status == Running { FinishKeepsSound(db, id, fails, clock, t.now); }
  }

  lemma ProfilesKeepSound(db: QualityDb, asset: string, p: Profile, clock: int, now: int)
    requires Sound(db, clock) && clock <= now
    ensures Sound(db.(profiles := db.profiles[asset := p]), now)
  {
    hide ParametersKept, Accounted, ContextAgrees;
    var r := db.(profiles := db.profiles[asset := p]);
    RulesStep(db, r, clock, now);
  }

  predicate InTime(events: seq<Timed>) { forall i, j | 0 <= i <= j < |events| :: events[i].now <= events[j].now }

  /** In every state that events in time order can reach, the ledger is gapless and current, every stored
      result is on it, and every context carries the latest explainable run to complete. */
  lemma {:induction false} EveryRunIsSound(events: seq<Timed>, start: int)
    requires InTime(events) && (events != [] ==> start <= events[0].now)
    ensures Sound(Run(EMPTY, events), if events == [] then start else events[|events| - 1].now)
  {
    if events != [] {
      hide Sound, Next;
      var p := events[..|events| - 1];
      EveryRunIsSound(p, start);
      StepKeepsSound(Run(EMPTY, p), events[|events| - 1], if p == [] then start else p[|p| - 1].now);
    }
  }

  lemma {:induction false} GradesAreScored(ledger: map<(nat, nat), Definition>, rs: seq<RuleResult>, snapshot: Profile,
      at: int)
    requires forall r | r in rs :: Recorded(ledger, r, snapshot, at)
    ensures Scored(Grades(rs)) && (Grades(rs) == [] <==> forall r | r in rs :: !r.evaluation.evaluated)
  {
    hide Evaluate, Exact;
    if rs != [] {
      var p, r := rs[..|rs| - 1], rs[|rs| - 1];
      assert rs == p + [r];
      GradesAreScored(ledger, p, snapshot, at);
      assert Recorded(ledger, r, snapshot, at);
      EvaluationIsFine(r.definition, snapshot, at);
      ScopeOfEvaluated(r.definition, snapshot, at);
    }
  }

  lemma ScopeOfEvaluated(d: Definition, snapshot: Profile, now: int)
    ensures Evaluate(d, snapshot, now).Ok? ==> Scope(snapshot, d.column).Ok?
  {
  }

  /** The score stored with a run is null exactly when no rule was evaluated, in 0..100 otherwise, and an
      explainable run has one. */
  lemma StoredScores(db: QualityDb, i: nat, clock: int)
    requires Sound(db, clock) && i < |db.runs| && db.runs[i].status == Succeeded
    ensures var run := db.runs[i];
      && (run.score.None? <==> forall r | r in run.results :: !r.evaluation.evaluated)
      && (run.score.Some? ==> 0 <= run.score.value <= 100)
      && (run.explainable ==> run.score.Some?)
  {
    hide Evaluate, Ledgered, ContextAgrees, ParametersKept, TechnicalScore, Grades;
    var run := db.runs[i];
    assert Accounted(db.ledger, run);
    GradesAreScored(db.ledger, run.results, run.snapshot, run.completedAt.value);
    ScoreInRange(Grades(run.results));
    if run.explainable { assert run.results[0] in run.results; }
  }

  // ---------------------------------------------------------------- parameters

  /** Repeating an accepted update is silent: no new version, no change. */
  lemma UpdateIsIdempotent(db: QualityDb, id: nat, u: RuleUpdate)
    requires id < |db.rules| && UpdateRule(db, id, u).1.Ok?
    ensures UpdateRule(UpdateRule(db, id, u).0, id, u) == (UpdateRule(db, id, u).0, Ok(()))
  {
    hide ValidParameters;
    UpdatedTwice(db.rules[id], u, db.rules[id].version + 1);
    hide Updated;
  }

  lemma UpdatedTwice(r: Rule, u: RuleUpdate, version: nat)
    requires !Rejected(u)
    ensures var once := Updated(r, u).(version := version);
      && Updated(once, u) == once && once.definition.ruleType == r.definition.ruleType
      && Updated(r, u).version == r.version
    ensures Updated(Updated(r, u), u) == Updated(r, u)
  {
  }

  predicate Checked(d: Definition) { d.parameters.JObject? && ValidParameters(d.ruleType, d.parameters.members) }

  /** An accepted update leaves a rule's parameters checked if and only if it does not null them: an
      explicit null skips the check and is stored. */
  lemma UpdateChecksParameters(db: QualityDb, id: nat, u: RuleUpdate)
    requires id < |db.rules| && Checked(db.rules[id].definition) && UpdateRule(db, id, u).1.Ok?
    ensures Checked(UpdateRule(db, id, u).0.rules[id].definition) <==> !u.parameters.Null?
  {
  }

  /** What makes a run of a rule fail: nulled parameters, a column's rule on a snapshot whose "columns" is
      no object, a number that no float holds, or an infinite z-score. */
  predicate Breaks(d: Definition, snapshot: Profile) {
    || d.parameters == JNull
    || NotAMapping(d, snapshot)
    || TooLarge(d, Scope(snapshot, d.column).value.0)
    || InfinitelyOff(d, Scope(snapshot, d.column).value.0)
  }

  lemma BreaksExactly(d: Definition, snapshot: Profile, now: int)
    requires ParametersKept(d)
    ensures var e := Evaluate(d, snapshot, now); e.Ok? && Storable(e.value) <==> !Breaks(d, snapshot)
  {
    if d.parameters == JNull {
      NullParametersAlwaysRaise(d, snapshot, now);
    } else {
      CheckedParametersSuffice(d, snapshot, now);
      if Evaluate(d, snapshot, now).Ok? { InfiniteExactly(d, snapshot, now); }
    }
    hide Evaluate, ValidParameters, InfinitelyOff, TooLarge;
  }

  lemma {:induction false} ResultsExactly(rules: seq<Rule>, n: nat, asset: string, snapshot: Profile, now: int)
    requires n <= |rules| && forall i | 0 <= i < n :: ParametersKept(rules[i].definition)
    ensures Results(rules, n, asset, snapshot, now).Ok? <==>
            forall i | 0 <= i < n && Applies(rules[i], asset) :: !Breaks(rules[i].definition, snapshot)
  {
    hide Evaluate, ParametersKept, Breaks, Storable;
    if n > 0 {
      ResultsExactly(rules, n - 1, asset, snapshot, now);
      BreaksExactly(rules[n - 1].definition, snapshot, now);
    }
  }

  /** A run that the store does not fail succeeds if and only if none of its asset's enabled rules breaks
      on its snapshot. */
  lemma RunsSucceedExactly(db: QualityDb, id: nat, clock: int, now: int)
    requires Sound(db, clock) && id < |db.runs| && Unfinished(db.runs[id])
    ensures ExecuteRun(db, id, now, false).runs[id].status == Succeeded <==>
      forall i | 0 <= i < |db.rules| && Applies(db.rules[i], db.runs[id].asset) ::
        !Breaks(db.rules[i].definition, db.runs[id].snapshot)
  {
    ResultsExactly(db.rules, |db.rules|, db.runs[id].asset, db.runs[id].snapshot, now);
    hide Results, Ledgered, Accounted, ContextAgrees, ParametersKept, Applies, Breaks;
  }
}
