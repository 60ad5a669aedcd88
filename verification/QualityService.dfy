/** The quality operations as they change their store: rule by rule, field by field. */
module QualityService {
  import opened Values
  import opened QualityRules
  import opened QualityScore
  import Q = Quality

  class QualityStore {
    var db: Q.QualityDb

    constructor (db: Q.QualityDb)
      ensures this.db == db
    {
      this.db := db;
    }

    method CreateRule(p: Q.RulePayload) returns (r: Result<nat, Q.Failure>)
      modifies this
      ensures (db, r) == Q.CreateRule(old(db), p)
    {
      if !ValidParameters(p.ruleType, p.parameters) { return Err(Q.InvalidParameters); }
      var id, d := |db.rules|,
        Definition(p.name, p.asset, p.column, p.ruleType, p.severity, p.owner, JObject(p.parameters), true, p.cron);
      db := db.(rules := db.rules + [Q.Rule(d, 1, p.nextRunAt)]);
      db := db.(ledger := db.ledger[(id, 1) := d]);
      r := Ok(id);
    }

    method UpdateRule(id: nat, u: Q.RuleUpdate) returns (r: Result<(), Q.Failure>)
      requires id < |db.rules|
      modifies this
      ensures (db, r) == Q.UpdateRule(old(db), id, u)
    {
      hide Q.Rejected, Q.Updated, ValidParameters;
      var before := db.rules[id];
      if u.parameters.Set? && !ValidParameters(before.definition.ruleType, u.parameters.value) {
        return Err(Q.InvalidParameters);
      }
      if Q.Rejected(u) { return Err(Q.StoreError); }
      var rule := Assign(before, u);
      if rule != before {
        rule := rule.(version := before.version + 1);
        db := db.(rules := db.rules[id := rule]);
        db := db.(ledger := db.ledger[(id, rule.version) := rule.definition]);
      }
      r := Ok(());
    }

    /** The field assignments of an update, in turn. */
    static method Assign(before: Q.Rule, u: Q.RuleUpdate) returns (rule: Q.Rule)
      ensures rule == Q.Updated(before, u)
    {
      hide Q.Patched, Q.PatchedOption;
      var d := before.definition;
      d := d.(name := Q.Patched(u.name, d.name));
      d := d.(severity := Q.Patched(u.severity, d.severity));
      d := d.(owner := Q.PatchedOption(u.owner, d.owner));
      d := d.(parameters := match u.parameters case Unset => d.parameters case Null => JNull case Set(m) => JObject(m));
      d := d.(enabled := Q.Patched(u.enabled, d.enabled));
      d := d.(cron := Q.PatchedOption(u.cron, d.cron));
      rule := before.(definition := d);
      rule := rule.(nextRunAt := Q.PatchedOption(u.nextRunAt, rule.nextRunAt));
    }

    /** The result loop of a run: the first exception, of an evaluation or of the store, ends it. */
    method EvaluateRules(asset: string, snapshot: Profile, now: int) returns (r: Result<seq<Q.RuleResult>, Raised>)
      ensures r == Q.Results(db.rules, |db.rules|, asset, snapshot, now)
    {
      hide Evaluate, Q.Storable;
      var results: seq<Q.RuleResult> := [];
      for id := 0 to |db.rules|
        invariant Q.Results(db.rules, id, asset, snapshot, now) == Ok(results)
      {
        if Q.Applies(db.rules[id], asset) {
          var e := Evaluate(db.rules[id].definition, snapshot, now);
          if e.Err? {
            RaisedStays(db.rules, id + 1, |db.rules|, asset, snapshot, now);
            return Err(e.error);
          }
          if !Q.Storable(e.value) {
            RaisedStays(db.rules, id + 1, |db.rules|, asset, snapshot, now);
            return Err(NotStorable);
          }
          results := results + [Q.RuleResult(id, db.rules[id].version, e.value, db.rules[id].definition)];
        }
      }
      r := Ok(results);
    }

    /** The evaluated results' grades and versions, and whether the run explains itself. */
    method Summarize(results: seq<Q.RuleResult>)
      returns (versions: map<nat, nat>, grades: seq<Graded>, explainable: bool)
      ensures versions == Q.Versions(results) && grades == Q.Grades(results) && explainable == Q.Explainable(results)
    {
      versions, grades, explainable := map[], [], results != [];
      for i := 0 to |results|
        invariant versions == Q.Versions(results[..i]) && grades == Q.Grades(results[..i])
        invariant explainable <==>
          results != [] && forall j | 0 <= j < i ::
            results[j].evaluation.evaluated && results[j].evaluation.evidence != map[]
      {
        var result := results[i];
        assert results[..i + 1][..i] == results[..i];
        versions := versions[result.rule := result.version];
        if result.evaluation.evaluated {
          grades := grades + [Graded(result.definition.severity, result.evaluation.score)];
        }
        explainable := explainable && result.evaluation.evaluated && result.evaluation.evidence != map[];
      }
      assert results[..|results|] == results;
    }

    /** The commit that opens an execution. */
    method StartRun(id: nat) returns (started: bool)
      requires id < |db.runs|
      modifies this
      ensures db == Q.StartRun(old(db), id)
      ensures started == (old(db).runs[id].status != Q.Succeeded && old(db).runs[id].status != Q.Cancelled)
    {
      var run := db.runs[id];
      if run.status == Q.Succeeded || run.status == Q.Cancelled { return false; }
      db := db.(runs := db.runs[id := run.(status := Q.Running)]);
      started := true;
    }

    /** Run and context change in one commit, or the run is marked failed. */
    method FinishRun(id: nat, now: int, fails: bool)
      requires id < |db.runs| && db.runs[id].status == Q.Running
      modifies this
      ensures db == Q.FinishRun(old(db), id, now, fails)
    {
      hide Q.Results, Q.Explainable, Q.Grades, Q.Versions, TechnicalScore;
      var run := db.runs[id];
      var results := EvaluateRules(run.asset, run.snapshot, now);
      if results.Err? || fails {
        db := db.(runs := db.runs[id := run.(status := Q.Failed, completedAt := Some(now))]);
        return;
      }
      var versions, grades, explainable := Summarize(results.value);
      var score := Score(grades);
      run := run.(versions := versions, score := score, explainable := explainable);
      run := run.(status := Q.Succeeded, completedAt := Some(now), results := results.value);
      var context := Q.ContextOf(db, run.asset);
      if explainable { context := context.(latestAt := Some(now), latestScore := score); }
      db := db.(runs := db.runs[id := run], contexts := db.contexts[run.asset := context]);
    }

    method ExecuteRun(id: nat, now: int, fails: bool)
      requires id < |db.runs|
      modifies this
      ensures db == Q.ExecuteRun(old(db), id, now, fails)
    {
      hide Q.FinishRun;
      var started := StartRun(id);
      if started { FinishRun(id, now, fails); }
    }

    method DispatchDueSchedules(now: int)
      modifies this
      ensures db == Q.Dispatched(old(db), |old(db).rules|, now)
    {
      ghost var before := db;
      for id := 0 to |db.rules|
        invariant |db.rules| == |before.rules| && db == Q.Dispatched(before, id, now)
        invariant forall i | id <= i < |before.rules| :: db.rules[i] == before.rules[i]
        invariant db.profiles == before.profiles
      {
        var rule := db.rules[id];
        if Q.IsDue(rule, now) {
          var asset := rule.definition.asset;
          var snapshot := if asset in db.profiles then db.profiles[asset]
            else map["scheduled_at" := JInt(now), "profile_provider" := JText("missing")];
          db := db.(runs := db.runs + [Q.QueuedRun(asset, snapshot)]);
          db := db.(rules := db.rules[id := rule.(nextRunAt := Some(now + Q.SECONDS_PER_DAY))]);
        }
      }
    }
  }

  lemma {:induction false} RaisedStays(rules: seq<Q.Rule>, n: nat, m: nat, asset: string, snapshot: Profile, now: int)
    requires n <= m <= |rules| && Q.Results(rules, n, asset, snapshot, now).Err?
    ensures Q.Results(rules, m, asset, snapshot, now) == Q.Results(rules, n, asset, snapshot, now)
    decreases m
  {
    if n < m { RaisedStays(rules, n, m - 1, asset, snapshot, now); }
  }
}
