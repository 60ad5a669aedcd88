/** Declarative quality rules: the parameter check and the evaluation of a rule against a profile, after
    apps/quality-api/app/services. Floating-point numbers are reals, timestamps seconds. */
module QualityRules {
  import opened Values

  datatype RuleType = Completeness | Uniqueness | Validity | Freshness | ReferentialIntegrity | DistributionAnomaly

  datatype Severity = Low | Medium | High | Critical

  /** What a version of a rule says, and what every result embeds. */
  datatype Definition = Definition(
    name: string, asset: string, column: Option<string>, ruleType: RuleType, severity: Severity, owner: Option<string>,
    parameters: Json, enabled: bool, cron: Option<string>)

  type Profile = map<string, Json>

  datatype Evaluation = Evaluation(
    evaluated: bool, passed: bool, score: int, observed: map<string, Json>, expected: map<string, Json>,
    evidence: map<string, Json>)

  /** The exceptions an evaluation can raise, and the store's when it is handed the result. */
  datatype Raised = MissingParameter | ParametersNotAMapping | ProfileNotAMapping | NumberTooLarge | NotStorable

  /** An infinite floating-point number in a JSON value. */
  const INFINITE := JText("Infinity")

  // ---------------------------------------------------------------- parameters

  function Required(t: RuleType): string {
    match t
    case Completeness => "minimum_ratio"
    case Uniqueness => "minimum_ratio"
    case Validity => "minimum_ratio"
    case Freshness => "maximum_age_minutes"
    case ReferentialIntegrity => "maximum_orphan_ratio"
    case DistributionAnomaly => "maximum_z_score"
  }

  /** A number that is not a bool. */
  function AsNumber(j: Json): Option<real> {
    match j
    case JInt(n) => Some(n as real)
    case JReal(r) => Some(r)
    case _ => None
  }

  function NumberAt(m: map<string, Json>, key: string): Option<real> { if key in m then AsNumber(m[key]) else None }

  function TwoTo(n: nat): nat { if n == 0 then 1 else 2 * TwoTo(n - 1) }

  /** Integers from here on round to more than the largest binary64 number (section 4.3.1 of IEEE 754-2019),
      and their conversion raises. */
  const FLOAT_LIMIT: int := TwoTo(1024) - TwoTo(970)

  predicate Overflows(j: Json) { j.JInt? && (j.n >= FLOAT_LIMIT || j.n <= -FLOAT_LIMIT) }

  predicate OverflowsAt(m: map<string, Json>, key: string) { key in m && Overflows(m[key]) }

  /** The numbers that a rule of this type converts; the row count comes first for every type. */
  function Converted(t: RuleType): set<string> {
    match t
    case Completeness => {"row_count", "null_count"}
    case Uniqueness => {"row_count", "distinct_count"}
    case Validity => {"row_count", "invalid_count"}
    case Freshness => {"row_count"}
    case ReferentialIntegrity => {"row_count", "orphan_count"}
    case DistributionAnomaly => {"row_count", "current_value", "baseline_mean", "baseline_stddev"}
  }

  predicate ConversionFails(t: RuleType, p: Profile) { exists k | k in Converted(t) :: OverflowsAt(p, k) }

  /** `validate_rule_parameters` accepts. */
  predicate ValidParameters(t: RuleType, parameters: map<string, Json>) {
    && Required(t) in parameters
    && (forall k | k in parameters :: AsNumber(parameters[k]).Some?)
    && (forall k | k in {"minimum_ratio", "maximum_orphan_ratio"} && k in parameters ::
          0.0 <= AsNumber(parameters[k]).value <= 1.0)
    && (forall k | k in {"maximum_age_minutes", "maximum_z_score"} && k in parameters ::
          AsNumber(parameters[k]).value >= 0.0)
  }

  // ---------------------------------------------------------------- evaluation

  /** The profile a rule looks at, with the first evidence. */
  function Scope(profile: Profile, column: Option<string>): Result<(Profile, map<string, Json>), Raised> {
    if column.Some? && column.value != "" then
      if "columns" in profile && !profile["columns"].JObject? then Err(ProfileNotAMapping)
      else if "columns" in profile && column.value in profile["columns"].members
        && profile["columns"].members[column.value].JObject? then
        var p := profile["columns"].members[column.value].members;
        Ok((p, map["scope" := JText("column"), "column_name" := JText(column.value), "sample_rows" := RowsOf(p)]))
      else Ok((map[],
               map["scope" := JText("column"), "column_name" := JText(column.value), "missing_profile" := JBool(true)]))
    else Ok((profile, map["scope" := JText("asset"), "sample_rows" := RowsOf(profile)]))
  }

  function RowsOf(profile: Profile): Json { if "sample_rows" in profile then profile["sample_rows"] else JList([]) }

  /** `dict(rule.parameters)` fails on a JSON null. */
  function NotEvaluable(d: Definition, evidence: map<string, Json>): Result<Evaluation, Raised> {
    if d.parameters.JObject? then Ok(Evaluation(false, false, 0, map[], d.parameters.members, evidence))
    else Err(ParametersNotAMapping)
  }

  function Threshold(d: Definition): Result<real, Raised> {
    if !d.parameters.JObject? then Err(ParametersNotAMapping)
    else if OverflowsAt(d.parameters.members, Required(d.ruleType)) then Err(NumberTooLarge)
    else if NumberAt(d.parameters.members, Required(d.ruleType)).Some?
    then Ok(NumberAt(d.parameters.members, Required(d.ruleType)).value)
    else Err(MissingParameter)
  }

  function Judged(passed: bool, observed: map<string, Json>, expected: map<string, Json>,
      evidence: map<string, Json>): Evaluation
  {
    Evaluation(true, passed, if passed then 100 else 0, observed, expected, evidence)
  }

  /** `_ratio_evaluation`; the threshold has been read before. */
  function RatioEvaluation(
    d: Definition, numerator: real, denominator: real, threshold: real, atLeast: bool,
    evidence: map<string, Json>): Result<Evaluation, Raised>
  {
    if denominator <= 0.0 then NotEvaluable(d, evidence)
    else
      var ratio := numerator / denominator;
      Ok(Judged(if atLeast then ratio >= threshold else ratio <= threshold,
                map["ratio" := JReal(ratio), "numerator" := JReal(numerator), "denominator" := JReal(denominator)],
                map["threshold" := JReal(threshold), "comparator" := JText(if atLeast then ">=" else "<=")], evidence))
  }

  function Counted(d: Definition, p: Profile, evidence: map<string, Json>, key: string, more: map<string, Json>)
    : Result<Evaluation, Raised>
  {
    var rows, count := NumberAt(p, "row_count"), NumberAt(p, key);
    if rows.None? || count.None? then NotEvaluable(d, evidence)
    else
      var seen := evidence["row_count" := JReal(rows.value)][key := JReal(count.value)] + more;
      var threshold := Threshold(d);
      if threshold.Err? then Err(threshold.error)
      else if d.ruleType == Completeness || d.ruleType == Validity then
        RatioEvaluation(d, rows.value - count.value, rows.value, threshold.value, true, seen)
      else RatioEvaluation(d, count.value, rows.value, threshold.value, d.ruleType == Uniqueness, seen)
  }

  function Abs(x: real): real { if x < 0.0 then -x else x }

  function Larger(x: real, y: real): real { if x < y then y else x }

  /** `math.isclose` with its default relative tolerance. */
  predicate IsClose(x: real, y: real) { x == y || Abs(x - y) <= 0.000000001 * Larger(Abs(x), Abs(y)) }

  /** None stands for an infinite score. */
  function ZScore(current: real, mean: real, stddev: real): Option<real> {
    if stddev == 0.0 || IsClose(stddev, 0.0) then (if IsClose(current, mean) then Some(0.0) else None)
    else Some(Abs(current - mean) / stddev)
  }

  function Timely(d: Definition, p: Profile, evidence: map<string, Json>, now: int): Result<Evaluation, Raised> {
    if "latest_record_at" !in p || !p["latest_record_at"].JInt? then NotEvaluable(d, evidence)
    else
      var threshold := Threshold(d);
      if threshold.Err? then Err(threshold.error)
      else
        var age := Larger(0.0, (now - p["latest_record_at"].n) as real / 60.0);
        Ok(Judged(age <= threshold.value, map["age_minutes" := JReal(age)],
                  map["maximum_age_minutes" := JReal(threshold.value)],
                  evidence["latest_record_at" := p["latest_record_at"]]["evaluated_at" := JInt(now)]))
  }

  function Distributed(d: Definition, p: Profile, evidence: map<string, Json>): Result<Evaluation, Raised> {
    var current, mean, stddev := NumberAt(p, "current_value"), NumberAt(p, "baseline_mean"),
      NumberAt(p, "baseline_stddev");
    if current.None? || mean.None? || stddev.None? || stddev.value < 0.0 then NotEvaluable(d, evidence)
    else
      var z, threshold := ZScore(current.value, mean.value, stddev.value), Threshold(d);
      if threshold.Err? then Err(threshold.error)
      else
        Ok(Judged(z.Some? && z.value <= threshold.value,
                  map["z_score" := if z.Some? then JReal(z.value) else INFINITE],
                  map["maximum_z_score" := JReal(threshold.value)],
                  evidence["current_value" := JReal(current.value)]["baseline_mean" := JReal(mean.value)]
                          ["baseline_stddev" := JReal(stddev.value)]))
  }

  function Evaluate(d: Definition, profile: Profile, now: int): Result<Evaluation, Raised> {
    var scope := Scope(profile, d.column);
    if scope.Err? then Err(scope.error)
    else
      var (p, evidence) := scope.value;
      if p == map[] then NotEvaluable(d, evidence)
      else if ConversionFails(d.ruleType, p) then Err(NumberTooLarge)
      else match d.ruleType
        case Completeness => Counted(d, p, evidence, "null_count", map[])
        case Uniqueness => Counted(d, p, evidence, "distinct_count", map[])
        case Validity => Counted(d, p, evidence, "invalid_count", map[])
        case Freshness => Timely(d, p, evidence, now)
        case ReferentialIntegrity =>
          var related := if "related_asset_id" in p then p["related_asset_id"] else JNull;
          Counted(d, p, evidence, "orphan_count", map["related_asset_id" := related])
        case DistributionAnomaly => Distributed(d, p, evidence)
  }

  // ---------------------------------------------------------------- what an evaluation promises

  /** Scores are 0 or 100 and say whether the rule passed; the evidence always names its scope. */
  predicate Coherent(e: Evaluation) {
    && e.score == (if e.passed then 100 else 0) && (e.passed ==> e.evaluated)
    && "scope" in e.evidence && (!e.evaluated ==> e.observed == map[])
  }

  /** The evidence that a rule of this type needs from its profile. */
  predicate Evaluable(t: RuleType, p: Profile) {
    match t
    case Freshness => "latest_record_at" in p && p["latest_record_at"].JInt?
    case DistributionAnomaly =>
      NumberAt(p, "current_value").Some? && NumberAt(p, "baseline_mean").Some? && NumberAt(p, "baseline_stddev").Some?
      && NumberAt(p, "baseline_stddev").value >= 0.0
    case _ =>
      NumberAt(p, "row_count").Some? && NumberAt(p, "row_count").value > 0.0
      && NumberAt(p, match t case Completeness => "null_count" case Uniqueness => "distinct_count"
                             case Validity => "invalid_count" case _ => "orphan_count").Some?
  }

  /** What a rule of this type demands of its profile, given its parameter; no division. */
  predicate Meets(t: RuleType, p: Profile, parameter: real, now: int)
    requires Evaluable(t, p)
  {
    match t
    case Completeness =>
      NumberAt(p, "row_count").value - NumberAt(p, "null_count").value >= parameter * NumberAt(p, "row_count").value
    case Uniqueness => NumberAt(p, "distinct_count").value >= parameter * NumberAt(p, "row_count").value
    case Validity =>
      NumberAt(p, "row_count").value - NumberAt(p, "invalid_count").value >= parameter * NumberAt(p, "row_count").value
    case ReferentialIntegrity => NumberAt(p, "orphan_count").value <= parameter * NumberAt(p, "row_count").value
    case Freshness => parameter >= 0.0 && (now - p["latest_record_at"].n) as real <= 60.0 * parameter
    case DistributionAnomaly =>
      var current, mean, stddev :=
        NumberAt(p, "current_value").value, NumberAt(p, "baseline_mean").value, NumberAt(p, "baseline_stddev").value;
      if stddev > 0.0 then Abs(current - mean) <= parameter * stddev else parameter >= 0.0 && IsClose(current, mean)
  }

  /** A rule is judged if and only if its evidence is there, and passes if and only if it is met. */
  predicate Exact(d: Definition, p: Profile, e: Evaluation, now: int) {
    && (e.evaluated <==> Evaluable(d.ruleType, p))
    && (e.evaluated ==> Threshold(d).Ok? && (e.passed <==> Meets(d.ruleType, p, Threshold(d).value, now)))
  }

  predicate Fine(d: Definition, p: Profile, r: Result<Evaluation, Raised>, now: int) {
    r.Ok? ==> Coherent(r.value) && Exact(d, p, r.value, now)
  }

  lemma RatioAgainst(x: real, y: real, t: real)
    requires y > 0.0
    ensures x / y >= t <==> x >= t * y
    ensures x / y <= t <==> x <= t * y
  {
    var q := x / y;
    assert x == q * y;
    if q >= t { assert (q - t) * y >= 0.0; }
    if q < t { assert (t - q) * y > 0.0; }
    if q > t { assert (q - t) * y > 0.0; }
  }

  /** A ratio is judged if its denominator is positive, by the product instead of the quotient. */
  lemma RatioVerdict(d: Definition, x: real, y: real, t: real, atLeast: bool, evidence: map<string, Json>)
    requires "scope" in evidence
    ensures var r := RatioEvaluation(d, x, y, t, atLeast, evidence);
      r.Ok? ==>
        && Coherent(r.value) && (r.value.evaluated <==> y > 0.0)
        && (r.value.evaluated ==> (r.value.passed <==> if atLeast then x >= t * y else x <= t * y))
  {
    if y > 0.0 { RatioAgainst(x, y, t); }
  }

  lemma CountedIsJudged(d: Definition, p: Profile, evidence: map<string, Json>, key: string, more: map<string, Json>)
    requires "scope" in evidence
    requires match d.ruleType
      case Completeness => key == "null_count" case Uniqueness => key == "distinct_count"
      case Validity => key == "invalid_count" case ReferentialIntegrity => key == "orphan_count" case _ => false
    ensures var r := Counted(d, p, evidence, key, more);
      r.Ok? ==>
        && Coherent(r.value) && (r.value.evaluated <==> Evaluable(d.ruleType, p))
        && (r.value.evaluated ==> Threshold(d).Ok?)
  {
    hide Threshold, NumberAt, RatioEvaluation, Coherent;
    var rows, count, t := NumberAt(p, "row_count"), NumberAt(p, key), Threshold(d);
    if rows.Some? && count.Some? && t.Ok? {
      var seen := evidence["row_count" := JReal(rows.value)][key := JReal(count.value)] + more;
      RatioVerdict(d, rows.value - count.value, rows.value, t.value, true, seen);
      RatioVerdict(d, count.value, rows.value, t.value, d.ruleType == Uniqueness, seen);
    }
    NothingIsCoherent(d, evidence);
  }

  lemma CountedIsMet(d: Definition, p: Profile, evidence: map<string, Json>, key: string, more: map<string, Json>,
        now: int)
    requires "scope" in evidence
    requires match d.ruleType
      case Completeness => key == "null_count" case Uniqueness => key == "distinct_count"
      case Validity => key == "invalid_count" case ReferentialIntegrity => key == "orphan_count" case _ => false
    requires Counted(d, p, evidence, key, more).Ok? && Counted(d, p, evidence, key, more).value.evaluated
    requires Evaluable(d.ruleType, p) && Threshold(d).Ok?
    ensures Counted(d, p, evidence, key, more).value.passed <==> Meets(d.ruleType, p, Threshold(d).value, now)
  {
    var rows, count, t := NumberAt(p, "row_count"), NumberAt(p, key), Threshold(d);
    var seen := evidence["row_count" := JReal(rows.value)][key := JReal(count.value)] + more;
    RatioVerdict(d, rows.value - count.value, rows.value, t.value, true, seen);
    RatioVerdict(d, count.value, rows.value, t.value, d.ruleType == Uniqueness, seen);
    hide Threshold, NumberAt, RatioEvaluation, Coherent;
  }

  lemma CountedIsFine(d: Definition, p: Profile, evidence: map<string, Json>, key: string, more: map<string, Json>,
      now: int)
    requires "scope" in evidence
    requires match d.ruleType
      case Completeness => key == "null_count" case Uniqueness => key == "distinct_count"
      case Validity => key == "invalid_count" case ReferentialIntegrity => key == "orphan_count" case _ => false
    ensures Fine(d, p, Counted(d, p, evidence, key, more), now)
  {
    hide Counted, Coherent, Evaluable, Meets, Threshold;
    CountedIsJudged(d, p, evidence, key, more);
    var r := Counted(d, p, evidence, key, more);
    if r.Ok? && r.value.evaluated { CountedIsMet(d, p, evidence, key, more, now); }
  }

  lemma NothingIsCoherent(d: Definition, evidence: map<string, Json>)
    requires "scope" in evidence
    ensures NotEvaluable(d, evidence).Ok? ==>
      Coherent(NotEvaluable(d, evidence).value) && !NotEvaluable(d, evidence).value.evaluated
  {
  }

  lemma TimelyIsFine(d: Definition, p: Profile, evidence: map<string, Json>, now: int)
    requires "scope" in evidence && d.ruleType == Freshness
    ensures Fine(d, p, Timely(d, p, evidence, now), now)
  {
    hide Threshold;
  }

  lemma DistributedIsFine(d: Definition, p: Profile, evidence: map<string, Json>, now: int)
    requires "scope" in evidence && d.ruleType == DistributionAnomaly
    ensures Fine(d, p, Distributed(d, p, evidence), now)
  {
    hide Threshold, NumberAt, IsClose;
    var current, mean, stddev := NumberAt(p, "current_value"), NumberAt(p, "baseline_mean"),
      NumberAt(p, "baseline_stddev");
    if current.Some? && mean.Some? && stddev.Some? && Threshold(d).Ok? {
      ZScoreAgainst(current.value, mean.value, stddev.value, Threshold(d).value);
    }
    hide ZScore;
  }

  lemma ZScoreAgainst(current: real, mean: real, stddev: real, t: real)
    ensures stddev >= 0.0 ==> var z := ZScore(current, mean, stddev);
      z.Some? && z.value <= t <==>
        if stddev > 0.0 then Abs(current - mean) <= t * stddev else t >= 0.0 && IsClose(current, mean)
  {
    if stddev > 0.0 {
      NeverCloseToZero(stddev);
      RatioAgainst(Abs(current - mean), stddev, t);
    }
  }

  lemma NeverCloseToZero(x: real)
    requires x > 0.0
    ensures !IsClose(x, 0.0)
  {
  }

  lemma ScopeIsNamed(profile: Profile, column: Option<string>)
    ensures Scope(profile, column).Ok? ==> "scope" in Scope(profile, column).value.1
  {
  }

  /** Every evaluation that does not raise is coherent, and judges its scope of the profile exactly. */
  lemma EvaluationIsFine(d: Definition, profile: Profile, now: int)
    ensures Scope(profile, d.column).Ok? ==> Fine(d, Scope(profile, d.column).value.0, Evaluate(d, profile, now), now)
  {
    hide Fine, Scope, Counted, Timely, Distributed, ConversionFails;
    ScopeIsNamed(profile, d.column);
    var scope := Scope(profile, d.column);
    if scope.Ok? {
      var (p, evidence) := scope.value;
      if p == map[] {
        NothingIsFine(d, p, evidence, now);
      } else if ConversionFails(d.ruleType, p) {
        RaisedIsFine(d, p, NumberTooLarge, now);
      } else if d.ruleType == Freshness {
        TimelyIsFine(d, p, evidence, now);
      } else if d.ruleType == DistributionAnomaly {
        DistributedIsFine(d, p, evidence, now);
      } else if d.ruleType == Completeness {
        CountedIsFine(d, p, evidence, "null_count", map[], now);
      } else if d.ruleType == Uniqueness {
        CountedIsFine(d, p, evidence, "distinct_count", map[], now);
      } else if d.ruleType == Validity {
        CountedIsFine(d, p, evidence, "invalid_count", map[], now);
      } else {
        var related := if "related_asset_id" in p then p["related_asset_id"] else JNull;
        CountedIsFine(d, p, evidence, "orphan_count", map["related_asset_id" := related], now);
      }
    }
  }

  lemma RaisedIsFine(d: Definition, p: Profile, error: Raised, now: int)
    ensures Fine(d, p, Err(error), now)
  {
  }

  lemma NothingIsFine(d: Definition, p: Profile, evidence: map<string, Json>, now: int)
    requires "scope" in evidence && p == map[]
    ensures Fine(d, p, NotEvaluable(d, evidence), now)
  {
  }

  /** The evidence is there that makes an evaluation read the rule's parameter. */
  predicate ReadsParameter(t: RuleType, p: Profile) {
    match t
    case Freshness => "latest_record_at" in p && p["latest_record_at"].JInt?
    case DistributionAnomaly =>
      NumberAt(p, "current_value").Some? && NumberAt(p, "baseline_mean").Some? && NumberAt(p, "baseline_stddev").Some?
      && NumberAt(p, "baseline_stddev").value >= 0.0
    case _ =>
      NumberAt(p, "row_count").Some?
      && NumberAt(p, match t case Completeness => "null_count" case Uniqueness => "distinct_count"
                             case Validity => "invalid_count" case _ => "orphan_count").Some?
  }

  /** A number of the profile that the rule converts, or its own parameter when it is read, is too large. */
  predicate TooLarge(d: Definition, p: Profile) {
    && p != map[]
    && (ConversionFails(d.ruleType, p)
        || (ReadsParameter(d.ruleType, p) && d.parameters.JObject?
            && OverflowsAt(d.parameters.members, Required(d.ruleType))))
  }

  predicate NotAMapping(d: Definition, profile: Profile) {
    d.column.Some? && d.column.value != "" && "columns" in profile && !profile["columns"].JObject?
  }

  lemma CheckedThreshold(d: Definition)
    requires d.parameters.JObject? && ValidParameters(d.ruleType, d.parameters.members)
    ensures Threshold(d).Err? <==> OverflowsAt(d.parameters.members, Required(d.ruleType))
  {
    hide Overflows;
  }

  lemma CountedRaises(d: Definition, p: Profile, evidence: map<string, Json>, key: string, more: map<string, Json>)
    requires d.parameters.JObject?
    ensures Counted(d, p, evidence, key, more).Err? <==>
      NumberAt(p, "row_count").Some? && NumberAt(p, key).Some? && Threshold(d).Err?
  {
    hide NumberAt, Threshold;
  }

  lemma OthersRaise(d: Definition, p: Profile, evidence: map<string, Json>, now: int)
    requires d.parameters.JObject?
    ensures Timely(d, p, evidence, now).Err? <==> ReadsParameter(Freshness, p) && Threshold(d).Err?
    ensures Distributed(d, p, evidence).Err? <==> ReadsParameter(DistributionAnomaly, p) && Threshold(d).Err?
  {
    hide NumberAt, Threshold, ZScore;
  }

  /** Checked parameters keep an evaluation from failing for want of one: it raises only on a profile whose
      "columns" is not an object, and on a number that no float holds. */
  lemma CheckedParametersSuffice(d: Definition, profile: Profile, now: int)
    requires d.parameters.JObject? && ValidParameters(d.ruleType, d.parameters.members)
    ensures Evaluate(d, profile, now).Err? <==>
            NotAMapping(d, profile) || TooLarge(d, Scope(profile, d.column).value.0)
  {
    CheckedThreshold(d);
    hide ConversionFails, OverflowsAt, ValidParameters, Threshold, NumberAt, IsClose, RowsOf, ZScore;
    if Scope(profile, d.column).Ok? {
      var (p, evidence) := Scope(profile, d.column).value;
      var related := if "related_asset_id" in p then p["related_asset_id"] else JNull;
      CountedRaises(d, p, evidence, "null_count", map[]);
      CountedRaises(d, p, evidence, "distinct_count", map[]);
      CountedRaises(d, p, evidence, "invalid_count", map[]);
      CountedRaises(d, p, evidence, "orphan_count", map["related_asset_id" := related]);
      OthersRaise(d, p, evidence, now);
      hide Counted, Timely, Distributed;
    }
  }

  /** An anomaly rule over a baseline without deviation, whose present value is not close to its mean. */
  predicate InfinitelyOff(d: Definition, p: Profile) {
    && d.ruleType == DistributionAnomaly && Evaluable(d.ruleType, p) && NumberAt(p, "baseline_stddev").value == 0.0
    && !IsClose(NumberAt(p, "current_value").value, NumberAt(p, "baseline_mean").value)
  }

  predicate Infinite(e: Evaluation) { "z_score" in e.observed && e.observed["z_score"] == INFINITE }

  lemma CountedIsFinite(d: Definition, p: Profile, evidence: map<string, Json>, key: string, more: map<string, Json>)
    ensures Counted(d, p, evidence, key, more).Ok? ==> !Infinite(Counted(d, p, evidence, key, more).value)
  {
    hide Threshold, NumberAt;
  }

  lemma TimelyIsFinite(d: Definition, p: Profile, evidence: map<string, Json>, now: int)
    ensures Timely(d, p, evidence, now).Ok? ==> !Infinite(Timely(d, p, evidence, now).value)
  {
    hide Threshold;
  }

  lemma DistributedIsInfinite(d: Definition, p: Profile, evidence: map<string, Json>)
    requires d.ruleType == DistributionAnomaly && Distributed(d, p, evidence).Ok?
    ensures Infinite(Distributed(d, p, evidence).value) <==> InfinitelyOff(d, p)
  {
    hide Threshold, NumberAt, IsClose;
    if Evaluable(d.ruleType, p) && NumberAt(p, "baseline_stddev").value > 0.0 {
      NeverCloseToZero(NumberAt(p, "baseline_stddev").value);
    }
  }

  /** Only such a rule yields an infinite number. */
  lemma InfiniteExactly(d: Definition, profile: Profile, now: int)
    requires Evaluate(d, profile, now).Ok?
    ensures Infinite(Evaluate(d, profile, now).value) <==> InfinitelyOff(d, Scope(profile, d.column).value.0)
  {
    var (p, evidence) := Scope(profile, d.column).value;
    if d.ruleType == DistributionAnomaly {
      if p != map[] { DistributedIsInfinite(d, p, evidence); }
    } else if d.ruleType == Freshness {
      TimelyIsFinite(d, p, evidence, now);
    } else {
      var related := if "related_asset_id" in p then p["related_asset_id"] else JNull;
      CountedIsFinite(d, p, evidence, "null_count", map[]);
      CountedIsFinite(d, p, evidence, "distinct_count", map[]);
      CountedIsFinite(d, p, evidence, "invalid_count", map[]);
      CountedIsFinite(d, p, evidence, "orphan_count", map["related_asset_id" := related]);
    }
    hide Counted, Timely, Distributed, Scope, RowsOf;
  }

  /** Parameters that are null make every evaluation raise, whatever the profile. */
  lemma NullParametersAlwaysRaise(d: Definition, profile: Profile, now: int)
    requires d.parameters == JNull
    ensures Evaluate(d, profile, now).Err?
  {
  }
}
