/** The deterministic risk score of plus/domain/services/risk-engine.ts, over real numbers. */
module RiskEngine {
  import opened Outcomes
  import opened Entitlement
  import Quotients

  // ---- Policy ----

  datatype Weights = Weights(
    countryDeviation: real, ipReputation: real, deviceTrust: real, timeAnomaly: real, operationCriticality: real,
    resourceCriticality: real, pestilloState: real, historyDeviation: real, velocity: real)

  datatype Thresholds = Thresholds(allow: real, challenge: real, deny: real)

  datatype Modifiers = Modifiers(closed: real, enabled: real, stepUp: real, temporary: real)

  datatype Policy = Policy(
    weights: Weights, thresholds: Thresholds, countryRisk: map<string, real>, operationRisk: map<string, real>,
    criticalityRisk: map<string, real>, modifiers: Modifiers, maxRequestsPerMinute: int)

  const DEFAULT_RISK_POLICY := Policy(
    Weights(0.20, 0.10, 0.15, 0.10, 0.15, 0.10, 0.10, 0.05, 0.05),
    Thresholds(30.0, 70.0, 100.0),
    map["US" := 10.0, "CA" := 10.0, "GB" := 10.0, "DE" := 10.0, "FR" := 10.0, "JP" := 10.0, "AU" := 10.0,
        "EC" := 10.0, "CO" := 15.0, "PE" := 15.0, "CL" := 15.0, "AR" := 15.0, "MX" := 20.0, "BR" := 25.0,
        "CN" := 60.0, "RU" := 60.0, "KP" := 90.0, "IR" := 80.0],
    map["AUTOFILL" := 1.0, "VIEW" := 0.8, "TOTP" := 0.8, "CONNECT" := 1.2, "READ" := 0.8, "ADMIN" := 2.0,
        "BACKUP" := 1.5, "RESTORE" := 2.0, "ROTATE_SECRET" := 1.8, "EDIT_SECRET" := 1.5, "DELETE_SECRET" := 2.0,
        "EXPORT_SECRET" := 2.0],
    map["low" := 0.5, "medium" := 1.0, "high" := 1.5, "critical" := 2.0],
    Modifiers(0.0, 1.0, 0.5, 1.2),
    30)

  // ---- Context ----

  datatype History = History(
    recentFailedAttempts: int, recentSuccessfulOps: int, avgRiskScore: real, knownDevices: seq<string>)

  datatype Context = Context(
    userId: string, habitualCountries: seq<string>, operation: string, criticality: string,
    pestilloState: PestilloState, country: Option<string>, deviceId: Option<string>, timestamp: int,
    history: Option<History>)

  datatype Location = Location(country: string, timestamp: int)

  datatype Factor = Factor(score: real, weight: real)

  datatype Decision = Allow | Challenge | Deny

  datatype Evaluation = Evaluation(totalScore: int, factors: seq<Factor>, decision: Decision)

  // ---- The nine factors ----

  function Min(x: real, y: real): real {
    if x <= y then x else y
  }

  function Max(x: real, y: real): real {
    if x <= y then y else x
  }

  /** Math.round: halves go up. */
  function Round(x: real): int {
    (x + 0.5).Floor
  }

  /** An empty string counts as not given. */
  predicate Given(s: Option<string>) {
    s.Some? && s.value != ""
  }

  function Upper(s: string): string {
    seq(|s|, i requires 0 <= i < |s| => if 'a' <= s[i] <= 'z' then (s[i] as int - 32) as char else s[i])
  }

  function CountryDeviation(c: Context, p: Policy): real {
    if !Given(c.country) then 50.0
    else
      var current := Upper(c.country.value);
      if c.habitualCountries == [] then 30.0
      else if exists h :: h in c.habitualCountries && Upper(h) == current then 0.0
      else Min(if current in p.countryRisk then p.countryRisk[current] else 50.0, 80.0)
  }

  function DeviceTrust(c: Context): real {
    if !Given(c.deviceId) then 40.0
    else if c.history.Some? && c.deviceId.value in c.history.value.knownDevices then 0.0
    else 50.0
  }

  /** Business hours are 8 to 18 UTC, Monday to Friday; day 0 of the epoch was a Thursday. */
  predicate IsBusinessHours(timestamp: int) {
    var hour, day := timestamp / 3_600_000 % 24, (timestamp / 86_400_000 + 4) % 7;
    8 <= hour <= 18 && 1 <= day <= 5
  }

  /** A zero timestamp falls back to the clock. */
  function TimeAnomaly(c: Context, now: int): real {
    if IsBusinessHours(if c.timestamp != 0 then c.timestamp else now) then 0.0 else 25.0
  }

  /** Only a multiplier above one adds risk. */
  function Criticality(multipliers: map<string, real>, key: string): real {
    var multiplier := if key in multipliers then multipliers[key] else 1.0;
    Max(0.0, Min((multiplier - 1.0) * 50.0, 50.0))
  }

  function PestilloScore(c: Context, p: Policy): real {
    match c.pestilloState
    case Closed => 100.0
    case Enabled => Round(0.0 * p.modifiers.enabled) as real
    case StepUp => 30.0
    case Temporary => Round(20.0 * p.modifiers.temporary) as real
  }

  function HistoryDeviation(c: Context): real {
    match c.history
    case None => 20.0
    case Some(h) =>
      Min((if h.recentFailedAttempts > 3 then 30.0 else 0.0) + (if h.avgRiskScore > 50.0 then 20.0 else 0.0), 80.0)
  }

  function Velocity(c: Context, p: Policy, last: map<string, Location>): real {
    var requests := if c.history.Some? && c.history.value.recentSuccessfulOps != 0
                       && c.history.value.recentSuccessfulOps > p.maxRequestsPerMinute then 25.0 else 0.0;
    var travel := if Given(c.country) && c.history.Some? && c.userId in last
                     && last[c.userId].country != c.country.value then 40.0 else 0.0;
    Min(requests + travel, 80.0)
  }

  function Factors(c: Context, p: Policy, last: map<string, Location>, now: int): seq<Factor> {
    [ Factor(CountryDeviation(c, p), p.weights.countryDeviation),
      Factor(0.0, p.weights.ipReputation),
      Factor(DeviceTrust(c), p.weights.deviceTrust),
      Factor(TimeAnomaly(c, now), p.weights.timeAnomaly),
      Factor(Criticality(p.operationRisk, c.operation), p.weights.operationCriticality),
      Factor(Criticality(p.criticalityRisk, c.criticality), p.weights.resourceCriticality),
      Factor(PestilloScore(c, p), p.weights.pestilloState),
      Factor(HistoryDeviation(c), p.weights.historyDeviation),
      Factor(Velocity(c, p, last), p.weights.velocity) ]
  }

  // ---- The weighted score ----

  function Term(f: Factor): real {
    f.score * f.weight
  }

  function WeightedSum(fs: seq<Factor>): real {
    if fs == [] then 0.0 else WeightedSum(fs[..|fs| - 1]) + Term(fs[|fs| - 1])
  }

  function TotalWeight(fs: seq<Factor>): real {
    if fs == [] then 0.0 else TotalWeight(fs[..|fs| - 1]) + fs[|fs| - 1].weight
  }

  function WeightedScore(fs: seq<Factor>): real {
    if TotalWeight(fs) > 0.0 then WeightedSum(fs) / TotalWeight(fs) else 0.0
  }

  function MakeDecision(p: Policy, score: real, state: PestilloState): Decision {
    if state.Closed? then Deny
    else if state.StepUp? then Challenge
    else if score <= p.thresholds.allow then Allow
    else if score <= p.thresholds.challenge then Challenge
    else Deny
  }

  /** The rounded score is reported; the decision is taken on the unrounded one. */
  function Evaluate(c: Context, p: Policy, last: map<string, Location>, now: int): Evaluation {
    var fs := Factors(c, p, last, now);
    Evaluation(Round(WeightedScore(fs)), fs, MakeDecision(p, WeightedScore(fs), c.pestilloState))
  }

  // ---- The program ----

  class AdaptiveRiskEngine {
    var policy: Policy
    var lastKnownLocation: map<string, Location>

    constructor (policy: Policy)
      ensures this.policy == policy && lastKnownLocation == map[]
    {
      this.policy := policy;
      lastKnownLocation := map[];
    }

    method CalculateWeightedScore(factors: seq<Factor>) returns (score: real)
      ensures score == WeightedScore(factors)
    {
      var totalWeight := 0.0;
      var weightedSum := 0.0;
      for i := 0 to |factors|
        invariant weightedSum == WeightedSum(factors[..i]) && totalWeight == TotalWeight(factors[..i])
      {
        weightedSum := weightedSum + factors[i].score * factors[i].weight;
        totalWeight := totalWeight + factors[i].weight;
        assert factors[..i + 1][..i] == factors[..i];
      }
      assert factors[..|factors|] == factors;
      score := if totalWeight > 0.0 then weightedSum / totalWeight else 0.0;
    }

    /** Scores the request, and remembers where the user was seen. */
    method EvaluateRequest(c: Context, now: int) returns (r: Evaluation)
      modifies this`lastKnownLocation
      ensures r == Evaluate(c, policy, old(lastKnownLocation), now)
      ensures lastKnownLocation == if Given(c.country)
                                   then old(lastKnownLocation)[c.userId := Location(c.country.value, c.timestamp)]
                                   else old(lastKnownLocation)
    {
      var factors := Factors(c, policy, lastKnownLocation, now);
      var totalScore := CalculateWeightedScore(factors);
      var decision := MakeDecision(policy, totalScore, c.pestilloState);
      if Given(c.country) {
        lastKnownLocation := lastKnownLocation[c.userId := Location(c.country.value, c.timestamp)];
      }
      r := Evaluation(Round(totalScore), factors, decision);
    }
  }

  // ---- The score is an average ----

  ghost predicate NonNegativeWeights(fs: seq<Factor>) {
    forall i :: 0 <= i < |fs| ==> fs[i].weight >= 0.0
  }

  lemma NonNegativeProduct(x: real, y: real)
    requires x >= 0.0 && y >= 0.0
    ensures x * y >= 0.0
  {
  }

  lemma {:induction false} SumBetween(fs: seq<Factor>, lo: real, hi: real)
    requires NonNegativeWeights(fs) && forall i :: 0 <= i < |fs| ==> lo <= fs[i].score <= hi
    ensures lo * TotalWeight(fs) <= WeightedSum(fs) <= hi * TotalWeight(fs)
    ensures TotalWeight(fs) >= 0.0
    decreases |fs|
  {
    if fs != [] {
      var f := fs[|fs| - 1];
      SumBetween(fs[..|fs| - 1], lo, hi);
      NonNegativeProduct(f.score - lo, f.weight);
      NonNegativeProduct(hi - f.score, f.weight);
    }
  }

  /** For weights that are not negative and not all zero the score lies between the smallest and
      the largest factor. */
  lemma ScoreIsAnAverage(fs: seq<Factor>, lo: real, hi: real)
    requires NonNegativeWeights(fs) && TotalWeight(fs) > 0.0
    requires forall i :: 0 <= i < |fs| ==> lo <= fs[i].score <= hi
    ensures lo <= WeightedScore(fs) <= hi
  {
    SumBetween(fs, lo, hi);
    QuotientBetween(lo, hi, WeightedSum(fs), TotalWeight(fs));
  }

  lemma QuotientBetween(lo: real, hi: real, x: real, w: real)
    requires w > 0.0 && lo * w <= x <= hi * w
    ensures lo <= x / w <= hi
  {
    var q := x / w;
    assert q * w == x;
    if q < lo {
      ScalesStrictly(q, lo, w);
    }
    if hi < q {
      ScalesStrictly(hi, q, w);
    }
  }

  lemma ScalesStrictly(x: real, y: real, w: real)
    requires w > 0.0 && x < y
    ensures x * w < y * w
  {
    assert (y - x) * w > 0.0;
  }

  lemma {:induction false} SumIsMonotone(fs: seq<Factor>, i: nat, score: real)
    requires i < |fs| && fs[i].score <= score && fs[i].weight >= 0.0
    ensures var raised := fs[i := fs[i].(score := score)];
            WeightedSum(fs) <= WeightedSum(raised) && TotalWeight(fs) == TotalWeight(raised)
    decreases |fs|
  {
    var raised, n := fs[i := fs[i].(score := score)], |fs| - 1;
    if i < n {
      SumIsMonotone(fs[..n], i, score);
      assert raised[..n] == fs[..n][i := fs[i].(score := score)];
    } else {
      assert raised[..n] == fs[..n];
      NonNegativeProduct(score - fs[n].score, fs[n].weight);
    }
  }

  /** Raising one factor never lowers the score. */
  lemma ScoreIsMonotone(fs: seq<Factor>, i: nat, score: real)
    requires i < |fs| && fs[i].score <= score && NonNegativeWeights(fs)
    ensures WeightedScore(fs) <= WeightedScore(fs[i := fs[i].(score := score)])
  {
    SumIsMonotone(fs, i, score);
    var raised := fs[i := fs[i].(score := score)];
    if TotalWeight(fs) > 0.0 {
      var w := TotalWeight(fs);
      QuotientBetween(WeightedScore(fs), WeightedScore(raised), WeightedSum(raised), w) by {
        assert WeightedScore(fs) * w == WeightedSum(fs) && WeightedScore(raised) * w == WeightedSum(raised);
      }
    }
  }

  // ---- The bands ----

  /** The factors come to at most `limit` on the whole, without dividing. */
  predicate ScoreAtMost(fs: seq<Factor>, limit: real) {
    if TotalWeight(fs) > 0.0 then WeightedSum(fs) <= limit * TotalWeight(fs) else 0.0 <= limit
  }

  lemma ScoreAtMostIff(fs: seq<Factor>, limit: real)
    ensures ScoreAtMost(fs, limit) <==> WeightedScore(fs) <= limit
  {
    if TotalWeight(fs) > 0.0 {
      QuotientAtMostIff(WeightedSum(fs), TotalWeight(fs), limit);
    }
  }

  lemma QuotientAtMostIff(x: real, w: real, limit: real)
    requires w > 0.0
    ensures x <= limit * w <==> x / w <= limit
  {
    var q := x / w;
    assert q * w == x;
    if limit < q {
      ScalesStrictly(limit, q, w);
    } else if q < limit {
      ScalesStrictly(q, limit, w);
    }
  }

  /** The three bands of an open entitlement: up to the first threshold a request is allowed, above both it is
      denied, and in between it is challenged. A step-up state is always challenged, a closed one denied. */
  lemma BandsIff(c: Context, p: Policy, last: map<string, Location>, now: int)
    ensures var e := Evaluate(c, p, last, now);
            var low := ScoreAtMost(e.factors, p.thresholds.allow);
            var middle := ScoreAtMost(e.factors, p.thresholds.challenge);
            var open := c.pestilloState.Enabled? || c.pestilloState.Temporary?;
            && (e.decision == Allow <==> open && low)
            && (e.decision == Challenge <==> c.pestilloState.StepUp? || (open && !low && middle))
            && (e.decision == Deny <==> c.pestilloState.Closed? || (open && !low && !middle))
  {
    var fs := Factors(c, p, last, now);
    ScoreAtMostIff(fs, p.thresholds.allow);
    ScoreAtMostIff(fs, p.thresholds.challenge);
  }

  // ---- What the factors score ----

  /** A country the user is usually in costs nothing, in whatever case it is written; another one costs what the
      policy says of it, 50 if it says nothing, and at most 80. */
  lemma CountryScores(c: Context, p: Policy, country: string, home: string)
    requires country != "" && home in c.habitualCountries
    ensures CountryDeviation(c.(country := None), p) == CountryDeviation(c.(country := Some("")), p) == 50.0
    ensures CountryDeviation(c.(country := Some(country), habitualCountries := []), p) == 30.0
    ensures Upper(country) == Upper(home) ==> CountryDeviation(c.(country := Some(country)), p) == 0.0
    ensures (forall h :: h in c.habitualCountries ==> Upper(h) != Upper(country)) ==>
              CountryDeviation(c.(country := Some(country)), p)
              == if Upper(country) !in p.countryRisk then 50.0
                 else if p.countryRisk[Upper(country)] > 80.0 then 80.0 else p.countryRisk[Upper(country)]
  {
  }

  /** The case of letters: the `k`th small letter becomes the `k`th capital, and nothing else changes. */
  lemma UpperLetter(s: string, i: nat, k: nat)
    requires i < |s| && k < 26
    ensures |Upper(s)| == |s|
    ensures s[i] as int == 'a' as int + k ==> Upper(s)[i] as int == 'A' as int + k
    ensures s[i] < 'a' || 'z' < s[i] ==> Upper(s)[i] == s[i]
  {
  }

  lemma DeviceScores(c: Context, device: string, h: History)
    requires device != ""
    ensures DeviceTrust(c.(deviceId := None)) == DeviceTrust(c.(deviceId := Some(""))) == 40.0
    ensures DeviceTrust(c.(deviceId := Some(device), history := None)) == 50.0
    ensures DeviceTrust(c.(deviceId := Some(device), history := Some(h)))
         == if device in h.knownDevices then 0.0 else 50.0
  {
  }

  /** Instants by their week, counted from the Monday after the epoch began, their day in it from Monday on, and
      their hour in that day: nothing to add from Monday to Friday from eight to the end of the hour of 18. */
  lemma TimeScores(c: Context, now: int, week: int, day: int, hour: int, ms: int)
    requires 0 <= day < 7 && 0 <= hour < 24 && 0 <= ms < 3_600_000
    ensures var t := ((week * 7 + day + 4) * 24 + hour) * 3_600_000 + ms;
            var score := if day <= 4 && 8 <= hour <= 18 then 0.0 else 25.0;
            (t != 0 ==> TimeAnomaly(c.(timestamp := t), now) == score) && TimeAnomaly(c.(timestamp := 0), t) == score
  {
    var days := week * 7 + day + 4;
    var t := (days * 24 + hour) * 3_600_000 + ms;
    CalendarOf(days * 24 + hour, ms, 3_600_000);
    CalendarOf(days, hour, 24);
    CalendarOf(days, hour * 3_600_000 + ms, 86_400_000);
    assert t == days * 86_400_000 + (hour * 3_600_000 + ms);
    CalendarOf(week + 1, (day + 1) % 7, 7);
    if day == 6 {
      CalendarOf(week + 2, 0, 7);
    }
  }

  lemma CalendarOf(whole: int, part: int, size: int)
    requires 0 <= part < size
    ensures (whole * size + part) / size == whole && (whole * size + part) % size == part
  {
    var q, r := (whole * size + part) / size, (whole * size + part) % size;
    assert whole * size + part == q * size + r;
    assert (whole - q) * size == r - part;
    if whole > q {
      Quotients.Scales(1, whole - q, size);
      assert false;
    }
    if whole < q {
      Quotients.Scales(whole - q, -1, size);
      assert false;
    }
  }

  /** The default bands end at 30 and 70. */
  lemma DefaultBandsIff(c: Context, last: map<string, Location>, now: int)
    requires c.pestilloState.Enabled? || c.pestilloState.Temporary?
    ensures var e := Evaluate(c, DEFAULT_RISK_POLICY, last, now);
            var score := WeightedScore(e.factors);
            e.decision == if score <= 30.0 then Allow else if score <= 70.0 then Challenge else Deny
  {
    var fs := Factors(c, DEFAULT_RISK_POLICY, last, now);
    BandsIff(c, DEFAULT_RISK_POLICY, last, now);
    ScoreAtMostIff(fs, 30.0);
    ScoreAtMostIff(fs, 70.0);
  }

  /** What the default policy says of a country: the list of each score, and nothing of any other. */
  lemma DefaultCountryRisks(country: string)
    ensures var risk := DEFAULT_RISK_POLICY.countryRisk;
            && (country in {"US", "CA", "GB", "DE", "FR", "JP", "AU", "EC"} <==> Find(risk, country) == Some(10.0))
            && (country in {"CO", "PE", "CL", "AR"} <==> Find(risk, country) == Some(15.0))
            && (country == "MX" <==> Find(risk, country) == Some(20.0))
            && (country == "BR" <==> Find(risk, country) == Some(25.0))
            && (country in {"CN", "RU"} <==> Find(risk, country) == Some(60.0))
            && (country == "IR" <==> Find(risk, country) == Some(80.0))
            && (country == "KP" <==> Find(risk, country) == Some(90.0))
            && (Find(risk, country).Some? ==> Find(risk, country).value in {10.0, 15.0, 20.0, 25.0, 60.0, 80.0, 90.0})
  {
  }

  function Find(risk: map<string, real>, country: string): Option<real> {
    if country in risk then Some(risk[country]) else None
  }

  /** What the default policy adds for the operation, the resource and the state of the entitlement. */
  lemma DefaultMultiplierScores(c: Context)
    ensures var p := DEFAULT_RISK_POLICY;
            && Criticality(p.operationRisk, c.operation)
               == (if c.operation in {"ADMIN", "RESTORE", "DELETE_SECRET", "EXPORT_SECRET"} then 50.0
                   else if c.operation == "ROTATE_SECRET" then 40.0
                   else if c.operation in {"BACKUP", "EDIT_SECRET"} then 25.0
                   else if c.operation == "CONNECT" then 10.0 else 0.0)
            && Criticality(p.criticalityRisk, c.criticality)
               == (if c.criticality == "critical" then 50.0 else if c.criticality == "high" then 25.0 else 0.0)
            && PestilloScore(c, p) == match c.pestilloState
                                      case Closed => 100.0
                                      case Enabled => 0.0
                                      case StepUp => 30.0
                                      case Temporary => 24.0
  {
    assert Round(24.0) == 24 && Round(0.0) == 0;
  }

  /** History: 20 when there is none, 30 for more than three recent failures and 20 for an average above 50. And
      speed: 25 for more requests than the policy allows a minute and 40 for a change of country. */
  lemma HistoryScores(c: Context, p: Policy, last: map<string, Location>, h: History, country: string)
    requires country != "" && p.maxRequestsPerMinute > 0
    ensures HistoryDeviation(c.(history := None)) == 20.0
    ensures h.recentFailedAttempts <= 3 && h.avgRiskScore <= 50.0 ==> HistoryDeviation(c.(history := Some(h))) == 0.0
    ensures h.recentFailedAttempts > 3 && h.avgRiskScore <= 50.0 ==> HistoryDeviation(c.(history := Some(h))) == 30.0
    ensures h.recentFailedAttempts <= 3 && h.avgRiskScore > 50.0 ==> HistoryDeviation(c.(history := Some(h))) == 20.0
    ensures h.recentFailedAttempts > 3 && h.avgRiskScore > 50.0 ==> HistoryDeviation(c.(history := Some(h))) == 50.0
    ensures Velocity(c.(history := None), p, last) == 0.0
    ensures var here := c.(history := Some(h), country := Some(country));
            var busy := h.recentSuccessfulOps > p.maxRequestsPerMinute;
            var moved := c.userId in last && last[c.userId].country != country;
            && (!busy && !moved ==> Velocity(here, p, last) == 0.0)
            && (busy && !moved ==> Velocity(here, p, last) == 25.0)
            && (!busy && moved ==> Velocity(here, p, last) == 40.0)
            && (busy && moved ==> Velocity(here, p, last) == 65.0)
  {
  }

  // ---- The default policy ----

  lemma LastTerm(fs: seq<Factor>, k: nat)
    requires 0 < k <= |fs|
    ensures WeightedSum(fs[..k]) == WeightedSum(fs[..k - 1]) + Term(fs[k - 1])
    ensures TotalWeight(fs[..k]) == TotalWeight(fs[..k - 1]) + fs[k - 1].weight
  {
    assert fs[..k][..k - 1] == fs[..k - 1];
  }

  lemma FirstTerms(fs: seq<Factor>)
    requires |fs| >= 5
    ensures WeightedSum(fs[..5]) == Term(fs[0]) + Term(fs[1]) + Term(fs[2]) + Term(fs[3]) + Term(fs[4])
    ensures TotalWeight(fs[..5]) == fs[0].weight + fs[1].weight + fs[2].weight + fs[3].weight + fs[4].weight
  {
    LastTerm(fs, 1);
    LastTerm(fs, 2);
    LastTerm(fs, 3);
    LastTerm(fs, 4);
    LastTerm(fs, 5);
    assert fs[..0] == [];
  }

  lemma NineTerms(fs: seq<Factor>)
    requires |fs| == 9
    ensures WeightedSum(fs) == Term(fs[0]) + Term(fs[1]) + Term(fs[2]) + Term(fs[3]) + Term(fs[4]) + Term(fs[5])
                               + Term(fs[6]) + Term(fs[7]) + Term(fs[8])
    ensures TotalWeight(fs) == fs[0].weight + fs[1].weight + fs[2].weight + fs[3].weight + fs[4].weight
                               + fs[5].weight + fs[6].weight + fs[7].weight + fs[8].weight
  {
    FirstTerms(fs);
    LastTerm(fs, 6);
    LastTerm(fs, 7);
    LastTerm(fs, 8);
    LastTerm(fs, 9);
    assert fs[..9] == fs;
  }

  lemma WithDefaultWeights(fs: seq<Factor>)
    requires |fs| == 9
    requires fs[0].weight == 0.20 && fs[1].weight == 0.10 && fs[2].weight == 0.15 && fs[3].weight == 0.10
    requires fs[4].weight == 0.15 && fs[5].weight == 0.10 && fs[6].weight == 0.10 && fs[7].weight == 0.05
    requires fs[8].weight == 0.05
    ensures WeightedScore(fs) == 0.20 * fs[0].score + 0.10 * fs[1].score + 0.15 * fs[2].score + 0.10 * fs[3].score
                                 + 0.15 * fs[4].score + 0.10 * fs[5].score + 0.10 * fs[6].score
                                 + 0.05 * fs[7].score + 0.05 * fs[8].score
  {
    NineTerms(fs);
    assert TotalWeight(fs) == 1.0;
    assert WeightedScore(fs) == WeightedSum(fs);
  }

  /** Under the default policy the score is this sum: the weights add up to one. */
  lemma DefaultScore(c: Context, last: map<string, Location>, now: int)
    ensures var p := DEFAULT_RISK_POLICY;
            WeightedScore(Factors(c, p, last, now))
            == 0.20 * CountryDeviation(c, p) + 0.15 * DeviceTrust(c) + 0.10 * TimeAnomaly(c, now)
               + 0.15 * Criticality(p.operationRisk, c.operation) + 0.10 * Criticality(p.criticalityRisk, c.criticality)
               + 0.10 * PestilloScore(c, p) + 0.05 * HistoryDeviation(c) + 0.05 * Velocity(c, p, last)
  {
    WithDefaultWeights(Factors(c, DEFAULT_RISK_POLICY, last, now));
  }

  lemma DefaultFactorBounds(c: Context, last: map<string, Location>)
    ensures var p := DEFAULT_RISK_POLICY;
            && 0.0 <= CountryDeviation(c, p) <= 80.0
            && 0.0 <= Criticality(p.operationRisk, c.operation) <= 50.0
            && 0.0 <= Criticality(p.criticalityRisk, c.criticality) <= 50.0
            && (c.pestilloState.Enabled? ==> PestilloScore(c, p) == 0.0)
            && (c.pestilloState.Temporary? ==> PestilloScore(c, p) == 24.0)
            && 0.0 <= HistoryDeviation(c) <= 50.0
            && 0.0 <= Velocity(c, p, last) <= 65.0
  {
    var p := DEFAULT_RISK_POLICY;
    forall k | k in p.countryRisk
      ensures 0.0 <= p.countryRisk[k]
    {
    }
    assert Round(24.0) == 24;
    assert Round(0.0) == 0;
  }

  /** An enabled or temporary entitlement scores at most 44.25 or 46.65 for every context and
      history, so its decision is to allow or to challenge, never to deny. */
  lemma DefaultScoreBound(c: Context, last: map<string, Location>, now: int)
    requires c.pestilloState.Enabled? || c.pestilloState.Temporary?
    ensures var e := Evaluate(c, DEFAULT_RISK_POLICY, last, now);
            && 0.0 <= WeightedScore(e.factors) <= (if c.pestilloState.Enabled? then 44.25 else 46.65)
            && !e.decision.Deny?
  {
    DefaultScore(c, last, now);
    DefaultFactorBounds(c, last);
  }

  /** Under the default policy a request is denied for its risk exactly when the pestillo is
      closed: the third score band is never reached. */
  lemma DefaultDenyIffClosed(c: Context, last: map<string, Location>, now: int)
    ensures Evaluate(c, DEFAULT_RISK_POLICY, last, now).decision.Deny? <==> c.pestilloState.Closed?
  {
    if c.pestilloState.Enabled? || c.pestilloState.Temporary? {
      DefaultScoreBound(c, last, now);
    }
  }

  /** The worst context there is: a temporary entitlement used from North Korea at the weekend, on
      an unknown device, right after another country, for a critical operation and resource, with
      a bad history. */
  function WorstContext(): Context {
    Context("u", ["US"], "ADMIN", "critical", Temporary, Some("KP"), Some("d"), 259_200_000,
            Some(History(4, 31, 51.0, [])))
  }

  /** The bound is attained. */
  lemma DefaultScoreBoundIsTight()
    ensures WeightedScore(Factors(WorstContext(), DEFAULT_RISK_POLICY, map["u" := Location("US", 1)], 0)) == 46.65
  {
    var c := WorstContext();
    var last := map["u" := Location("US", 1)];
    DefaultScore(c, last, 0);
    DefaultFactorBounds(c, last);
    assert Upper("KP") == "KP" && Upper("US") == "US";
    assert "US"[0] != "KP"[0];
    assert DEFAULT_RISK_POLICY.countryRisk["KP"] == 90.0;
  }

  /** The capability route scores a medium resource and passes no history, so there the score is
      at most 36.9. */
  lemma RouteScoreBound(c: Context, last: map<string, Location>, now: int)
    requires c.pestilloState.Enabled? || c.pestilloState.Temporary?
    requires c.criticality == "medium" && c.history.None?
    ensures WeightedScore(Factors(c, DEFAULT_RISK_POLICY, last, now)) <= 36.9
  {
    DefaultScore(c, last, now);
    DefaultFactorBounds(c, last);
  }
}
