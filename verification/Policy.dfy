/** The diagnostics rules: nine threshold and configuration checks over one resource. */
module Policy {
  import opened Wrappers

  type ResourceId = string

  datatype Health = Healthy | Unhealthy | Unknown

  /** A missing field and a null one read the same; `extras` holds the fields no rule or action touches. */
  datatype ResourceConfig = ResourceConfig(
    publicAccess: Option<bool>,
    backupEnabled: Option<bool>,
    alarms: Option<seq<string>>,
    healthCheckStatus: Option<Health>,
    extras: map<string, string>)

  datatype Metrics = Metrics(
    cpuUtilizationAvg: Option<real>,
    consecutiveLowUtilizationPeriods: Option<real>,
    errorRate: Option<real>,
    errorCount: Option<real>,
    p99LatencyMs: Option<real>,
    failureRateDelta: Option<real>,
    requestCount: Option<real>)

  /** The part of a resource that remediation rewrites. */
  datatype Body = Body(tags: map<string, string>, config: ResourceConfig, metrics: Metrics)

  datatype Resource = Resource(id: ResourceId, kind: string, region: string, name: string, body: Body)

  datatype RuleId =
    | LowUtilization | MissingTags | PublicAccess | MissingAlarms | UnhealthyService
    | MissingBackup | RepeatedErrors | ElevatedLatency | FailureRateIncrease
    | OtherRule(name: string)

  datatype Severity = Critical | High | Medium | Low | Info

  /** The five allowlisted actions. */
  datatype Allowlisted =
    AddMissingTag | CreateAlarm | EnableBackupPolicy | RestartUnhealthyService | RestrictPublicStorage

  /** What a stored recommendation may say: any string, of which five are allowlisted. */
  datatype ActionType = Allowed(action: Allowlisted) | ManualReview | Unlisted(name: string)

  datatype Finding = Finding(resourceId: ResourceId, ruleId: RuleId, severity: Severity, actionType: ActionType)

  const REQUIRED_TAGS: seq<string> := ["Environment", "Owner", "CostCenter", "Service"]

  const RULES: seq<RuleId> :=
    [LowUtilization, MissingTags, PublicAccess, MissingAlarms, UnhealthyService,
     MissingBackup, RepeatedErrors, ElevatedLatency, FailureRateIncrease]

  // Reading loosely typed values.

  /** `float(x or 0)` */
  function Float(x: Option<real>): real {
    x.GetOr(0.0)
  }

  /** `int(x or 0)`, which drops the fraction. */
  function Int(x: Option<real>): int {
    var r := Float(x);
    if r >= 0.0 then r.Floor else -((-r).Floor)
  }

  function LowerChar(c: char): char {
    if 'A' <= c <= 'Z' then c - 'A' + 'a' else c
  }

  function Lower(s: string): (r: string)
    ensures |r| == |s|
  {
    if s == "" then "" else [LowerChar(s[0])] + Lower(s[1..])
  }

  predicate OccursAt(s: string, part: string, i: nat) {
    i + |part| <= |s| && s[i..i + |part|] == part
  }

  predicate Contains(s: string, part: string) {
    exists i :: 0 <= i <= |s| && OccursAt(s, part, i)
  }

  predicate HasTag(tags: map<string, string>, tag: string) {
    tag in tags && tags[tag] != ""
  }

  predicate IsProd(r: Resource) {
    var env := Lower(if "Environment" in r.body.tags then r.body.tags["Environment"] else "");
    env == "prod" || env == "production" || Contains(Lower(r.name), "prod")
  }

  predicate SameLetter(c: char, d: char) {
    || c == d
    || ('A' <= c <= 'Z' && d == c - 'A' + 'a')
    || ('A' <= d <= 'Z' && c == d - 'A' + 'a')
  }

  predicate SameButCase(s: string, t: string) {
    |s| == |t| && forall i :: 0 <= i < |s| ==> SameLetter(s[i], t[i])
  }

  lemma {:induction false} LowerAt(s: string, i: nat)
    requires i < |s|
    ensures Lower(s)[i] == LowerChar(s[i])
  {
    if i > 0 {
      LowerAt(s[1..], i - 1);
    }
  }

  /** Lower-casing identifies exactly the strings that differ in the case of ASCII letters alone. */
  lemma LowerIdentifiesIff(s: string, t: string)
    ensures Lower(s) == Lower(t) <==> SameButCase(s, t)
  {
    if |s| == |t| {
      forall i | 0 <= i < |s| ensures Lower(s)[i] == Lower(t)[i] <==> SameLetter(s[i], t[i]) {
        LowerAt(s, i);
        LowerAt(t, i);
      }
    }
  }

  lemma LowerKeepsLower(s: string)
    requires forall i :: 0 <= i < |s| ==> !('A' <= s[i] <= 'Z')
    ensures Lower(s) == s
  {
    forall i | 0 <= i < |s| ensures Lower(s)[i] == s[i] {
      LowerAt(s, i);
    }
  }

  lemma LowerCharIs(c: char, low: char)
    requires !('A' <= low <= 'Z')
    ensures LowerChar(c) == low <==> SameLetter(c, low)
  {
  }

  lemma OccursAtEach(s: string, part: string, i: nat)
    ensures OccursAt(s, part, i) <==> i + |part| <= |s| && forall k :: 0 <= k < |part| ==> s[i + k] == part[k]
  {
    if i + |part| <= |s| && forall k :: 0 <= k < |part| ==> s[i + k] == part[k] {
      forall k | 0 <= k < |part| ensures s[i..i + |part|][k] == part[k] {
        assert s[i + k] == part[k];
      }
    }
  }

  /** `part` occurs in `s` at `i`, in any case. */
  predicate OccursInAnyCase(s: string, part: string, i: int) {
    0 <= i && i + |part| <= |s| && forall k :: 0 <= k < |part| ==> SameLetter(s[i + k], part[k])
  }

  lemma OccursIff(s: string, part: string, i: nat)
    requires forall k :: 0 <= k < |part| ==> !('A' <= part[k] <= 'Z')
    ensures OccursAt(Lower(s), part, i) <==> OccursInAnyCase(s, part, i)
  {
    OccursAtEach(Lower(s), part, i);
    if i + |part| <= |s| {
      forall k | 0 <= k < |part| ensures Lower(s)[i + k] == part[k] <==> SameLetter(s[i + k], part[k]) {
        LowerAt(s, i + k);
        LowerCharIs(s[i + k], part[k]);
      }
    }
  }

  lemma ContainsIff(s: string, part: string)
    requires forall k :: 0 <= k < |part| ==> !('A' <= part[k] <= 'Z')
    ensures Contains(Lower(s), part) <==> exists i :: OccursInAnyCase(s, part, i)
  {
    if Contains(Lower(s), part) {
      var i :| 0 <= i <= |s| && OccursAt(Lower(s), part, i);
      OccursIff(s, part, i);
    }
    if exists i :: OccursInAnyCase(s, part, i) {
      var i :| OccursInAnyCase(s, part, i);
      OccursIff(s, part, i);
    }
  }

  lemma EqualsLowerIff(s: string, low: string)
    requires forall i :: 0 <= i < |low| ==> !('A' <= low[i] <= 'Z')
    ensures Lower(s) == low <==> SameButCase(s, low)
  {
    LowerKeepsLower(low);
    LowerIdentifiesIff(s, low);
  }

  /** A resource is in production if its Environment tag is one of the two hints or its name holds the
      first, in any case. */
  lemma IsProdIff(r: Resource)
    ensures IsProd(r) <==>
      || (&& "Environment" in r.body.tags
          && (SameButCase(r.body.tags["Environment"], "prod") || SameButCase(r.body.tags["Environment"], "production")))
      || exists i :: OccursInAnyCase(r.name, "prod", i)
  {
    ContainsIff(r.name, "prod");
    if "Environment" in r.body.tags {
      EqualsLowerIff(r.body.tags["Environment"], "prod");
      EqualsLowerIff(r.body.tags["Environment"], "production");
    }
  }

  // The rules.

  predicate LowUtilizationRule(r: Resource) {
    && r.kind == "ec2"
    && Float(r.body.metrics.cpuUtilizationAvg) < 10.0
    && Int(r.body.metrics.consecutiveLowUtilizationPeriods) >= 3
  }

  predicate MissingTagsRule(r: Resource) {
    exists k :: 0 <= k < |REQUIRED_TAGS| && !HasTag(r.body.tags, REQUIRED_TAGS[k])
  }

  predicate PublicAccessRule(r: Resource) {
    r.kind == "s3" && r.body.config.publicAccess == Some(true)
  }

  predicate MissingAlarmsRule(r: Resource) {
    r.kind != "cloudwatch" && IsProd(r) && |r.body.config.alarms.GetOr([])| == 0
  }

  predicate UnhealthyServiceRule(r: Resource) {
    r.body.config.healthCheckStatus == Some(Unhealthy)
  }

  predicate MissingBackupRule(r: Resource) {
    (r.kind == "ec2" || r.kind == "s3") && r.body.config.backupEnabled == Some(false) && IsProd(r)
  }

  predicate RepeatedErrorsRule(r: Resource) {
    Float(r.body.metrics.errorRate) > 0.05 && Int(r.body.metrics.errorCount) > 10
  }

  predicate ElevatedLatencyRule(r: Resource) {
    Float(r.body.metrics.p99LatencyMs) > 1000.0
  }

  predicate FailureRateIncreaseRule(r: Resource) {
    Float(r.body.metrics.failureRateDelta) > 0.1
  }

  predicate Triggers(rule: RuleId, r: Resource) {
    match rule
    case LowUtilization => LowUtilizationRule(r)
    case MissingTags => MissingTagsRule(r)
    case PublicAccess => PublicAccessRule(r)
    case MissingAlarms => MissingAlarmsRule(r)
    case UnhealthyService => UnhealthyServiceRule(r)
    case MissingBackup => MissingBackupRule(r)
    case RepeatedErrors => RepeatedErrorsRule(r)
    case ElevatedLatency => ElevatedLatencyRule(r)
    case FailureRateIncrease => FailureRateIncreaseRule(r)
    case OtherRule(_) => false
  }

  function SeverityOf(rule: RuleId, r: Resource): Severity {
    match rule
    case LowUtilization => Medium
    case MissingTags => if IsProd(r) then Medium else Low
    case PublicAccess => High
    case MissingAlarms => Medium
    case UnhealthyService => Critical
    case MissingBackup => High
    case RepeatedErrors => High
    case ElevatedLatency => Medium
    case FailureRateIncrease => High
    case OtherRule(_) => Info
  }

  /** The action each rule's finding recommends. */
  function Recommends(rule: RuleId): ActionType {
    match rule
    case LowUtilization => ManualReview
    case MissingTags => Allowed(AddMissingTag)
    case PublicAccess => Allowed(RestrictPublicStorage)
    case MissingAlarms => Allowed(CreateAlarm)
    case UnhealthyService => Allowed(RestartUnhealthyService)
    case MissingBackup => Allowed(EnableBackupPolicy)
    case RepeatedErrors => Allowed(RestartUnhealthyService)
    case ElevatedLatency => Allowed(CreateAlarm)
    case FailureRateIncrease => Allowed(CreateAlarm)
    case OtherRule(_) => ManualReview
  }

  function FindingOf(rule: RuleId, r: Resource): Finding {
    Finding(r.id, rule, SeverityOf(rule, r), Recommends(rule))
  }

  /** The findings of the first n rules, in rule order. */
  function FirstFindings(r: Resource, n: nat): seq<Finding>
    requires n <= |RULES|
  {
    if n == 0 then []
    else FirstFindings(r, n - 1) + (if Triggers(RULES[n - 1], r) then [FindingOf(RULES[n - 1], r)] else [])
  }

  function Findings(r: Resource): seq<Finding> {
    FirstFindings(r, |RULES|)
  }

  method Evaluate(r: Resource) returns (findings: seq<Finding>)
    ensures findings == Findings(r)
  {
    findings := [];
    for n := 0 to |RULES|
      invariant findings == FirstFindings(r, n)
    {
      if Triggers(RULES[n], r) {
        findings := findings + [FindingOf(RULES[n], r)];
      }
    }
  }

  function RuleIndex(rule: RuleId): int {
    match rule
    case LowUtilization => 0
    case MissingTags => 1
    case PublicAccess => 2
    case MissingAlarms => 3
    case UnhealthyService => 4
    case MissingBackup => 5
    case RepeatedErrors => 6
    case ElevatedLatency => 7
    case FailureRateIncrease => 8
    case OtherRule(_) => 9
  }

  lemma RulesAreIndexed()
    ensures forall k :: 0 <= k < |RULES| ==> RuleIndex(RULES[k]) == k
    ensures forall rule: RuleId :: RuleIndex(rule) < 9 ==> RULES[RuleIndex(rule)] == rule
  {
  }

  predicate IsFindingOf(f: Finding, r: Resource) {
    Triggers(f.ruleId, r) && f == FindingOf(f.ruleId, r)
  }

  /** Findings of triggered rules among the first n, in rule order. */
  predicate Sound(fs: seq<Finding>, r: Resource, n: nat) {
    && (forall i :: 0 <= i < |fs| ==> IsFindingOf(fs[i], r) && RuleIndex(fs[i].ruleId) < n)
    && (forall i, j :: 0 <= i < j < |fs| ==> RuleIndex(fs[i].ruleId) < RuleIndex(fs[j].ruleId))
  }

  lemma {:induction false} FirstFindingsSound(r: Resource, n: nat)
    requires n <= |RULES|
    ensures Sound(FirstFindings(r, n), r, n)
  {
    if n > 0 {
      FirstFindingsSound(r, n - 1);
      RulesAreIndexed();
      var rule := RULES[n - 1];
      assert RuleIndex(rule) == n - 1;
      assert FirstFindings(r, n) == FirstFindings(r, n - 1) + (if Triggers(rule, r) then [FindingOf(rule, r)] else []);
    }
  }

  lemma {:induction false} FirstFindingsComplete(r: Resource, n: nat, rule: RuleId)
    requires n <= |RULES| && RuleIndex(rule) < n && Triggers(rule, r)
    ensures FindingOf(rule, r) in FirstFindings(r, n)
  {
    RulesAreIndexed();
    if RuleIndex(rule) < n - 1 {
      FirstFindingsComplete(r, n - 1, rule);
    }
  }

  lemma FindingsSound(r: Resource)
    ensures Sound(Findings(r), r, |RULES|)
  {
    FirstFindingsSound(r, |RULES|);
  }

  /** A resource has a finding for a rule iff the rule triggers on it, at most one, and they come in
      rule order. */
  lemma FindingsAreTheTriggeredRules(r: Resource, rule: RuleId)
    ensures Triggers(rule, r) <==> exists f :: f in Findings(r) && f.ruleId == rule
    ensures Sound(Findings(r), r, |RULES|)
  {
    FindingsSound(r);
    if Triggers(rule, r) {
      FirstFindingsComplete(r, |RULES|, rule);
      assert FindingOf(rule, r) in Findings(r);
    }
  }

  /** Findings come in the order of the rule list, one rule after another. */
  lemma FindingsInRuleOrder(r: Resource, i: nat, j: nat) returns (a: nat, b: nat)
    requires i < j < |Findings(r)|
    ensures a < b < 9
    ensures var order := [LowUtilization, MissingTags, PublicAccess, MissingAlarms, UnhealthyService,
                          MissingBackup, RepeatedErrors, ElevatedLatency, FailureRateIncrease];
      order[a] == Findings(r)[i].ruleId && order[b] == Findings(r)[j].ruleId
  {
    FindingsSound(r);
    RulesAreIndexed();
    assert IsFindingOf(Findings(r)[i], r) && IsFindingOf(Findings(r)[j], r);
    a, b := RuleIndex(Findings(r)[i].ruleId), RuleIndex(Findings(r)[j].ruleId);
  }

  predicate Finds(r: Resource, rule: RuleId) {
    exists i :: 0 <= i < |Findings(r)| && Findings(r)[i].ruleId == rule
  }

  lemma FindsTriggered(r: Resource, rule: RuleId)
    ensures Finds(r, rule) <==> Triggers(rule, r)
  {
    FindingsAreTheTriggeredRules(r, rule);
    if Triggers(rule, r) {
      var f :| f in Findings(r) && f.ruleId == rule;
      var i :| 0 <= i < |Findings(r)| && Findings(r)[i] == f;
      assert Findings(r)[i].ruleId == rule;
    }
  }

  predicate AtLeast(x: Option<real>, bound: real) {
    x.Some? && x.value >= bound
  }

  predicate Above(x: Option<real>, bound: real) {
    x.Some? && x.value > bound
  }

  /** The nine thresholds. Where a metric is truncated to a whole number first, a bound on the metric
      itself says the same; a missing metric reads as zero. */
  lemma RulesFindIff(r: Resource)
    ensures Finds(r, LowUtilization) <==>
      && r.kind == "ec2" && !AtLeast(r.body.metrics.cpuUtilizationAvg, 10.0)
      && AtLeast(r.body.metrics.consecutiveLowUtilizationPeriods, 3.0)
    ensures Finds(r, MissingTags) <==>
      exists tag :: tag in {"Environment", "Owner", "CostCenter", "Service"}
                    && (tag !in r.body.tags || r.body.tags[tag] == "")
    ensures Finds(r, PublicAccess) <==> r.kind == "s3" && r.body.config.publicAccess == Some(true)
    ensures Finds(r, MissingAlarms) <==>
      r.kind != "cloudwatch" && IsProd(r) && (r.body.config.alarms == None || r.body.config.alarms == Some([]))
    ensures Finds(r, UnhealthyService) <==> r.body.config.healthCheckStatus == Some(Unhealthy)
    ensures Finds(r, MissingBackup) <==>
      r.kind in {"ec2", "s3"} && r.body.config.backupEnabled == Some(false) && IsProd(r)
    ensures Finds(r, RepeatedErrors) <==>
      Above(r.body.metrics.errorRate, 0.05) && AtLeast(r.body.metrics.errorCount, 11.0)
    ensures Finds(r, ElevatedLatency) <==> Above(r.body.metrics.p99LatencyMs, 1000.0)
    ensures Finds(r, FailureRateIncrease) <==> Above(r.body.metrics.failureRateDelta, 0.1)
  {
    FindsTriggered(r, LowUtilization);
    FindsTriggered(r, MissingTags);
    FindsTriggered(r, PublicAccess);
    FindsTriggered(r, MissingAlarms);
    FindsTriggered(r, UnhealthyService);
    FindsTriggered(r, MissingBackup);
    FindsTriggered(r, RepeatedErrors);
    FindsTriggered(r, ElevatedLatency);
    FindsTriggered(r, FailureRateIncrease);
    TagsMissingIff(r);
  }

  lemma TagsMissingIff(r: Resource)
    ensures MissingTagsRule(r) <==>
      exists tag :: tag in {"Environment", "Owner", "CostCenter", "Service"}
                    && (tag !in r.body.tags || r.body.tags[tag] == "")
  {
    assert REQUIRED_TAGS[0] == "Environment" && REQUIRED_TAGS[1] == "Owner";
    assert REQUIRED_TAGS[2] == "CostCenter" && REQUIRED_TAGS[3] == "Service";
  }

  /** What a finding says: its resource, and by its rule its severity and the action it recommends. */
  lemma FindingSays(r: Resource, f: Finding)
    requires f in Findings(r)
    ensures f.resourceId == r.id
    ensures match f.ruleId
            case LowUtilization => f.severity == Medium && f.actionType == ManualReview
            case MissingTags =>
              f.severity == (if IsProd(r) then Medium else Low) && f.actionType == Allowed(AddMissingTag)
            case PublicAccess => f.severity == High && f.actionType == Allowed(RestrictPublicStorage)
            case MissingAlarms => f.severity == Medium && f.actionType == Allowed(CreateAlarm)
            case UnhealthyService => f.severity == Critical && f.actionType == Allowed(RestartUnhealthyService)
            case MissingBackup => f.severity == High && f.actionType == Allowed(EnableBackupPolicy)
            case RepeatedErrors => f.severity == High && f.actionType == Allowed(RestartUnhealthyService)
            case ElevatedLatency => f.severity == Medium && f.actionType == Allowed(CreateAlarm)
            case FailureRateIncrease => f.severity == High && f.actionType == Allowed(CreateAlarm)
            case OtherRule(_) => false
  {
    FindingsSound(r);
    var i :| 0 <= i < |Findings(r)| && Findings(r)[i] == f;
    assert IsFindingOf(Findings(r)[i], r);
  }

  // A whole inventory.

  function AnalysisOf(resources: seq<Resource>): seq<Finding> {
    if resources == [] then []
    else AnalysisOf(resources[..|resources| - 1]) + Findings(resources[|resources| - 1])
  }

  method Analyze(resources: seq<Resource>) returns (findings: seq<Finding>)
    ensures findings == AnalysisOf(resources)
  {
    findings := [];
    for n := 0 to |resources|
      invariant findings == AnalysisOf(resources[..n])
    {
      var fs := Evaluate(resources[n]);
      findings := findings + fs;
      assert resources[..n + 1][..n] == resources[..n];
    }
    assert resources[..|resources|] == resources;
  }

  predicate DistinctIds(resources: seq<Resource>) {
    forall i, j :: 0 <= i < j < |resources| ==> resources[i].id != resources[j].id
  }

  predicate SameSubject(f: Finding, g: Finding) {
    f.resourceId == g.resourceId && f.ruleId == g.ruleId
  }

  /** Within one analysis, a resource and a rule identify a stored finding. */
  predicate DistinctKeys(fs: seq<Finding>) {
    forall i, j :: 0 <= i < j < |fs| ==> !SameSubject(fs[i], fs[j])
  }

  lemma {:induction false} AnalysisCameFrom(resources: seq<Resource>)
    ensures forall f :: f in AnalysisOf(resources) ==> exists r :: r in resources && IsFindingOf(f, r)
  {
    if resources != [] {
      AnalysisCameFrom(resources[..|resources| - 1]);
      FindingsSound(resources[|resources| - 1]);
    }
  }

  /** Over resources with distinct ids no two findings share a key, and each recommends what its
      rule always recommends. */
  lemma {:induction false} AnalysisHasDistinctKeys(resources: seq<Resource>)
    requires DistinctIds(resources)
    ensures DistinctKeys(AnalysisOf(resources))
    ensures forall f :: f in AnalysisOf(resources) ==> f.actionType == Recommends(f.ruleId)
  {
    AnalysisCameFrom(resources);
    if resources != [] {
      var front, last := resources[..|resources| - 1], resources[|resources| - 1];
      AnalysisHasDistinctKeys(front);
      AnalysisCameFrom(front);
      FindingsSound(last);
      var fs, gs := AnalysisOf(front), Findings(last);
      var all := fs + gs;
      forall i, j | 0 <= i < j < |all| ensures !SameSubject(all[i], all[j]) {
        if j < |fs| {
          assert !SameSubject(fs[i], fs[j]);
        } else if i < |fs| {
          assert fs[i] in fs;
          var r :| r in front && IsFindingOf(fs[i], r);
          assert r.id != last.id;
          assert IsFindingOf(gs[j - |fs|], last);
        } else {
          assert RuleIndex(gs[i - |fs|].ruleId) < RuleIndex(gs[j - |fs|].ruleId);
        }
      }
      assert AnalysisOf(resources) == all;
    }
  }

  function Without<T>(xs: seq<T>, i: nat): seq<T>
    requires i < |xs|
  {
    xs[..i] + xs[i + 1..]
  }

  lemma WithoutMultiset<T>(xs: seq<T>, i: nat)
    requires i < |xs|
    ensures multiset(xs) == multiset(Without(xs, i)) + multiset{xs[i]}
  {
    assert xs == xs[..i] + [xs[i]] + xs[i + 1..];
  }

  lemma SameRest<T>(a: multiset<T>, b: multiset<T>, x: T)
    requires a + multiset{x} == b + multiset{x}
    ensures a == b
  {
    assert (a + multiset{x}) - multiset{x} == a;
  }

  lemma AnalysisOfLast(resources: seq<Resource>, fs: seq<Finding>, gs: seq<Finding>)
    requires resources != []
    requires fs == AnalysisOf(resources[..|resources| - 1]) && gs == Findings(resources[|resources| - 1])
    ensures AnalysisOf(resources) == fs + gs && multiset(AnalysisOf(resources)) == multiset(fs) + multiset(gs)
  {
  }

  lemma WithoutFront<T>(xs: seq<T>, i: nat)
    requires i < |xs| - 1
    ensures Without(xs, i)[..|xs| - 2] == Without(xs[..|xs| - 1], i) && Without(xs, i)[|xs| - 2] == xs[|xs| - 1]
  {
  }

  lemma Regroup<T>(a: multiset<T>, b: multiset<T>, c: multiset<T>, d: multiset<T>)
    requires a == b + c
    ensures a + d == b + d + c
  {
  }

  lemma {:induction false} AnalysisWithout(resources: seq<Resource>, i: nat, taken: seq<Finding>)
    requires i < |resources| && taken == Findings(resources[i])
    ensures multiset(AnalysisOf(resources)) == multiset(AnalysisOf(Without(resources, i))) + multiset(taken)
  {
    var front, gs := resources[..|resources| - 1], Findings(resources[|resources| - 1]);
    AnalysisOfLast(resources, AnalysisOf(front), gs);
    if i == |front| {
      assert Without(resources, i) == front;
    } else {
      AnalysisWithout(front, i, taken);
      WithoutFront(resources, i);
      var rest := AnalysisOf(Without(front, i));
      AnalysisOfLast(Without(resources, i), rest, gs);
      Regroup(multiset(AnalysisOf(front)), multiset(rest), multiset(taken), multiset(gs));
    }
  }

  /** The database may list the resources in any order: the analysis lists the same findings. */
  lemma {:induction false} OrderDoesNotMatter(resources: seq<Resource>, resources': seq<Resource>)
    requires multiset(resources) == multiset(resources')
    ensures multiset(AnalysisOf(resources)) == multiset(AnalysisOf(resources'))
    decreases |resources'|
  {
    assert |multiset(resources)| == |multiset(resources')|;
    if resources' != [] {
      var front, last := resources'[..|resources'| - 1], resources'[|resources'| - 1];
      assert last in multiset(resources);
      var i :| 0 <= i < |resources| && resources[i] == last;
      WithoutMultiset(resources, i);
      assert resources' == front + [last];
      SameRest(multiset(Without(resources, i)), multiset(front), last);
      OrderDoesNotMatter(Without(resources, i), front);
      AnalysisWithout(resources, i, Findings(last));
      AnalysisOfLast(resources', AnalysisOf(front), Findings(last));
    }
  }
}
