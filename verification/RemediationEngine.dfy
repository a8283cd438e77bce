/** Simulated remediation actions, and what they do to the rules that asked for them. */
module RemediationEngine {
  import opened Wrappers
  import opened Errors
  import opened Policy

  datatype Action = Action(actionType: Allowlisted, resourceId: ResourceId, findingId: nat, params: map<string, string>)

  datatype ActionResult = ActionResult(actionType: Allowlisted, resourceId: ResourceId, ok: bool, simulated: bool)

  function Param(params: map<string, string>, key: string, default: string): string {
    if key in params then params[key] else default
  }

  function WithTag(b: Body, key: string, value: string): Body {
    b.(tags := b.tags[key := value])
  }

  function WithAlarm(b: Body, alarm: string): Body {
    var alarms := b.config.alarms.GetOr([]);
    b.(config := b.config.(alarms := Some(if alarm in alarms then alarms else alarms + [alarm])))
  }

  function Restarted(b: Body): Body {
    var rate := Float(b.metrics.errorRate);
    b.(config := b.config.(healthCheckStatus := Some(Healthy)),
       metrics := b.metrics.(errorRate := Some(if rate < 0.01 then rate else 0.01)))
  }

  /** One action on one resource body. Every action leaves an alarm list where there was none. */
  function Apply(body: Body, a: Action): Body {
    var b := body.(config := body.config.(alarms := Some(body.config.alarms.GetOr([]))));
    match a.actionType
    case AddMissingTag => WithTag(b, Param(a.params, "key", "Owner"), Param(a.params, "value", "platform"))
    case CreateAlarm => WithAlarm(b, Param(a.params, "alarmName", a.resourceId + "-health"))
    case EnableBackupPolicy => b.(config := b.config.(backupEnabled := Some(true)))
    case RestartUnhealthyService => Restarted(b)
    case RestrictPublicStorage => b.(config := b.config.(publicAccess := Some(false)))
  }

  /** The source's form: copy the resource, then update the copy. Only allowlisted types pass. */
  method ApplySimulatedAction(body: Body, actionType: ActionType, resourceId: ResourceId, params: map<string, string>)
    returns (applied: Result<(Body, ActionResult), ServiceError>)
    ensures !actionType.Allowed? <==> applied == Err(Forbidden)
    ensures actionType.Allowed? ==>
      applied == Ok((Apply(body, Action(actionType.action, resourceId, 0, params)),
                     ActionResult(actionType.action, resourceId, true, true)))
    ensures actionType.Allowed? ==>
      var next := applied.value.0;
      var alarms := if body.config.alarms.Some? then body.config.alarms.value else [];
      match actionType.action
      case AddMissingTag =>
        && next.config == body.config.(alarms := Some(alarms)) && next.metrics == body.metrics
        && next.tags == body.tags[(if "key" in params then params["key"] else "Owner")
                                  := (if "value" in params then params["value"] else "platform")]
      case CreateAlarm =>
        var alarm := if "alarmName" in params then params["alarmName"] else resourceId + "-health";
        && next.tags == body.tags && next.metrics == body.metrics
        && next.config == body.config.(alarms := Some(if alarm in alarms then alarms else alarms + [alarm]))
      case EnableBackupPolicy =>
        && next.tags == body.tags && next.metrics == body.metrics
        && next.config == body.config.(alarms := Some(alarms), backupEnabled := Some(true))
      case RestartUnhealthyService =>
        && next.tags == body.tags
        && next.config == body.config.(alarms := Some(alarms), healthCheckStatus := Some(Healthy))
        && next.metrics == body.metrics.(errorRate := next.metrics.errorRate)
        && next.metrics.errorRate.Some? && next.metrics.errorRate.value <= 0.01
        && (body.metrics.errorRate.Some? && body.metrics.errorRate.value <= 0.01 ==>
              next.metrics.errorRate == body.metrics.errorRate)
        && (body.metrics.errorRate == None ==> next.metrics.errorRate == Some(0.0))
        && (body.metrics.errorRate.Some? && body.metrics.errorRate.value > 0.01 ==>
              next.metrics.errorRate == Some(0.01))
      case RestrictPublicStorage =>
        && next.tags == body.tags && next.metrics == body.metrics
        && next.config == body.config.(alarms := Some(alarms), publicAccess := Some(false))
  {
    if !actionType.Allowed? {
      return Err(Forbidden);
    }
    var tags, config, metrics := body.tags, body.config, body.metrics;
    var alarms := if config.alarms.Some? then config.alarms.value else [];
    match actionType.action {
      case AddMissingTag =>
        var key := if "key" in params then params["key"] else "Owner";
        var value := if "value" in params then params["value"] else "platform";
        tags := tags[key := value];
      case CreateAlarm =>
        var alarm := if "alarmName" in params then params["alarmName"] else resourceId + "-health";
        if alarm !in alarms {
          alarms := alarms + [alarm];
        }
      case EnableBackupPolicy =>
        config := config.(backupEnabled := Some(true));
      case RestartUnhealthyService =>
        config := config.(healthCheckStatus := Some(Healthy));
        var rate := if metrics.errorRate.Some? then metrics.errorRate.value else 0.0;
        metrics := metrics.(errorRate := Some(if 0.01 <= rate then 0.01 else rate));
      case RestrictPublicStorage =>
        config := config.(publicAccess := Some(false));
    }
    config := config.(alarms := Some(alarms));
    applied := Ok((Body(tags, config, metrics), ActionResult(actionType.action, resourceId, true, true)));
  }

  function ApplyAll(body: Body, actions: seq<Action>): Body {
    if actions == [] then body else Apply(ApplyAll(body, actions[..|actions| - 1]), actions[|actions| - 1])
  }

  // The tables of the planning service.

  function ActionByRule(rule: RuleId): ActionType {
    match rule
    case LowUtilization => ManualReview
    case MissingTags => Allowed(AddMissingTag)
    case PublicAccess => Allowed(RestrictPublicStorage)
    case MissingAlarms => Allowed(CreateAlarm)
    case UnhealthyService => Allowed(RestartUnhealthyService)
    case MissingBackup => Allowed(EnableBackupPolicy)
    case RepeatedErrors => Allowed(RestartUnhealthyService)
    case ElevatedLatency => Allowed(CreateAlarm)
    case FailureRateIncrease => Allowed(CreateAlarm)
    case OtherRule(_) => ManualReview
  }

  function DefaultParams(actionType: Allowlisted, resourceId: ResourceId): map<string, string> {
    match actionType
    case AddMissingTag => map["key" := "Owner", "value" := "platform"]
    case CreateAlarm => map["alarmName" := resourceId + "-health"]
    case _ => map[]
  }

  /** An action as plans hold it. */
  predicate Defaulted(a: Action) {
    a.params == DefaultParams(a.actionType, a.resourceId)
  }

  predicate DefaultedOn(actions: seq<Action>, id: ResourceId) {
    forall a :: a in actions ==> a.resourceId == id && Defaulted(a)
  }

  function Types(actions: seq<Action>): set<Allowlisted> {
    set a | a in actions :: a.actionType
  }

  /** What a non-empty set of default actions makes of a resource, in no order. */
  function Effect(body: Body, id: ResourceId, types: set<Allowlisted>): Body {
    if types == {} then body else
    var alarms := body.config.alarms.GetOr([]);
    var alarm := id + "-health";
    var rate := Float(body.metrics.errorRate);
    Body(
      if AddMissingTag in types then body.tags["Owner" := "platform"] else body.tags,
      body.config.(
        alarms := Some(if CreateAlarm in types && alarm !in alarms then alarms + [alarm] else alarms),
        backupEnabled := if EnableBackupPolicy in types then Some(true) else body.config.backupEnabled,
        healthCheckStatus := if RestartUnhealthyService in types then Some(Healthy) else body.config.healthCheckStatus,
        publicAccess := if RestrictPublicStorage in types then Some(false) else body.config.publicAccess),
      if RestartUnhealthyService in types then body.metrics.(errorRate := Some(if rate < 0.01 then rate else 0.01))
      else body.metrics)
  }

  lemma EffectAbsorbs(body: Body, id: ResourceId, types: set<Allowlisted>, a: Action)
    requires a.resourceId == id && Defaulted(a)
    ensures Apply(Effect(body, id, types), a) == Effect(body, id, types + {a.actionType})
  {
    match a.actionType {
      case AddMissingTag =>
        assert body.tags["Owner" := "platform"]["Owner" := "platform"] == body.tags["Owner" := "platform"];
      case _ =>
    }
  }

  /** Applying default actions one after the other has their set's effect. */
  lemma {:induction false} ApplyAllIsEffect(body: Body, id: ResourceId, actions: seq<Action>)
    requires DefaultedOn(actions, id)
    ensures ApplyAll(body, actions) == Effect(body, id, Types(actions))
  {
    if actions == [] {
      assert Types(actions) == {};
    } else {
      var front, last := actions[..|actions| - 1], actions[|actions| - 1];
      ApplyAllIsEffect(body, id, front);
      assert actions == front + [last];
      assert Types(actions) == Types(front) + {last.actionType};
      EffectAbsorbs(body, id, Types(front), last);
    }
  }

  /** Confluence: order and repetition of default actions do not matter. */
  lemma DefaultActionsCommute(body: Body, id: ResourceId, actions: seq<Action>, others: seq<Action>)
    requires DefaultedOn(actions, id) && DefaultedOn(others, id)
    requires Types(actions) == Types(others)
    ensures ApplyAll(body, actions) == ApplyAll(body, others)
  {
    ApplyAllIsEffect(body, id, actions);
    ApplyAllIsEffect(body, id, others);
  }

  /** Idempotence: running a plan's actions again changes nothing. */
  lemma DefaultActionsIdempotent(body: Body, id: ResourceId, actions: seq<Action>)
    requires DefaultedOn(actions, id)
    ensures ApplyAll(ApplyAll(body, actions), actions) == ApplyAll(body, actions)
  {
    ApplyAllIsEffect(body, id, actions);
    ApplyAllIsEffect(ApplyAll(body, actions), id, actions);
    if AddMissingTag in Types(actions) {
      assert body.tags["Owner" := "platform"]["Owner" := "platform"] == body.tags["Owner" := "platform"];
    }
  }

  /** The planning service's table and the rules' own recommendations are the same, so a plan does
      not depend on whether the recommendation document was found. */
  lemma ActionTablesAgree(rule: RuleId)
    ensures ActionByRule(rule) == Recommends(rule)
    ensures rule.OtherRule? ==> ActionByRule(rule) == ManualReview
  {
  }

  // Diagnosing again after the actions.

  predicate Missing(r: Resource, tag: string) {
    tag in REQUIRED_TAGS && !HasTag(r.body.tags, tag)
  }

  function Remedied(r: Resource, actions: seq<Action>): Resource {
    r.(body := ApplyAll(r.body, actions))
  }

  lemma ProductionUnchanged(r: Resource, actions: seq<Action>)
    requires DefaultedOn(actions, r.id)
    ensures IsProd(Remedied(r, actions)) == IsProd(r)
  {
    ApplyAllIsEffect(r.body, r.id, actions);
    assert "Owner" != "Environment";
  }

  lemma TagsAfter(r: Resource, actions: seq<Action>, tag: string)
    requires DefaultedOn(actions, r.id)
    ensures HasTag(Remedied(r, actions).body.tags, tag) <==>
      HasTag(r.body.tags, tag) || (tag == "Owner" && AddMissingTag in Types(actions))
  {
    ApplyAllIsEffect(r.body, r.id, actions);
  }

  /** Default actions trigger no rule that was not triggered before. */
  lemma NoNewFindings(r: Resource, actions: seq<Action>, rule: RuleId)
    requires DefaultedOn(actions, r.id)
    requires Triggers(rule, Remedied(r, actions))
    ensures Triggers(rule, r)
  {
    ProductionUnchanged(r, actions);
    ApplyAllIsEffect(r.body, r.id, actions);
    if rule == MissingTags {
      var k :| 0 <= k < |REQUIRED_TAGS| && !HasTag(Remedied(r, actions).body.tags, REQUIRED_TAGS[k]);
      TagsAfter(r, actions, REQUIRED_TAGS[k]);
    }
  }

  /** The rules whose recommended action clears them whatever else is done to the resource. */
  const CLEARED_RULES: set<RuleId> := {PublicAccess, MissingAlarms, UnhealthyService, MissingBackup, RepeatedErrors}

  lemma RecommendedActionClears(r: Resource, actions: seq<Action>, rule: RuleId)
    requires DefaultedOn(actions, r.id)
    requires rule in CLEARED_RULES && Recommends(rule).action in Types(actions)
    ensures !Triggers(rule, Remedied(r, actions))
  {
    ApplyAllIsEffect(r.body, r.id, actions);
  }

  /** The tagging action clears missing_tags exactly when no required tag but Owner is missing. */
  lemma TaggingClearsIff(r: Resource, actions: seq<Action>)
    requires DefaultedOn(actions, r.id) && AddMissingTag in Types(actions)
    ensures !Triggers(MissingTags, Remedied(r, actions)) <==> forall tag :: Missing(r, tag) ==> tag == "Owner"
  {
    if !Triggers(MissingTags, Remedied(r, actions)) {
      forall tag | Missing(r, tag) ensures tag == "Owner" {
        TagsAfter(r, actions, tag);
        var k :| 0 <= k < |REQUIRED_TAGS| && REQUIRED_TAGS[k] == tag;
      }
    }
    if forall tag :: Missing(r, tag) ==> tag == "Owner" {
      forall k | 0 <= k < |REQUIRED_TAGS| ensures HasTag(Remedied(r, actions).body.tags, REQUIRED_TAGS[k]) {
        TagsAfter(r, actions, REQUIRED_TAGS[k]);
        assert REQUIRED_TAGS[k] in REQUIRED_TAGS;
        assert Missing(r, REQUIRED_TAGS[k]) ==> REQUIRED_TAGS[k] == "Owner";
      }
    }
  }

  /** Latency, failure rate and utilisation findings outlive every default action. */
  lemma SymptomsRemain(r: Resource, actions: seq<Action>, rule: RuleId)
    requires DefaultedOn(actions, r.id) && rule in {LowUtilization, ElevatedLatency, FailureRateIncrease}
    ensures Triggers(rule, Remedied(r, actions)) <==> Triggers(rule, r)
  {
    ApplyAllIsEffect(r.body, r.id, actions);
  }
}
