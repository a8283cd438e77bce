/** The documents of guarded remediation, and what each of its three requests does to them when it
    is served by itself. */
module RemediationDb {
  import opened Wrappers
  import opened Errors
  import opened Policy
  import opened RemediationEngine
  import opened ResultStore

  type PlanId = nat

  datatype PlanStatus = Draft | AwaitingApproval | Approved | Executing | Completed | Failed | Rejected

  datatype Plan = Plan(
    workspaceId: string,
    findingIds: seq<FindingId>,
    actions: seq<Action>,
    dryRun: bool,
    status: PlanStatus,
    createdBy: string,
    correlationId: string,
    idempotencyKey: string)

  /** A token hash; the constructor makes hashing injective. */
  datatype Hash = Hash(of: string)

  datatype Token = Token(workspaceId: string, planId: PlanId, expiresAt: int, usedAt: Option<int>, createdBy: string)

  datatype ResourceDoc = ResourceDoc(workspaceId: string, kind: string, region: string,
                                     name: string, body: Body, version: int)

  datatype Snapshot = Snapshot(tags: map<string, string>, config: ResourceConfig)

  datatype AfterValue = Preview(body: Body) | Stored(state: Snapshot)

  datatype ExecutionStatus = Succeeded | PartialFailure | FailedEntirely

  datatype Execution = Execution(
    workspaceId: string,
    planId: PlanId,
    approvalToken: Hash,
    idempotencyKey: string,
    status: ExecutionStatus,
    dryRun: bool,
    beforeState: map<ResourceId, Snapshot>,
    afterState: map<ResourceId, AfterValue>,
    results: seq<ActionResult>,
    createdBy: string)

  /** A unique index on a workspace and an idempotency key. */
  datatype Key = Key(workspaceId: string, idempotencyKey: string)

  /** Tokens and executions are keyed by their unique index; plans, which are looked up both ways,
      by identifier, with their index beside them. */
  datatype Db = Db(
    plans: map<PlanId, Plan>,
    planIndex: map<Key, PlanId>,
    tokens: map<Hash, Token>,
    executions: map<Key, Execution>,
    resources: map<ResourceId, ResourceDoc>,
    store: Store)

  datatype Provider = Mock | Aws

  datatype Config = Config(approvalTtlMs: int, enableAwsMutations: bool, provider: Provider)

  datatype Reply =
    | PlanReply(id: PlanId, plan: Plan, replayed: bool)
    | ApprovalReply(approved: Plan, token: string, expiresAt: int)
    | ExecutionReply(execution: Execution, replay: bool)
    | Refused(error: ServiceError)

  // Planning.

  datatype PlanRequest = PlanRequest(
    workspaceId: string,
    actorId: string,
    correlationId: string,
    findingIds: seq<FindingId>,
    dryRun: bool,
    idempotencyKey: string)

  function Matching(s: Store, workspaceId: string, ids: seq<FindingId>): set<FindingKey> {
    set key | key in s.findings && key.workspaceId == workspaceId && s.findings[key].id in ids
  }

  /** `order` is a possible order for the database to return `keys` in. */
  predicate Lists(order: seq<FindingKey>, keys: set<FindingKey>) {
    && (forall i :: 0 <= i < |order| ==> order[i] in keys)
    && (forall i, j :: 0 <= i < j < |order| ==> order[i] != order[j])
    && (forall key :: key in keys ==> key in order)
  }

  function PlannedType(s: Store, key: FindingKey): ActionType
    requires key in s.findings
  {
    var rec := RecKey(key.workspaceId, s.findings[key].id);
    if rec in s.recs then s.recs[rec].actionType else ActionByRule(key.ruleId)
  }

  function ActionFor(s: Store, key: FindingKey): Action
    requires key in s.findings && PlannedType(s, key).Allowed?
  {
    var actionType := PlannedType(s, key).action;
    Action(actionType, key.resourceId, s.findings[key].id, DefaultParams(actionType, key.resourceId))
  }

  /** The plan's actions: a finding for manual review contributes none, and an action that is not
      allowlisted refuses the plan. */
  function PlannedActions(s: Store, order: seq<FindingKey>): Result<seq<Action>, ServiceError>
    requires forall i :: 0 <= i < |order| ==> order[i] in s.findings
  {
    if order == [] then Ok([])
    else
      var key := order[|order| - 1];
      match PlannedActions(s, order[..|order| - 1])
      case Err(e) => Err(e)
      case Ok(actions) =>
        match PlannedType(s, key)
        case ManualReview => Ok(actions)
        case Unlisted(_) => Err(Forbidden)
        case Allowed(_) => Ok(actions + [ActionFor(s, key)])
  }

  /** What is planned for a finding: the action its stored recommendation names, whatever that is, and
      without one the action its rule recommends. */
  lemma PlannedAsRecommended(s: Store, key: FindingKey)
    requires key in s.findings
    ensures var rec := RecKey(key.workspaceId, s.findings[key].id);
      PlannedType(s, key) == if rec in s.recs then s.recs[rec].actionType else Recommends(key.ruleId)
    ensures PlannedType(s, key).Allowed? ==>
      var a := ActionFor(s, key);
      && a.resourceId == key.resourceId && a.findingId == s.findings[key].id
      && Allowed(a.actionType) == PlannedType(s, key) && Defaulted(a)
  {
    ActionTablesAgree(key.ruleId);
  }

  lemma {:induction false} PlannedUnlessUnlisted(s: Store, order: seq<FindingKey>)
    requires forall i :: 0 <= i < |order| ==> order[i] in s.findings
    ensures PlannedActions(s, order).Err? <==> exists i :: 0 <= i < |order| && PlannedType(s, order[i]).Unlisted?
    ensures PlannedActions(s, order).Err? ==> PlannedActions(s, order) == Err(Forbidden)
  {
    if order != [] {
      var front := order[..|order| - 1];
      PlannedUnlessUnlisted(s, front);
      if exists i :: 0 <= i < |front| && PlannedType(s, front[i]).Unlisted? {
        var i :| 0 <= i < |front| && PlannedType(s, front[i]).Unlisted?;
        assert PlannedType(s, order[i]).Unlisted?;
      }
      if exists i :: 0 <= i < |order| && PlannedType(s, order[i]).Unlisted? {
        var i :| 0 <= i < |order| && PlannedType(s, order[i]).Unlisted?;
        assert i < |front| ==> PlannedType(s, front[i]).Unlisted?;
      }
    }
  }

  function NewPlan(request: PlanRequest, actions: seq<Action>): Plan {
    Plan(request.workspaceId, request.findingIds, actions, request.dryRun, AwaitingApproval,
         request.actorId, request.correlationId, request.idempotencyKey)
  }

  /** `id` is the identifier the insert would get. */
  function CreatePlan(db: Db, request: PlanRequest, order: seq<FindingKey>, id: PlanId): (Db, Reply)
    requires Lists(order, Matching(db.store, request.workspaceId, request.findingIds))
  {
    var key := Key(request.workspaceId, request.idempotencyKey);
    if key in db.planIndex && db.planIndex[key] in db.plans then
      (db, PlanReply(db.planIndex[key], db.plans[db.planIndex[key]], true))
    else if |order| != |request.findingIds| then (db, Refused(NotFound))
    else
      match PlannedActions(db.store, order)
      case Err(e) => (db, Refused(e))
      case Ok(actions) =>
        if id in db.plans then (db, Refused(DuplicateKey))
        else
          var plan := NewPlan(request, actions);
          (db.(plans := db.plans[id := plan], planIndex := db.planIndex[key := id]), PlanReply(id, plan, false))
  }

  // Approval.

  function WithPlanStatus(db: Db, planId: PlanId, status: PlanStatus): Db
    requires planId in db.plans
  {
    db.(plans := db.plans[planId := db.plans[planId].(status := status)])
  }

  /** `token` is the random token the approval would issue. */
  function Approve(config: Config, db: Db, workspaceId: string, planId: PlanId, actorId: string, token: string,
                   now: int): (Db, Reply)
  {
    if planId !in db.plans || db.plans[planId].workspaceId != workspaceId then (db, Refused(NotFound))
    else if db.plans[planId].status != AwaitingApproval && db.plans[planId].status != Approved then
      (db, Refused(Conflict))
    else if Hash(token) in db.tokens then (db, Refused(DuplicateKey))
    else
      var expiresAt := now + config.approvalTtlMs;
      var db' := WithPlanStatus(db, planId, Approved)
                 .(tokens := db.tokens[Hash(token) := Token(workspaceId, planId, expiresAt, None, actorId)]);
      (db', ApprovalReply(db'.plans[planId], token, expiresAt))
  }

  // Execution.

  datatype ExecuteRequest = ExecuteRequest(
    workspaceId: string,
    planId: PlanId,
    actorId: string,
    approvalToken: string,
    idempotencyKey: string,
    now: int)

  /** The first objection to executing, in the order the service raises them. */
  function Objection(config: Config, db: Db, r: ExecuteRequest): Option<ServiceError> {
    if r.planId !in db.plans || db.plans[r.planId].workspaceId != r.workspaceId then Some(NotFound)
    else if db.plans[r.planId].status != Approved then Some(Conflict)
    else
      var hash := Hash(r.approvalToken);
      if hash !in db.tokens || db.tokens[hash].workspaceId != r.workspaceId || db.tokens[hash].planId != r.planId then
        Some(Forbidden)
      else if db.tokens[hash].usedAt.Some? then Some(Conflict)
      else if db.tokens[hash].expiresAt < r.now then Some(Forbidden)
      else if !db.plans[r.planId].dryRun && config.provider == Aws && !config.enableAwsMutations then Some(Forbidden)
      else None
  }

  predicate Replays(db: Db, r: ExecuteRequest) {
    Key(r.workspaceId, r.idempotencyKey) in db.executions
  }

  predicate Proceeds(config: Config, db: Db, r: ExecuteRequest) {
    !Replays(db, r) && Objection(config, db, r) == None
  }

  /** Stored resources are rewritten only by a live run on the mock provider; a live run with real
      mutations enabled rewrites nothing here. */
  predicate Rewrites(config: Config, plan: Plan) {
    !plan.dryRun && (config.provider == Mock || !config.enableAwsMutations)
  }

  predicate Present(resources: map<ResourceId, ResourceDoc>, workspaceId: string, id: ResourceId) {
    id in resources && resources[id].workspaceId == workspaceId
  }

  function ActionsOn(actions: seq<Action>, id: ResourceId): seq<Action> {
    if actions == [] then []
    else
      var last := actions[|actions| - 1];
      ActionsOn(actions[..|actions| - 1], id) + (if last.resourceId == id then [last] else [])
  }

  function Remediated(doc: ResourceDoc, actions: seq<Action>): ResourceDoc {
    doc.(body := ApplyAll(doc.body, actions), version := doc.version + |actions|)
  }

  function ResourcesAfter(config: Config, db: Db, plan: Plan, done: nat): map<ResourceId, ResourceDoc>
    requires done <= |plan.actions|
  {
    map id | id in db.resources ::
      if Rewrites(config, plan) && db.resources[id].workspaceId == plan.workspaceId
      then Remediated(db.resources[id], ActionsOn(plan.actions[..done], id))
      else db.resources[id]
  }

  function Touched(db: Db, plan: Plan, done: nat): set<ResourceId>
    requires done <= |plan.actions|
  {
    set i | 0 <= i < done && Present(db.resources, plan.workspaceId, plan.actions[i].resourceId) ::
      plan.actions[i].resourceId
  }

  function SnapshotOf(b: Body): Snapshot {
    Snapshot(b.tags, b.config)
  }

  /** The body that the last of `actions` is applied to. */
  function BodyBeforeLast(config: Config, plan: Plan, body: Body, actions: seq<Action>): Body
    requires actions != []
  {
    if Rewrites(config, plan) then ApplyAll(body, actions[..|actions| - 1]) else body
  }

  function BeforeValue(config: Config, plan: Plan, body: Body, actions: seq<Action>): Snapshot {
    if actions == [] then SnapshotOf(body) else SnapshotOf(BodyBeforeLast(config, plan, body, actions))
  }

  function AfterValueOf(config: Config, plan: Plan, body: Body, actions: seq<Action>): AfterValue {
    if actions == [] then Stored(SnapshotOf(body))
    else if plan.dryRun then Preview(Apply(body, actions[|actions| - 1]))
    else if Rewrites(config, plan) then Stored(SnapshotOf(ApplyAll(body, actions)))
    else Stored(SnapshotOf(body))
  }

  function BeforeState(config: Config, db: Db, plan: Plan, done: nat): map<ResourceId, Snapshot>
    requires done <= |plan.actions|
  {
    map id | id in Touched(db, plan, done) && id in db.resources ::
      BeforeValue(config, plan, db.resources[id].body, ActionsOn(plan.actions[..done], id))
  }

  function AfterState(config: Config, db: Db, plan: Plan, done: nat): map<ResourceId, AfterValue>
    requires done <= |plan.actions|
  {
    map id | id in Touched(db, plan, done) && id in db.resources ::
      AfterValueOf(config, plan, db.resources[id].body, ActionsOn(plan.actions[..done], id))
  }

  function ResultOf(db: Db, plan: Plan, a: Action): ActionResult {
    ActionResult(a.actionType, a.resourceId, Present(db.resources, plan.workspaceId, a.resourceId), true)
  }

  function Results(db: Db, plan: Plan, done: nat): seq<ActionResult>
    requires done <= |plan.actions|
  {
    seq(done, i requires 0 <= i < done => ResultOf(db, plan, plan.actions[i]))
  }

  function StatusOf(results: seq<ActionResult>): ExecutionStatus {
    if forall i :: 0 <= i < |results| ==> results[i].ok then Succeeded
    else if forall i :: 0 <= i < |results| ==> !results[i].ok then FailedEntirely
    else PartialFailure
  }

  function ExecutionOf(config: Config, db: Db, r: ExecuteRequest): Execution
    requires r.planId in db.plans
  {
    var plan := db.plans[r.planId];
    var n := |plan.actions|;
    Execution(r.workspaceId, r.planId, Hash(r.approvalToken), r.idempotencyKey,
              StatusOf(Results(db, plan, n)), plan.dryRun,
              BeforeState(config, db, plan, n), AfterState(config, db, plan, n), Results(db, plan, n), r.actorId)
  }

  /** How far an execution got before its process died. */
  datatype CrashPoint = BeforeAnyWrite | AfterPlanSave | AfterActions(done: nat) | AfterExecutionInsert | NoCrash

  /** The database as an execution that passed its checks leaves it at each point. */
  function ExecutedTo(config: Config, db: Db, r: ExecuteRequest, point: CrashPoint): Db
    requires Objection(config, db, r) == None
  {
    var plan := db.plans[r.planId];
    var hash := Hash(r.approvalToken);
    var begun := WithPlanStatus(db, r.planId, Executing);
    var consumed := begun.(tokens := db.tokens[hash := db.tokens[hash].(usedAt := Some(r.now))]);
    match point
    case BeforeAnyWrite => db
    case AfterPlanSave => begun
    case AfterActions(done) =>
      consumed.(resources := ResourcesAfter(config, db, plan, if done < |plan.actions| then done else |plan.actions|))
    case AfterExecutionInsert =>
      consumed.(resources := ResourcesAfter(config, db, plan, |plan.actions|),
                executions := db.executions[Key(r.workspaceId, r.idempotencyKey) := ExecutionOf(config, db, r)])
    case NoCrash =>
      var execution := ExecutionOf(config, db, r);
      WithPlanStatus(
        consumed.(resources := ResourcesAfter(config, db, plan, |plan.actions|),
                  executions := db.executions[Key(r.workspaceId, r.idempotencyKey) := execution]),
        r.planId, if execution.status == Succeeded then Completed else Failed)
  }

  function ExecuteReply(config: Config, db: Db, r: ExecuteRequest): Reply {
    if Replays(db, r) then ExecutionReply(db.executions[Key(r.workspaceId, r.idempotencyKey)], true)
    else
      match Objection(config, db, r)
      case Some(error) => Refused(error)
      case None => ExecutionReply(ExecutionOf(config, db, r), false)
  }

  function Execute(config: Config, db: Db, r: ExecuteRequest, point: CrashPoint): Db {
    if Proceeds(config, db, r) then ExecutedTo(config, db, r, point) else db
  }

  /** The record of an execution: who, what, and one result per action in the plan's order. */
  lemma ExecutionSays(config: Config, db: Db, r: ExecuteRequest)
    requires r.planId in db.plans
    ensures var e, plan := ExecutionOf(config, db, r), db.plans[r.planId];
      && e.workspaceId == r.workspaceId && e.planId == r.planId && e.idempotencyKey == r.idempotencyKey
      && e.approvalToken == Hash(r.approvalToken) && e.createdBy == r.actorId && e.dryRun == plan.dryRun
      && |e.results| == |plan.actions|
      && (forall i :: 0 <= i < |plan.actions| ==>
            && e.results[i].actionType == plan.actions[i].actionType
            && e.results[i].resourceId == plan.actions[i].resourceId
            && (e.results[i].ok <==> && plan.actions[i].resourceId in db.resources
                                     && db.resources[plan.actions[i].resourceId].workspaceId == plan.workspaceId))
      && (e.status == Succeeded <==> forall i :: 0 <= i < |e.results| ==> e.results[i].ok)
      && (e.status == FailedEntirely <==> e.results != [] && forall i :: 0 <= i < |e.results| ==> !e.results[i].ok)
  {
    var results := Results(db, db.plans[r.planId], |db.plans[r.planId].actions|);
    if results != [] { assert results[0].ok || !results[0].ok; }
  }

  /** What a whole execution leaves behind besides the resources: its record under its key, the spent
      token, and the plan's final status. */
  lemma ExecutionIsRecorded(config: Config, db: Db, r: ExecuteRequest)
    requires Proceeds(config, db, r)
    ensures var db', e := Execute(config, db, r, NoCrash), ExecutionOf(config, db, r);
      && ExecuteReply(config, db, r) == ExecutionReply(e, false)
      && db'.executions == db.executions[Key(r.workspaceId, r.idempotencyKey) := e]
      && db'.tokens == db.tokens[Hash(r.approvalToken) := db.tokens[Hash(r.approvalToken)].(usedAt := Some(r.now))]
      && db'.plans == db.plans[r.planId := db.plans[r.planId].(status := if e.status == Succeeded then Completed
                                                                         else Failed)]
      && db'.planIndex == db.planIndex && db'.store == db.store
  {
  }

  /** And of the resources: each has had its own actions applied, counted by its version. */
  lemma ResourcesAreCounted(config: Config, db: Db, plan: Plan, done: nat, id: ResourceId)
    requires done <= |plan.actions| && id in db.resources
    ensures id in ResourcesAfter(config, db, plan, done)
    ensures var doc, doc' := db.resources[id], ResourcesAfter(config, db, plan, done)[id];
      if !plan.dryRun && (config.provider == Mock || !config.enableAwsMutations) && doc.workspaceId == plan.workspaceId
      then doc' == doc.(body := ApplyAll(doc.body, ActionsOn(plan.actions[..done], id)),
                        version := doc.version + |ActionsOn(plan.actions[..done], id)|)
      else doc' == doc
  {
  }

  // What the loop's result means.

  lemma {:induction false} ActionsOnContents(actions: seq<Action>, id: ResourceId)
    ensures forall a :: a in ActionsOn(actions, id) <==> a in actions && a.resourceId == id
    ensures ActionsOn(actions, id) != [] <==> exists i :: 0 <= i < |actions| && actions[i].resourceId == id
  {
    if actions != [] {
      ActionsOnContents(actions[..|actions| - 1], id);
      assert actions == actions[..|actions| - 1] + [actions[|actions| - 1]];
      if ActionsOn(actions, id) != [] {
        assert ActionsOn(actions, id)[0] in actions;
      }
    }
  }

  /** One result per action, ok iff its resource is in the workspace, and the two states record
      exactly the resources that some result is ok for. */
  lemma StatesCoverOkResults(config: Config, db: Db, plan: Plan)
    ensures var n := |plan.actions|; var results := Results(db, plan, n);
      && |results| == n
      && (forall i :: 0 <= i < n ==>
            results[i].ok == Present(db.resources, plan.workspaceId, plan.actions[i].resourceId))
      && BeforeState(config, db, plan, n).Keys == (set i | 0 <= i < n && results[i].ok :: results[i].resourceId)
      && AfterState(config, db, plan, n).Keys == BeforeState(config, db, plan, n).Keys
  {
  }

  /** In a dry run and in a live mock run alike, the recorded after value is the last action on the
      resource applied to the recorded before value. In a live run that is the state before the
      LAST action, not the original one. */
  lemma AfterIsLastActionOnBefore(config: Config, db: Db, plan: Plan, id: ResourceId) returns (before: Body, i: nat)
    requires id in BeforeState(config, db, plan, |plan.actions|)
    requires plan.dryRun || Rewrites(config, plan)
    ensures id in AfterState(config, db, plan, |plan.actions|)
    ensures i < |plan.actions| && plan.actions[i].resourceId == id
    ensures forall k :: i < k < |plan.actions| ==> plan.actions[k].resourceId != id
    ensures BeforeState(config, db, plan, |plan.actions|)[id] == SnapshotOf(before)
    ensures AfterState(config, db, plan, |plan.actions|)[id]
         == if plan.dryRun then Preview(Apply(before, plan.actions[i]))
            else Stored(SnapshotOf(Apply(before, plan.actions[i])))
  {
    ActionsOnContents(plan.actions, id);
    assert plan.actions[..|plan.actions|] == plan.actions;
    i := LastOn(plan.actions, id);
    before := BodyBeforeLast(config, plan, db.resources[id].body, ActionsOn(plan.actions, id));
    LastActionValues(config, plan, db.resources[id].body, ActionsOn(plan.actions, id), before, plan.actions[i]);
  }

  lemma {:induction false} LastOn(actions: seq<Action>, id: ResourceId) returns (i: nat)
    requires ActionsOn(actions, id) != []
    ensures i < |actions| && actions[i].resourceId == id
    ensures actions[i] == ActionsOn(actions, id)[|ActionsOn(actions, id)| - 1]
    ensures forall k :: i < k < |actions| ==> actions[k].resourceId != id
  {
    var n := |actions| - 1;
    if actions[n].resourceId == id {
      i := n;
    } else {
      i := LastOn(actions[..n], id);
    }
  }

  lemma LastActionValues(config: Config, plan: Plan, body: Body, actions: seq<Action>, before: Body, a: Action)
    requires actions != [] && (plan.dryRun || Rewrites(config, plan))
    requires before == BodyBeforeLast(config, plan, body, actions) && a == actions[|actions| - 1]
    ensures BeforeValue(config, plan, body, actions) == SnapshotOf(before)
    ensures AfterValueOf(config, plan, body, actions)
         == if plan.dryRun then Preview(Apply(before, a)) else Stored(SnapshotOf(Apply(before, a)))
  {
  }

  lemma AppliedHasAlarmList(body: Body, actions: seq<Action>)
    requires actions != []
    ensures ApplyAll(body, actions).config.alarms.Some?
  {
  }

  /** beforeState is the original state, whatever that was, exactly when the run rewrites nothing or
      the resource has a single action. */
  lemma BeforeIsAlwaysOriginalIff(config: Config, plan: Plan, actions: seq<Action>)
    requires actions != []
    ensures (forall body :: BeforeValue(config, plan, body, actions) == SnapshotOf(body)) <==>
      !Rewrites(config, plan) || |actions| == 1
  {
    if Rewrites(config, plan) && |actions| > 1 {
      var config0 := ResourceConfig(None, None, None, None, map[]);
      var body := Body(map[], config0, Metrics(None, None, None, None, None, None, None));
      AppliedHasAlarmList(body, actions[..|actions| - 1]);
      assert BeforeValue(config, plan, body, actions).config.alarms != SnapshotOf(body).config.alarms;
    }
  }

  /** What default actions of these types set is set already, alarm list included. */
  predicate Already(body: Body, id: ResourceId, types: set<Allowlisted>) {
    && body.config.alarms.Some?
    && (AddMissingTag in types ==> "Owner" in body.tags && body.tags["Owner"] == "platform")
    && (CreateAlarm in types ==> id + "-health" in body.config.alarms.value)
    && (EnableBackupPolicy in types ==> body.config.backupEnabled == Some(true))
    && (RestartUnhealthyService in types ==> body.config.healthCheckStatus == Some(Healthy))
    && (RestrictPublicStorage in types ==> body.config.publicAccess == Some(false))
  }

  lemma EffectShowsIff(body: Body, id: ResourceId, types: set<Allowlisted>)
    requires types != {}
    ensures SnapshotOf(Effect(body, id, types)) == SnapshotOf(body) <==> Already(body, id, types)
  {
    if SnapshotOf(Effect(body, id, types)) == SnapshotOf(body) {
      assert AddMissingTag in types ==> body.tags["Owner" := "platform"]["Owner"] == "platform";
      assert Effect(body, id, types).config == body.config;
    }
  }

  lemma BeforeValueIsOriginalIff(config: Config, plan: Plan, body: Body, actions: seq<Action>, id: ResourceId)
    requires actions != [] && DefaultedOn(actions, id)
    ensures BeforeValue(config, plan, body, actions) == SnapshotOf(body) <==>
      !Rewrites(config, plan) || |actions| == 1 || Already(body, id, Types(actions[..|actions| - 1]))
  {
    var front := actions[..|actions| - 1];
    ApplyAllIsEffect(body, id, front);
    if front != [] {
      assert front[0].actionType in Types(front);
      EffectShowsIff(body, id, Types(front));
    }
  }

  /** What an execution records as the state before is the resource's original state exactly when the
      run rewrites nothing, or the plan has one action on the resource, or all but the last of them
      find their work done already. */
  lemma BeforeIsOriginalIff(config: Config, db: Db, plan: Plan, id: ResourceId)
    requires id in BeforeState(config, db, plan, |plan.actions|)
    requires forall a :: a in plan.actions ==> Defaulted(a)
    ensures var actions := ActionsOn(plan.actions, id);
      && actions != []
      && (BeforeState(config, db, plan, |plan.actions|)[id] == SnapshotOf(db.resources[id].body) <==>
            || !Rewrites(config, plan) || |actions| == 1
            || Already(db.resources[id].body, id, Types(actions[..|actions| - 1])))
  {
    ActionsOnContents(plan.actions, id);
    assert plan.actions[..|plan.actions|] == plan.actions;
    BeforeValueIsOriginalIff(config, plan, db.resources[id].body, ActionsOn(plan.actions, id), id);
  }

  /** Stored resources change only in a live mock run (or one whose real mutations are disabled,
      which the checks refuse), and only in the plan's workspace. */
  lemma ResourcesChangeOnlyWhenLiveMock(config: Config, db: Db, r: ExecuteRequest, point: CrashPoint, id: ResourceId)
    requires Proceeds(config, db, r) && id in db.resources
    requires Execute(config, db, r, point).resources[id] != db.resources[id]
    ensures !db.plans[r.planId].dryRun && config.provider == Mock && db.resources[id].workspaceId == r.workspaceId
  {
  }

  lemma {:induction false} PlannedActionsAreDefaulted(s: Store, order: seq<FindingKey>)
    requires forall i :: 0 <= i < |order| ==> order[i] in s.findings
    requires PlannedActions(s, order).Ok?
    ensures forall a :: a in PlannedActions(s, order).value ==> Defaulted(a)
    ensures forall i :: 0 <= i < |order| && PlannedType(s, order[i]).Allowed? ==>
      ActionFor(s, order[i]) in PlannedActions(s, order).value
    ensures forall a :: a in PlannedActions(s, order).value ==>
      exists i :: 0 <= i < |order| && PlannedType(s, order[i]).Allowed? && a == ActionFor(s, order[i])
  {
    if order != [] {
      var front, key := order[..|order| - 1], order[|order| - 1];
      PlannedActionsAreDefaulted(s, front);
      var actions, actions' := PlannedActions(s, front).value, PlannedActions(s, order).value;
      forall i | 0 <= i < |order| && PlannedType(s, order[i]).Allowed? ensures ActionFor(s, order[i]) in actions' {
        if i < |front| { assert order[i] == front[i]; }
      }
      forall a | a in actions'
        ensures exists i :: 0 <= i < |order| && PlannedType(s, order[i]).Allowed? && a == ActionFor(s, order[i])
      {
        if a in actions {
          var i :| 0 <= i < |front| && PlannedType(s, front[i]).Allowed? && a == ActionFor(s, front[i]);
          assert order[i] == front[i];
        } else {
          assert a == ActionFor(s, order[|order| - 1]);
        }
      }
    }
  }

  function Pairs(actions: seq<Action>): set<(ResourceId, Allowlisted)> {
    set a | a in actions :: (a.resourceId, a.actionType)
  }

  lemma TypesArePairs(actions: seq<Action>, id: ResourceId, t: Allowlisted)
    ensures t in Types(ActionsOn(actions, id)) <==> (id, t) in Pairs(actions)
  {
    ActionsOnContents(actions, id);
    if t in Types(ActionsOn(actions, id)) {
      var a :| a in ActionsOn(actions, id) && a.actionType == t;
      assert a in actions && a.resourceId == id;
    }
    if (id, t) in Pairs(actions) {
      var a :| a in actions && (a.resourceId, a.actionType) == (id, t);
      assert a in ActionsOn(actions, id);
    }
  }

  lemma ActionsOnCommute(body: Body, p: seq<Action>, q: seq<Action>, id: ResourceId)
    requires Pairs(p) == Pairs(q) && forall a :: a in p || a in q ==> Defaulted(a)
    ensures ApplyAll(body, ActionsOn(p, id)) == ApplyAll(body, ActionsOn(q, id))
  {
    ActionsOnContents(p, id);
    ActionsOnContents(q, id);
    forall t ensures t in Types(ActionsOn(p, id)) <==> t in Types(ActionsOn(q, id)) {
      TypesArePairs(p, id, t);
      TypesArePairs(q, id, t);
    }
    DefaultActionsCommute(body, id, ActionsOn(p, id), ActionsOn(q, id));
  }

  /** The order the database lists a plan's findings in, and their repetition, do not matter: plans
      with the same pairs of resource and action leave every resource with the same body. */
  lemma PlansCommute(config: Config, db: Db, p: Plan, q: Plan, id: ResourceId)
    requires p.workspaceId == q.workspaceId && p.dryRun == q.dryRun && Pairs(p.actions) == Pairs(q.actions)
    requires forall a :: a in p.actions || a in q.actions ==> Defaulted(a)
    requires id in db.resources
    ensures ResourcesAfter(config, db, p, |p.actions|)[id].body == ResourcesAfter(config, db, q, |q.actions|)[id].body
  {
    assert p.actions[..|p.actions|] == p.actions && q.actions[..|q.actions|] == q.actions;
    ActionsOnCommute(db.resources[id].body, p.actions, q.actions, id);
  }
}
