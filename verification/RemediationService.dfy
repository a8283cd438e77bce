/** The remediation service over its collections, each request served by itself. */
module RemediationService {
  import opened Wrappers
  import opened Errors
  import opened Policy
  import opened RemediationEngine
  import opened ResultStore
  import opened RemediationDb

  class RemediationService {
    const config: Config
    const store: Store
    var plans: map<PlanId, Plan>
    var planIndex: map<Key, PlanId>
    var tokens: map<Hash, Token>
    var executions: map<Key, Execution>
    var resources: map<ResourceId, ResourceDoc>

    constructor (config: Config, db: Db)
      ensures this.config == config && Contents() == db
    {
      this.config := config;
      store := db.store;
      plans, planIndex, tokens := db.plans, db.planIndex, db.tokens;
      executions, resources := db.executions, db.resources;
    }

    function Contents(): Db
      reads this
    {
      Db(plans, planIndex, tokens, executions, resources, store)
    }

    method CreatePlan(request: PlanRequest, order: seq<FindingKey>, id: PlanId) returns (reply: Reply)
      requires Lists(order, Matching(store, request.workspaceId, request.findingIds))
      modifies this`plans, this`planIndex
      ensures (Contents(), reply) == RemediationDb.CreatePlan(old(Contents()), request, order, id)
      ensures reply.PlanReply? && reply.replayed ==>
        && Key(request.workspaceId, request.idempotencyKey) in old(planIndex)
        && reply.id == old(planIndex)[Key(request.workspaceId, request.idempotencyKey)]
        && reply.id in old(plans) && reply.plan == old(plans)[reply.id]
      ensures reply.PlanReply? && !reply.replayed ==>
        && reply.id == id && id !in old(plans) && plans == old(plans)[id := reply.plan]
        && planIndex == old(planIndex)[Key(request.workspaceId, request.idempotencyKey) := id]
        && reply.plan.workspaceId == request.workspaceId && reply.plan.findingIds == request.findingIds
        && reply.plan.dryRun == request.dryRun && reply.plan.status == AwaitingApproval
        && reply.plan.createdBy == request.actorId && reply.plan.correlationId == request.correlationId
        && reply.plan.idempotencyKey == request.idempotencyKey
        && Ok(reply.plan.actions) == PlannedActions(store, order)
      ensures !reply.PlanReply? || reply.replayed ==> plans == old(plans) && planIndex == old(planIndex)
      ensures reply.PlanReply? && reply.replayed <==>
        && Key(request.workspaceId, request.idempotencyKey) in old(planIndex)
        && old(planIndex)[Key(request.workspaceId, request.idempotencyKey)] in old(plans)
      ensures reply.Refused? ==>
        reply.error == if |order| != |request.findingIds| then NotFound
                       else if exists i :: 0 <= i < |order| && PlannedType(store, order[i]).Unlisted? then Forbidden
                       else DuplicateKey
      ensures !reply.Refused? && !reply.replayed ==>
        && |order| == |request.findingIds|
        && forall i :: 0 <= i < |order| ==> !PlannedType(store, order[i]).Unlisted?
    {
      PlannedUnlessUnlisted(store, order);
      var key := Key(request.workspaceId, request.idempotencyKey);
      if key in planIndex && planIndex[key] in plans {
        return PlanReply(planIndex[key], plans[planIndex[key]], true);
      }
      if |order| != |request.findingIds| {
        return Refused(NotFound);
      }
      var planned := PlanActions(order);
      if planned.Err? {
        return Refused(planned.error);
      }
      if id in plans {
        return Refused(DuplicateKey);
      }
      plans := plans[id := Plan(request.workspaceId, request.findingIds, planned.value,
                                request.dryRun, AwaitingApproval,
                                request.actorId, request.correlationId, request.idempotencyKey)];
      planIndex := planIndex[key := id];
      reply := PlanReply(id, plans[id], false);
    }

    method PlanActions(order: seq<FindingKey>) returns (planned: Result<seq<Action>, ServiceError>)
      requires forall i :: 0 <= i < |order| ==> order[i] in store.findings
      ensures planned == PlannedActions(store, order)
    {
      var actions := [];
      for n := 0 to |order|
        invariant PlannedActions(store, order[..n]) == Ok(actions)
      {
        assert order[..n + 1][..n] == order[..n];
        var key := order[n];
        var rec := RecKey(key.workspaceId, store.findings[key].id);
        var actionType := if rec in store.recs then store.recs[rec].actionType else ActionByRule(key.ruleId);
        match actionType {
          case ManualReview =>
          case Unlisted(_) =>
            RefusedOnceRefusedForGood(store, order, n + 1);
            return Err(Forbidden);
          case Allowed(allowed) =>
            actions := actions + [Action(allowed, key.resourceId, store.findings[key].id,
                                         DefaultParams(allowed, key.resourceId))];
        }
      }
      assert order[..|order|] == order;
      planned := Ok(actions);
    }

    method Approve(workspaceId: string, planId: PlanId, actorId: string, token: string, now: int) returns (reply: Reply)
      modifies this`plans, this`tokens
      ensures (Contents(), reply)
           == RemediationDb.Approve(config, old(Contents()), workspaceId, planId, actorId, token, now)
      ensures reply == Refused(NotFound) <==> planId !in old(plans) || old(plans)[planId].workspaceId != workspaceId
      ensures reply == Refused(Conflict) <==>
        && planId in old(plans) && old(plans)[planId].workspaceId == workspaceId
        && old(plans)[planId].status !in {AwaitingApproval, Approved}
      ensures reply.ApprovalReply? ==>
        && reply.token == token && reply.expiresAt == now + config.approvalTtlMs
        && planId in old(plans) && reply.approved == old(plans)[planId].(status := Approved)
        && plans == old(plans)[planId := reply.approved]
        && tokens == old(tokens)[Hash(token) := Token(workspaceId, planId, now + config.approvalTtlMs, None, actorId)]
      ensures !reply.ApprovalReply? ==> plans == old(plans) && tokens == old(tokens)
    {
      if planId !in plans || plans[planId].workspaceId != workspaceId {
        return Refused(NotFound);
      }
      var plan := plans[planId];
      if plan.status != AwaitingApproval && plan.status != Approved {
        return Refused(Conflict);
      }
      if Hash(token) in tokens {
        return Refused(DuplicateKey);
      }
      tokens := tokens[Hash(token) := Token(workspaceId, planId, now + config.approvalTtlMs, None, actorId)];
      plan := plan.(status := Approved);
      plans := plans[planId := plan];
      reply := ApprovalReply(plan, token, now + config.approvalTtlMs);
    }

    /** `trail` records the database after each write, so its entries are what a crash would leave. */
    method Execute(r: ExecuteRequest) returns (reply: Reply, ghost trail: seq<Db>)
      modifies this`plans, this`tokens, this`executions, this`resources
      ensures reply == ExecuteReply(config, old(Contents()), r)
      ensures Contents() == RemediationDb.Execute(config, old(Contents()), r, NoCrash)
      ensures if Proceeds(config, old(Contents()), r) then Trails(config, old(Contents()), r, trail)
              else trail == []
      ensures Key(r.workspaceId, r.idempotencyKey) in old(executions) ==>
        reply == ExecutionReply(old(executions)[Key(r.workspaceId, r.idempotencyKey)], true)
      ensures Key(r.workspaceId, r.idempotencyKey) !in old(executions) ==>
        var hash := Hash(r.approvalToken);
        if r.planId !in old(plans) || old(plans)[r.planId].workspaceId != r.workspaceId then
          reply == Refused(NotFound)
        else if old(plans)[r.planId].status != Approved then reply == Refused(Conflict)
        else if hash !in old(tokens) || old(tokens)[hash].workspaceId != r.workspaceId
                || old(tokens)[hash].planId != r.planId then reply == Refused(Forbidden)
        else if old(tokens)[hash].usedAt.Some? then reply == Refused(Conflict)
        else if old(tokens)[hash].expiresAt < r.now then reply == Refused(Forbidden)
        else if !old(plans)[r.planId].dryRun && config.provider == Aws && !config.enableAwsMutations then
          reply == Refused(Forbidden)
        else reply.ExecutionReply? && !reply.replay
    {
      var key := Key(r.workspaceId, r.idempotencyKey);
      if key in executions {
        return ExecutionReply(executions[key], true), [];
      }
      if r.planId !in plans || plans[r.planId].workspaceId != r.workspaceId {
        return Refused(NotFound), [];
      }
      var plan := plans[r.planId];
      if plan.status != Approved {
        return Refused(Conflict), [];
      }
      var hash := Hash(r.approvalToken);
      if hash !in tokens || tokens[hash].workspaceId != r.workspaceId || tokens[hash].planId != r.planId {
        return Refused(Forbidden), [];
      }
      if tokens[hash].usedAt.Some? {
        return Refused(Conflict), [];
      }
      if tokens[hash].expiresAt < r.now {
        return Refused(Forbidden), [];
      }
      if !plan.dryRun && config.provider == Aws && !config.enableAwsMutations {
        return Refused(Forbidden), [];
      }
      var execution;
      execution, trail := Perform(r);
      reply := ExecutionReply(execution, false);
    }

    /** The writes of `execute`, once nothing objects. */
    method Perform(r: ExecuteRequest) returns (execution: Execution, ghost trail: seq<Db>)
      requires Objection(config, Contents(), r) == None
      modifies this`plans, this`tokens, this`executions, this`resources
      ensures execution == ExecutionOf(config, old(Contents()), r)
      ensures Contents() == ExecutedTo(config, old(Contents()), r, NoCrash)
      ensures Trails(config, old(Contents()), r, trail)
    {
      ghost var db := Contents();
      var plan := plans[r.planId];
      var hash := Hash(r.approvalToken);

      plans := plans[r.planId := plan.(status := Executing)];
      assert Contents() == ExecutedTo(config, db, r, AfterPlanSave);
      trail := [Contents()];
      tokens := tokens[hash := tokens[hash].(usedAt := Some(r.now))];
      ResourcesAfterNone(config, db, plan);
      assert Contents() == ExecutedTo(config, db, r, AfterActions(0));
      var beforeState, afterState, results;
      beforeState, afterState, results, trail := PerformActions(db, r, plan, trail);
      execution, trail := Record(db, r, plan, beforeState, afterState, results, trail);
    }

    /** The end of `execute`: the execution document, then the plan's final status. */
    method Record(ghost db: Db, r: ExecuteRequest, plan: Plan, beforeState: map<ResourceId, Snapshot>,
                  afterState: map<ResourceId, AfterValue>, results: seq<ActionResult>, ghost before: seq<Db>)
      returns (execution: Execution, ghost trail: seq<Db>)
      requires Objection(config, db, r) == None && plan == db.plans[r.planId]
      requires Contents() == ExecutedTo(config, db, r, AfterActions(|plan.actions|))
      requires Progress(resources, beforeState, afterState, results) == ProgressAfter(config, db, plan, |plan.actions|)
      requires |before| == |plan.actions| + 2 && FollowsTrail(config, db, r, before)
      modifies this`plans, this`executions
      ensures execution == ExecutionOf(config, db, r)
      ensures Contents() == ExecutedTo(config, db, r, NoCrash)
      ensures Trails(config, db, r, trail)
    {
      StatusByCount(results);
      var failed := CountFailures(results);
      var status := if failed == 0 then Succeeded else if failed == |results| then FailedEntirely else PartialFailure;
      execution := Execution(r.workspaceId, r.planId, Hash(r.approvalToken), r.idempotencyKey, status, plan.dryRun,
                             beforeState, afterState, results, r.actorId);
      assert status == StatusOf(results);
      assert execution == ExecutionOf(config, db, r);
      RecordedStates(config, db, r);
      executions := executions[Key(r.workspaceId, r.idempotencyKey) := execution];
      TrailExtends(config, db, r, before, Contents());
      trail := before + [Contents()];
      plans := plans[r.planId := plans[r.planId].(status := if status == Succeeded then Completed else Failed)];
      TrailExtends(config, db, r, trail, Contents());
      trail := trail + [Contents()];
    }

    /** The execution loop. `db` is the database before the execution began. */
    method PerformActions(ghost db: Db, r: ExecuteRequest, plan: Plan, ghost before: seq<Db>)
      returns (beforeState: map<ResourceId, Snapshot>, afterState: map<ResourceId, AfterValue>,
               results: seq<ActionResult>, ghost trail: seq<Db>)
      requires Objection(config, db, r) == None && plan == db.plans[r.planId]
      requires Contents() == ExecutedTo(config, db, r, AfterActions(0))
      requires before == [ExecutedTo(config, db, r, AfterPlanSave)]
      modifies this`resources
      ensures Contents() == ExecutedTo(config, db, r, AfterActions(|plan.actions|))
      ensures Progress(resources, beforeState, afterState, results) == ProgressAfter(config, db, plan, |plan.actions|)
      ensures |trail| == |plan.actions| + 2 && FollowsTrail(config, db, r, trail)
    {
      ghost var consumed := Contents();
      ResourcesAfterNone(config, db, plan);
      beforeState, afterState, results := map[], map[], [];
      assert FollowsTrail(config, db, r, before);
      TrailExtends(config, db, r, before, consumed);
      trail := before + [consumed];
      for n := 0 to |plan.actions|
        invariant Contents() == consumed.(resources := resources)
        invariant Progress(resources, beforeState, afterState, results) == ProgressAfter(config, db, plan, n)
        invariant |trail| == n + 2 && FollowsTrail(config, db, r, trail)
      {
        OneMoreTurn(config, db, plan, n);
        beforeState, afterState, results := PerformAction(plan, plan.actions[n], beforeState, afterState, results);
        ActionsReached(config, db, r, n + 1, Contents());
        TrailExtends(config, db, r, trail, Contents());
        trail := trail + [Contents()];
      }
      ActionsReached(config, db, r, |plan.actions|, Contents());
    }

    /** One turn of the execution loop. */
    method PerformAction(plan: Plan, action: Action, before: map<ResourceId, Snapshot>,
                         after: map<ResourceId, AfterValue>, earlier: seq<ActionResult>)
      returns (beforeState: map<ResourceId, Snapshot>, afterState: map<ResourceId, AfterValue>,
               results: seq<ActionResult>)
      modifies this`resources
      ensures Progress(resources, beforeState, afterState, results)
           == Turn(config, plan, action, Progress(old(resources), before, after, earlier))
    {
      var id := action.resourceId;
      beforeState, afterState := before, after;
      if !Present(resources, plan.workspaceId, id) {
        results := earlier + [ActionResult(action.actionType, id, false, true)];
        return;
      }
      var resource := resources[id];
      beforeState := beforeState[id := Snapshot(resource.body.tags, resource.body.config)];
      var applied := ApplySimulatedAction(resource.body, Allowed(action.actionType), id, action.params);
      var body := applied.value.0;
      results := earlier + [applied.value.1];
      if plan.dryRun || config.provider == Mock || !config.enableAwsMutations {
        if !plan.dryRun {
          resource := resource.(body := body, version := resource.version + 1);
          resources := resources[id := resource];
        }
      }
      afterState := afterState[id := if plan.dryRun then Preview(body)
                                     else Stored(Snapshot(resource.body.tags, resource.body.config))];
    }
  }

  /** What the execution loop has written and gathered. */
  datatype Progress = Progress(resources: map<ResourceId, ResourceDoc>, before: map<ResourceId, Snapshot>,
                               after: map<ResourceId, AfterValue>, results: seq<ActionResult>)

  function ProgressAfter(config: Config, db: Db, plan: Plan, n: nat): Progress
    requires n <= |plan.actions|
  {
    Progress(ResourcesAfter(config, db, plan, n), BeforeState(config, db, plan, n), AfterState(config, db, plan, n),
             Results(db, plan, n))
  }

  /** The after value recorded when `a` is applied to `body`. */
  function AfterOne(config: Config, plan: Plan, body: Body, a: Action): AfterValue {
    if plan.dryRun then Preview(Apply(body, a))
    else Stored(SnapshotOf(if Rewrites(config, plan) then Apply(body, a) else body))
  }

  function Turn(config: Config, plan: Plan, a: Action, p: Progress): Progress {
    var id := a.resourceId;
    if Present(p.resources, plan.workspaceId, id) then
      var doc := p.resources[id];
      Progress(
        if Rewrites(config, plan)
        then p.resources[id := doc.(body := Apply(doc.body, a), version := doc.version + 1)] else p.resources,
        p.before[id := SnapshotOf(doc.body)],
        p.after[id := AfterOne(config, plan, doc.body, a)],
        p.results + [ActionResult(a.actionType, id, true, true)])
    else p.(results := p.results + [ActionResult(a.actionType, id, false, true)])
  }

  /** One turn: a resource missing from the workspace leaves a failed result and nothing else; one that
      is there has its state recorded, and is rewritten only live, on the mock provider or with real
      mutations off. */
  lemma TurnWrites(config: Config, plan: Plan, a: Action, p: Progress)
    ensures var id, after := a.resourceId, Turn(config, plan, a, p);
      if id !in p.resources || p.resources[id].workspaceId != plan.workspaceId then
        after == p.(results := p.results + [ActionResult(a.actionType, id, false, true)])
      else
        var doc := p.resources[id];
        var next := Apply(doc.body, a);
        && after.results == p.results + [ActionResult(a.actionType, id, true, true)]
        && after.before == p.before[id := Snapshot(doc.body.tags, doc.body.config)]
        && if plan.dryRun then after.resources == p.resources && after.after == p.after[id := Preview(next)]
           else if config.provider == Mock || !config.enableAwsMutations then
             && after.resources == p.resources[id := doc.(body := next, version := doc.version + 1)]
             && after.after == p.after[id := Stored(Snapshot(next.tags, next.config))]
           else
             && after.resources == p.resources
             && after.after == p.after[id := Stored(Snapshot(doc.body.tags, doc.body.config))]
  {
  }

  method CountFailures(results: seq<ActionResult>) returns (failed: nat)
    ensures failed == Failures(results)
  {
    failed := 0;
    for n := 0 to |results|
      invariant failed == Failures(results[..n])
    {
      assert results[..n + 1][..n] == results[..n];
      if !results[n].ok {
        failed := failed + 1;
      }
    }
    assert results[..|results|] == results;
  }

  /** The crash point after write number k, counted from 0, of a plan with n actions. */
  function PointAt(k: nat, n: nat): CrashPoint {
    if k == 0 then AfterPlanSave
    else if k <= n + 1 then AfterActions(k - 1)
    else if k == n + 2 then AfterExecutionInsert
    else NoCrash
  }

  ghost predicate FollowsTrail(config: Config, db: Db, r: ExecuteRequest, trail: seq<Db>)
    requires Objection(config, db, r) == None
  {
    forall k :: 0 <= k < |trail| ==> trail[k] == ExecutedTo(config, db, r, PointAt(k, |db.plans[r.planId].actions|))
  }

  /** A whole execution's writes: every database it passes through is a crash point's. */
  ghost predicate Trails(config: Config, db: Db, r: ExecuteRequest, trail: seq<Db>)
    requires Objection(config, db, r) == None
  {
    |trail| == |db.plans[r.planId].actions| + 4 && FollowsTrail(config, db, r, trail)
  }

  lemma {:induction false} RefusedOnceRefusedForGood(s: Store, order: seq<FindingKey>, n: nat)
    requires n <= |order| && forall i :: 0 <= i < |order| ==> order[i] in s.findings
    requires PlannedActions(s, order[..n]).Err?
    ensures PlannedActions(s, order) == PlannedActions(s, order[..n])
  {
    if n == |order| {
      assert order[..n] == order;
    } else {
      var front := order[..|order| - 1];
      assert front[..n] == order[..n];
      RefusedOnceRefusedForGood(s, front, n);
    }
  }

  function Failures(results: seq<ActionResult>): nat {
    if results == [] then 0
    else Failures(results[..|results| - 1]) + (if results[|results| - 1].ok then 0 else 1)
  }

  lemma {:induction false} FailuresMeanStatus(results: seq<ActionResult>)
    ensures Failures(results) <= |results|
    ensures Failures(results) == 0 <==> forall i :: 0 <= i < |results| ==> results[i].ok
    ensures Failures(results) == |results| <==> forall i :: 0 <= i < |results| ==> !results[i].ok
  {
    if results != [] {
      var front := results[..|results| - 1];
      FailuresMeanStatus(front);
      assert forall i :: 0 <= i < |front| ==> results[i] == front[i];
    }
  }

  lemma StatusByCount(results: seq<ActionResult>)
    ensures StatusOf(results) == if Failures(results) == 0 then Succeeded
                                 else if Failures(results) == |results| then FailedEntirely
                                 else PartialFailure
  {
    FailuresMeanStatus(results);
  }

  /** The last two databases of an execution, from the one after its last action. */
  lemma RecordedStates(config: Config, db: Db, r: ExecuteRequest)
    requires Objection(config, db, r) == None
    ensures var acted := ExecutedTo(config, db, r, AfterActions(|db.plans[r.planId].actions|));
      var execution := ExecutionOf(config, db, r);
      var recorded := acted.(executions := acted.executions[Key(r.workspaceId, r.idempotencyKey) := execution]);
      && r.planId in acted.plans
      && ExecutedTo(config, db, r, AfterExecutionInsert) == recorded
      && ExecutedTo(config, db, r, NoCrash)
         == WithPlanStatus(recorded, r.planId, if execution.status == Succeeded then Completed else Failed)
  {
  }

  lemma TrailExtends(config: Config, db: Db, r: ExecuteRequest, trail: seq<Db>, next: Db)
    requires Objection(config, db, r) == None && FollowsTrail(config, db, r, trail)
    requires next == ExecutedTo(config, db, r, PointAt(|trail|, |db.plans[r.planId].actions|))
    ensures FollowsTrail(config, db, r, trail + [next])
  {
  }

  lemma ActionsReached(config: Config, db: Db, r: ExecuteRequest, n: nat, contents: Db)
    requires Objection(config, db, r) == None && n <= |db.plans[r.planId].actions|
    requires contents == ExecutedTo(config, db, r, AfterActions(0))
                         .(resources := ResourcesAfter(config, db, db.plans[r.planId], n))
    ensures contents == ExecutedTo(config, db, r, AfterActions(n))
  {
  }

  lemma OneMoreResult(db: Db, plan: Plan, n: nat)
    requires n < |plan.actions|
    ensures Results(db, plan, n + 1) == Results(db, plan, n) + [ResultOf(db, plan, plan.actions[n])]
  {
  }

  lemma ResourcesAfterNone(config: Config, db: Db, plan: Plan)
    ensures ResourcesAfter(config, db, plan, 0) == db.resources
  {
  }

  lemma OneMoreOn(actions: seq<Action>, n: nat, id: ResourceId)
    requires n < |actions|
    ensures ActionsOn(actions[..n + 1], id)
         == if actions[n].resourceId == id then ActionsOn(actions[..n], id) + [actions[n]]
            else ActionsOn(actions[..n], id)
  {
    assert actions[..n + 1][..n] == actions[..n];
    assert ActionsOn(actions[..n], id) + [] == ActionsOn(actions[..n], id);
  }

  lemma AppendOne(config: Config, plan: Plan, body: Body, actions: seq<Action>, a: Action)
    ensures var now := if Rewrites(config, plan) then ApplyAll(body, actions) else body;
      && ApplyAll(body, actions + [a]) == Apply(ApplyAll(body, actions), a)
      && BeforeValue(config, plan, body, actions + [a]) == SnapshotOf(now)
      && AfterValueOf(config, plan, body, actions + [a])
         == AfterOne(config, plan, now, a)
  {
    assert (actions + [a])[..|actions|] == actions;
  }

  /** The stored document an execution's nth action finds, if its resource is present. */
  function DocAt(config: Config, db: Db, plan: Plan, n: nat): ResourceDoc
    requires n < |plan.actions| && Present(db.resources, plan.workspaceId, plan.actions[n].resourceId)
  {
    ResourcesAfter(config, db, plan, n)[plan.actions[n].resourceId]
  }

  function OneMoreResources(config: Config, db: Db, plan: Plan, n: nat): map<ResourceId, ResourceDoc>
    requires n < |plan.actions|
  {
    var a := plan.actions[n];
    if Present(db.resources, plan.workspaceId, a.resourceId) && Rewrites(config, plan) then
      var doc := DocAt(config, db, plan, n);
      ResourcesAfter(config, db, plan, n)[a.resourceId := doc.(body := Apply(doc.body, a), version := doc.version + 1)]
    else ResourcesAfter(config, db, plan, n)
  }

  lemma OneMoreResource(config: Config, db: Db, plan: Plan, n: nat)
    requires n < |plan.actions|
    ensures Present(ResourcesAfter(config, db, plan, n), plan.workspaceId, plan.actions[n].resourceId)
       <==> Present(db.resources, plan.workspaceId, plan.actions[n].resourceId)
    ensures ResourcesAfter(config, db, plan, n + 1) == OneMoreResources(config, db, plan, n)
  {
    forall id | id in db.resources
      ensures ResourcesAfter(config, db, plan, n + 1)[id] == OneMoreResources(config, db, plan, n)[id]
    {
      OneMoreOn(plan.actions, n, id);
      AppendOne(config, plan, db.resources[id].body, ActionsOn(plan.actions[..n], id), plan.actions[n]);
    }
  }

  lemma OneMoreTouched(db: Db, plan: Plan, n: nat)
    requires n < |plan.actions|
    ensures Touched(db, plan, n + 1)
         == if Present(db.resources, plan.workspaceId, plan.actions[n].resourceId)
            then Touched(db, plan, n) + {plan.actions[n].resourceId} else Touched(db, plan, n)
  {
  }

  function OneMoreBefores(config: Config, db: Db, plan: Plan, n: nat): map<ResourceId, Snapshot>
    requires n < |plan.actions|
  {
    var a := plan.actions[n];
    if Present(db.resources, plan.workspaceId, a.resourceId)
    then BeforeState(config, db, plan, n)[a.resourceId := SnapshotOf(DocAt(config, db, plan, n).body)]
    else BeforeState(config, db, plan, n)
  }

  lemma OneMoreBefore(config: Config, db: Db, plan: Plan, n: nat)
    requires n < |plan.actions|
    ensures BeforeState(config, db, plan, n + 1) == OneMoreBefores(config, db, plan, n)
  {
    OneMoreTouched(db, plan, n);
    forall id | id in BeforeState(config, db, plan, n + 1)
      ensures id in OneMoreBefores(config, db, plan, n)
      ensures BeforeState(config, db, plan, n + 1)[id] == OneMoreBefores(config, db, plan, n)[id]
    {
      OneMoreOn(plan.actions, n, id);
      AppendOne(config, plan, db.resources[id].body, ActionsOn(plan.actions[..n], id), plan.actions[n]);
    }
  }

  /** One turn takes the state after n actions to the state after n + 1. */
  lemma OneMoreTurn(config: Config, db: Db, plan: Plan, n: nat)
    requires n < |plan.actions|
    ensures ProgressAfter(config, db, plan, n + 1)
         == Turn(config, plan, plan.actions[n], ProgressAfter(config, db, plan, n))
  {
    OneMoreResource(config, db, plan, n);
    OneMoreBefore(config, db, plan, n);
    OneMoreAfter(config, db, plan, n);
    OneMoreResult(db, plan, n);
  }

  function OneMoreAfters(config: Config, db: Db, plan: Plan, n: nat): map<ResourceId, AfterValue>
    requires n < |plan.actions|
  {
    var a := plan.actions[n];
    if Present(db.resources, plan.workspaceId, a.resourceId) then
      var body := DocAt(config, db, plan, n).body;
      AfterState(config, db, plan, n)[a.resourceId := AfterOne(config, plan, body, a)]
    else AfterState(config, db, plan, n)
  }

  lemma OneMoreAfter(config: Config, db: Db, plan: Plan, n: nat)
    requires n < |plan.actions|
    ensures AfterState(config, db, plan, n + 1) == OneMoreAfters(config, db, plan, n)
  {
    OneMoreTouched(db, plan, n);
    forall id | id in AfterState(config, db, plan, n + 1)
      ensures id in OneMoreAfters(config, db, plan, n)
      ensures AfterState(config, db, plan, n + 1)[id] == OneMoreAfters(config, db, plan, n)[id]
    {
      OneMoreOn(plan.actions, n, id);
      AppendOne(config, plan, db.resources[id].body, ActionsOn(plan.actions[..n], id), plan.actions[n]);
    }
  }
}
