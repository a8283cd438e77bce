/** Diagnose, plan, approve, execute, diagnose again. */
module EndToEnd {
  import opened Policy
  import opened RemediationEngine
  import opened ResultStore
  import opened RemediationDb
  import opened RemediationRuns
  import ExactlyOnce

  // From diagnosis to plan.

  /** Every job's analysis is the rules' findings over an inventory with distinct ids, and a job is
      known by its workspace and id. */
  ghost predicate FromEngine(analyses: ExactlyOnce.Analyses) {
    && (forall job :: job in analyses ==>
          exists resources :: DistinctIds(resources) && analyses[job] == AnalysisOf(resources))
    && (forall a, b :: a in analyses && b in analyses && a.workspaceId == b.workspaceId && a.jobId == b.jobId ==>
          a == b)
  }

  lemma EngineIsSensible(analyses: ExactlyOnce.Analyses)
    requires FromEngine(analyses)
    ensures ExactlyOnce.Sensible(analyses)
    ensures forall job, f :: job in analyses && f in analyses[job] ==> f.actionType == Recommends(f.ruleId)
  {
    forall job | job in analyses
      ensures DistinctKeys(analyses[job])
      ensures forall f :: f in analyses[job] ==> f.actionType == Recommends(f.ruleId)
    {
      var resources :| DistinctIds(resources) && analyses[job] == AnalysisOf(resources);
      AnalysisHasDistinctKeys(resources);
    }
  }

  /** Whatever interleaving of worker runs filled the collections, the action planned for a stored
      finding is the one its rule recommends, recommendation document or not. */
  lemma PlannedTypeIsRecommended(analyses: ExactlyOnce.Analyses, es: seq<ExactlyOnce.Event>, key: FindingKey)
    requires FromEngine(analyses) && ExactlyOnce.Run(analyses, es).Some?
    requires key in ExactlyOnce.Run(analyses, es).value.store.findings
    ensures PlannedType(ExactlyOnce.Run(analyses, es).value.store, key) == Recommends(key.ruleId)
  {
    EngineIsSensible(analyses);
    var s := ExactlyOnce.Run(analyses, es).value.store;
    var rec := RecKey(key.workspaceId, s.findings[key].id);
    if rec in s.recs {
      var owner, f := ExactlyOnce.RecommendationsBelong(analyses, es, rec);
      assert owner == key;
    }
    ActionTablesAgree(key.ruleId);
  }

  /** So planning over diagnosed findings never trips the allowlist, and holds each finding's
      recommended action, with default parameters. */
  lemma {:induction false} DiagnosedFindingsArePlanned(analyses: ExactlyOnce.Analyses,
                                                       es: seq<ExactlyOnce.Event>, order: seq<FindingKey>)
    requires FromEngine(analyses) && ExactlyOnce.Run(analyses, es).Some?
    requires forall i :: 0 <= i < |order| ==> order[i] in ExactlyOnce.Run(analyses, es).value.store.findings
    ensures PlannedActions(ExactlyOnce.Run(analyses, es).value.store, order).Ok?
    ensures forall key :: key in order && Recommends(key.ruleId).Allowed? ==>
      exists a :: && a in PlannedActions(ExactlyOnce.Run(analyses, es).value.store, order).value
                  && a.resourceId == key.resourceId && a.actionType == Recommends(key.ruleId).action
  {
    var s := ExactlyOnce.Run(analyses, es).value.store;
    if order != [] {
      DiagnosedFindingsArePlanned(analyses, es, order[..|order| - 1]);
      PlannedTypeIsRecommended(analyses, es, order[|order| - 1]);
    }
    PlannedActionsAreDefaulted(s, order);
    forall key | key in order && Recommends(key.ruleId).Allowed?
      ensures exists a :: && a in PlannedActions(s, order).value
                          && a.resourceId == key.resourceId && a.actionType == Recommends(key.ruleId).action
    {
      PlannedTypeIsRecommended(analyses, es, key);
      var i :| 0 <= i < |order| && order[i] == key;
      assert ActionFor(s, order[i]) in PlannedActions(s, order).value;
    }
  }

  // Plans hold default parameters, always.

  predicate AllDefaulted(db: Db) {
    forall id, a :: id in db.plans && a in db.plans[id].actions ==> Defaulted(a)
  }

  lemma StepKeepsDefaulted(config: Config, w: World, q: Request)
    requires Enabled(w, q) && AllDefaulted(w.db)
    ensures AllDefaulted(Step(config, w, q).db)
  {
    var db, db' := w.db, Step(config, w, q).db;
    StepExtends(config, w, q);
    forall id, a | id in db'.plans && a in db'.plans[id].actions ensures Defaulted(a) {
      if id in db.plans {
        assert PlanExtends(db.plans[id], db'.plans[id]);
      } else if q.Plans? {
        PlannedActionsAreDefaulted(db.store, q.order);
      }
    }
  }

  lemma {:induction false} ReachableDefaulted(config: Config, qs: seq<Request>)
    requires RemediationRuns.Run(config, qs).Some?
    ensures AllDefaulted(RemediationRuns.Run(config, qs).value.db)
  {
    if qs != [] {
      ReachableDefaulted(config, qs[..|qs| - 1]);
      StepKeepsDefaulted(config, RemediationRuns.Run(config, qs[..|qs| - 1]).value, qs[|qs| - 1]);
    }
  }

  // Executing and diagnosing again.

  /** The resource a stored document describes to the rules. */
  function Described(id: ResourceId, doc: ResourceDoc): (r: Resource)
    ensures r.id == id && r.kind == doc.kind && r.region == doc.region && r.name == doc.name && r.body == doc.body
  {
    Resource(id, doc.kind, doc.region, doc.name, doc.body)
  }

  lemma ExecutedDoc(config: Config, db: Db, r: ExecuteRequest, point: CrashPoint,
                    id: ResourceId) returns (actions: seq<Action>)
    requires AllDefaulted(db) && id in db.resources
    ensures id in Execute(config, db, r, point).resources
    ensures DefaultedOn(actions, id)
    ensures Described(id, Execute(config, db, r, point).resources[id])
         == Remedied(Described(id, db.resources[id]), actions)
    ensures Proceeds(config, db, r) && point == NoCrash && Rewrites(config, db.plans[r.planId])
            && db.resources[id].workspaceId == r.workspaceId ==>
              forall a :: a in db.plans[r.planId].actions && a.resourceId == id ==> a in actions
  {
    actions := [];
    if Proceeds(config, db, r) && Rewrites(config, db.plans[r.planId])
       && db.resources[id].workspaceId == r.workspaceId {
      var plan := db.plans[r.planId];
      var n := |plan.actions|;
      match point {
        case BeforeAnyWrite => return;
        case AfterPlanSave => return;
        case AfterActions(done) => n := if done < n then done else n;
        case _ =>
      }
      actions := ActionsOn(plan.actions[..n], id);
      ActionsOnContents(plan.actions[..n], id);
      assert n == |plan.actions| ==> plan.actions[..n] == plan.actions;
    }
  }

  /** No execution of a plan, live or dry, whole or cut short by a crash, gives any resource a finding
      it did not have. */
  lemma ExecutionsNeverWorsen(config: Config, qs: seq<Request>, r: ExecuteRequest, point: CrashPoint,
                              id: ResourceId, rule: RuleId)
    requires RemediationRuns.Run(config, qs).Some?
    requires id in RemediationRuns.Run(config, qs).value.db.resources
    ensures var db := RemediationRuns.Run(config, qs).value.db;
      && id in Execute(config, db, r, point).resources
      && (Triggers(rule, Described(id, Execute(config, db, r, point).resources[id])) ==>
            Triggers(rule, Described(id, db.resources[id])))
  {
    ReachableDefaulted(config, qs);
    var db := RemediationRuns.Run(config, qs).value.db;
    var actions := ExecutedDoc(config, db, r, point, id);
    if Triggers(rule, Described(id, Execute(config, db, r, point).resources[id])) {
      NoNewFindings(Described(id, db.resources[id]), actions, rule);
    }
  }

  /** Worker runs, interleaved in any way, stored findings; after requests `earlier` a plan was made
      of some of them; requests `between` followed; and the plan is executed live on the mock
      provider. */
  datatype Story = Story(
    config: Config,
    analyses: ExactlyOnce.Analyses,
    diagnosis: seq<ExactlyOnce.Event>,
    earlier: seq<Request>,
    request: PlanRequest,
    order: seq<FindingKey>,
    planId: PlanId,
    between: seq<Request>,
    execution: ExecuteRequest)
  {
    function Planning(): Request {
      Plans(request, order, planId)
    }

    function Requests(): seq<Request> {
      earlier + [Planning()] + between
    }

    /** The database the plan is made in, and the one it is executed in. */
    function PlanningDb(): Db
      requires RemediationRuns.Run(config, earlier).Some?
    {
      RemediationRuns.Run(config, earlier).value.db
    }

    function ExecutionDb(): Db
      requires RemediationRuns.Run(config, Requests()).Some?
    {
      RemediationRuns.Run(config, Requests()).value.db
    }

    ghost predicate IsPlanned() {
      && FromEngine(analyses) && ExactlyOnce.Run(analyses, diagnosis).Some?
      && RemediationRuns.Run(config, earlier).Some?
      && PlanningDb().store == ExactlyOnce.Run(analyses, diagnosis).value.store
      && Enabled(RemediationRuns.Run(config, earlier).value, Planning())
      && CreatePlan(PlanningDb(), request, order, planId).1.PlanReply?
      && !CreatePlan(PlanningDb(), request, order, planId).1.replayed
    }

    ghost predicate IsExecuted() {
      && IsPlanned()
      && RemediationRuns.Run(config, Requests()).Some?
      && !request.dryRun && config.provider == Mock
      && execution.planId == planId && execution.workspaceId == request.workspaceId
      && Proceeds(config, ExecutionDb(), execution)
    }

    /** A resource as the rules see it just before and just after the execution. */
    function Before(id: ResourceId): Resource
      requires RemediationRuns.Run(config, Requests()).Some? && id in ExecutionDb().resources
    {
      Described(id, ExecutionDb().resources[id])
    }

    function AfterDb(): Db
      requires RemediationRuns.Run(config, Requests()).Some?
    {
      Execute(config, ExecutionDb(), execution, NoCrash)
    }
  }

  /** A new plan keeps its actions, its workspace and its mode, whatever requests follow. */
  lemma PlanIsKept(st: Story)
    requires st.IsPlanned() && RemediationRuns.Run(st.config, st.Requests()).Some?
    ensures PlannedActions(st.PlanningDb().store, st.order).Ok?
    ensures st.planId in st.ExecutionDb().plans
    ensures st.ExecutionDb().plans[st.planId].(status := AwaitingApproval)
         == NewPlan(st.request, PlannedActions(st.PlanningDb().store, st.order).value)
    ensures var plan := st.ExecutionDb().plans[st.planId];
      && plan.workspaceId == st.request.workspaceId && plan.findingIds == st.request.findingIds
      && plan.dryRun == st.request.dryRun && plan.createdBy == st.request.actorId
      && plan.correlationId == st.request.correlationId && plan.idempotencyKey == st.request.idempotencyKey
  {
    var planned := st.earlier + [st.Planning()];
    assert planned[..|planned| - 1] == st.earlier;
    RunsExtend(st.config, planned, st.between);
    assert PlanExtends(RemediationRuns.Run(st.config, planned).value.db.plans[st.planId],
                       st.ExecutionDb().plans[st.planId]);
  }

  /** The execution applies, to each planned finding's resource, that finding's recommended action. */
  lemma RecommendationsAreApplied(st: Story, key: FindingKey) returns (actions: seq<Action>)
    requires st.IsExecuted() && key in st.order
    requires Present(st.ExecutionDb().resources, st.request.workspaceId, key.resourceId)
    ensures key.resourceId in st.AfterDb().resources
    ensures DefaultedOn(actions, key.resourceId)
    ensures Described(key.resourceId, st.AfterDb().resources[key.resourceId])
         == Remedied(st.Before(key.resourceId), actions)
    ensures Recommends(key.ruleId).Allowed? ==> Recommends(key.ruleId).action in Types(actions)
  {
    PlanIsKept(st);
    ReachableDefaulted(st.config, st.Requests());
    DiagnosedFindingsArePlanned(st.analyses, st.diagnosis, st.order);
    actions := ExecutedDoc(st.config, st.ExecutionDb(), st.execution, NoCrash, key.resourceId);
    if Recommends(key.ruleId).Allowed? {
      var a :| && a in PlannedActions(st.PlanningDb().store, st.order).value
               && a.resourceId == key.resourceId && a.actionType == Recommends(key.ruleId).action;
      assert a in st.ExecutionDb().plans[st.planId].actions;
      assert a in actions;
    }
  }

  /** What the rules say of a resource after actions that include the one `ruleId` recommends. */
  ghost predicate ClearedBy(ruleId: RuleId, before: Resource, after: Resource) {
    && (ruleId in CLEARED_RULES ==> !Triggers(ruleId, after))
    && (ruleId == MissingTags ==>
          (!Triggers(MissingTags, after) <==> forall tag :: Missing(before, tag) ==> tag == "Owner"))
    && (forall rule :: rule in {LowUtilization, ElevatedLatency, FailureRateIncrease} ==>
          (Triggers(rule, after) <==> Triggers(rule, before)))
  }

  lemma RemediedIsCleared(before: Resource, actions: seq<Action>, ruleId: RuleId)
    requires DefaultedOn(actions, before.id)
    requires Recommends(ruleId).Allowed? ==> Recommends(ruleId).action in Types(actions)
    ensures ClearedBy(ruleId, before, Remedied(before, actions))
  {
    if ruleId in CLEARED_RULES { RecommendedActionClears(before, actions, ruleId); }
    if ruleId == MissingTags { TaggingClearsIff(before, actions); }
    forall rule | rule in {LowUtilization, ElevatedLatency, FailureRateIncrease}
      ensures Triggers(rule, Remedied(before, actions)) <==> Triggers(rule, before)
    {
      SymptomsRemain(before, actions, rule);
    }
  }

  /** The loop closed: for each planned finding whose resource is still in the workspace, diagnosing
      that resource after the execution no longer gives the finding if its rule is one of the five
      that actions clear; a planned missing_tags finding is gone exactly when no required tag but
      Owner was missing; and the three symptom rules trigger as they did before. */
  lemma PlannedFindingsAreCleared(st: Story, key: FindingKey)
    requires st.IsExecuted() && key in st.order
    requires Present(st.ExecutionDb().resources, st.request.workspaceId, key.resourceId)
    ensures key.resourceId in st.AfterDb().resources
    ensures ClearedBy(key.ruleId, st.Before(key.resourceId),
                      Described(key.resourceId, st.AfterDb().resources[key.resourceId]))
  {
    var actions := RecommendationsAreApplied(st, key);
    RemediedIsCleared(st.Before(key.resourceId), actions, key.ruleId);
  }

  // There are such stories: one for every rule that triggers on any resource.

  const MOCK := Config(0, false, Mock)

  lemma RunSnoc(config: Config, qs: seq<Request>, q: Request)
    requires RemediationRuns.Run(config, qs).Some? && Enabled(RemediationRuns.Run(config, qs).value, q)
    ensures RemediationRuns.Run(config, qs + [q]).Some?
    ensures RemediationRuns.Run(config, qs + [q]).value == Step(config, RemediationRuns.Run(config, qs).value, q)
  {
    assert (qs + [q])[..|qs + [q]| - 1] == qs;
  }

  lemma SoleAnalysis(r: Resource, rule: RuleId, job: JobRef)
    requires Triggers(rule, r)
    ensures FromEngine(map[job := AnalysisOf([r])]) && FindingOf(rule, r) in AnalysisOf([r])
  {
    assert DistinctIds([r]);
    FirstFindingsComplete(r, |RULES|, rule);
    AnalysisOfLast([r], [], Findings(r));
  }

  lemma SoleMatch(s: Store, key: FindingKey)
    requires key in s.findings && ExactlyOnce.UniqueIds(s)
    ensures Lists([key], Matching(s, key.workspaceId, [s.findings[key].id]))
  {
  }

  /** One resource is diagnosed by one run, which stores each of its findings under an identifier of its own. */
  lemma DiagnosedAlone(r: Resource, rule: RuleId, job: JobRef, analyses: ExactlyOnce.Analyses, key: FindingKey)
    returns (es: seq<ExactlyOnce.Event>)
    requires Triggers(rule, r) && analyses == map[job := AnalysisOf([r])] && key == KeyOf(job, FindingOf(rule, r))
    ensures FromEngine(analyses) && ExactlyOnce.Run(analyses, es).Some?
    ensures var s := ExactlyOnce.Run(analyses, es).value.store;
      key in s.findings && Lists([key], Matching(s, job.workspaceId, [s.findings[key].id]))
  {
    SoleAnalysis(r, rule, job);
    EngineIsSensible(analyses);
    es := ExactlyOnce.AloneIsPersistAll(analyses, [], job, analyses[job]);
    ExactlyOnce.StoredIsTheAnalysis(analyses, es, job);
    ExactlyOnce.ReachableConsistent(analyses, es);
    var s := ExactlyOnce.Run(analyses, es).value.store;
    assert key in ExactlyOnce.View(s, job).Keys;
    SoleMatch(s, key);
  }

  /** Planned and approved, it can be executed. */
  lemma EveryFindingHasAStory(r: Resource, rule: RuleId, job: JobRef) returns (st: Story, key: FindingKey)
    requires Triggers(rule, r)
    ensures st.IsExecuted() && key in st.order && key.ruleId == rule && key.resourceId == r.id
    ensures Present(st.ExecutionDb().resources, st.request.workspaceId, r.id) && st.Before(r.id) == r
  {
    var ws := job.workspaceId;
    var analyses := map[job := AnalysisOf([r])];
    key := KeyOf(job, FindingOf(rule, r));
    var es := DiagnosedAlone(r, rule, job, analyses, key);
    var s := ExactlyOnce.Run(analyses, es).value.store;
    var sync := Elsewhere(map[r.id := ResourceDoc(ws, r.kind, r.region, r.name, r.body, 0)], s);
    var request := PlanRequest(ws, "operator", job.correlationId, [s.findings[key].id], false, "plan-key");
    var approval := Approves(ws, 0, "operator", "token", 0);
    st := Story(MOCK, analyses, es, [sync], request, [key], 0, [approval],
                ExecuteRequest(ws, 0, "operator", "token", "execution-key", 0));
    DiagnosedFindingsArePlanned(analyses, es, [key]);
    RunSnoc(MOCK, [], sync);
    assert [] + [sync] == [sync];
    RunSnoc(MOCK, [sync], st.Planning());
    RunSnoc(MOCK, [sync] + [st.Planning()], approval);
    assert st.Requests() == [sync] + [st.Planning()] + [approval];
  }
}
