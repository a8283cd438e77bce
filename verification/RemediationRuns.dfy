/** Guarded remediation over whole runs of requests, each served by itself, where any execution may
    die after any of its writes. */
module RemediationRuns {
  import opened Wrappers
  import opened Policy
  import opened ResultStore
  import opened RemediationDb

  /** `Elsewhere` is an inventory sync or a diagnosis, which replace resources and results only. */
  datatype Request =
    | Plans(request: PlanRequest, order: seq<FindingKey>, id: PlanId)
    | Approves(workspaceId: string, planId: PlanId, actorId: string, token: string, now: int)
    | Executes(r: ExecuteRequest, point: CrashPoint)
    | Elsewhere(resources: map<ResourceId, ResourceDoc>, store: Store)

  /** An approval that issued a token, and when. */
  datatype Issue = Issue(token: Hash, planId: PlanId, workspaceId: string, approvedAt: int)

  /** An execution that passed its checks and made at least one write, and how many tokens had been
      issued by then. */
  datatype Begin = Begin(token: Hash, planId: PlanId, workspaceId: string, at: int, issuedBefore: nat)

  datatype World = World(db: Db, issued: seq<Issue>, begun: seq<Begin>)

  const EMPTY_DB := Db(map[], map[], map[], map[], map[], EMPTY_STORE)

  predicate Enabled(w: World, q: Request) {
    q.Plans? ==> Lists(q.order, Matching(w.db.store, q.request.workspaceId, q.request.findingIds))
  }

  function Step(config: Config, w: World, q: Request): World
    requires Enabled(w, q)
  {
    match q
    case Plans(request, order, id) =>
      w.(db := CreatePlan(w.db, request, order, id).0)
    case Approves(workspaceId, planId, actorId, token, now) =>
      var (db, reply) := Approve(config, w.db, workspaceId, planId, actorId, token, now);
      World(db,
            if reply.ApprovalReply? then w.issued + [Issue(Hash(token), planId, workspaceId, now)] else w.issued,
            w.begun)
    case Executes(r, point) =>
      World(Execute(config, w.db, r, point), w.issued,
            if Proceeds(config, w.db, r) && point != BeforeAnyWrite
            then w.begun + [Begin(Hash(r.approvalToken), r.planId, r.workspaceId, r.now, |w.issued|)] else w.begun)
    case Elsewhere(resources, store) =>
      w.(db := w.db.(resources := resources, store := store))
  }

  function Run(config: Config, qs: seq<Request>): Option<World> {
    if qs == [] then Some(World(EMPTY_DB, [], []))
    else
      var before := Run(config, qs[..|qs| - 1]);
      if before.Some? && Enabled(before.value, qs[|qs| - 1])
      then Some(Step(config, before.value, qs[|qs| - 1])) else None
  }

  // The invariant.

  predicate Started(plan: Plan) {
    plan.status == Executing || plan.status == Completed || plan.status == Failed
  }

  predicate IssueOf(config: Config, issue: Issue, hash: Hash, token: Token) {
    && issue.token == hash && issue.planId == token.planId && issue.workspaceId == token.workspaceId
    && token.expiresAt == issue.approvedAt + config.approvalTtlMs
  }

  ghost predicate TokenConsistent(config: Config, w: World, hash: Hash) {
    && hash in w.db.tokens
    && var token := w.db.tokens[hash];
      && token.planId in w.db.plans && w.db.plans[token.planId].workspaceId == token.workspaceId
      && (exists j :: 0 <= j < |w.issued| && IssueOf(config, w.issued[j], hash, token))
      && (token.usedAt.Some? ==> exists i :: 0 <= i < |w.begun| && w.begun[i].token == hash)
  }

  predicate Covers(config: Config, issue: Issue, b: Begin) {
    && issue.token == b.token && issue.planId == b.planId && issue.workspaceId == b.workspaceId
    && b.at <= issue.approvedAt + config.approvalTtlMs
  }

  predicate BeginConsistent(config: Config, w: World, b: Begin) {
    && b.planId in w.db.plans && Started(w.db.plans[b.planId]) && w.db.plans[b.planId].workspaceId == b.workspaceId
    && b.issuedBefore <= |w.issued|
    && exists j :: 0 <= j < b.issuedBefore && Covers(config, w.issued[j], b)
  }

  predicate BeginOf(b: Begin, e: Execution) {
    b.token == e.approvalToken && b.planId == e.planId && b.workspaceId == e.workspaceId
  }

  predicate ExecutionConsistent(w: World, key: Key) {
    key in w.db.executions && exists i :: 0 <= i < |w.begun| && BeginOf(w.begun[i], w.db.executions[key])
  }

  predicate IssueConsistent(config: Config, w: World, issue: Issue) {
    issue.token in w.db.tokens && IssueOf(config, issue, issue.token, w.db.tokens[issue.token])
  }

  predicate AllDistinct(begun: seq<Begin>) {
    && (forall i, j :: 0 <= i < j < |begun| ==> begun[i].planId != begun[j].planId)
    && (forall i, j :: 0 <= i < j < |begun| ==> begun[i].token != begun[j].token)
  }

  ghost predicate Consistent(config: Config, w: World) {
    && (forall hash :: hash in w.db.tokens ==> TokenConsistent(config, w, hash))
    && (forall j :: 0 <= j < |w.issued| ==> IssueConsistent(config, w, w.issued[j]))
    && (forall i :: 0 <= i < |w.begun| ==> BeginConsistent(config, w, w.begun[i]))
    && AllDistinct(w.begun)
    && (forall key :: key in w.db.executions ==> ExecutionConsistent(w, key))
  }

  predicate PlanExtends(p: Plan, p': Plan) {
    p'.(status := p.status) == p && (Started(p) ==> Started(p'))
  }

  predicate DbExtends(db: Db, db': Db) {
    && (forall id :: id in db.plans ==> id in db'.plans && PlanExtends(db.plans[id], db'.plans[id]))
    && (forall hash :: hash in db.tokens ==> && hash in db'.tokens
                                             && db'.tokens[hash].(usedAt := None) == db.tokens[hash].(usedAt := None))
    && (forall key :: key in db.executions ==> key in db'.executions && db'.executions[key] == db.executions[key])
  }

  /** No request changes a plan but for its status, or un-starts it, nor forgets a token, an
      execution or anything logged. */
  predicate Extends(w: World, w': World) {
    DbExtends(w.db, w'.db) && w.issued <= w'.issued && w.begun <= w'.begun
  }

  lemma ExecutedToExtends(config: Config, db: Db, r: ExecuteRequest, point: CrashPoint)
    requires Proceeds(config, db, r)
    ensures var db', hash := ExecutedTo(config, db, r, point), Hash(r.approvalToken);
      && db'.plans.Keys == db.plans.Keys && db'.tokens.Keys == db.tokens.Keys
      && (forall id :: id in db.plans && id != r.planId ==> db'.plans[id] == db.plans[id])
      && (forall h :: h in db.tokens && h != hash ==> db'.tokens[h] == db.tokens[h])
      && PlanExtends(db.plans[r.planId], db'.plans[r.planId])
      && (point != BeforeAnyWrite ==> Started(db'.plans[r.planId]))
      && db'.tokens[hash].(usedAt := None) == db.tokens[hash].(usedAt := None)
      && (db'.tokens[hash].usedAt.Some? ==> point != BeforeAnyWrite)
      && (db'.executions == db.executions
          || (point != BeforeAnyWrite
              && db'.executions == db.executions[Key(r.workspaceId, r.idempotencyKey) := ExecutionOf(config, db, r)]))
  {
  }

  lemma CreatePlanExtends(db: Db, request: PlanRequest, order: seq<FindingKey>, id: PlanId)
    requires Lists(order, Matching(db.store, request.workspaceId, request.findingIds))
    ensures DbExtends(db, CreatePlan(db, request, order, id).0)
  {
    var (db', reply) := CreatePlan(db, request, order, id);
    if reply.Refused? || (reply.PlanReply? && reply.replayed) {
      assert db' == db;
    } else {
      assert id !in db.plans && db'.plans == db.plans[id := db'.plans[id]];
    }
  }

  lemma ChangedPlanExtends(db: Db, db': Db, planId: PlanId)
    requires planId in db.plans && planId in db'.plans && PlanExtends(db.plans[planId], db'.plans[planId])
    requires db'.plans == db.plans[planId := db'.plans[planId]]
    requires forall hash :: hash in db.tokens ==>
      hash in db'.tokens && db'.tokens[hash].(usedAt := None) == db.tokens[hash].(usedAt := None)
    requires forall key :: key in db.executions ==> key in db'.executions && db'.executions[key] == db.executions[key]
    ensures DbExtends(db, db')
  {
  }

  lemma ApproveExtends(config: Config, db: Db, workspaceId: string, planId: PlanId, actorId: string,
                       token: string, now: int)
    ensures DbExtends(db, Approve(config, db, workspaceId, planId, actorId, token, now).0)
  {
    var (db', reply) := Approve(config, db, workspaceId, planId, actorId, token, now);
    if reply.ApprovalReply? {
      ChangedPlanExtends(db, db', planId);
    } else {
      assert db' == db;
    }
  }

  lemma ExecuteExtends(config: Config, db: Db, r: ExecuteRequest, point: CrashPoint)
    ensures DbExtends(db, Execute(config, db, r, point))
  {
    if Proceeds(config, db, r) {
      ExecutedToExtends(config, db, r, point);
      ChangedPlanExtends(db, ExecutedTo(config, db, r, point), r.planId);
    }
  }

  lemma StepExtends(config: Config, w: World, q: Request)
    requires Enabled(w, q)
    ensures Extends(w, Step(config, w, q))
  {
    match q {
      case Plans(request, order, id) => CreatePlanExtends(w.db, request, order, id);
      case Approves(workspaceId, planId, actorId, token, now) => ApproveExtends(config, w.db, workspaceId,
            planId, actorId, token, now);
      case Executes(r, point) => ExecuteExtends(config, w.db, r, point);
      case Elsewhere(_, _) =>
    }
  }

  /** Everything already in the world stays consistent in one that extends it, apart from tokens
      marked used meanwhile. */
  lemma BeginSurvives(config: Config, w: World, w': World, b: Begin)
    requires BeginConsistent(config, w, b) && Extends(w, w')
    ensures BeginConsistent(config, w', b)
  {
    var j :| 0 <= j < b.issuedBefore && Covers(config, w.issued[j], b);
    assert w'.issued[j] == w.issued[j];
  }

  lemma TokenSurvives(config: Config, w: World, w': World, hash: Hash)
    requires TokenConsistent(config, w, hash) && Extends(w, w')
    requires w'.db.tokens[hash].usedAt == w.db.tokens[hash].usedAt
      || exists i :: 0 <= i < |w'.begun| && w'.begun[i].token == hash
    ensures TokenConsistent(config, w', hash)
  {
    var token, token' := w.db.tokens[hash], w'.db.tokens[hash];
    var j :| 0 <= j < |w.issued| && IssueOf(config, w.issued[j], hash, token);
    assert w'.issued[j] == w.issued[j] && IssueOf(config, w'.issued[j], hash, token');
    if token.usedAt.Some? {
      var i :| 0 <= i < |w.begun| && w.begun[i].token == hash;
      assert w'.begun[i] == w.begun[i];
    }
  }

  lemma ExecutionSurvives(w: World, w': World, key: Key)
    requires ExecutionConsistent(w, key) && Extends(w, w')
    ensures ExecutionConsistent(w', key)
  {
    var i :| 0 <= i < |w.begun| && BeginOf(w.begun[i], w.db.executions[key]);
    assert w'.begun[i] == w.begun[i];
  }

  lemma ApprovalKeepsTokens(config: Config, w: World, q: Request, hash: Hash)
    requires Enabled(w, q) && q.Approves? && hash in Step(config, w, q).db.tokens
    requires hash in w.db.tokens ==> TokenConsistent(config, w, hash)
    ensures TokenConsistent(config, Step(config, w, q), hash)
  {
    var w' := Step(config, w, q);
    StepExtends(config, w, q);
    if hash in w.db.tokens {
      TokenSurvives(config, w, w', hash);
    } else {
      assert IssueOf(config, w'.issued[|w.issued|], hash, w'.db.tokens[hash]);
    }
  }

  lemma ExecutionKeepsTokens(config: Config, w: World, q: Request, hash: Hash)
    requires Consistent(config, w) && Enabled(w, q) && q.Executes? && hash in Step(config, w, q).db.tokens
    ensures TokenConsistent(config, Step(config, w, q), hash)
  {
    var w' := Step(config, w, q);
    StepExtends(config, w, q);
    if Proceeds(config, w.db, q.r) {
      ExecutedToExtends(config, w.db, q.r, q.point);
      if hash == Hash(q.r.approvalToken) && q.point != BeforeAnyWrite {
        assert w'.begun[|w.begun|].token == hash;
      }
    }
    assert hash in w.db.tokens && TokenConsistent(config, w, hash);
    TokenSurvives(config, w, w', hash);
  }

  lemma NewExecutionBegun(config: Config, w: World, q: Request, key: Key)
    requires Enabled(w, q) && q.Executes? && key !in w.db.executions && key in Step(config, w, q).db.executions
    ensures Proceeds(config, w.db, q.r) && q.point != BeforeAnyWrite
    ensures Step(config, w, q).db.executions[key] == ExecutionOf(config, w.db, q.r)
  {
    if Proceeds(config, w.db, q.r) { ExecutedToExtends(config, w.db, q.r, q.point); }
  }

  lemma ExecutionKeepsExecutions(config: Config, w: World, q: Request, key: Key)
    requires Enabled(w, q) && q.Executes? && key in Step(config, w, q).db.executions
    requires key in w.db.executions ==> ExecutionConsistent(w, key)
    ensures ExecutionConsistent(Step(config, w, q), key)
  {
    if key in w.db.executions {
      StepExtends(config, w, q);
      ExecutionSurvives(w, Step(config, w, q), key);
    } else {
      NewExecutionBegun(config, w, q, key);
      assert BeginOf(Step(config, w, q).begun[|w.begun|], Step(config, w, q).db.executions[key]);
    }
  }

  lemma BeginsToken(config: Config, w: World, b: Begin)
    requires BeginConsistent(config, w, b)
    requires forall j :: 0 <= j < |w.issued| ==> IssueConsistent(config, w, w.issued[j])
    ensures b.token in w.db.tokens && w.db.tokens[b.token].planId == b.planId
  {
    var j :| 0 <= j < b.issuedBefore && Covers(config, w.issued[j], b);
    assert IssueConsistent(config, w, w.issued[j]);
  }

  function BeginFor(w: World, r: ExecuteRequest): Begin {
    Begin(Hash(r.approvalToken), r.planId, r.workspaceId, r.now, |w.issued|)
  }

  /** The plan and token of an execution that proceeds are new to the log, and an earlier approval
      covers it. */
  lemma ProceedingIsNew(config: Config, w: World, r: ExecuteRequest)
    requires Consistent(config, w) && Proceeds(config, w.db, r)
    ensures forall i :: 0 <= i < |w.begun| ==>
      w.begun[i].planId != r.planId && w.begun[i].token != Hash(r.approvalToken)
    ensures exists j :: 0 <= j < |w.issued| && Covers(config, w.issued[j], BeginFor(w, r))
  {
    var hash := Hash(r.approvalToken);
    assert TokenConsistent(config, w, hash);
    var j :| 0 <= j < |w.issued| && IssueOf(config, w.issued[j], hash, w.db.tokens[hash]);
    assert Covers(config, w.issued[j], BeginFor(w, r));
    forall i | 0 <= i < |w.begun| ensures w.begun[i].planId != r.planId && w.begun[i].token != hash {
      assert BeginConsistent(config, w, w.begun[i]);
      BeginsToken(config, w, w.begun[i]);
    }
  }

  predicate Begins(config: Config, w: World, q: Request) {
    q.Executes? && Proceeds(config, w.db, q.r) && q.point != BeforeAnyWrite
  }

  lemma NewBeginConsistent(config: Config, w: World, q: Request)
    requires Consistent(config, w) && Enabled(w, q) && Begins(config, w, q)
    ensures Step(config, w, q).begun == w.begun + [BeginFor(w, q.r)]
    ensures BeginConsistent(config, Step(config, w, q), BeginFor(w, q.r))
  {
    ProceedingIsNew(config, w, q.r);
    ExecutedToExtends(config, w.db, q.r, q.point);
    var j :| 0 <= j < |w.issued| && Covers(config, w.issued[j], BeginFor(w, q.r));
    assert Step(config, w, q).issued == w.issued;
  }

  lemma StepKeepsBegin(config: Config, w: World, q: Request, i: nat)
    requires Consistent(config, w) && Enabled(w, q) && i < |Step(config, w, q).begun|
    ensures BeginConsistent(config, Step(config, w, q), Step(config, w, q).begun[i])
  {
    if i < |w.begun| {
      StepExtends(config, w, q);
      assert Step(config, w, q).begun[i] == w.begun[i];
      assert BeginConsistent(config, w, w.begun[i]);
      BeginSurvives(config, w, Step(config, w, q), w.begun[i]);
    } else {
      NewBeginConsistent(config, w, q);
    }
  }

  lemma OnlyBeginsAreLogged(config: Config, w: World, q: Request)
    requires Enabled(w, q)
    ensures Step(config, w, q).begun == if Begins(config, w, q) then w.begun + [BeginFor(w, q.r)] else w.begun
  {
  }

  lemma StepKeepsDistinct(config: Config, w: World, q: Request)
    requires Consistent(config, w) && Enabled(w, q)
    ensures AllDistinct(Step(config, w, q).begun)
  {
    OnlyBeginsAreLogged(config, w, q);
    if Begins(config, w, q) {
      ProceedingIsNew(config, w, q.r);
    }
  }

  lemma StepKeepsBegins(config: Config, w: World, q: Request)
    requires Consistent(config, w) && Enabled(w, q)
    ensures forall i :: 0 <= i < |Step(config, w, q).begun| ==>
      BeginConsistent(config, Step(config, w, q), Step(config, w, q).begun[i])
  {
    forall i | 0 <= i < |Step(config, w, q).begun|
      ensures BeginConsistent(config, Step(config, w, q), Step(config, w, q).begun[i])
    {
      StepKeepsBegin(config, w, q, i);
    }
  }

  lemma StepKeepsIssues(config: Config, w: World, q: Request)
    requires Consistent(config, w) && Enabled(w, q)
    ensures forall j :: 0 <= j < |Step(config, w, q).issued| ==>
      IssueConsistent(config, Step(config, w, q), Step(config, w, q).issued[j])
  {
    var w' := Step(config, w, q);
    StepExtends(config, w, q);
    forall j | 0 <= j < |w'.issued| ensures IssueConsistent(config, w', w'.issued[j]) {
      if j < |w.issued| { assert IssueConsistent(config, w, w.issued[j]); }
    }
  }

  lemma OtherRequestKeepsTokens(config: Config, w: World, q: Request, hash: Hash)
    requires Enabled(w, q) && (q.Plans? || q.Elsewhere?) && hash in Step(config, w, q).db.tokens
    ensures hash in w.db.tokens && Step(config, w, q).db.tokens[hash] == w.db.tokens[hash]
  {
  }

  lemma StepKeepsToken(config: Config, w: World, q: Request, hash: Hash)
    requires Consistent(config, w) && Enabled(w, q) && hash in Step(config, w, q).db.tokens
    ensures TokenConsistent(config, Step(config, w, q), hash)
  {
    if q.Approves? {
      ApprovalKeepsTokens(config, w, q, hash);
    } else if q.Executes? {
      ExecutionKeepsTokens(config, w, q, hash);
    } else {
      OtherRequestKeepsTokens(config, w, q, hash);
      StepExtends(config, w, q);
      TokenSurvives(config, w, Step(config, w, q), hash);
    }
  }

  lemma StepKeepsTokens(config: Config, w: World, q: Request)
    requires Consistent(config, w) && Enabled(w, q)
    ensures forall hash :: hash in Step(config, w, q).db.tokens ==> TokenConsistent(config, Step(config, w, q), hash)
  {
    forall hash | hash in Step(config, w, q).db.tokens ensures TokenConsistent(config, Step(config, w, q), hash) {
      StepKeepsToken(config, w, q, hash);
    }
  }

  lemma OnlyExecutionAddsExecutions(config: Config, w: World, q: Request)
    requires Enabled(w, q) && !q.Executes?
    ensures Step(config, w, q).db.executions == w.db.executions
  {
  }

  lemma StepKeepsExecution(config: Config, w: World, q: Request, key: Key)
    requires Enabled(w, q) && key in Step(config, w, q).db.executions
    requires key in w.db.executions ==> ExecutionConsistent(w, key)
    ensures ExecutionConsistent(Step(config, w, q), key)
  {
    if q.Executes? {
      ExecutionKeepsExecutions(config, w, q, key);
    } else {
      OnlyExecutionAddsExecutions(config, w, q);
      StepExtends(config, w, q);
      ExecutionSurvives(w, Step(config, w, q), key);
    }
  }

  lemma StepKeepsExecutions(config: Config, w: World, q: Request)
    requires Consistent(config, w) && Enabled(w, q)
    ensures forall key :: key in Step(config, w, q).db.executions ==> ExecutionConsistent(Step(config, w, q), key)
  {
    forall key | key in Step(config, w, q).db.executions ensures ExecutionConsistent(Step(config, w, q), key) {
      StepKeepsExecution(config, w, q, key);
    }
  }

  lemma {:induction false} ReachableConsistent(config: Config, qs: seq<Request>)
    requires Run(config, qs).Some?
    ensures Consistent(config, Run(config, qs).value)
  {
    if qs != [] {
      var w, q := Run(config, qs[..|qs| - 1]).value, qs[|qs| - 1];
      ReachableConsistent(config, qs[..|qs| - 1]);
      StepKeepsIssues(config, w, q);
      StepKeepsTokens(config, w, q);
      StepKeepsBegins(config, w, q);
      StepKeepsDistinct(config, w, q);
      StepKeepsExecutions(config, w, q);
    }
  }

  /** Single use, over whole runs with crashes: each plan begins executing at most once, each token
      begins at most one execution, and each execution was covered by a token of the same plan and
      workspace, issued by an earlier approval no longer ago than its time to live. */
  lemma SingleUse(config: Config, qs: seq<Request>, i: nat)
    requires Run(config, qs).Some? && i < |Run(config, qs).value.begun|
    ensures var w := Run(config, qs).value; var b := w.begun[i];
      && (forall k :: 0 <= k < |w.begun| && k != i ==> w.begun[k].planId != b.planId && w.begun[k].token != b.token)
      && b.issuedBefore <= |w.issued|
      && (exists j :: && 0 <= j < b.issuedBefore
                      && w.issued[j].token == b.token && w.issued[j].planId == b.planId
                      && w.issued[j].workspaceId == b.workspaceId
                      && b.at <= w.issued[j].approvedAt + config.approvalTtlMs)
      && b.planId in w.db.plans && Started(w.db.plans[b.planId])
  {
    ReachableConsistent(config, qs);
    var w := Run(config, qs).value;
    assert BeginConsistent(config, w, w.begun[i]);
    var j :| 0 <= j < w.begun[i].issuedBefore && Covers(config, w.issued[j], w.begun[i]);
    assert w.issued[j].token == w.begun[i].token;
  }

  /** What the log stands for: a used token, and every recorded execution, has its entry. */
  lemma NothingUnlogged(config: Config, qs: seq<Request>)
    requires Run(config, qs).Some?
    ensures var w := Run(config, qs).value;
      && (forall hash :: hash in w.db.tokens && w.db.tokens[hash].usedAt.Some? ==>
            exists i :: 0 <= i < |w.begun| && w.begun[i].token == hash)
      && (forall key :: key in w.db.executions ==>
            exists i :: 0 <= i < |w.begun| && BeginOf(w.begun[i], w.db.executions[key]))
  {
    ReachableConsistent(config, qs);
    var w := Run(config, qs).value;
    assert forall hash :: hash in w.db.tokens ==> TokenConsistent(config, w, hash);
    assert forall key :: key in w.db.executions ==> ExecutionConsistent(w, key);
  }

  lemma ExtendsIsTransitive(a: World, b: World, c: World)
    requires Extends(a, b) && Extends(b, c)
    ensures Extends(a, c)
  {
  }

  lemma {:induction false} RunsExtend(config: Config, qs: seq<Request>, more: seq<Request>)
    requires Run(config, qs).Some? && Run(config, qs + more).Some?
    ensures Extends(Run(config, qs).value, Run(config, qs + more).value)
  {
    if more == [] {
      assert qs + more == qs;
    } else {
      var all := qs + more;
      assert all[..|all| - 1] == qs + more[..|more| - 1];
      RunsExtend(config, qs, more[..|more| - 1]);
      StepExtends(config, Run(config, all[..|all| - 1]).value, all[|all| - 1]);
      ExtendsIsTransitive(Run(config, qs).value, Run(config, all[..|all| - 1]).value, Run(config, all).value);
    }
  }

  /** A plan that reached executing never becomes approved again, so approving or executing it is
      refused for good, whichever token is offered. */
  lemma StartedForever(config: Config, qs: seq<Request>, more: seq<Request>, r: ExecuteRequest)
    requires Run(config, qs).Some? && Run(config, qs + more).Some?
    requires r.planId in Run(config, qs).value.db.plans && Started(Run(config, qs).value.db.plans[r.planId])
    ensures var db := Run(config, qs + more).value.db;
      && r.planId in db.plans && Started(db.plans[r.planId])
      && !Proceeds(config, db, r)
      && forall workspaceId, actorId, token, now ::
          Approve(config, db, workspaceId, r.planId, actorId, token, now).0 == db
  {
    RunsExtend(config, qs, more);
  }

  /** An execution recorded under a key is the answer to that key from then on, unchanged, and asking
      again changes nothing. */
  lemma ReplayedForever(config: Config, qs: seq<Request>, more: seq<Request>, r: ExecuteRequest, point: CrashPoint)
    requires Run(config, qs).Some? && Run(config, qs + more).Some?
    requires Replays(Run(config, qs).value.db, r)
    ensures var db := Run(config, qs + more).value.db;
      && ExecuteReply(config, db, r)
         == ExecutionReply(Run(config, qs).value.db.executions[Key(r.workspaceId, r.idempotencyKey)], true)
      && Execute(config, db, r, point) == db
  {
    RunsExtend(config, qs, more);
  }

  // The same of the requests themselves, without the log.

  lemma {:induction false} Served(config: Config, qs: seq<Request>, k: nat)
    requires Run(config, qs).Some? && k < |qs|
    ensures Run(config, qs[..k]).Some? && Enabled(Run(config, qs[..k]).value, qs[k])
    ensures Run(config, qs[..k + 1]) == Some(Step(config, Run(config, qs[..k]).value, qs[k]))
    decreases |qs|
  {
    if k == |qs| - 1 {
      assert qs[..k + 1] == qs;
    } else {
      var front := qs[..|qs| - 1];
      Served(config, front, k);
      assert front[..k] == qs[..k] && front[..k + 1] == qs[..k + 1];
    }
  }

  /** Request k is an approval, and issues its token. */
  ghost predicate Grants(config: Config, qs: seq<Request>, k: nat) {
    && k < |qs| && qs[k].Approves? && Run(config, qs[..k]).Some?
    && var q, db := qs[k], Run(config, qs[..k]).value.db;
      Approve(config, db, q.workspaceId, q.planId, q.actorId, q.token, q.now).1.ApprovalReply?
  }

  /** Request k is an execution that passes its checks and makes a write. */
  ghost predicate Performs(config: Config, qs: seq<Request>, k: nat) {
    && k < |qs| && qs[k].Executes? && qs[k].point != BeforeAnyWrite && Run(config, qs[..k]).Some?
    && Proceeds(config, Run(config, qs[..k]).value.db, qs[k].r)
  }

  lemma {:induction false} IssueIsGranted(config: Config, qs: seq<Request>, j: nat) returns (k: nat)
    requires Run(config, qs).Some? && j < |Run(config, qs).value.issued|
    ensures Grants(config, qs, k)
    ensures Run(config, qs).value.issued[j] == Issue(Hash(qs[k].token), qs[k].planId, qs[k].workspaceId, qs[k].now)
  {
    var n := |qs| - 1;
    if j < |Run(config, qs[..n]).value.issued| {
      k := IssueIsGranted(config, qs[..n], j);
      assert qs[..n][..k] == qs[..k];
    } else {
      k := n;
    }
  }

  /** Every execution that writes anything has an earlier approval of its plan, in its workspace and
      with its token, given no longer ago than the time to live. */
  lemma ApprovedInTime(config: Config, qs: seq<Request>, i: nat) returns (k: nat)
    requires Run(config, qs).Some? && Performs(config, qs, i)
    ensures k < i && Grants(config, qs, k)
    ensures qs[k].workspaceId == qs[i].r.workspaceId && qs[k].planId == qs[i].r.planId
    ensures qs[k].token == qs[i].r.approvalToken
    ensures qs[i].r.now <= qs[k].now + config.approvalTtlMs
  {
    var w, r := Run(config, qs[..i]).value, qs[i].r;
    ReachableConsistent(config, qs[..i]);
    ProceedingIsNew(config, w, r);
    var j :| 0 <= j < |w.issued| && Covers(config, w.issued[j], BeginFor(w, r));
    k := IssueIsGranted(config, qs[..i], j);
    assert qs[..i][..k] == qs[..k];
  }

  /** A performed execution stays in the log. */
  lemma PerformedIsLogged(config: Config, qs: seq<Request>, i: nat) returns (b: nat)
    requires Run(config, qs).Some? && Performs(config, qs, i)
    ensures b < |Run(config, qs).value.begun|
    ensures Run(config, qs).value.begun[b].planId == qs[i].r.planId
    ensures Run(config, qs).value.begun[b].token == Hash(qs[i].r.approvalToken)
  {
    b := |Run(config, qs[..i]).value.begun|;
    Served(config, qs, i);
    OnlyBeginsAreLogged(config, Run(config, qs[..i]).value, qs[i]);
    assert qs == qs[..i + 1] + qs[i + 1..];
    RunsExtend(config, qs[..i + 1], qs[i + 1..]);
    assert Run(config, qs).value.begun[b] == Run(config, qs[..i + 1]).value.begun[b];
  }

  /** Two executions that write anything share neither their plan nor their token. */
  lemma PerformedOnce(config: Config, qs: seq<Request>, i: nat, k: nat)
    requires Run(config, qs).Some? && Performs(config, qs, i) && Performs(config, qs, k) && i < k
    ensures qs[i].r.planId != qs[k].r.planId && qs[i].r.approvalToken != qs[k].r.approvalToken
  {
    assert qs[..k][..i] == qs[..i];
    var b := PerformedIsLogged(config, qs[..k], i);
    ReachableConsistent(config, qs[..k]);
    ProceedingIsNew(config, Run(config, qs[..k]).value, qs[k].r);
  }

  /** A granted token is kept as granted, apart from its use. */
  lemma GrantIsKept(config: Config, qs: seq<Request>, k: nat)
    requires Run(config, qs).Some? && Grants(config, qs, k)
    ensures var db, q := Run(config, qs).value.db, qs[k];
      && q.planId in db.plans && db.plans[q.planId].workspaceId == q.workspaceId && Hash(q.token) in db.tokens
      && var token := db.tokens[Hash(q.token)];
        token.(usedAt := None) == Token(q.workspaceId, q.planId, q.now + config.approvalTtlMs, None, q.actorId)
  {
    Served(config, qs, k);
    assert qs == qs[..k + 1] + qs[k + 1..];
    RunsExtend(config, qs[..k + 1], qs[k + 1..]);
    var before, after := Run(config, qs[..k + 1]).value.db, Run(config, qs).value.db;
    assert after.tokens[Hash(qs[k].token)].(usedAt := None) == before.tokens[Hash(qs[k].token)].(usedAt := None);
    assert PlanExtends(before.plans[qs[k].planId], after.plans[qs[k].planId]);
  }

  /** And the other way: a granted token works exactly as long as the plan is approved, the token
      unused, the time to live not over, and the mode allowed. */
  lemma TokenWorksIff(config: Config, qs: seq<Request>, k: nat, r: ExecuteRequest)
    requires Run(config, qs).Some? && Grants(config, qs, k)
    requires r.workspaceId == qs[k].workspaceId && r.planId == qs[k].planId && r.approvalToken == qs[k].token
    ensures var db := Run(config, qs).value.db;
      && r.planId in db.plans && Hash(r.approvalToken) in db.tokens
      && db.tokens[Hash(r.approvalToken)].createdBy == qs[k].actorId
      && (Objection(config, db, r) == None <==>
            && db.plans[r.planId].status == Approved && db.tokens[Hash(r.approvalToken)].usedAt == None
            && r.now <= qs[k].now + config.approvalTtlMs
            && (db.plans[r.planId].dryRun || config.provider == Mock || config.enableAwsMutations))
  {
    GrantIsKept(config, qs, k);
  }

  // New plans.

  /** After `qs` the request makes a new plan. */
  ghost predicate PlansAnew(config: Config, qs: seq<Request>, request: PlanRequest, order: seq<FindingKey>,
                            id: PlanId)
  {
    && Run(config, qs).Some? && Enabled(Run(config, qs).value, Plans(request, order, id))
    && var reply := CreatePlan(Run(config, qs).value.db, request, order, id).1;
      reply.PlanReply? && !reply.replayed
  }

  /** A new plan says what was asked for, whatever requests follow. */
  lemma NewPlanIsAsAsked(config: Config, qs: seq<Request>, request: PlanRequest, order: seq<FindingKey>, id: PlanId,
                         more: seq<Request>)
    requires PlansAnew(config, qs, request, order, id)
    requires Run(config, qs + [Plans(request, order, id)] + more).Some?
    ensures var db := Run(config, qs + [Plans(request, order, id)] + more).value.db;
      && id in db.plans
      && var plan := db.plans[id];
        && plan.workspaceId == request.workspaceId && plan.findingIds == request.findingIds
        && plan.dryRun == request.dryRun && plan.createdBy == request.actorId
        && plan.correlationId == request.correlationId && plan.idempotencyKey == request.idempotencyKey
        && Ok(plan.actions) == PlannedActions(Run(config, qs).value.db.store, order)
        && (more == [] ==> plan.status == AwaitingApproval)
  {
    var planned := qs + [Plans(request, order, id)];
    assert planned[..|planned| - 1] == qs;
    assert more == [] ==> planned + more == planned;
    RunsExtend(config, planned, more);
    var plan, plan' := Run(config, planned).value.db.plans[id], Run(config, planned + more).value.db.plans[id];
    assert PlanExtends(plan, plan');
  }

  /** A plan asked for as a dry run is one: no execution of it, whenever and however far, changes a
      stored resource. */
  lemma DryRunChangesNothing(config: Config, qs: seq<Request>, request: PlanRequest, order: seq<FindingKey>,
                             id: PlanId, more: seq<Request>, r: ExecuteRequest, point: CrashPoint)
    requires PlansAnew(config, qs, request, order, id) && request.dryRun
    requires Run(config, qs + [Plans(request, order, id)] + more).Some? && r.planId == id
    ensures var db := Run(config, qs + [Plans(request, order, id)] + more).value.db;
      Execute(config, db, r, point).resources == db.resources
  {
    NewPlanIsAsAsked(config, qs, request, order, id, more);
    var db := Run(config, qs + [Plans(request, order, id)] + more).value.db;
    forall key | key in db.resources && Proceeds(config, db, r)
      ensures key in Execute(config, db, r, point).resources
      ensures Execute(config, db, r, point).resources[key] == db.resources[key]
    {
      if Execute(config, db, r, point).resources[key] != db.resources[key] {
        ResourcesChangeOnlyWhenLiveMock(config, db, r, point, key);
      }
    }
  }
}
