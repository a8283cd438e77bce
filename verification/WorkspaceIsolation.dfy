/** Workspace isolation: over any sequence of job and remediation requests, a workspace's documents
    and its callers' replies are those of the run containing only its own requests. */
module WorkspaceIsolation {
  import opened Wrappers
  import opened Errors
  import opened ResultStore
  import opened RemediationDb
  import JobQueue
  import JobService

  /** All the collections, with the unique index of the job collection. */
  datatype Site = Site(jobs: map<JobQueue.JobId, JobQueue.Job>, jobIndex: map<Key, JobQueue.JobId>, db: Db)

  /** A request, with the identifiers, tokens, times and result orders it would be served with, and how
      far an execution gets before its process dies. */
  datatype Request =
    | CreatesJob(input: JobService.Input, jobId: JobQueue.JobId, maxAttempts: int, timeoutMs: int, now: int)
    | RetriesJob(workspaceId: string, jobId: JobQueue.JobId, now: int)
    | Plans(request: PlanRequest, order: seq<FindingKey>, planId: PlanId)
    | Approves(workspaceId: string, planId: PlanId, actorId: string, token: string, now: int)
    | Executes(r: ExecuteRequest, point: CrashPoint)

  datatype Answer =
    | JobAnswer(id: JobQueue.JobId, job: JobQueue.Job, replayed: bool)
    | JobRefused(error: ServiceError)
    | Remediation(reply: Reply)
    | NoAnswer

  function WorkspaceOf(q: Request): string {
    match q
    case CreatesJob(input, _, _, _, _) => input.workspaceId
    case RetriesJob(workspaceId, _, _) => workspaceId
    case Plans(request, _, _) => request.workspaceId
    case Approves(workspaceId, _, _, _, _) => workspaceId
    case Executes(r, _) => r.workspaceId
  }

  /** Identifiers and tokens are never handed out twice, in whichever workspace, and result orders are
      orders of the results. */
  predicate Possible(s: Site, q: Request) {
    match q
    case CreatesJob(_, jobId, _, _, _) => jobId !in s.jobs
    case Plans(request, order, planId) =>
      planId !in s.db.plans && Lists(order, Matching(s.db.store, request.workspaceId, request.findingIds))
    case Approves(_, _, _, token, _) => Hash(token) !in s.db.tokens
    case _ => true
  }

  function CreateJob(s: Site, input: JobService.Input, jobId: JobQueue.JobId, maxAttempts: int, timeoutMs: int,
                     now: int): (Site, Answer)
  {
    var key := Key(input.workspaceId, input.idempotencyKey);
    if key in s.jobIndex && s.jobIndex[key] in s.jobs then
      (s, JobAnswer(s.jobIndex[key], s.jobs[s.jobIndex[key]], true))
    else
      var job := JobService.JobFor(input, maxAttempts, timeoutMs, now);
      (s.(jobs := s.jobs[jobId := job], jobIndex := s.jobIndex[key := jobId]), JobAnswer(jobId, job, false))
  }

  function RetryJob(s: Site, workspaceId: string, jobId: JobQueue.JobId, now: int): (Site, Answer) {
    if jobId !in s.jobs || s.jobs[jobId].workspaceId != workspaceId then (s, JobRefused(NotFound))
    else if !JobQueue.Retriable(s.jobs[jobId]) then (s, JobRefused(Conflict))
    else
      var job := JobQueue.Retried(s.jobs[jobId], now);
      (s.(jobs := s.jobs[jobId := job]), JobAnswer(jobId, job, false))
  }

  /** Job requests on the whole site do what the job service does on its collection. */
  lemma JobRequestsAsServed(config: Config, s: Site, q: Request)
    requires Possible(s, q) && Indexed(s) && (q.CreatesJob? || q.RetriesJob?)
    ensures var (s', answer) := Serve(config, s, q);
      && s'.db == s.db
      && (q.CreatesJob? ==>
            var key := Key(q.input.workspaceId, q.input.idempotencyKey);
            if key in s.jobIndex then s' == s && answer == JobAnswer(s.jobIndex[key], s.jobs[s.jobIndex[key]], true)
            else
              && q.jobId in s'.jobs && s'.jobs == s.jobs[q.jobId := s'.jobs[q.jobId]]
              && s'.jobIndex == s.jobIndex[key := q.jobId]
              && answer == JobAnswer(q.jobId, s'.jobs[q.jobId], false)
              && var job := s'.jobs[q.jobId];
                && JobService.SameKey(job, q.input.workspaceId, q.input.idempotencyKey)
                && job.createdBy == q.input.actorId && job.correlationId == q.input.correlationId
                && job.resourceIds == q.input.resourceIds && job.resourceTypes == q.input.resourceTypes
                && job.maxAttempts == q.maxAttempts && job.timeoutMs == q.timeoutMs
                && job.status == JobQueue.Pending && job.nextRunAt == q.now && job.attempts == 0)
      && (q.RetriesJob? ==>
            s'.jobIndex == s.jobIndex &&
            if q.jobId !in s.jobs || s.jobs[q.jobId].workspaceId != q.workspaceId then
              s' == s && answer == JobRefused(NotFound)
            else if s.jobs[q.jobId].status !in {JobQueue.Failed, JobQueue.DeadLettered} then
              s' == s && answer == JobRefused(Conflict)
            else
              && q.jobId in s'.jobs && s'.jobs == s.jobs[q.jobId := s'.jobs[q.jobId]]
              && answer == JobAnswer(q.jobId, s'.jobs[q.jobId], false)
              && s'.jobs[q.jobId].status == JobQueue.Pending && s'.jobs[q.jobId].nextRunAt == q.now
              && s'.jobs[q.jobId].attempts == 0)
  {
  }

  /** And remediation requests what the remediation service does. */
  lemma RemediationRequestsAsServed(config: Config, s: Site, q: Request)
    requires Possible(s, q) && (q.Plans? || q.Approves? || q.Executes?)
    ensures var (s', answer) := Serve(config, s, q);
      && s'.jobs == s.jobs && s'.jobIndex == s.jobIndex
      && (q.Plans? && answer.reply.PlanReply? && !answer.reply.replayed ==>
            && q.planId in s'.db.plans && answer.reply.plan == s'.db.plans[q.planId]
            && var plan := s'.db.plans[q.planId];
              && plan.workspaceId == q.request.workspaceId && plan.findingIds == q.request.findingIds
              && plan.dryRun == q.request.dryRun && plan.createdBy == q.request.actorId
              && plan.correlationId == q.request.correlationId && plan.idempotencyKey == q.request.idempotencyKey)
      && (q.Approves? && answer.reply.ApprovalReply? ==>
            && q.planId in s.db.plans && s.db.plans[q.planId].workspaceId == q.workspaceId
            && s'.db.plans == s.db.plans[q.planId := s.db.plans[q.planId].(status := Approved)]
            && Hash(q.token) in s'.db.tokens
            && s'.db.tokens == s.db.tokens[Hash(q.token) := s'.db.tokens[Hash(q.token)]]
            && s'.db.tokens[Hash(q.token)]
               == Token(q.workspaceId, q.planId, q.now + config.approvalTtlMs, None, q.actorId))
      && (q.Executes? && Proceeds(config, s.db, q.r) && q.point == NoCrash ==>
            && Key(q.r.workspaceId, q.r.idempotencyKey) in s'.db.executions
            && answer == Remediation(ExecutionReply(s'.db.executions[Key(q.r.workspaceId, q.r.idempotencyKey)], false)))
  {
  }

  /** A caller whose execution dies hears nothing. */
  function ExecuteAnswer(config: Config, db: Db, r: ExecuteRequest, point: CrashPoint): Answer {
    if Proceeds(config, db, r) && point != NoCrash then NoAnswer else Remediation(ExecuteReply(config, db, r))
  }

  function Serve(config: Config, s: Site, q: Request): (Site, Answer)
    requires Possible(s, q)
  {
    match q
    case CreatesJob(input, jobId, maxAttempts, timeoutMs, now) =>
      CreateJob(s, input, jobId, maxAttempts, timeoutMs, now)
    case RetriesJob(workspaceId, jobId, now) => RetryJob(s, workspaceId, jobId, now)
    case Plans(request, order, planId) =>
      var (db, reply) := CreatePlan(s.db, request, order, planId);
      (s.(db := db), Remediation(reply))
    case Approves(workspaceId, planId, actorId, token, now) =>
      var (db, reply) := Approve(config, s.db, workspaceId, planId, actorId, token, now);
      (s.(db := db), Remediation(reply))
    case Executes(r, point) =>
      (s.(db := Execute(config, s.db, r, point)), ExecuteAnswer(config, s.db, r, point))
  }

  /** The site after a run, and the answers in order. */
  datatype Outcome = Outcome(site: Site, answers: seq<Answer>)

  function Run(config: Config, s: Site, qs: seq<Request>): Option<Outcome> {
    if qs == [] then Some(Outcome(s, []))
    else
      match Run(config, s, qs[..|qs| - 1])
      case None => None
      case Some(before) =>
        var q := qs[|qs| - 1];
        if Possible(before.site, q) then
          var (site, answer) := Serve(config, before.site, q);
          Some(Outcome(site, before.answers + [answer]))
        else None
  }

  // One workspace's part.

  function StoreOf(s: Store, w: string): Store {
    Store(map key | key in s.findings && key.workspaceId == w :: s.findings[key],
          map key | key in s.recs && key.workspaceId == w :: s.recs[key],
          s.nextId)
  }

  function JobsOf(jobs: map<JobQueue.JobId, JobQueue.Job>, w: string): map<JobQueue.JobId, JobQueue.Job> {
    map id | id in jobs && jobs[id].workspaceId == w :: jobs[id]
  }

  function PlansOf(plans: map<PlanId, Plan>, w: string): map<PlanId, Plan> {
    map id | id in plans && plans[id].workspaceId == w :: plans[id]
  }

  function TokensOf(tokens: map<Hash, Token>, w: string): map<Hash, Token> {
    map hash | hash in tokens && tokens[hash].workspaceId == w :: tokens[hash]
  }

  function ResourcesOf(resources: map<Policy.ResourceId, ResourceDoc>, w: string): map<Policy.ResourceId, ResourceDoc> {
    map id | id in resources && resources[id].workspaceId == w :: resources[id]
  }

  function KeyedOf<V>(m: map<Key, V>, w: string): map<Key, V> {
    map key | key in m && key.workspaceId == w :: m[key]
  }

  function DbOf(db: Db, w: string): Db {
    Db(PlansOf(db.plans, w), KeyedOf(db.planIndex, w), TokensOf(db.tokens, w), KeyedOf(db.executions, w),
       ResourcesOf(db.resources, w), StoreOf(db.store, w))
  }

  function PartOf(s: Site, w: string): Site {
    Site(JobsOf(s.jobs, w), KeyedOf(s.jobIndex, w), DbOf(s.db, w))
  }

  // Writing a document and taking a part commute.

  lemma JobWritten(jobs: map<JobQueue.JobId, JobQueue.Job>, id: JobQueue.JobId, job: JobQueue.Job, w: string)
    requires id in jobs ==> jobs[id].workspaceId == job.workspaceId
    ensures JobsOf(jobs[id := job], w) == if job.workspaceId == w then JobsOf(jobs, w)[id := job] else JobsOf(jobs, w)
  {
  }

  lemma PlanWritten(plans: map<PlanId, Plan>, id: PlanId, plan: Plan, w: string)
    requires id in plans ==> plans[id].workspaceId == plan.workspaceId
    ensures PlansOf(plans[id := plan], w)
         == if plan.workspaceId == w then PlansOf(plans, w)[id := plan] else PlansOf(plans, w)
  {
  }

  lemma TokenWritten(tokens: map<Hash, Token>, hash: Hash, token: Token, w: string)
    requires hash in tokens ==> tokens[hash].workspaceId == token.workspaceId
    ensures TokensOf(tokens[hash := token], w)
         == if token.workspaceId == w then TokensOf(tokens, w)[hash := token] else TokensOf(tokens, w)
  {
  }

  lemma KeyedWritten<V>(m: map<Key, V>, key: Key, v: V, w: string)
    ensures KeyedOf(m[key := v], w) == if key.workspaceId == w then KeyedOf(m, w)[key := v] else KeyedOf(m, w)
  {
  }

  function RequestsOf(qs: seq<Request>, w: string): seq<Request> {
    if qs == [] then []
    else RequestsOf(qs[..|qs| - 1], w) + (if WorkspaceOf(qs[|qs| - 1]) == w then [qs[|qs| - 1]] else [])
  }

  /** The answers to w's requests. */
  function AnswersOf(qs: seq<Request>, answers: seq<Answer>, w: string): seq<Answer>
    requires |qs| == |answers|
  {
    if qs == [] then []
    else
      var n := |qs| - 1;
      AnswersOf(qs[..n], answers[..n], w) + (if WorkspaceOf(qs[n]) == w then [answers[n]] else [])
  }

  /** The indexes point into their collections, at documents of the key's workspace. */
  predicate Indexed(s: Site) {
    && (forall key :: key in s.jobIndex ==>
          s.jobIndex[key] in s.jobs && s.jobs[s.jobIndex[key]].workspaceId == key.workspaceId)
    && PlansIndexed(s.db)
  }

  predicate PlansIndexed(db: Db) {
    forall key :: key in db.planIndex ==>
      db.planIndex[key] in db.plans && db.plans[db.planIndex[key]].workspaceId == key.workspaceId
  }

  // One request at a time: from another workspace it leaves no trace, and from this one it is
  // served from the workspace's own part.

  lemma CreateJobIsLocal(s: Site, input: JobService.Input, jobId: JobQueue.JobId, maxAttempts: int,
                         timeoutMs: int, now: int, w: string)
    requires Indexed(s) && jobId !in s.jobs
    ensures var (s', answer) := CreateJob(s, input, jobId, maxAttempts, timeoutMs, now);
      if input.workspaceId == w
      then CreateJob(PartOf(s, w), input, jobId, maxAttempts, timeoutMs, now) == (PartOf(s', w), answer)
      else PartOf(s', w) == PartOf(s, w)
  {
    var key := Key(input.workspaceId, input.idempotencyKey);
    var job := JobService.JobFor(input, maxAttempts, timeoutMs, now);
    JobWritten(s.jobs, jobId, job, w);
    KeyedWritten(s.jobIndex, key, jobId, w);
  }

  lemma RetryJobIsLocal(s: Site, workspaceId: string, jobId: JobQueue.JobId, now: int, w: string)
    ensures var (s', answer) := RetryJob(s, workspaceId, jobId, now);
      if workspaceId == w then RetryJob(PartOf(s, w), workspaceId, jobId, now) == (PartOf(s', w), answer)
      else PartOf(s', w) == PartOf(s, w)
  {
    if jobId in s.jobs {
      JobWritten(s.jobs, jobId, JobQueue.Retried(s.jobs[jobId], now), w);
    }
  }

  lemma MatchingIsLocal(s: Store, w: string, ids: seq<FindingId>)
    ensures Matching(StoreOf(s, w), w, ids) == Matching(s, w, ids)
  {
  }

  lemma {:induction false} PlannedActionsAreLocal(s: Store, order: seq<FindingKey>, w: string)
    requires forall i :: 0 <= i < |order| ==> order[i] in s.findings && order[i].workspaceId == w
    ensures PlannedActions(StoreOf(s, w), order) == PlannedActions(s, order)
  {
    if order != [] {
      PlannedActionsAreLocal(s, order[..|order| - 1], w);
      assert PlannedType(StoreOf(s, w), order[|order| - 1]) == PlannedType(s, order[|order| - 1]);
    }
  }

  lemma CreatePlanIsLocal(db: Db, request: PlanRequest, order: seq<FindingKey>, id: PlanId, w: string)
    requires forall key :: key in db.planIndex ==> key.workspaceId == w ==>
      db.planIndex[key] in db.plans && db.plans[db.planIndex[key]].workspaceId == w
    requires id !in db.plans && Lists(order, Matching(db.store, request.workspaceId, request.findingIds))
    ensures var (db', reply) := CreatePlan(db, request, order, id);
      if request.workspaceId == w
      then && Lists(order, Matching(DbOf(db, w).store, w, request.findingIds))
           && CreatePlan(DbOf(db, w), request, order, id) == (DbOf(db', w), reply)
      else DbOf(db', w) == DbOf(db, w)
  {
    if request.workspaceId == w {
      MatchingIsLocal(db.store, w, request.findingIds);
      PlannedActionsAreLocal(db.store, order, w);
    }
    if PlannedActions(db.store, order).Ok? {
      PlanWritten(db.plans, id, NewPlan(request, PlannedActions(db.store, order).value), w);
      KeyedWritten(db.planIndex, Key(request.workspaceId, request.idempotencyKey), id, w);
    }
  }

  lemma ApproveIsLocal(config: Config, db: Db, workspaceId: string, planId: PlanId, actorId: string,
                       token: string, now: int, w: string)
    requires Hash(token) !in db.tokens
    ensures var (db', reply) := Approve(config, db, workspaceId, planId, actorId, token, now);
      if workspaceId == w
      then Approve(config, DbOf(db, w), workspaceId, planId, actorId, token, now) == (DbOf(db', w), reply)
      else DbOf(db', w) == DbOf(db, w)
  {
    if planId in db.plans {
      PlanWritten(db.plans, planId, db.plans[planId].(status := Approved), w);
      TokenWritten(db.tokens, Hash(token), Token(workspaceId, planId, now + config.approvalTtlMs, None, actorId), w);
    }
  }

  lemma ObjectionIsLocal(config: Config, db: Db, r: ExecuteRequest)
    ensures Objection(config, DbOf(db, r.workspaceId), r) == Objection(config, db, r)
    ensures Replays(DbOf(db, r.workspaceId), r) <==> Replays(db, r)
  {
  }

  lemma ExecutionOfIsLocal(config: Config, db: Db, r: ExecuteRequest)
    requires r.planId in db.plans && db.plans[r.planId].workspaceId == r.workspaceId
    ensures ExecutionOf(config, DbOf(db, r.workspaceId), r) == ExecutionOf(config, db, r)
  {
    var part, plan := DbOf(db, r.workspaceId), db.plans[r.planId];
    var n := |plan.actions|;
    assert Results(part, plan, n) == Results(db, plan, n);
    assert Touched(part, plan, n) == Touched(db, plan, n);
    assert BeforeState(config, part, plan, n) == BeforeState(config, db, plan, n);
    assert AfterState(config, part, plan, n) == AfterState(config, db, plan, n);
  }

  lemma ResourcesAreLocal(config: Config, db: Db, plan: Plan, done: nat, w: string)
    requires done <= |plan.actions|
    ensures ResourcesOf(ResourcesAfter(config, db, plan, done), w)
         == if plan.workspaceId == w then ResourcesAfter(config, DbOf(db, w), plan, done)
            else ResourcesOf(db.resources, w)
  {
  }

  /** The plan's status, and how many of its n actions are done, at a point after the first write. */
  function StatusAt(point: CrashPoint, execution: Execution): PlanStatus {
    if !point.NoCrash? then Executing else if execution.status == Succeeded then Completed else Failed
  }

  function DoneAt(point: CrashPoint, n: nat): (done: nat)
    ensures done <= n
  {
    match point
    case AfterPlanSave => 0
    case AfterActions(done) => if done < n then done else n
    case _ => n
  }

  function TokensAt(db: Db, r: ExecuteRequest, point: CrashPoint): map<Hash, Token>
    requires Hash(r.approvalToken) in db.tokens
  {
    var hash := Hash(r.approvalToken);
    if point.AfterPlanSave? then db.tokens else db.tokens[hash := db.tokens[hash].(usedAt := Some(r.now))]
  }

  function ExecutionsAt(db: Db, r: ExecuteRequest, point: CrashPoint, execution: Execution): map<Key, Execution> {
    if point.AfterExecutionInsert? || point.NoCrash?
    then db.executions[Key(r.workspaceId, r.idempotencyKey) := execution] else db.executions
  }

  /** An execution up to any point after its first write, in one record. */
  function Executed(config: Config, db: Db, r: ExecuteRequest, point: CrashPoint): Db
    requires Objection(config, db, r) == None
  {
    var plan, execution := db.plans[r.planId], ExecutionOf(config, db, r);
    Db(db.plans[r.planId := plan.(status := StatusAt(point, execution))],
       db.planIndex,
       TokensAt(db, r, point),
       ExecutionsAt(db, r, point, execution),
       ResourcesAfter(config, db, plan, DoneAt(point, |plan.actions|)),
       db.store)
  }

  lemma ExecutedInOne(config: Config, db: Db, r: ExecuteRequest, point: CrashPoint)
    requires Objection(config, db, r) == None && point != BeforeAnyWrite
    ensures ExecutedTo(config, db, r, point) == Executed(config, db, r, point)
  {
    if point.AfterPlanSave? {
      assert ResourcesAfter(config, db, db.plans[r.planId], 0) == db.resources;
    }
  }

  lemma TokensAtAreLocal(db: Db, r: ExecuteRequest, point: CrashPoint, w: string)
    requires Hash(r.approvalToken) in db.tokens && db.tokens[Hash(r.approvalToken)].workspaceId == r.workspaceId
    ensures TokensOf(TokensAt(db, r, point), w)
         == if r.workspaceId == w then TokensAt(DbOf(db, w), r, point) else TokensOf(db.tokens, w)
  {
    TokenWritten(db.tokens, Hash(r.approvalToken), db.tokens[Hash(r.approvalToken)].(usedAt := Some(r.now)), w);
  }

  lemma ExecutionsAtAreLocal(db: Db, r: ExecuteRequest, point: CrashPoint, execution: Execution, w: string)
    ensures KeyedOf(ExecutionsAt(db, r, point, execution), w)
         == if r.workspaceId == w then ExecutionsAt(DbOf(db, w), r, point, execution) else KeyedOf(db.executions, w)
  {
    KeyedWritten(db.executions, Key(r.workspaceId, r.idempotencyKey), execution, w);
  }

  lemma ExecutedIsLocal(config: Config, db: Db, r: ExecuteRequest, point: CrashPoint, w: string)
    requires Objection(config, db, r) == None
    ensures r.workspaceId == w ==>
      && Objection(config, DbOf(db, w), r) == None
      && DbOf(Executed(config, db, r, point), w) == Executed(config, DbOf(db, w), r, point)
    ensures r.workspaceId != w ==> DbOf(Executed(config, db, r, point), w) == DbOf(db, w)
  {
    var plan, execution := db.plans[r.planId], ExecutionOf(config, db, r);
    PlanWritten(db.plans, r.planId, plan.(status := StatusAt(point, execution)), w);
    TokensAtAreLocal(db, r, point, w);
    ExecutionsAtAreLocal(db, r, point, execution, w);
    ResourcesAreLocal(config, db, plan, DoneAt(point, |plan.actions|), w);
    if r.workspaceId == w {
      ObjectionIsLocal(config, db, r);
      ExecutionOfIsLocal(config, db, r);
    }
  }

  lemma ExecuteIsLocal(config: Config, db: Db, r: ExecuteRequest, point: CrashPoint, w: string)
    ensures r.workspaceId == w ==>
      && Execute(config, DbOf(db, w), r, point) == DbOf(Execute(config, db, r, point), w)
      && ExecuteAnswer(config, DbOf(db, w), r, point) == ExecuteAnswer(config, db, r, point)
    ensures r.workspaceId != w ==> DbOf(Execute(config, db, r, point), w) == DbOf(db, w)
  {
    ObjectionIsLocal(config, db, r);
    if Proceeds(config, db, r) && point != BeforeAnyWrite {
      ExecutedInOne(config, db, r, point);
      ExecutedIsLocal(config, db, r, point, w);
      ExecutionOfIsLocal(config, db, r);
      if r.workspaceId == w { ExecutedInOne(config, DbOf(db, w), r, point); }
    }
  }

  lemma OthersLeaveNoTrace(config: Config, s: Site, q: Request, w: string)
    requires Indexed(s) && Possible(s, q) && WorkspaceOf(q) != w
    ensures PartOf(Serve(config, s, q).0, w) == PartOf(s, w)
  {
    match q {
      case CreatesJob(input, jobId, maxAttempts, timeoutMs, now) => CreateJobIsLocal(s, input, jobId,
            maxAttempts, timeoutMs, now, w);
      case RetriesJob(workspaceId, jobId, now) => RetryJobIsLocal(s, workspaceId, jobId, now, w);
      case Plans(request, order, planId) => CreatePlanIsLocal(s.db, request, order, planId, w);
      case Approves(workspaceId, planId, actorId, token, now) => ApproveIsLocal(config, s.db, workspaceId,
            planId, actorId, token, now, w);
      case Executes(r, point) => ExecuteIsLocal(config, s.db, r, point, w);
    }
  }

  lemma OwnRequestsSeeOnlyTheirPart(config: Config, s: Site, q: Request, w: string)
    requires Indexed(s) && Possible(s, q) && WorkspaceOf(q) == w
    ensures Possible(PartOf(s, w), q)
    ensures Serve(config, PartOf(s, w), q) == (PartOf(Serve(config, s, q).0, w), Serve(config, s, q).1)
  {
    match q {
      case CreatesJob(input, jobId, maxAttempts, timeoutMs, now) => CreateJobIsLocal(s, input, jobId,
            maxAttempts, timeoutMs, now, w);
      case RetriesJob(workspaceId, jobId, now) => RetryJobIsLocal(s, workspaceId, jobId, now, w);
      case Plans(request, order, planId) => CreatePlanIsLocal(s.db, request, order, planId, w);
      case Approves(workspaceId, planId, actorId, token, now) => ApproveIsLocal(config, s.db, workspaceId,
            planId, actorId, token, now, w);
      case Executes(r, point) => ExecuteIsLocal(config, s.db, r, point, w);
    }
  }

  lemma PlansKeepIndexed(db: Db, request: PlanRequest, order: seq<FindingKey>, planId: PlanId)
    requires PlansIndexed(db)
    requires planId !in db.plans && Lists(order, Matching(db.store, request.workspaceId, request.findingIds))
    ensures PlansIndexed(CreatePlan(db, request, order, planId).0)
  {
  }

  /** Nothing else writes the index or moves a plan to another workspace. */
  lemma SamePlansKeepIndexed(db: Db, db': Db)
    requires PlansIndexed(db) && db'.planIndex == db.planIndex
    requires forall id :: id in db.plans ==> id in db'.plans && db'.plans[id].workspaceId == db.plans[id].workspaceId
    ensures PlansIndexed(db')
  {
  }

  lemma ApproveKeepsIndexed(config: Config, db: Db, workspaceId: string, planId: PlanId, actorId: string,
                            token: string, now: int)
    requires PlansIndexed(db)
    ensures PlansIndexed(Approve(config, db, workspaceId, planId, actorId, token, now).0)
  {
    SamePlansKeepIndexed(db, Approve(config, db, workspaceId, planId, actorId, token, now).0);
  }

  lemma ExecuteKeepsIndexed(config: Config, db: Db, r: ExecuteRequest, point: CrashPoint)
    requires PlansIndexed(db)
    ensures PlansIndexed(Execute(config, db, r, point))
  {
    if Proceeds(config, db, r) && point != BeforeAnyWrite {
      ExecutedInOne(config, db, r, point);
      SamePlansKeepIndexed(db, Executed(config, db, r, point));
    }
  }

  lemma CreateJobKeepsIndexed(s: Site, input: JobService.Input, jobId: JobQueue.JobId, maxAttempts: int,
                              timeoutMs: int, now: int)
    requires Indexed(s) && jobId !in s.jobs
    ensures Indexed(CreateJob(s, input, jobId, maxAttempts, timeoutMs, now).0)
  {
  }

  lemma RetryJobKeepsIndexed(s: Site, workspaceId: string, jobId: JobQueue.JobId, now: int)
    requires Indexed(s)
    ensures Indexed(RetryJob(s, workspaceId, jobId, now).0)
  {
  }

  lemma ServeKeepsIndexed(config: Config, s: Site, q: Request)
    requires Indexed(s) && Possible(s, q)
    ensures Indexed(Serve(config, s, q).0)
  {
    match q {
      case CreatesJob(input, jobId, maxAttempts, timeoutMs, now) =>
        CreateJobKeepsIndexed(s, input, jobId, maxAttempts, timeoutMs, now);
      case RetriesJob(workspaceId, jobId, now) => RetryJobKeepsIndexed(s, workspaceId, jobId, now);
      case Plans(request, order, planId) => PlansKeepIndexed(s.db, request, order, planId);
      case Approves(workspaceId, planId, actorId, token, now) =>
        ApproveKeepsIndexed(config, s.db, workspaceId, planId, actorId, token, now);
      case Executes(r, point) => ExecuteKeepsIndexed(config, s.db, r, point);
    }
  }

  // Whole runs.

  lemma {:induction false} RunKeepsIndexed(config: Config, s: Site, qs: seq<Request>)
    requires Indexed(s) && Run(config, s, qs).Some?
    ensures Indexed(Run(config, s, qs).value.site) && |Run(config, s, qs).value.answers| == |qs|
  {
    if qs != [] {
      RunKeepsIndexed(config, s, qs[..|qs| - 1]);
      ServeKeepsIndexed(config, Run(config, s, qs[..|qs| - 1]).value.site, qs[|qs| - 1]);
    }
  }

  lemma RunSnoc(config: Config, s: Site, qs: seq<Request>, q: Request)
    requires Run(config, s, qs).Some? && Possible(Run(config, s, qs).value.site, q)
    ensures var before := Run(config, s, qs).value; var (site, answer) := Serve(config, before.site, q);
      Run(config, s, qs + [q]) == Some(Outcome(site, before.answers + [answer]))
  {
    assert (qs + [q])[..|qs + [q]| - 1] == qs;
  }

  lemma AnswersSnoc(qs: seq<Request>, q: Request, answers: seq<Answer>, answer: Answer, w: string)
    requires |qs| == |answers|
    ensures AnswersOf(qs + [q], answers + [answer], w)
         == if WorkspaceOf(q) == w then AnswersOf(qs, answers, w) + [answer] else AnswersOf(qs, answers, w)
    ensures RequestsOf(qs + [q], w) == if WorkspaceOf(q) == w then RequestsOf(qs, w) + [q] else RequestsOf(qs, w)
  {
    assert (qs + [q])[..|qs|] == qs && (answers + [answer])[..|qs|] == answers;
  }

  /** What the projection theorem says of a run that went from `s` to `o`. */
  predicate Projects(config: Config, s: Site, qs: seq<Request>, w: string, o: Outcome) {
    && |o.answers| == |qs|
    && Run(config, PartOf(s, w), RequestsOf(qs, w)) == Some(Outcome(PartOf(o.site, w), AnswersOf(qs, o.answers, w)))
  }

  lemma ProjectionStep(config: Config, s: Site, qs: seq<Request>, q: Request, w: string, o: Outcome)
    requires Projects(config, s, qs, w, o) && Indexed(o.site) && Possible(o.site, q)
    ensures var (site, answer) := Serve(config, o.site, q);
      Projects(config, s, qs + [q], w, Outcome(site, o.answers + [answer]))
  {
    var (site, answer) := Serve(config, o.site, q);
    AnswersSnoc(qs, q, o.answers, answer, w);
    if WorkspaceOf(q) == w {
      OwnRequestsSeeOnlyTheirPart(config, o.site, q, w);
      RunSnoc(config, PartOf(s, w), RequestsOf(qs, w), q);
    } else {
      OthersLeaveNoTrace(config, o.site, q, w);
    }
  }

  /** Workspace projection: after any run over all workspaces, w's part of the site, and the answers
      w's callers got, are those of the run of w's requests alone from w's part alone. */
  lemma {:induction false} WorkspaceProjection(config: Config, s: Site, qs: seq<Request>, w: string)
    requires Indexed(s) && Run(config, s, qs).Some?
    ensures |Run(config, s, qs).value.answers| == |qs|
    ensures Run(config, PartOf(s, w), RequestsOf(qs, w))
         == Some(Outcome(PartOf(Run(config, s, qs).value.site, w), AnswersOf(qs, Run(config, s, qs).value.answers, w)))
  {
    if qs != [] {
      var front, q := qs[..|qs| - 1], qs[|qs| - 1];
      WorkspaceProjection(config, s, front, w);
      RunKeepsIndexed(config, s, front);
      ProjectionStep(config, s, front, q, w, Run(config, s, front).value);
      assert front + [q] == qs;
    }
  }
}
