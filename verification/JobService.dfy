/** Job intake: idempotent creation under racing calls, and the manual retry of dead letters. */
module JobService {
  import opened Wrappers
  import opened Errors
  import opened JobQueue
  import LeaseProtocol
  import LeaseTheorems

  datatype Input = Input(
    workspaceId: string,
    actorId: string,
    correlationId: string,
    resourceIds: Option<seq<string>>,
    resourceTypes: Option<seq<string>>,
    idempotencyKey: string)

  predicate SameKey(j: Job, workspaceId: string, idempotencyKey: string) {
    j.workspaceId == workspaceId && j.idempotencyKey == idempotencyKey
  }

  /** `found` is a possible answer of findOne by workspace and idempotency key. */
  predicate Finds(jobs: map<JobId, Job>, workspaceId: string, idempotencyKey: string, found: Option<JobId>) {
    match found
    case Some(id) => id in jobs && SameKey(jobs[id], workspaceId, idempotencyKey)
    case None => forall id :: id in jobs ==> !SameKey(jobs[id], workspaceId, idempotencyKey)
  }

  /** What the unique index on workspace and idempotency key enforces. */
  predicate UniqueKeys(jobs: map<JobId, Job>) {
    forall a, b :: a in jobs && b in jobs && SameKey(jobs[a], jobs[b].workspaceId, jobs[b].idempotencyKey) ==> a == b
  }

  function JobFor(input: Input, maxAttempts: int, timeoutMs: int, now: int): Job {
    NewJob(input.workspaceId, input.actorId, input.correlationId, input.resourceIds, input.resourceTypes,
           input.idempotencyKey, maxAttempts, timeoutMs, now)
  }

  class JobService {
    const maxAttempts: int
    const timeoutMs: int
    var jobs: map<JobId, Job>

    constructor (maxAttempts: int, timeoutMs: int, jobs: map<JobId, Job>)
      ensures this.maxAttempts == maxAttempts && this.timeoutMs == timeoutMs && this.jobs == jobs
    {
      this.maxAttempts := maxAttempts;
      this.timeoutMs := timeoutMs;
      this.jobs := jobs;
    }

    /** A creation that no other call interleaves; `id` is the identifier an insert would get. */
    method Create(input: Input, id: JobId, now: int) returns (job: JobId, replayed: bool)
      requires UniqueKeys(jobs) && id !in jobs
      modifies this`jobs
      ensures UniqueKeys(jobs)
      ensures job in jobs && SameKey(jobs[job], input.workspaceId, input.idempotencyKey)
      ensures replayed <==> !Finds(old(jobs), input.workspaceId, input.idempotencyKey, None)
      ensures replayed ==> jobs == old(jobs)
      ensures !replayed ==> job == id && jobs == old(jobs)[id := JobFor(input, maxAttempts, timeoutMs, now)]
      ensures !replayed ==>
        var added := jobs[id];
        && added.workspaceId == input.workspaceId && added.idempotencyKey == input.idempotencyKey
        && added.createdBy == input.actorId && added.correlationId == input.correlationId
        && added.resourceIds == input.resourceIds && added.resourceTypes == input.resourceTypes
        && added.maxAttempts == maxAttempts && added.timeoutMs == timeoutMs
        && added.status == Pending && added.nextRunAt == now && added.attempts == 0 && added.version == 1
        && added.leaseUntil == None && added.claimedBy == None && added.heartbeatAt == None
        && added.lastError == None && added.resultSummary == None && added.completedAt == None
    {
      if existing :| existing in jobs && SameKey(jobs[existing], input.workspaceId, input.idempotencyKey) {
        return existing, true;
      }
      jobs := jobs[id := JobFor(input, maxAttempts, timeoutMs, now)];
      return id, false;
    }

    method Retry(workspaceId: string, id: JobId, now: int) returns (reply: Result<Job, ServiceError>)
      modifies this`jobs
      ensures id !in old(jobs) || old(jobs)[id].workspaceId != workspaceId ==> reply == Err(NotFound)
      ensures id in old(jobs) && old(jobs)[id].workspaceId == workspaceId ==>
        reply == if Retriable(old(jobs)[id]) then Ok(Retried(old(jobs)[id], now)) else Err(Conflict)
      ensures jobs == if reply.Ok? then old(jobs)[id := reply.value] else old(jobs)
      ensures reply.Ok? ==>
        && id in old(jobs) && old(jobs)[id].workspaceId == workspaceId
        && old(jobs)[id].status in {Failed, DeadLettered}
        && reply.value == old(jobs)[id].(status := Pending, nextRunAt := now, attempts := 0, leaseUntil := None,
                                         claimedBy := None, lastError := None, completedAt := None)
      ensures reply == Err(Conflict) ==> id in old(jobs) && old(jobs)[id].status !in {Failed, DeadLettered}
    {
      if id !in jobs || jobs[id].workspaceId != workspaceId {
        return Err(NotFound);
      }
      var job := jobs[id];
      if job.status != Failed && job.status != DeadLettered {
        return Err(Conflict);
      }
      job := job.(status := Pending, nextRunAt := now, attempts := 0);
      job := job.(leaseUntil := None, claimedBy := None, lastError := None, completedAt := None);
      jobs := jobs[id := job];
      return Ok(job);
    }
  }

  // Racing creations: find, insert under the unique index, and, when the insert is refused, find again.

  datatype Phase =
    | Called | Missed | Inserted(job: JobId) | Refused | Returned(job: JobId, replayed: bool) | Threw | Lost

  datatype Call = Call(input: Input, phase: Phase)

  /** `creator` records which call inserted each job. */
  datatype World = World(jobs: map<JobId, Job>, calls: seq<Call>, creator: map<JobId, nat>)

  /** `Loses` is a call whose process or connection dies; `Elsewhere` is any other operation on the
      collection, which neither removes a job nor changes its key. */
  datatype Event =
    | Begins(input: Input)
    | FindsExisting(c: nat, found: Option<JobId>)
    | Inserts(c: nat, id: JobId, maxAttempts: int, timeoutMs: int, now: int)
    | Audits(c: nat)
    | FindsAgain(c: nat, found: Option<JobId>)
    | Loses(c: nat)
    | Elsewhere(jobs: map<JobId, Job>)

  predicate InPhase(w: World, c: nat, phase: Phase) {
    c < |w.calls| && w.calls[c].phase == phase
  }

  predicate Enabled(w: World, e: Event) {
    match e
    case Begins(_) => true
    case FindsExisting(c, found) =>
      InPhase(w, c, Called) && Finds(w.jobs, w.calls[c].input.workspaceId, w.calls[c].input.idempotencyKey, found)
    case Inserts(c, id, _, _, _) => InPhase(w, c, Missed) && id !in w.jobs
    case Audits(c) => c < |w.calls| && w.calls[c].phase.Inserted?
    case FindsAgain(c, found) =>
      InPhase(w, c, Refused) && Finds(w.jobs, w.calls[c].input.workspaceId, w.calls[c].input.idempotencyKey, found)
    case Loses(c) => c < |w.calls| && !w.calls[c].phase.Returned? && !w.calls[c].phase.Threw?
    case Elsewhere(jobs) =>
      && jobs.Keys == w.jobs.Keys
      && forall id :: id in jobs ==> SameKey(jobs[id], w.jobs[id].workspaceId, w.jobs[id].idempotencyKey)
  }

  function Moved(w: World, c: nat, phase: Phase): World
    requires c < |w.calls|
  {
    w.(calls := w.calls[c := w.calls[c].(phase := phase)])
  }

  function Step(w: World, e: Event): World
    requires Enabled(w, e)
  {
    match e
    case Begins(input) => w.(calls := w.calls + [Call(input, Called)])
    case FindsExisting(c, found) => Moved(w, c, if found.Some? then Returned(found.value, true) else Missed)
    case Inserts(c, id, maxAttempts, timeoutMs, now) =>
      var input := w.calls[c].input;
      if Finds(w.jobs, input.workspaceId, input.idempotencyKey, None) then
        Moved(w, c, Inserted(id))
        .(jobs := w.jobs[id := JobFor(input, maxAttempts, timeoutMs, now)], creator := w.creator[id := c])
      else Moved(w, c, Refused)
    case Audits(c) => Moved(w, c, Returned(w.calls[c].phase.job, false))
    case FindsAgain(c, found) => Moved(w, c, if found.Some? then Returned(found.value, true) else Threw)
    case Loses(c) => Moved(w, c, Lost)
    case Elsewhere(jobs) => w.(jobs := jobs)
  }

  /** An insert that finds the key free stores the job its call asked for, under that call's limits. */
  lemma InsertsAsAsked(w: World, e: Event)
    requires Enabled(w, e) && e.Inserts?
    requires Finds(w.jobs, w.calls[e.c].input.workspaceId, w.calls[e.c].input.idempotencyKey, None)
    ensures e.id in Step(w, e).jobs
    ensures var added, input := Step(w, e).jobs[e.id], w.calls[e.c].input;
      && SameKey(added, input.workspaceId, input.idempotencyKey)
      && added.createdBy == input.actorId && added.correlationId == input.correlationId
      && added.resourceIds == input.resourceIds && added.resourceTypes == input.resourceTypes
      && added.maxAttempts == e.maxAttempts && added.timeoutMs == e.timeoutMs
      && added.status == Pending && added.nextRunAt == e.now && added.attempts == 0 && added.version == 1
      && added.leaseUntil == None && added.claimedBy == None && added.heartbeatAt == None
      && added.lastError == None && added.resultSummary == None && added.completedAt == None
  {
  }

  function Run(es: seq<Event>): Option<World> {
    if es == [] then Some(World(map[], [], map[]))
    else
      var before := Run(es[..|es| - 1]);
      if before.Some? && Enabled(before.value, es[|es| - 1]) then Some(Step(before.value, es[|es| - 1])) else None
  }

  ghost predicate Consistent(w: World) {
    && UniqueKeys(w.jobs)
    && w.creator.Keys == w.jobs.Keys
    && (forall c :: 0 <= c < |w.calls| ==> CallConsistent(w, c))
    && (forall id :: id in w.jobs ==> CreatorConsistent(w, id))
  }

  predicate CallConsistent(w: World, c: nat)
    requires c < |w.calls|
  {
    var input := w.calls[c].input;
    match w.calls[c].phase
    case Inserted(id) => id in w.jobs && SameKey(w.jobs[id], input.workspaceId, input.idempotencyKey)
                         && id in w.creator && w.creator[id] == c
    case Returned(id, replayed) => id in w.jobs && SameKey(w.jobs[id], input.workspaceId, input.idempotencyKey)
                                   && (!replayed ==> id in w.creator && w.creator[id] == c)
    case Refused => !Finds(w.jobs, input.workspaceId, input.idempotencyKey, None)
    case Threw => false
    case _ => true
  }

  predicate CreatorConsistent(w: World, id: JobId)
    requires id in w.jobs
  {
    && id in w.creator && w.creator[id] < |w.calls|
    && var call := w.calls[w.creator[id]];
      && SameKey(w.jobs[id], call.input.workspaceId, call.input.idempotencyKey)
      && call.phase in {Inserted(id), Returned(id, false), Lost}
  }

  lemma KeysKept(w: World, e: Event, id: JobId)
    requires Enabled(w, e) && id in w.jobs
    ensures id in Step(w, e).jobs
    ensures SameKey(Step(w, e).jobs[id], w.jobs[id].workspaceId, w.jobs[id].idempotencyKey)
    ensures w.creator.Keys == w.jobs.Keys ==> id in Step(w, e).creator && Step(w, e).creator[id] == w.creator[id]
  {
  }

  lemma CallSurvives(w: World, e: Event, c: nat)
    requires Consistent(w) && Enabled(w, e) && c < |w.calls| && CallConsistent(w, c)
    requires Step(w, e).calls[c] == w.calls[c]
    ensures CallConsistent(Step(w, e), c)
  {
    var input := w.calls[c].input;
    match w.calls[c].phase {
      case Inserted(id) => KeysKept(w, e, id);
      case Returned(id, _) => KeysKept(w, e, id);
      case Refused =>
        var id :| id in w.jobs && SameKey(w.jobs[id], input.workspaceId, input.idempotencyKey);
        KeysKept(w, e, id);
      case _ =>
    }
  }

  lemma StepKeepsCall(w: World, e: Event, c: nat)
    requires Consistent(w) && Enabled(w, e) && c < |Step(w, e).calls|
    ensures CallConsistent(Step(w, e), c)
  {
    if c < |w.calls| {
      assert CallConsistent(w, c);
      if Step(w, e).calls[c] == w.calls[c] {
        CallSurvives(w, e, c);
      }
    }
  }

  lemma StepKeepsCreator(w: World, e: Event, id: JobId)
    requires Consistent(w) && Enabled(w, e) && id in Step(w, e).jobs
    ensures CreatorConsistent(Step(w, e), id)
  {
    if id in w.jobs {
      assert CreatorConsistent(w, id);
      assert CallConsistent(w, w.creator[id]);
      KeysKept(w, e, id);
    }
  }

  lemma {:induction false} ReachableConsistent(es: seq<Event>)
    requires Run(es).Some?
    ensures Consistent(Run(es).value)
  {
    if es != [] {
      ReachableConsistent(es[..|es| - 1]);
      var w, e := Run(es[..|es| - 1]).value, es[|es| - 1];
      var w' := Run(es).value;
      forall c | 0 <= c < |w'.calls| ensures CallConsistent(w', c) { StepKeepsCall(w, e, c); }
      forall id | id in w'.jobs ensures CreatorConsistent(w', id) { StepKeepsCreator(w, e, id); }
      StepKeepsUniqueKeys(w, e);
    }
  }

  lemma StepKeepsUniqueKeys(w: World, e: Event)
    requires Consistent(w) && Enabled(w, e)
    ensures UniqueKeys(Step(w, e).jobs) && Step(w, e).creator.Keys == Step(w, e).jobs.Keys
  {
  }

  predicate CallsOn(call: Call, workspaceId: string, idempotencyKey: string) {
    call.input.workspaceId == workspaceId && call.input.idempotencyKey == idempotencyKey
  }

  /** Any number of calls with one workspace and key, interleaved in any way: those that return get
      the same job, the only one with that key, and at most one of them is told it is new. The
      duplicate-key error never reaches a caller. */
  lemma CreationsAgree(es: seq<Event>, c: nat, d: nat, workspaceId: string, idempotencyKey: string)
    requires Run(es).Some?
    requires var calls := Run(es).value.calls;
      && c < |calls| && CallsOn(calls[c], workspaceId, idempotencyKey)
      && d < |calls| && CallsOn(calls[d], workspaceId, idempotencyKey)
    ensures var w := Run(es).value; var p, q := w.calls[c].phase, w.calls[d].phase;
      && !p.Threw?
      && (p.Returned? && q.Returned? ==> p.job == q.job)
      && (p.Returned? && q.Returned? && !p.replayed && !q.replayed ==> c == d)
      && (p.Returned? ==> p.job in w.jobs && SameKey(w.jobs[p.job], workspaceId, idempotencyKey)
                          && forall id :: id in w.jobs && SameKey(w.jobs[id], workspaceId, idempotencyKey) ==>
                              id == p.job)
  {
    ReachableConsistent(es);
    var w := Run(es).value;
    assert CallConsistent(w, c) && CallConsistent(w, d);
  }

  predicate IsCallOn(w: World, c: int, workspaceId: string, idempotencyKey: string) {
    0 <= c < |w.calls| && CallsOn(w.calls[c], workspaceId, idempotencyKey)
  }

  /** When every call with the key has returned, exactly one was told the job is new. */
  lemma ExactlyOneCreates(es: seq<Event>, workspaceId: string, idempotencyKey: string)
    returns (creator: nat)
    requires Run(es).Some?
    requires exists c :: IsCallOn(Run(es).value, c, workspaceId, idempotencyKey)
    requires forall c :: IsCallOn(Run(es).value, c, workspaceId, idempotencyKey) ==>
        Run(es).value.calls[c].phase.Returned?
    ensures IsCallOn(Run(es).value, creator, workspaceId, idempotencyKey)
    ensures forall c :: IsCallOn(Run(es).value, c, workspaceId, idempotencyKey) ==>
      Run(es).value.calls[c].phase.replayed == (c != creator)
  {
    ReachableConsistent(es);
    var w := Run(es).value;
    var any :| IsCallOn(w, any, workspaceId, idempotencyKey);
    assert CallConsistent(w, any);
    var job := w.calls[any].phase.job;
    assert CreatorConsistent(w, job);
    creator := w.creator[job];
    assert IsCallOn(w, creator, workspaceId, idempotencyKey) && w.calls[creator].phase == Returned(job, false);
    forall c | IsCallOn(w, c, workspaceId, idempotencyKey)
      ensures w.calls[c].phase.replayed == (c != creator)
    {
      CreationsAgree(es, creator, c, workspaceId, idempotencyKey);
    }
  }

  /** What becomes of a created job in the queue: it keeps what it was asked for and its limits, and
      if it is never recovered at most that many attempts are made. */
  lemma CreatedJobKeepsItsLimits(config: Config, es: seq<LeaseProtocol.Event>, k: nat, id: JobId, input: Input,
                                 maxAttempts: int, timeoutMs: int, now: int)
    requires LeaseProtocol.Feasible(config, es)
    requires k < |es| && es[k] == LeaseProtocol.Create(id, JobFor(input, maxAttempts, timeoutMs, now))
    ensures id in LeaseProtocol.After(config, es).jobs
    ensures var job := LeaseProtocol.After(config, es).jobs[id];
      && job.workspaceId == input.workspaceId && job.idempotencyKey == input.idempotencyKey
      && job.correlationId == input.correlationId && job.createdBy == input.actorId
      && job.resourceIds == input.resourceIds && job.resourceTypes == input.resourceTypes
      && job.timeoutMs == timeoutMs && job.maxAttempts == maxAttempts
      && (LeaseTheorems.Recoveries(es, id) == 0 && maxAttempts >= 1 ==> job.attempts <= maxAttempts)
  {
    LeaseTheorems.OriginIsKept(config, es, k, id, JobFor(input, maxAttempts, timeoutMs, now));
    if LeaseTheorems.Recoveries(es, id) == 0 {
      LeaseTheorems.UnrecoveredIsWithinCeiling(config, es, id);
    }
  }
}
