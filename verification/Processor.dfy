/** The worker's processing of one job: the run that stores an analysis, and what becomes of the job. */
module Processor {
  import opened Wrappers
  import opened Backoff
  import opened Policy
  import opened ResultStore
  import JobQueue

  datatype HealthCheck = HealthCheck(workspaceId: string, resourceId: ResourceId, unhealthy: bool, check: RuleId)

  function CheckOf(job: JobRef, f: Finding): HealthCheck {
    HealthCheck(job.workspaceId, f.resourceId, f.severity == Critical || f.severity == High, f.ruleId)
  }

  function Checks(job: JobRef, fs: seq<Finding>): seq<HealthCheck> {
    seq(|fs|, k requires 0 <= k < |fs| => CheckOf(job, fs[k]))
  }

  /** How the run went. It stored its analysis; or an error came after `writes` of the writes that
      storing it takes, three per finding, and its message may or may not say "not retryable" and
      may or may not say "timed out". */
  datatype Outcome = Analysed | Broke(writes: nat, retryable: bool, timedOut: bool, message: string)

  /** Of the first `writes` writes for n findings, how many are upserts: all but every third. */
  function Upserts(writes: nat, n: nat): (upserts: nat)
    ensures upserts <= 2 * n
  {
    if writes < 3 * n then 2 * (writes / 3) + writes % 3 else 2 * n
  }

  /** How many findings those writes are done with, health check included. */
  function Whole(writes: nat, n: nat): (whole: nat)
    ensures whole <= n
  {
    if writes < 3 * n then writes / 3 else n
  }

  /** What the first `writes` writes for one finding leave in the store. */
  function Stored(s: Store, job: JobRef, f: Finding, writes: nat): Store {
    if writes == 0 then s else if writes == 1 then UpsertFinding(s, job, f) else PersistOne(s, job, f)
  }

  lemma StoredIsPart(s: Store, job: JobRef, fs: seq<Finding>, n: nat, writes: nat)
    requires n < |fs| && 3 * n <= writes < 3 * n + 3
    ensures Upserts(writes, |fs|) == 2 * n + (writes - 3 * n) && Whole(writes, |fs|) == n
    ensures Stored(PersistAll(s, job, fs[..n]), job, fs[n], writes - 3 * n)
         == PersistPart(s, job, fs, Upserts(writes, |fs|))
  {
    assert writes / 3 == n;
    assert fs[..n + 1][..n] == fs[..n];
  }

  class JobProcessor {
    const queue: JobQueue.JobQueue
    const workerId: string
    var store: Store
    var healthChecks: seq<HealthCheck>

    constructor (queue: JobQueue.JobQueue, workerId: string)
      ensures this.queue == queue && this.workerId == workerId
      ensures store == EMPTY_STORE && healthChecks == []
    {
      this.queue := queue;
      this.workerId := workerId;
      store := EMPTY_STORE;
      healthChecks := [];
    }

    /** Stores an analysis, two upserts and one appended health check per finding, unless an error
        comes after `writes` of these; then nothing is reported and what was written stays. */
    method StoreAnalysis(job: JobRef, resources: seq<Resource>, findings: seq<Finding>, writes: nat)
      returns (summary: Option<JobQueue.Summary>)
      modifies this`store, this`healthChecks
      ensures store == PersistPart(old(store), job, findings, Upserts(writes, |findings|))
      ensures healthChecks == old(healthChecks) + Checks(job, findings[..Whole(writes, |findings|)])
      ensures summary == if writes < 3 * |findings| then None
                         else Some(JobQueue.Summary(|resources|, |findings|, |findings|))
    {
      var findingsCreated, recommendationsCreated := 0, 0;
      for n := 0 to |findings|
        invariant 3 * n <= writes
        invariant store == PersistAll(old(store), job, findings[..n])
        invariant healthChecks == old(healthChecks) + Checks(job, findings[..n])
        invariant findingsCreated == recommendationsCreated == n
      {
        assert findings[..n + 1][..n] == findings[..n];
        var stored := StoreFinding(job, findings[n], writes - 3 * n);
        if !stored {
          StoredIsPart(old(store), job, findings, n, writes);
          return None;
        }
        findingsCreated := findingsCreated + 1;
        recommendationsCreated := recommendationsCreated + 1;
      }
      PersistPartWhole(old(store), job, findings);
      assert findings[..|findings|] == findings;
      summary := Some(JobQueue.Summary(|resources|, findingsCreated, recommendationsCreated));
    }

    method StoreFinding(job: JobRef, f: Finding, writes: nat) returns (stored: bool)
      modifies this`store, this`healthChecks
      ensures stored <==> writes >= 3
      ensures store == Stored(old(store), job, f, writes)
      ensures healthChecks == old(healthChecks) + if stored then [CheckOf(job, f)] else []
      ensures stored ==>
        healthChecks == old(healthChecks) + [HealthCheck(job.workspaceId, f.resourceId,
                                                         f.severity in {Critical, High}, f.ruleId)]
    {
      if writes == 0 {
        return false;
      }
      var key := KeyOf(job, f);
      var id := store.nextId;
      if key in store.findings {
        id := store.findings[key].id;
        store := store.(findings := store.findings[key := FindingDoc(id, f.severity, job.correlationId)]);
      } else {
        store := store.(findings := store.findings[key := FindingDoc(id, f.severity, job.correlationId)],
                        nextId := id + 1);
      }
      if writes == 1 {
        return false;
      }
      store := store.(recs := store.recs[RecKey(job.workspaceId, id) := RecOf(job, f)]);
      if writes == 2 {
        return false;
      }
      var unhealthy := f.severity == Critical || f.severity == High;
      healthChecks := healthChecks + [HealthCheck(job.workspaceId, f.resourceId, unhealthy, f.ruleId)];
      stored := true;
    }

    /** One poll, with no other queue operation on the claimed job in between: the claimed job ends
        completed with its counts, or failed into a retry or the dead letters, with whatever part of
        its analysis was stored. The resources of the job and the run's fate are inputs. */
    method ProcessNext(resourcesOf: JobQueue.JobId -> seq<Resource>, outcome: Outcome, now: int, later: int, u: Draw)
      returns (claimed: Option<JobQueue.JobId>)
      modifies queue`jobs, this`store, this`healthChecks
      ensures claimed == None ==>
        && queue.jobs == old(queue.jobs) && store == old(store) && healthChecks == old(healthChecks)
        && forall id :: id in queue.jobs ==> !JobQueue.Claimable(queue.jobs[id], now)
      ensures claimed.Some? ==>
        && claimed.value in old(queue.jobs)
        && JobQueue.Claimable(old(queue.jobs)[claimed.value], now)
        && var id := claimed.value;
          var job := JobQueue.Claimed(old(queue.jobs)[id], workerId, now, queue.config.leaseMs);
          var ref := JobRef(job.workspaceId, id, job.correlationId);
          var fs := AnalysisOf(resourcesOf(id));
          && (outcome.Analysed? ==>
                && store == PersistAll(old(store), ref, fs)
                && healthChecks == old(healthChecks) + Checks(ref, fs)
                && queue.jobs == old(queue.jobs)[id :=
                     JobQueue.Done(job, JobQueue.Summary(|resourcesOf(id)|, |fs|, |fs|), later)])
          && (outcome.Broke? ==>
                && store == PersistPart(old(store), ref, fs, Upserts(outcome.writes, |fs|))
                && healthChecks == old(healthChecks) + Checks(ref, fs[..Whole(outcome.writes, |fs|)])
                && queue.jobs.Keys == old(queue.jobs).Keys
                && (forall other :: other in queue.jobs && other != id ==> queue.jobs[other] == old(queue.jobs)[other])
                && queue.jobs[id].lastError
                   == Some(JobQueue.Failure(if outcome.timedOut then "TIMEOUT" else "PROCESSING_ERROR",
                                            outcome.message, outcome.retryable, later))
                && queue.jobs[id].status == (if outcome.retryable && job.attempts < job.maxAttempts
                                             then JobQueue.RetryWait else JobQueue.DeadLettered)
                && (queue.jobs[id].status == JobQueue.RetryWait ==>
                      later + Exp(job.attempts, queue.config.backoffBaseMs, queue.config.backoffMaxMs)
                      <= queue.jobs[id].nextRunAt))
    {
      claimed := queue.Claim(workerId, now);
      if claimed == None {
        return;
      }
      var id := claimed.value;
      var job := queue.jobs[id];
      var ref := JobRef(job.workspaceId, id, job.correlationId);
      var findings := Analyze(resourcesOf(id));
      match outcome {
        case Analysed =>
          var summary := StoreAnalysis(ref, resourcesOf(id), findings, 3 * |findings|);
          PersistPartWhole(old(store), ref, findings);
          assert findings[..|findings|] == findings;
          var matched := queue.Complete(id, summary.value, later);
        case Broke(writes, retryable, timedOut, message) =>
          var summary := StoreAnalysis(ref, resourcesOf(id), findings, writes);
          var code := if timedOut then "TIMEOUT" else "PROCESSING_ERROR";
          var updated := queue.Fail(id, JobQueue.Failure(code, message, retryable, later), later, u);
          DelayBounds(job.attempts, queue.config.backoffBaseMs, queue.config.backoffMaxMs, u);
      }
    }
  }
}
