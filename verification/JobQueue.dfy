/** The job documents, the atomic update each queue operation makes to one of them, and the queue
    itself over a collection of documents. Times are milliseconds. */
module JobQueue {
  import opened Wrappers
  import opened Backoff

  type JobId = nat
  type WorkerId = string

  datatype Status = Pending | Running | RetryWait | Completed | Failed | DeadLettered | Cancelled

  datatype Failure = Failure(code: string, message: string, retryable: bool, at: int)

  datatype Summary = Summary(resourcesScanned: nat, findingsCreated: nat, recommendationsCreated: nat)

  datatype Job = Job(
    workspaceId: string,
    idempotencyKey: string,
    correlationId: string,
    createdBy: string,
    resourceIds: Option<seq<string>>,
    resourceTypes: Option<seq<string>>,
    timeoutMs: int,
    status: Status,
    leaseUntil: Option<int>,
    heartbeatAt: Option<int>,
    claimedBy: Option<WorkerId>,
    attempts: int,
    maxAttempts: int,
    nextRunAt: int,
    lastError: Option<Failure>,
    resultSummary: Option<Summary>,
    completedAt: Option<int>,
    version: int)

  datatype Config = Config(leaseMs: nat, backoffBaseMs: nat, backoffMaxMs: nat)

  // One document at a time. A filter comparing a null date matches nothing.

  predicate Waiting(j: Job) {
    j.status == Pending || j.status == RetryWait
  }

  predicate Claimable(j: Job, now: int) {
    && Waiting(j)
    && j.nextRunAt <= now
    && (j.leaseUntil == None || j.leaseUntil.value <= now)
  }

  function Claimed(j: Job, worker: WorkerId, now: int, leaseMs: nat): Job {
    j.(status := Running, claimedBy := Some(worker), leaseUntil := Some(now + leaseMs),
       heartbeatAt := Some(now), attempts := j.attempts + 1, version := j.version + 1)
  }

  predicate HeldBy(j: Job, worker: WorkerId) {
    j.claimedBy == Some(worker) && j.status == Running
  }

  function Renewed(j: Job, now: int, leaseMs: nat): Job {
    j.(heartbeatAt := Some(now), leaseUntil := Some(now + leaseMs))
  }

  function Done(j: Job, summary: Summary, now: int): Job {
    j.(status := Completed, resultSummary := Some(summary), completedAt := Some(now),
       leaseUntil := None, lastError := None)
  }

  /** `fail` writes after a separate read: `seen` is the attempt count that read returned. The
      ceiling never changes, so the one in the document is the one that was read. */
  predicate Requeues(j: Job, seen: int, error: Failure) {
    seen < j.maxAttempts && error.retryable
  }

  function FailWritten(j: Job, seen: int, error: Failure, now: int, config: Config, u: Draw): Job {
    if Requeues(j, seen, error) then
      j.(status := RetryWait, lastError := Some(error), leaseUntil := None,
         nextRunAt := now + Delay(seen, config.backoffBaseMs, config.backoffMaxMs, u))
    else
      j.(status := DeadLettered, lastError := Some(error), leaseUntil := None, completedAt := Some(now))
  }

  predicate Abandoned(j: Job, now: int) {
    j.status == Running && j.leaseUntil.Some? && j.leaseUntil.value <= now
  }

  function Recovered(j: Job, now: int): Job {
    j.(status := RetryWait, nextRunAt := now, leaseUntil := None, claimedBy := None)
  }

  /** Manual retry, in the API's job service. */
  predicate Retriable(j: Job) {
    j.status == Failed || j.status == DeadLettered
  }

  function Retried(j: Job, now: int): Job {
    j.(status := Pending, nextRunAt := now, attempts := 0, leaseUntil := None, claimedBy := None,
       lastError := None, completedAt := None)
  }

  function NewJob(workspaceId: string, actorId: string, correlationId: string,
                  resourceIds: Option<seq<string>>, resourceTypes: Option<seq<string>>,
                  idempotencyKey: string, maxAttempts: int, timeoutMs: int, now: int): Job {
    Job(workspaceId, idempotencyKey, correlationId, actorId, resourceIds, resourceTypes, timeoutMs,
        Pending, None, None, None, 0, maxAttempts, now, None, None, None, 1)
  }

  // The queue over the collection.

  function RecoverAll(jobs: map<JobId, Job>, now: int): map<JobId, Job> {
    map id | id in jobs :: if Abandoned(jobs[id], now) then Recovered(jobs[id], now) else jobs[id]
  }

  class JobQueue {
    const config: Config
    var jobs: map<JobId, Job>

    constructor (config: Config)
      ensures this.config == config && jobs == map[]
    {
      this.config := config;
      jobs := map[];
    }

    /** Takes some claimable document, if there is one; which one is the database's choice. */
    method Claim(worker: WorkerId, now: int) returns (claimed: Option<JobId>)
      modifies this`jobs
      ensures claimed == None ==> jobs == old(jobs) && forall id :: id in jobs ==> !Claimable(jobs[id], now)
      ensures claimed.Some? ==>
                && claimed.value in old(jobs)
                && Claimable(old(jobs)[claimed.value], now)
                && jobs == old(jobs)[claimed.value := Claimed(old(jobs)[claimed.value], worker, now, config.leaseMs)]
      ensures claimed == None ==> forall id :: id in jobs && jobs[id].status in {Pending, RetryWait} ==>
                now < jobs[id].nextRunAt || (jobs[id].leaseUntil.Some? && now < jobs[id].leaseUntil.value)
      ensures claimed.Some? ==>
                && claimed.value in old(jobs) && claimed.value in jobs
                && var before, after := old(jobs)[claimed.value], jobs[claimed.value];
                  && before.status in {Pending, RetryWait} && before.nextRunAt <= now
                  && (before.leaseUntil.Some? ==> before.leaseUntil.value <= now)
                  && after == before.(status := Running, claimedBy := Some(worker),
                                      leaseUntil := Some(now + config.leaseMs), heartbeatAt := Some(now),
                                      attempts := before.attempts + 1, version := before.version + 1)
    {
      if id :| id in jobs && Claimable(jobs[id], now) {
        jobs := jobs[id := Claimed(jobs[id], worker, now, config.leaseMs)];
        return Some(id);
      }
      return None;
    }

    method Heartbeat(id: JobId, worker: WorkerId, now: int) returns (matched: bool)
      modifies this`jobs
      ensures matched <==> id in old(jobs) && HeldBy(old(jobs)[id], worker)
      ensures jobs == if matched then old(jobs)[id := Renewed(old(jobs)[id], now, config.leaseMs)] else old(jobs)
      ensures matched <==> && id in old(jobs) && old(jobs)[id].status == Running
                           && old(jobs)[id].claimedBy == Some(worker)
      ensures matched ==> jobs == old(jobs)[id := old(jobs)[id].(leaseUntil := Some(now + config.leaseMs),
                                                                 heartbeatAt := Some(now))]
    {
      matched := id in jobs && HeldBy(jobs[id], worker);
      if matched {
        jobs := jobs[id := jobs[id].(heartbeatAt := Some(now), leaseUntil := Some(now + config.leaseMs))];
      }
    }

    method Complete(id: JobId, summary: Summary, now: int) returns (matched: bool)
      modifies this`jobs
      ensures matched <==> id in old(jobs)
      ensures jobs == if matched then old(jobs)[id := Done(old(jobs)[id], summary, now)] else old(jobs)
      ensures matched ==> jobs == old(jobs)[id := old(jobs)[id].(status := Completed, completedAt := Some(now),
                                                                 resultSummary := Some(summary), lastError := None,
                                                                 leaseUntil := None)]
    {
      matched := id in jobs;
      if matched {
        jobs := jobs[id := jobs[id].(status := Completed, resultSummary := Some(summary), completedAt := Some(now),
                                     leaseUntil := None, lastError := None)];
      }
    }

    /** `fail`, when no other operation falls between its read and its write. */
    method Fail(id: JobId, error: Failure, now: int, u: Draw) returns (updated: Option<Job>)
      modifies this`jobs
      ensures id !in old(jobs) ==> updated == None && jobs == old(jobs)
      ensures id in old(jobs) ==>
                && updated == Some(FailWritten(old(jobs)[id], old(jobs)[id].attempts, error, now, config, u))
                && jobs == old(jobs)[id := updated.value]
    {
      var seen := FailRead(id);
      if seen == None {
        return None;
      }
      updated := FailWrite(id, seen.value, error, now, u);
    }

    method FailRead(id: JobId) returns (seen: Option<Job>)
      ensures seen == if id in jobs then Some(jobs[id]) else None
    {
      seen := if id in jobs then Some(jobs[id]) else None;
    }

    /** The write of `fail`, deciding by the document `seen` earlier; other operations may have
        changed the stored one since, though never its ceiling. */
    method FailWrite(id: JobId, seen: Job, error: Failure, now: int, u: Draw) returns (updated: Option<Job>)
      requires id in jobs ==> jobs[id].maxAttempts == seen.maxAttempts
      modifies this`jobs
      ensures id !in old(jobs) ==> updated == None && jobs == old(jobs)
      ensures id in old(jobs) ==>
                && updated == Some(FailWritten(old(jobs)[id], seen.attempts, error, now, config, u))
                && jobs == old(jobs)[id := updated.value]
      ensures id in old(jobs) ==>
                && var before, after := old(jobs)[id], updated.value;
                  if seen.attempts < seen.maxAttempts && error.retryable
                  then && after == before.(status := RetryWait, lastError := Some(error), leaseUntil := None,
                                           nextRunAt := after.nextRunAt)
                       && after.nextRunAt == now + Delay(seen.attempts, config.backoffBaseMs, config.backoffMaxMs, u)
                  else after == before.(status := DeadLettered, lastError := Some(error), leaseUntil := None,
                                        completedAt := Some(now))
    {
      if id !in jobs {
        return None;
      }
      var j := jobs[id];
      if seen.attempts >= seen.maxAttempts || !error.retryable {
        j := j.(status := DeadLettered, lastError := Some(error), leaseUntil := None, completedAt := Some(now));
      } else {
        var delay := Delay(seen.attempts, config.backoffBaseMs, config.backoffMaxMs, u);
        j := j.(status := RetryWait, lastError := Some(error), leaseUntil := None, nextRunAt := now + delay);
      }
      jobs := jobs[id := j];
      updated := Some(j);
    }

    method RecoverAbandoned(now: int) returns (modified: nat)
      modifies this`jobs
      ensures jobs == RecoverAll(old(jobs), now)
      ensures modified == |set id | id in old(jobs) && Abandoned(old(jobs)[id], now)|
      ensures jobs.Keys == old(jobs).Keys
      ensures forall id :: id in jobs ==>
        var before := old(jobs)[id];
        jobs[id] == if before.status == Running && before.leaseUntil.Some? && before.leaseUntil.value <= now
                    then before.(status := RetryWait, nextRunAt := now, leaseUntil := None, claimedBy := None)
                    else before
    {
      modified := |set id | id in jobs && Abandoned(jobs[id], now)|;
      jobs := map id | id in jobs :: if Abandoned(jobs[id], now) then Recovered(jobs[id], now) else jobs[id];
    }

    method PendingDepth() returns (depth: nat)
      ensures depth == |set id | id in jobs && Waiting(jobs[id])|
    {
      depth := |set id | id in jobs && Waiting(jobs[id])|;
    }
  }
}
