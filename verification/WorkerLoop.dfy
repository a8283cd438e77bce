/** The worker's polling loop: recover, then claim into the free slots; drain on shutdown. */
module WorkerLoop {
  import opened JobQueue

  /** The jobs after a poll at `now` that claimed `claimed`. */
  function Polled(jobs: map<JobId, Job>, claimed: set<JobId>, worker: WorkerId, now: int,
                  leaseMs: nat): map<JobId, Job>
  {
    map id | id in jobs ::
      var j := if Abandoned(jobs[id], now) then Recovered(jobs[id], now) else jobs[id];
      if id in claimed then Claimed(j, worker, now, leaseMs) else j
  }

  /** A job that a poll at `now` may take: due, or abandoned and so recovered by the same poll. */
  predicate Takeable(j: Job, now: int) {
    Claimable(j, now) || Abandoned(j, now)
  }

  lemma PolledStep(jobs: map<JobId, Job>, claimed: set<JobId>, id: JobId, worker: WorkerId, now: int, leaseMs: nat)
    requires id in jobs && Claimable(Polled(jobs, claimed, worker, now, leaseMs)[id], now)
    ensures id !in claimed && Takeable(jobs[id], now)
    ensures var polled := Polled(jobs, claimed, worker, now, leaseMs);
      Polled(jobs, claimed + {id}, worker, now, leaseMs) == polled[id := Claimed(polled[id], worker, now, leaseMs)]
  {
  }

  lemma PollLeavesNothingAbandoned(jobs: map<JobId, Job>, claimed: set<JobId>, worker: WorkerId, now: int, leaseMs: nat)
    requires leaseMs > 0
    ensures forall id :: id in jobs ==> !Abandoned(Polled(jobs, claimed, worker, now, leaseMs)[id], now)
  {
  }

  class Worker {
    const queue: JobQueue
    const workerId: WorkerId
    const concurrency: int
    var running: bool
    var inflight: nat

    constructor (queue: JobQueue, workerId: WorkerId, concurrency: int)
      ensures this.queue == queue && this.workerId == workerId && this.concurrency == concurrency
      ensures running && inflight == 0
    {
      this.queue, this.workerId, this.concurrency := queue, workerId, concurrency;
      running, inflight := true, 0;
    }

    /** One turn of the loop. Every free slot gets a spawned claim; one that finds no job gives its
        slot back. Either the slots run out, or no due and no abandoned job is left behind. */
    method Poll(now: int) returns (claimed: set<JobId>)
      modifies this`inflight, queue`jobs
      ensures !running ==> claimed == {} && queue.jobs == old(queue.jobs)
      ensures inflight == old(inflight) + |claimed|
      ensures claimed != {} ==> inflight <= concurrency
      ensures running ==> queue.jobs == Polled(old(queue.jobs), claimed, workerId, now, queue.config.leaseMs)
      ensures forall id :: id in claimed ==> id in old(queue.jobs) && Takeable(old(queue.jobs)[id], now)
      ensures running && inflight < concurrency && queue.config.leaseMs > 0 ==>
        forall id :: id in queue.jobs ==> !Takeable(queue.jobs[id], now)
    {
      claimed := {};
      if !running {
        return;
      }
      var recovered := queue.RecoverAbandoned(now);
      var slots := concurrency - inflight;
      var spawned := 0;
      while running && spawned < slots
        invariant inflight == old(inflight)
        invariant claimed == {} || |claimed| <= spawned <= slots
        invariant queue.jobs == Polled(old(queue.jobs), claimed, workerId, now, queue.config.leaseMs)
        invariant forall id :: id in claimed ==> id in old(queue.jobs) && Takeable(old(queue.jobs)[id], now)
        invariant |claimed| < spawned ==> forall id :: id in queue.jobs ==> !Claimable(queue.jobs[id], now)
        decreases slots - spawned
      {
        var job := queue.Claim(workerId, now);
        if job.Some? {
          PolledStep(old(queue.jobs), claimed, job.value, workerId, now, queue.config.leaseMs);
          claimed := claimed + {job.value};
        }
        spawned := spawned + 1;
      }
      inflight := inflight + |claimed|;
      if queue.config.leaseMs > 0 {
        PollLeavesNothingAbandoned(old(queue.jobs), claimed, workerId, now, queue.config.leaseMs);
      }
    }

    /** A claimed job's processing has ended, one way or the other. */
    method Settle()
      requires inflight > 0
      modifies this`inflight
      ensures inflight == old(inflight) - 1
    {
      inflight := inflight - 1;
    }

    /** After this no poll claims anything, so inflight work only drains. */
    method Shutdown()
      modifies this`running
      ensures !running
    {
      running := false;
    }
  }
}
