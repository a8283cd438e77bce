/** The protocol's events are calls of the classes: what an event makes of the collection is what the
    queue's, or the job service's, method makes of it. */
module QueueRefinement {
  import opened Wrappers
  import JobQueue
  import JobService
  import LeaseProtocol

  /** Performs a claim's event, or a claim, by calling the queue. Which due job a claim takes is the
      database's choice, so another event may have been performed than was asked for. */
  method Perform(queue: JobQueue.JobQueue, s: LeaseProtocol.System, e: LeaseProtocol.Event)
    returns (performed: LeaseProtocol.Event)
    requires queue.jobs == s.jobs && LeaseProtocol.Enabled(s, e)
    requires !e.Create? && !e.Recovers? && !e.Retries?
    modifies queue`jobs
    ensures LeaseProtocol.Enabled(s, performed)
    ensures performed == e
            || (e.Claims? && performed.Claims? && performed.worker == e.worker && performed.clock == e.clock)
    ensures queue.jobs == LeaseProtocol.Step(queue.config, s, performed).jobs
    ensures e.FailReads? ==>
      var c := LeaseProtocol.Step(queue.config, s, e).claims[e.c];
      c.phase == LeaseProtocol.ReadForFail(queue.jobs[c.jobId].attempts)
  {
    performed := e;
    match e {
      case Claims(_, worker, clock) =>
        var claimed := queue.Claim(worker, clock);
        performed := LeaseProtocol.Claims(claimed.value, worker, clock);
      case Heartbeats(c, clock) =>
        var matched := queue.Heartbeat(s.claims[c].jobId, s.claims[c].worker, clock);
      case Completes(c, summary, clock) =>
        var matched := queue.Complete(s.claims[c].jobId, summary, clock);
      case LosesComplete(c, summary, clock) =>
        var matched := queue.Complete(s.claims[c].jobId, summary, clock);
      case FailReads(c) =>
        var seen := queue.FailRead(s.claims[c].jobId);
      case FailWrites(c, error, clock, u) =>
        var id := s.claims[c].jobId;
        var seen := s.jobs[id].(attempts := s.claims[c].phase.seen);
        var updated := queue.FailWrite(id, seen, error, clock, u);
      case _ =>
    }
  }

  /** `es` leads from `ss[0]` through the states of `ss`. */
  ghost predicate LeadsThrough(config: JobQueue.Config, es: seq<LeaseProtocol.Event>, ss: seq<LeaseProtocol.System>) {
    && |ss| == |es| + 1
    && forall k :: 0 <= k < |es| ==>
        LeaseProtocol.Enabled(ss[k], es[k]) && ss[k + 1] == LeaseProtocol.Step(config, ss[k], es[k])
  }

  lemma RecoveryStep(config: JobQueue.Config, s: LeaseProtocol.System, clock: int, id: JobQueue.JobId)
    requires id in s.jobs && JobQueue.Abandoned(s.jobs[id], clock)
    ensures LeaseProtocol.Enabled(s, LeaseProtocol.Recovers(id, clock))
    ensures LeaseProtocol.Step(config, s, LeaseProtocol.Recovers(id, clock)).jobs
         == s.jobs[id := JobQueue.Recovered(s.jobs[id], clock)]
  {
  }

  lemma {:induction false} RecoverySteps(config: JobQueue.Config, s: LeaseProtocol.System, clock: int,
                                         left: set<JobQueue.JobId>)
    returns (es: seq<LeaseProtocol.Event>, ss: seq<LeaseProtocol.System>)
    requires forall id :: id in left ==> id in s.jobs && JobQueue.Abandoned(s.jobs[id], clock)
    ensures LeadsThrough(config, es, ss) && ss[0] == s
    ensures |es| == |left| && forall k :: 0 <= k < |es| ==> es[k].Recovers? && es[k].clock == clock
    ensures ss[|es|].jobs
         == map id | id in s.jobs :: if id in left then JobQueue.Recovered(s.jobs[id], clock) else s.jobs[id]
    decreases |left|
  {
    if left == {} {
      es, ss := [], [s];
    } else {
      var id :| id in left;
      var recover := LeaseProtocol.Recovers(id, clock);
      RecoveryStep(config, s, clock, id);
      var s1 := LeaseProtocol.Step(config, s, recover);
      var more, states := RecoverySteps(config, s1, clock, left - {id});
      es, ss := [recover] + more, [s] + states;
    }
  }

  /** Recovering the whole collection is one recovery event for each job it counts. */
  method Recover(queue: JobQueue.JobQueue, s: LeaseProtocol.System, clock: int)
    returns (modified: nat, ghost es: seq<LeaseProtocol.Event>, ghost ss: seq<LeaseProtocol.System>)
    requires queue.jobs == s.jobs
    modifies queue`jobs
    ensures LeadsThrough(queue.config, es, ss) && ss[0] == s && ss[|es|].jobs == queue.jobs
    ensures |es| == modified && forall k :: 0 <= k < |es| ==> es[k].Recovers? && es[k].clock == clock
  {
    modified := queue.RecoverAbandoned(clock);
    ghost var left := set id | id in s.jobs && JobQueue.Abandoned(s.jobs[id], clock);
    assert left == set id | id in old(queue.jobs) && JobQueue.Abandoned(old(queue.jobs)[id], clock);
    es, ss := RecoverySteps(queue.config, s, clock, left);
  }

  /** A creation that is not a replay, and a retry that is not refused, are the job service's. */
  method Serve(service: JobService.JobService, config: JobQueue.Config, s: LeaseProtocol.System,
               input: JobService.Input, id: JobQueue.JobId, now: int) returns (e: Option<LeaseProtocol.Event>)
    requires service.jobs == s.jobs && JobService.UniqueKeys(s.jobs) && id !in s.jobs
    modifies service`jobs
    ensures e == None ==> service.jobs == s.jobs
    ensures e.Some? ==> && e.value.Create? && e.value.id == id && LeaseProtocol.Enabled(s, e.value)
                        && service.jobs == LeaseProtocol.Step(config, s, e.value).jobs
  {
    var job, replayed := service.Create(input, id, now);
    e := if replayed then None else Some(LeaseProtocol.Create(id, service.jobs[id]));
  }

  method Retry(service: JobService.JobService, config: JobQueue.Config, s: LeaseProtocol.System,
               workspaceId: string, id: JobQueue.JobId, now: int) returns (e: Option<LeaseProtocol.Event>)
    requires service.jobs == s.jobs
    modifies service`jobs
    ensures e == None ==> service.jobs == s.jobs
    ensures e.Some? ==> && e.value == LeaseProtocol.Retries(id, now) && LeaseProtocol.Enabled(s, e.value)
                        && service.jobs == LeaseProtocol.Step(config, s, e.value).jobs
  {
    var reply := service.Retry(workspaceId, id, now);
    e := if reply.Ok? then Some(LeaseProtocol.Retries(id, now)) else None;
  }
}
