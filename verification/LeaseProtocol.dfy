/** The job queue as a distributed protocol: any number of workers, each with its own clock, and
    any interleaving of the queue's atomic updates.

    A claim is identified by its place in `claims`, not by the worker that made it: several
    processors share one worker id. `fail` is two events, its read and its write. The ledger is
    bookkeeping for stating theorems; no event reads it. */
module LeaseProtocol {
  import opened Wrappers
  import opened Backoff
  import opened JobQueue

  /** A claim is working until it completes, or reads before failing, or its process dies. When the
      write of `complete` is applied but reports an error, the claim goes on to fail. */
  datatype Phase = Working | LostComplete | ReadForFail(seen: int) | Ended | Crashed

  /** `index` is the attempt the claim made the job's attempt count; `epoch` counts the manual
      retries before it; `renewedAt` is the true time of the last lease write it made. */
  datatype Claim = Claim(jobId: JobId, worker: WorkerId, epoch: nat, index: int, renewedAt: int, phase: Phase)

  /** Per job, all but the first two counted since the last manual retry: which claim indices
      have written an outcome, which of those put the job back in the queue, and how often a
      recovery, or a failing claim made before that retry, put it back. */
  datatype Ledger = Ledger(epoch: nat, claims: nat, finished: set<int>, requeued: set<int>,
                           recoveries: nat, staleRequeues: nat)

  datatype System = System(now: int, jobs: map<JobId, Job>, ledger: map<JobId, Ledger>, claims: seq<Claim>)

  /** `clock` is what the acting process's clock read. */
  datatype Event =
    | Tick(to: int)
    | Create(id: JobId, job: Job)
    | Claims(id: JobId, worker: WorkerId, clock: int)
    | Heartbeats(c: nat, clock: int)
    | Completes(c: nat, summary: Summary, clock: int)
    | LosesComplete(c: nat, summary: Summary, clock: int)
    | FailReads(c: nat)
    | FailWrites(c: nat, error: Failure, clock: int, u: Draw)
    | Recovers(id: JobId, clock: int)
    | Retries(id: JobId, clock: int)
    | Crashes(c: nat)

  const EMPTY := System(0, map[], map[], [])

  predicate Live(c: Claim) {
    AtWork(c) || c.phase.ReadForFail?
  }

  /** A claim that has not begun to fail. */
  predicate AtWork(c: Claim) {
    c.phase == Working || c.phase == LostComplete
  }

  predicate Fresh(j: Job) {
    j == NewJob(j.workspaceId, j.createdBy, j.correlationId, j.resourceIds, j.resourceTypes,
                j.idempotencyKey, j.maxAttempts, j.timeoutMs, j.nextRunAt)
  }

  predicate Enabled(s: System, e: Event) {
    match e
    case Tick(to) => s.now <= to
    case Create(id, job) => id !in s.jobs && Fresh(job)
    case Claims(id, _, clock) => id in s.jobs && Claimable(s.jobs[id], clock)
    case Heartbeats(c, _) => c < |s.claims| && s.claims[c].phase != Crashed && s.claims[c].jobId in s.jobs
    case Completes(c, _, _) => c < |s.claims| && s.claims[c].phase == Working && s.claims[c].jobId in s.jobs
    case LosesComplete(c, _, _) => c < |s.claims| && s.claims[c].phase == Working && s.claims[c].jobId in s.jobs
    case FailReads(c) => c < |s.claims| && AtWork(s.claims[c]) && s.claims[c].jobId in s.jobs
    case FailWrites(c, _, _, _) => c < |s.claims| && s.claims[c].phase.ReadForFail? && s.claims[c].jobId in s.jobs
    case Recovers(id, clock) => id in s.jobs && Abandoned(s.jobs[id], clock)
    case Retries(id, _) => id in s.jobs && Retriable(s.jobs[id])
    case Crashes(c) => c < |s.claims| && Live(s.claims[c])
  }

  function WithJob(s: System, id: JobId, j: Job, l: Ledger): System {
    s.(jobs := s.jobs[id := j], ledger := s.ledger[id := l])
  }

  function WithPhase(s: System, c: nat, phase: Phase): System
    requires c < |s.claims|
  {
    s.(claims := s.claims[c := s.claims[c].(phase := phase)])
  }

  function LedgerOf(s: System, id: JobId): Ledger {
    if id in s.ledger then s.ledger[id] else Ledger(0, 0, {}, {}, 0, 0)
  }

  /** A claim of this epoch writes its outcome; `requeues` when that puts the job back. */
  function Settled(l: Ledger, c: Claim, requeues: bool): Ledger {
    if c.epoch == l.epoch then
      l.(finished := l.finished + {c.index},
         requeued := if requeues then l.requeued + {c.index} else l.requeued)
    else if requeues then l.(staleRequeues := l.staleRequeues + 1)
    else l
  }

  function Step(config: Config, s: System, e: Event): System
    requires Enabled(s, e)
  {
    match e
    case Tick(to) =>
      s.(now := to)
    case Create(id, job) =>
      WithJob(s, id, job, Ledger(0, 0, {}, {}, 0, 0))
    case Claims(id, worker, clock) =>
      var j, l := s.jobs[id], LedgerOf(s, id);
      WithJob(s, id, Claimed(j, worker, clock, config.leaseMs), l.(claims := l.claims + 1))
      .(claims := s.claims + [Claim(id, worker, l.epoch, j.attempts + 1, s.now, Working)])
    case Heartbeats(c, clock) =>
      var claim := s.claims[c];
      var j := s.jobs[claim.jobId];
      if HeldBy(j, claim.worker) then
        s.(jobs := s.jobs[claim.jobId := Renewed(j, clock, config.leaseMs)],
           claims := s.claims[c := claim.(renewedAt := s.now)])
      else s
    case Completes(c, summary, clock) =>
      var claim := s.claims[c];
      WithPhase(WithJob(s, claim.jobId, Done(s.jobs[claim.jobId], summary, clock),
                        Settled(LedgerOf(s, claim.jobId), claim, false)), c, Ended)
    case LosesComplete(c, summary, clock) =>
      var claim := s.claims[c];
      WithPhase(WithJob(s, claim.jobId, Done(s.jobs[claim.jobId], summary, clock), LedgerOf(s, claim.jobId)),
                c, LostComplete)
    case FailReads(c) =>
      WithPhase(s, c, ReadForFail(s.jobs[s.claims[c].jobId].attempts))
    case FailWrites(c, error, clock, u) =>
      var claim := s.claims[c];
      var j := s.jobs[claim.jobId];
      WithPhase(WithJob(s, claim.jobId, FailWritten(j, claim.phase.seen, error, clock, config, u),
                        Settled(LedgerOf(s, claim.jobId), claim, Requeues(j, claim.phase.seen, error))), c, Ended)
    case Recovers(id, clock) =>
      var l := LedgerOf(s, id);
      WithJob(s, id, Recovered(s.jobs[id], clock), l.(recoveries := l.recoveries + 1))
    case Retries(id, clock) =>
      var l := LedgerOf(s, id);
      WithJob(s, id, Retried(s.jobs[id], clock), Ledger(l.epoch + 1, l.claims, {}, {}, 0, 0))
    case Crashes(c) =>
      WithPhase(s, c, Crashed)
  }

  // Runs.

  /** The state a sequence of events leads to, if each is enabled when it comes. */
  function Run(config: Config, es: seq<Event>): Option<System> {
    if es == [] then Some(EMPTY)
    else
      var before := Run(config, Front(es));
      if before.Some? && Enabled(before.value, Last(es)) then Some(Step(config, before.value, Last(es))) else None
  }

  predicate Feasible(config: Config, es: seq<Event>) {
    Run(config, es).Some?
  }

  function After(config: Config, es: seq<Event>): System
    requires Feasible(config, es)
  {
    Run(config, es).value
  }

  function Front(es: seq<Event>): seq<Event>
    requires es != []
  {
    es[..|es| - 1]
  }

  function Last(es: seq<Event>): Event
    requires es != []
  {
    es[|es| - 1]
  }

  lemma {:induction false} PrefixFeasible(config: Config, es: seq<Event>, k: nat)
    requires Feasible(config, es) && k <= |es|
    ensures Feasible(config, es[..k])
    decreases |es| - k
  {
    if k < |es| {
      PrefixFeasible(config, es, k + 1);
      assert Front(es[..k + 1]) == es[..k];
    } else {
      assert es[..k] == es;
    }
  }

  /** An invariant of every reachable state, whatever the clocks and however stale the writers. */
  ghost predicate Consistent(s: System) {
    && JobsConsistent(s)
    && (forall c :: 0 <= c < |s.claims| ==> ClaimConsistent(s, s.claims[c]))
    && (forall c, d :: 0 <= c < d < |s.claims| ==> Apart(s.claims[c], s.claims[d]))
  }

  ghost predicate JobsConsistent(s: System) {
    s.jobs.Keys == s.ledger.Keys && forall id :: id in s.jobs ==> JobConsistent(s.jobs[id], s.ledger[id])
  }

  ghost predicate Apart(c: Claim, d: Claim) {
    c.jobId == d.jobId && c.epoch == d.epoch ==> c.index != d.index
  }

  /** A lease exactly while running, a holder while running, and a version counting claims. */
  predicate WellShaped(j: Job) {
    && (j.leaseUntil.Some? <==> j.status == Running)
    && (j.status == Running ==> j.claimedBy.Some?)
    && j.status != Failed && j.status != Cancelled
  }

  ghost predicate JobConsistent(j: Job, l: Ledger) {
    && WellShaped(j)
    && j.version == 1 + l.claims
    && 0 <= j.attempts
    && l.requeued <= l.finished
    && (forall i :: i in l.finished ==> 1 <= i <= j.attempts)
    && (forall i :: i in l.requeued ==> i < j.maxAttempts)
    && j.attempts + (if Waiting(j) then 1 else 0) <= 1 + l.recoveries + |l.requeued| + l.staleRequeues
  }

  ghost predicate ClaimConsistent(s: System, c: Claim) {
    && c.jobId in s.jobs && c.jobId in s.ledger
    && c.renewedAt <= s.now
    && Fits(c, s.jobs[c.jobId].attempts, s.ledger[c.jobId])
  }

  predicate Fits(c: Claim, attempts: int, l: Ledger) {
    && c.epoch <= l.epoch
    && (c.epoch == l.epoch ==>
        && 1 <= c.index <= attempts
        && (Live(c) ==> c.index !in l.finished)
        && (c.phase.ReadForFail? ==> c.index <= c.phase.seen))
  }

  lemma OutcomeKeepsJob(j: Job, l: Ledger, c: Claim, j': Job, requeues: bool)
    requires JobConsistent(j, l)
    requires c.epoch == l.epoch ==> 1 <= c.index <= j.attempts && c.index !in l.finished
    requires c.epoch == l.epoch && requeues ==> c.index < j.maxAttempts
    requires j' == j.(status := j'.status, leaseUntil := None, nextRunAt := j'.nextRunAt, lastError := j'.lastError,
                      resultSummary := j'.resultSummary, completedAt := j'.completedAt)
    requires if requeues then j'.status == RetryWait else j'.status == Completed || j'.status == DeadLettered
    ensures JobConsistent(j', Settled(l, c, requeues))
  {
    if c.epoch == l.epoch {
      assert c.index !in l.requeued;
      assert |l.requeued + {c.index}| == |l.requeued| + 1;
    }
  }

  lemma ClaimKeepsJob(j: Job, l: Ledger, worker: WorkerId, clock: int, leaseMs: nat)
    requires JobConsistent(j, l) && Waiting(j)
    ensures JobConsistent(Claimed(j, worker, clock, leaseMs), l.(claims := l.claims + 1))
  {
  }

  lemma RecoveryKeepsJob(j: Job, l: Ledger, clock: int)
    requires JobConsistent(j, l) && j.status == Running
    ensures JobConsistent(Recovered(j, clock), l.(recoveries := l.recoveries + 1))
  {
  }

  lemma RetryKeepsJob(j: Job, l: Ledger, clock: int)
    requires JobConsistent(j, l)
    ensures JobConsistent(Retried(j, clock), Ledger(l.epoch + 1, l.claims, {}, {}, 0, 0))
  {
  }

  lemma CreateStepKeepsJob(config: Config, s: System, e: Event, id: JobId)
    requires JobsConsistent(s) && Enabled(s, e) && e.Create?
    requires id in Step(config, s, e).jobs
    ensures id in Step(config, s, e).ledger
    ensures JobConsistent(Step(config, s, e).jobs[id], Step(config, s, e).ledger[id])
  {
    if id != e.id {
      assert JobConsistent(s.jobs[id], s.ledger[id]);
    }
  }

  lemma ClaimStepKeepsJob(config: Config, s: System, e: Event, id: JobId)
    requires JobsConsistent(s) && Enabled(s, e) && (e.Claims? || e.Heartbeats?)
    requires id in Step(config, s, e).jobs
    ensures id in Step(config, s, e).ledger
    ensures JobConsistent(Step(config, s, e).jobs[id], Step(config, s, e).ledger[id])
  {
    var j, l := s.jobs[id], s.ledger[id];
    assert JobConsistent(j, l);
    if e.Claims? && id == e.id {
      ClaimKeepsJob(j, l, e.worker, e.clock, config.leaseMs);
    }
  }

  lemma RequeueStepKeepsJob(config: Config, s: System, e: Event, id: JobId)
    requires JobsConsistent(s) && Enabled(s, e) && (e.Recovers? || e.Retries?)
    requires id in Step(config, s, e).jobs
    ensures id in Step(config, s, e).ledger
    ensures JobConsistent(Step(config, s, e).jobs[id], Step(config, s, e).ledger[id])
  {
    var j, l := s.jobs[id], s.ledger[id];
    assert JobConsistent(j, l);
    if id == e.id {
      if e.Recovers? { RecoveryKeepsJob(j, l, e.clock); } else { RetryKeepsJob(j, l, e.clock); }
    }
  }

  lemma OutcomeStepKeepsJob(config: Config, s: System, e: Event, id: JobId)
    requires Consistent(s) && Enabled(s, e) && (e.Completes? || e.FailWrites?)
    requires id in Step(config, s, e).jobs
    ensures id in Step(config, s, e).ledger
    ensures JobConsistent(Step(config, s, e).jobs[id], Step(config, s, e).ledger[id])
  {
    var claim := s.claims[e.c];
    assert ClaimConsistent(s, claim);
    var j, l := s.jobs[claim.jobId], s.ledger[claim.jobId];
    assert JobConsistent(j, l) && JobConsistent(s.jobs[id], s.ledger[id]);
    match e {
      case Completes(_, summary, clock) =>
        OutcomeKeepsJob(j, l, claim, Done(j, summary, clock), false);
      case FailWrites(_, error, clock, u) =>
        OutcomeKeepsJob(j, l, claim, FailWritten(j, claim.phase.seen, error, clock, config, u),
                        Requeues(j, claim.phase.seen, error));
    }
  }

  lemma LostCompleteStepKeepsJob(config: Config, s: System, e: Event, id: JobId)
    requires Consistent(s) && Enabled(s, e) && e.LosesComplete?
    requires id in Step(config, s, e).jobs
    ensures id in Step(config, s, e).ledger
    ensures JobConsistent(Step(config, s, e).jobs[id], Step(config, s, e).ledger[id])
  {
    assert ClaimConsistent(s, s.claims[e.c]);
    assert JobConsistent(s.jobs[id], s.ledger[id]);
  }

  lemma StepKeepsJob(config: Config, s: System, e: Event, id: JobId)
    requires Consistent(s) && Enabled(s, e)
    requires id in Step(config, s, e).jobs
    ensures id in Step(config, s, e).ledger
    ensures JobConsistent(Step(config, s, e).jobs[id], Step(config, s, e).ledger[id])
  {
    if e.Completes? || e.FailWrites? {
      OutcomeStepKeepsJob(config, s, e, id);
    } else if e.LosesComplete? {
      LostCompleteStepKeepsJob(config, s, e, id);
    } else if e.Tick? || e.FailReads? || e.Crashes? {
      assert JobConsistent(s.jobs[id], s.ledger[id]);
    } else if e.Create? {
      CreateStepKeepsJob(config, s, e, id);
    } else if e.Claims? || e.Heartbeats? {
      ClaimStepKeepsJob(config, s, e, id);
    } else {
      RequeueStepKeepsJob(config, s, e, id);
    }
  }

  /** What an event leaves of an existing claim, its job's attempt count and its job's ledger. */
  lemma StepOnClaim(config: Config, s: System, e: Event, c: nat)
    requires Enabled(s, e) && c < |s.claims| && s.claims[c].jobId in s.jobs && s.jobs.Keys == s.ledger.Keys
    requires forall d :: 0 <= d < |s.claims| && d != c ==> Apart(s.claims[c], s.claims[d])
    ensures var s', claim := Step(config, s, e), s.claims[c];
      && c < |s'.claims| && claim.jobId in s'.jobs && claim.jobId in s'.ledger
      && s'.now >= s.now
      && var claim', l, l' := s'.claims[c], s.ledger[claim.jobId], s'.ledger[claim.jobId];
        && claim' == claim.(phase := claim'.phase, renewedAt := claim'.renewedAt)
        && (claim'.renewedAt == claim.renewedAt || claim'.renewedAt == s'.now)
        && (Live(claim') ==> Live(claim))
        && (claim'.phase.ReadForFail? ==>
              claim'.phase == claim.phase || claim'.phase.seen == s.jobs[claim.jobId].attempts)
        && l.epoch <= l'.epoch
        && (l.epoch == l'.epoch ==> s.jobs[claim.jobId].attempts <= s'.jobs[claim.jobId].attempts)
        && (Live(claim') && claim.epoch == l.epoch == l'.epoch && claim.index !in l.finished ==>
              claim.index !in l'.finished)
  {
    match e {
      case Completes(d, _, _) => assert d != c ==> Apart(s.claims[c], s.claims[d]);
      case FailWrites(d, _, _, _) => assert d != c ==> Apart(s.claims[c], s.claims[d]);
      case _ =>
    }
  }

  lemma StillFits(c: Claim, c': Claim, attempts: int, attempts': int, l: Ledger, l': Ledger)
    requires Fits(c, attempts, l)
    requires c' == c.(phase := c'.phase, renewedAt := c'.renewedAt)
    requires Live(c') ==> Live(c)
    requires c'.phase.ReadForFail? ==> c'.phase == c.phase || c'.phase.seen == attempts
    requires l.epoch <= l'.epoch
    requires l.epoch == l'.epoch ==> attempts <= attempts'
    requires Live(c') && c.epoch == l.epoch == l'.epoch && c.index !in l.finished ==> c.index !in l'.finished
    ensures Fits(c', attempts', l')
  {
  }

  lemma StepKeepsClaim(config: Config, s: System, e: Event, c: nat)
    requires Consistent(s) && Enabled(s, e) && c < |s.claims|
    ensures c < |Step(config, s, e).claims|
    ensures ClaimConsistent(Step(config, s, e), Step(config, s, e).claims[c])
  {
    var claim := s.claims[c];
    var id := claim.jobId;
    assert ClaimConsistent(s, claim);
    forall d | 0 <= d < |s.claims| && d != c ensures Apart(claim, s.claims[d]) {
      OthersApart(s, c, d);
    }
    StepOnClaim(config, s, e, c);
    var s' := Step(config, s, e);
    StillFits(claim, s'.claims[c], s.jobs[id].attempts, s'.jobs[id].attempts, s.ledger[id], s'.ledger[id]);
  }

  lemma NewClaimConsistent(config: Config, s: System, e: Event)
    requires Consistent(s) && Enabled(s, e) && e.Claims?
    ensures |Step(config, s, e).claims| == |s.claims| + 1
    ensures ClaimConsistent(Step(config, s, e), Step(config, s, e).claims[|s.claims|])
  {
    assert JobConsistent(s.jobs[e.id], s.ledger[e.id]);
  }

  lemma OthersApart(s: System, c: nat, d: nat)
    requires Consistent(s) && c < |s.claims| && d < |s.claims|
    ensures c != d ==> Apart(s.claims[c], s.claims[d])
  {
    if c < d {
      assert Apart(s.claims[c], s.claims[d]);
    } else if d < c {
      assert Apart(s.claims[d], s.claims[c]);
    }
  }

  /** No event makes a claim another's; one event adds a claim. */
  lemma StepOnClaims(config: Config, s: System, e: Event)
    requires Enabled(s, e)
    ensures var claims' := Step(config, s, e).claims;
      && |claims'| == |s.claims| + (if e.Claims? then 1 else 0)
      && (forall c :: 0 <= c < |s.claims| ==> SameClaim(s.claims[c], claims'[c]))
      && (e.Claims? ==>
            claims'[|s.claims|] == Claim(e.id, e.worker, LedgerOf(s, e.id).epoch,
                                         s.jobs[e.id].attempts + 1, s.now, Working))
  {
  }

  predicate SameClaim(c: Claim, c': Claim) {
    c' == c.(phase := c'.phase, renewedAt := c'.renewedAt)
  }

  lemma NewClaimApart(s: System, id: JobId, added: Claim, c: nat)
    requires Consistent(s) && id in s.jobs && c < |s.claims|
    requires added.jobId == id && added.epoch == LedgerOf(s, id).epoch && added.index == s.jobs[id].attempts + 1
    ensures Apart(s.claims[c], added)
  {
    assert ClaimConsistent(s, s.claims[c]);
  }

  lemma StepKeepsApart(config: Config, s: System, e: Event, c: nat, d: nat)
    requires Consistent(s) && Enabled(s, e)
    requires c < d < |Step(config, s, e).claims|
    ensures Apart(Step(config, s, e).claims[c], Step(config, s, e).claims[d])
  {
    StepOnClaims(config, s, e);
    assert SameClaim(s.claims[c], Step(config, s, e).claims[c]);
    if d < |s.claims| {
      assert SameClaim(s.claims[d], Step(config, s, e).claims[d]);
      assert Apart(s.claims[c], s.claims[d]);
    } else {
      NewClaimApart(s, e.id, Step(config, s, e).claims[d], c);
    }
  }

  lemma StepKeepsJobs(config: Config, s: System, e: Event)
    requires Consistent(s) && Enabled(s, e)
    ensures JobsConsistent(Step(config, s, e))
  {
    forall id | id in Step(config, s, e).jobs
      ensures id in Step(config, s, e).ledger
      ensures JobConsistent(Step(config, s, e).jobs[id], Step(config, s, e).ledger[id])
    {
      StepKeepsJob(config, s, e, id);
    }
  }

  lemma StepKeepsClaims(config: Config, s: System, e: Event)
    requires Consistent(s) && Enabled(s, e)
    ensures forall c :: 0 <= c < |Step(config, s, e).claims| ==>
      ClaimConsistent(Step(config, s, e), Step(config, s, e).claims[c])
  {
    StepOnClaims(config, s, e);
    forall c | 0 <= c < |Step(config, s, e).claims|
      ensures ClaimConsistent(Step(config, s, e), Step(config, s, e).claims[c])
    {
      if c < |s.claims| {
        StepKeepsClaim(config, s, e, c);
      } else {
        NewClaimConsistent(config, s, e);
      }
    }
  }

  lemma StepKeepsConsistent(config: Config, s: System, e: Event)
    requires Consistent(s) && Enabled(s, e)
    ensures Consistent(Step(config, s, e))
  {
    StepKeepsJobs(config, s, e);
    StepKeepsClaims(config, s, e);
    forall c, d | 0 <= c < d < |Step(config, s, e).claims|
      ensures Apart(Step(config, s, e).claims[c], Step(config, s, e).claims[d])
    {
      StepKeepsApart(config, s, e, c, d);
    }
  }

  lemma {:induction false} ReachableConsistent(config: Config, es: seq<Event>)
    requires Feasible(config, es)
    ensures Consistent(After(config, es))
  {
    if es != [] {
      ReachableConsistent(config, Front(es));
      StepKeepsConsistent(config, After(config, Front(es)), Last(es));
    }
  }
}
