/** What every run of the job queue protocol keeps: document shapes, attempts, termination; and lease
    exclusion, when live holders renew in time. */
module LeaseTheorems {
  import opened Wrappers
  import opened JobQueue
  import opened LeaseProtocol

  lemma Extend(config: Config, es: seq<Event>, e: Event)
    requires Feasible(config, es)
    ensures Feasible(config, es + [e]) <==> Enabled(After(config, es), e)
    ensures Enabled(After(config, es), e) ==> After(config, es + [e]) == Step(config, After(config, es), e)
  {
    assert Front(es + [e]) == es;
  }

  // Shape and claimability.

  /** Every reachable job, stale writers included. The lease clause of the claim filter is
      therefore idle: waiting and due is enough. */
  lemma ReachableShape(config: Config, es: seq<Event>, id: JobId)
    requires Feasible(config, es) && id in After(config, es).jobs
    ensures var j := After(config, es).jobs[id];
      && (j.leaseUntil.Some? <==> j.status == Running)
      && (j.status == Running ==> j.claimedBy.Some?)
      && j.status in {Pending, Running, RetryWait, Completed, DeadLettered}
      && j.version == 1 + LedgerOf(After(config, es), id).claims
      && forall now :: Claimable(j, now) <==> Waiting(j) && j.nextRunAt <= now
  {
    ReachableConsistent(config, es);
    assert JobConsistent(After(config, es).jobs[id], After(config, es).ledger[id]);
  }

  /** No job is stuck: each is completed, or is claimable from some time on, or becomes so by one
      recovery or one manual retry. */
  lemma NoStrandedJob(config: Config, es: seq<Event>, id: JobId, now: int)
    requires Feasible(config, es) && id in After(config, es).jobs
    ensures var j := After(config, es).jobs[id];
      || j.status == Completed
      || (Waiting(j) && (now >= j.nextRunAt ==> Claimable(j, now)))
      || (j.status == Running && j.leaseUntil.Some?
          && (now >= j.leaseUntil.value ==> Abandoned(j, now) && Claimable(Recovered(j, now), now)))
      || (j.status == DeadLettered && Retriable(j) && Claimable(Retried(j, now), now))
  {
    ReachableShape(config, es, id);
  }

  // Leases.

  /** The clock an event writes the job's lease by, if it does: a claim of the job, or a heartbeat by
      the worker that holds it. */
  function LeaseClock(s: System, e: Event, id: JobId): Option<int> {
    match e
    case Claims(j, _, clock) => if j == id then Some(clock) else None
    case Heartbeats(c, clock) =>
      if && c < |s.claims| && s.claims[c].jobId == id && id in s.jobs && s.jobs[id].status == Running
         && s.jobs[id].claimedBy == Some(s.claims[c].worker)
      then Some(clock) else None
    case _ => None
  }

  /** Event k was the last to write the job's lease, by that clock. */
  ghost predicate LastLeaseWrite(config: Config, es: seq<Event>, id: JobId, k: nat, clock: int) {
    && k < |es| && Feasible(config, es[..k]) && LeaseClock(After(config, es[..k]), es[k], id) == Some(clock)
    && forall m :: k < m < |es| && Feasible(config, es[..m]) ==> LeaseClock(After(config, es[..m]), es[m], id) == None
  }

  lemma LeaseStep(config: Config, s: System, e: Event, id: JobId)
    requires Enabled(s, e) && id in Step(config, s, e).jobs && Step(config, s, e).jobs[id].status == Running
    ensures var leaseUntil := Step(config, s, e).jobs[id].leaseUntil;
      match LeaseClock(s, e, id)
      case Some(clock) => leaseUntil == Some(clock + config.leaseMs)
      case None => id in s.jobs && s.jobs[id].status == Running && s.jobs[id].leaseUntil == leaseUntil
  {
  }

  /** A running job's lease ends exactly leaseMs after the clock of the last claim of it, or heartbeat
      by its holder. So a recovery is enabled from then on, and not before. */
  lemma {:induction false} LeaseIsDated(config: Config, es: seq<Event>, id: JobId) returns (k: nat, clock: int)
    requires Feasible(config, es) && id in After(config, es).jobs && After(config, es).jobs[id].status == Running
    ensures LastLeaseWrite(config, es, id, k, clock)
    ensures After(config, es).jobs[id].leaseUntil == Some(clock + config.leaseMs)
    ensures forall now :: Enabled(After(config, es), Recovers(id, now)) <==> clock + config.leaseMs <= now
  {
    var front, n := Front(es), |es| - 1;
    LeaseStep(config, After(config, front), Last(es), id);
    if LeaseClock(After(config, front), Last(es), id).Some? {
      k, clock := n, LeaseClock(After(config, front), Last(es), id).value;
      assert es[..n] == front;
    } else {
      k, clock := LeaseIsDated(config, front, id);
      assert front[..k] == es[..k];
      forall m | k < m < |es| && Feasible(config, es[..m])
        ensures LeaseClock(After(config, es[..m]), es[m], id) == None
      {
        if m < n { assert front[..m] == es[..m]; } else { assert es[..m] == front; }
      }
    }
  }

  // What a job was created with.

  /** The fields no event changes. */
  predicate SameOrigin(j: Job, j': Job) {
    && j'.workspaceId == j.workspaceId && j'.idempotencyKey == j.idempotencyKey
    && j'.correlationId == j.correlationId && j'.createdBy == j.createdBy
    && j'.resourceIds == j.resourceIds && j'.resourceTypes == j.resourceTypes
    && j'.timeoutMs == j.timeoutMs && j'.maxAttempts == j.maxAttempts
  }

  lemma OriginStep(config: Config, s: System, e: Event, id: JobId)
    requires Enabled(s, e) && id in s.jobs
    ensures id in Step(config, s, e).jobs && SameOrigin(s.jobs[id], Step(config, s, e).jobs[id])
  {
  }

  lemma {:induction false} OriginIsKept(config: Config, es: seq<Event>, k: nat, id: JobId, job: Job)
    requires Feasible(config, es) && k < |es| && es[k] == Create(id, job)
    ensures id in After(config, es).jobs && SameOrigin(job, After(config, es).jobs[id])
    decreases |es|
  {
    if k < |es| - 1 {
      OriginIsKept(config, Front(es), k, id, job);
      OriginStep(config, After(config, Front(es)), Last(es), id);
    }
  }

  // Attempts.

  /** A ceiling below one still lets the first claim through. */
  function Ceiling(j: Job): int {
    if j.maxAttempts < 1 then 1 else j.maxAttempts
  }

  lemma {:induction false} BoundedSetSize(s: set<int>, n: nat)
    requires forall i :: i in s ==> 1 <= i <= n
    ensures |s| <= n
    decreases n
  {
    if n == 0 {
      assert forall i: int :: i !in s;
      assert s == {};
    } else {
      BoundedSetSize(s - {n}, n - 1);
      assert s <= (s - {n}) + {n};
      if n in s { assert |s| == |s - {n}| + 1; } else { assert s - {n} == s; }
    }
  }

  /** Claims since the last manual retry, under any interleaving: each one above the ceiling is
      paid for by a recovery, or by a failing claim from before that retry. */
  lemma AttemptBound(config: Config, es: seq<Event>, id: JobId)
    requires Feasible(config, es) && id in After(config, es).jobs
    ensures var s := After(config, es); var j, l := s.jobs[id], LedgerOf(s, id);
      && j.attempts <= Ceiling(j) + l.recoveries + l.staleRequeues
      && (Waiting(j) ==> j.attempts < Ceiling(j) + l.recoveries + l.staleRequeues)
      && |l.finished| <= j.attempts
  {
    ReachableConsistent(config, es);
    var s := After(config, es);
    var j, l := s.jobs[id], s.ledger[id];
    assert JobConsistent(j, l);
    BoundedSetSize(l.requeued, Ceiling(j) - 1);
    BoundedSetSize(l.finished, j.attempts);
  }

  /** A claim's one failure puts the job back only if the claim's index is below the ceiling,
      however late it reads and writes. */
  lemma RequeueOnlyBelowCeiling(config: Config, es: seq<Event>, e: Event)
    requires Feasible(config, es) && e.FailWrites? && Enabled(After(config, es), e)
    requires var s := After(config, es); var claim := s.claims[e.c];
      claim.epoch == LedgerOf(s, claim.jobId).epoch && Requeues(s.jobs[claim.jobId], claim.phase.seen, e.error)
    ensures var s := After(config, es); s.claims[e.c].index < s.jobs[s.claims[e.c].jobId].maxAttempts
  {
    ReachableConsistent(config, es);
    assert ClaimConsistent(After(config, es), After(config, es).claims[e.c]);
  }

  predicate NoRetryOf(es: seq<Event>, id: JobId) {
    forall k :: 0 <= k < |es| && es[k].Retries? ==> es[k].id != id
  }

  function Recoveries(es: seq<Event>, id: JobId): nat {
    if es == [] then 0
    else Recoveries(Front(es), id) + (if Last(es).Recovers? && Last(es).id == id then 1 else 0)
  }

  predicate NoLiveClaimOf(s: System, id: JobId) {
    forall c :: 0 <= c < |s.claims| && Live(s.claims[c]) ==> s.claims[c].jobId != id
  }

  /** `pre` is empty, or ends with a manual retry of a job no claim is still working on. */
  ghost predicate QuietStart(config: Config, pre: seq<Event>, id: JobId) {
    && Feasible(config, pre)
    && (pre == [] || (&& Last(pre).Retries? && Last(pre).id == id
                      && NoLiveClaimOf(After(config, Front(pre)), id)))
  }

  ghost predicate LiveClaimsCurrent(s: System, id: JobId) {
    forall c :: 0 <= c < |s.claims| && Live(s.claims[c]) && s.claims[c].jobId == id ==>
      s.claims[c].epoch == LedgerOf(s, id).epoch
  }

  lemma StepKeepsLiveClaimsCurrent(config: Config, s: System, e: Event, id: JobId)
    requires Enabled(s, e) && LiveClaimsCurrent(s, id)
    requires !(e.Retries? && e.id == id) && (e.Create? && e.id == id ==> NoLiveClaimOf(s, id))
    ensures LiveClaimsCurrent(Step(config, s, e), id)
    ensures id in s.jobs ==>
      LedgerOf(Step(config, s, e), id).staleRequeues == LedgerOf(s, id).staleRequeues
  {
    var s' := Step(config, s, e);
    forall c | 0 <= c < |s'.claims| && Live(s'.claims[c]) && s'.claims[c].jobId == id
      ensures s'.claims[c].epoch == LedgerOf(s', id).epoch
    {
      if c < |s.claims| { assert Live(s.claims[c]) && s.claims[c].jobId == id; }
    }
  }

  ghost predicate QuietSince(s: System, id: JobId, recoveries: nat) {
    && LiveClaimsCurrent(s, id)
    && LedgerOf(s, id).staleRequeues == 0
    && LedgerOf(s, id).recoveries == recoveries
  }

  lemma AtQuietStart(config: Config, pre: seq<Event>, id: JobId)
    requires QuietStart(config, pre, id)
    ensures QuietSince(After(config, pre), id, 0)
  {
    if pre != [] {
      assert After(config, pre).claims == After(config, Front(pre)).claims;
      assert NoLiveClaimOf(After(config, pre), id);
    }
  }

  lemma StepKeepsQuiet(config: Config, s: System, e: Event, id: JobId, recoveries: nat)
    requires Consistent(s) && Enabled(s, e) && QuietSince(s, id, recoveries)
    requires !(e.Retries? && e.id == id)
    ensures QuietSince(Step(config, s, e), id, if e.Recovers? && e.id == id then recoveries + 1 else recoveries)
  {
    forall c | 0 <= c < |s.claims| ensures s.claims[c].jobId in s.jobs {
      assert ClaimConsistent(s, s.claims[c]);
    }
    StepKeepsLiveClaimsCurrent(config, s, e, id);
  }

  lemma {:induction false} SinceQuietStart(config: Config, pre: seq<Event>, post: seq<Event>, id: JobId)
    requires QuietStart(config, pre, id) && Feasible(config, pre + post) && NoRetryOf(post, id)
    ensures QuietSince(After(config, pre + post), id, Recoveries(post, id))
  {
    if post == [] {
      assert pre + post == pre;
      AtQuietStart(config, pre, id);
    } else {
      assert Front(pre + post) == pre + Front(post);
      SinceQuietStart(config, pre, Front(post), id);
      ReachableConsistent(config, pre + Front(post));
      StepKeepsQuiet(config, After(config, pre + Front(post)), Last(post), id, Recoveries(Front(post), id));
    }
  }

  /** Between manual retries, with nothing left pending from before the last one: at most one
      attempt above the ceiling for each recovery of that job. */
  lemma AttemptBoundBetweenRetries(config: Config, pre: seq<Event>, post: seq<Event>, id: JobId)
    requires QuietStart(config, pre, id) && Feasible(config, pre + post) && NoRetryOf(post, id)
    requires id in After(config, pre + post).jobs
    ensures var j := After(config, pre + post).jobs[id];
      j.attempts <= Ceiling(j) + Recoveries(post, id)
  {
    SinceQuietStart(config, pre, post, id);
    AttemptBound(config, pre + post, id);
  }

  // Termination.

  /** A claim, or the write that ends one. A `complete` that reports an error is no end: its claim
      goes on to fail, and can lose only the one. */
  predicate Moves(s: System, e: Event, id: JobId) {
    match e
    case Claims(j, _, _) => j == id
    case Completes(c, _, _) => c < |s.claims| && s.claims[c].jobId == id
    case FailWrites(c, _, _, _) => c < |s.claims| && s.claims[c].jobId == id
    case _ => false
  }

  ghost function MoveCount(config: Config, es: seq<Event>, id: JobId): nat
    requires Feasible(config, es)
  {
    if es == [] then 0
    else MoveCount(config, Front(es), id) + (if Moves(After(config, Front(es)), Last(es), id) then 1 else 0)
  }

  function Ledgered(s: System, id: JobId): int {
    (if id in s.jobs then s.jobs[id].attempts else 0) + |LedgerOf(s, id).finished|
  }

  lemma OutcomeIsLedgered(s: System, c: nat, requeues: bool)
    requires Consistent(s) && c < |s.claims| && Live(s.claims[c])
    requires LedgerOf(s, s.claims[c].jobId).epoch == 0
    ensures var l := LedgerOf(s, s.claims[c].jobId);
      && Settled(l, s.claims[c], requeues).epoch == 0
      && |Settled(l, s.claims[c], requeues).finished| == |l.finished| + 1
  {
    assert ClaimConsistent(s, s.claims[c]);
  }

  lemma QueueMoveIsLedgered(config: Config, s: System, e: Event, id: JobId)
    requires Enabled(s, e) && LedgerOf(s, id).epoch == 0
    requires !(e.Retries? && e.id == id) && !e.Completes? && !e.FailWrites?
    requires s.jobs.Keys == s.ledger.Keys
    ensures LedgerOf(Step(config, s, e), id).epoch == 0
    ensures Ledgered(Step(config, s, e), id) == Ledgered(s, id) + (if Moves(s, e, id) then 1 else 0)
  {
  }

  lemma MoveIsLedgered(config: Config, s: System, e: Event, id: JobId)
    requires Consistent(s) && Enabled(s, e) && LedgerOf(s, id).epoch == 0
    requires !(e.Retries? && e.id == id)
    ensures LedgerOf(Step(config, s, e), id).epoch == 0
    ensures Ledgered(Step(config, s, e), id) == Ledgered(s, id) + (if Moves(s, e, id) then 1 else 0)
  {
    match e {
      case Completes(c, _, _) =>
        if s.claims[c].jobId == id { OutcomeIsLedgered(s, c, false); }
      case FailWrites(c, error, _, _) =>
        if s.claims[c].jobId == id { OutcomeIsLedgered(s, c, Requeues(s.jobs[id], s.claims[c].phase.seen, error)); }
      case _ => QueueMoveIsLedgered(config, s, e, id);
    }
  }

  lemma {:induction false} MovesAreLedgered(config: Config, es: seq<Event>, id: JobId)
    requires Feasible(config, es) && NoRetryOf(es, id)
    ensures LedgerOf(After(config, es), id).epoch == 0
    ensures MoveCount(config, es, id) == Ledgered(After(config, es), id)
  {
    if es != [] {
      MovesAreLedgered(config, Front(es), id);
      ReachableConsistent(config, Front(es));
      MoveIsLedgered(config, After(config, Front(es)), Last(es), id);
    }
  }

  /** A run that never retries the job by hand makes, over its whole length, at most two moves of
      it (a claim and its outcome) per attempt allowed and per recovery made. */
  lemma ProcessingTerminates(config: Config, es: seq<Event>, id: JobId)
    requires Feasible(config, es) && NoRetryOf(es, id) && id in After(config, es).jobs
    ensures MoveCount(config, es, id) <= 2 * (Ceiling(After(config, es).jobs[id]) + Recoveries(es, id))
  {
    MovesAreLedgered(config, es, id);
    assert [] + es == es;
    SinceQuietStart(config, [], es, id);
    AttemptBound(config, es, id);
  }

  // Without recoveries.

  /** No recovery has put the job back: its live claim, if any, is the latest one. */
  ghost predicate Unrecovered(s: System, id: JobId) {
    && LedgerOf(s, id).recoveries == 0 && LedgerOf(s, id).staleRequeues == 0
    && forall c :: 0 <= c < |s.claims| && Live(s.claims[c]) && s.claims[c].jobId == id ==> IsLatest(s, id, s.claims[c])
  }

  predicate IsLatest(s: System, id: JobId, c: Claim) {
    && id in s.jobs && c.epoch == LedgerOf(s, id).epoch && c.index == s.jobs[id].attempts
    && (s.jobs[id].status == Running || s.jobs[id].status == Completed)
  }

  lemma StillLive(config: Config, s: System, e: Event, c: nat)
    requires Enabled(s, e) && c < |s.claims| && c < |Step(config, s, e).claims| && Live(Step(config, s, e).claims[c])
    ensures Live(s.claims[c])
  {
  }

  lemma LatestIsSole(s: System, id: JobId, c: nat, d: nat)
    requires Consistent(s) && Unrecovered(s, id) && c < |s.claims| && d < |s.claims|
    requires Live(s.claims[c]) && s.claims[c].jobId == id && Live(s.claims[d]) && s.claims[d].jobId == id
    ensures c == d
  {
    assert IsLatest(s, id, s.claims[c]) && IsLatest(s, id, s.claims[d]);
    OthersApart(s, c, d);
  }

  lemma StepKeepsLatest(config: Config, s: System, e: Event, id: JobId, c: nat)
    requires Consistent(s) && Enabled(s, e) && Unrecovered(s, id) && !(e.Recovers? && e.id == id)
    requires c < |Step(config, s, e).claims|
    requires Live(Step(config, s, e).claims[c]) && Step(config, s, e).claims[c].jobId == id
    ensures IsLatest(Step(config, s, e), id, Step(config, s, e).claims[c])
  {
    StepOnClaims(config, s, e);
    if c < |s.claims| {
      StillLive(config, s, e, c);
      assert IsLatest(s, id, s.claims[c]);
      if (e.Completes? || e.LosesComplete? || e.FailWrites?) && s.claims[e.c].jobId == id {
        LatestIsSole(s, id, c, e.c);
      }
    }
  }

  lemma StepKeepsTally(config: Config, s: System, e: Event, id: JobId)
    requires Consistent(s) && Enabled(s, e) && Unrecovered(s, id) && !(e.Recovers? && e.id == id)
    ensures LedgerOf(Step(config, s, e), id).recoveries == 0 && LedgerOf(Step(config, s, e), id).staleRequeues == 0
  {
    if e.FailWrites? && s.claims[e.c].jobId == id {
      assert IsLatest(s, id, s.claims[e.c]);
    }
  }

  lemma {:induction false} NoRecoveryNoStaleClaim(config: Config, es: seq<Event>, id: JobId)
    requires Feasible(config, es) && Recoveries(es, id) == 0
    ensures Unrecovered(After(config, es), id)
  {
    if es != [] {
      NoRecoveryNoStaleClaim(config, Front(es), id);
      ReachableConsistent(config, Front(es));
      var s, e := After(config, Front(es)), Last(es);
      StepKeepsTally(config, s, e, id);
      forall c | 0 <= c < |Step(config, s, e).claims| && Live(Step(config, s, e).claims[c])
                 && Step(config, s, e).claims[c].jobId == id
        ensures IsLatest(Step(config, s, e), id, Step(config, s, e).claims[c])
      {
        StepKeepsLatest(config, s, e, id, c);
      }
    }
  }

  predicate WithinCeiling(config: Config, es: seq<Event>, id: JobId)
    requires Feasible(config, es) && id in After(config, es).jobs
  {
    After(config, es).jobs[id].attempts <= Ceiling(After(config, es).jobs[id])
  }

  /** A run that never recovers the job keeps its attempts within the ceiling, manual retries,
      stale writers and any clocks allowed. */
  lemma UnrecoveredIsWithinCeiling(config: Config, es: seq<Event>, id: JobId)
    requires Feasible(config, es) && Recoveries(es, id) == 0 && id in After(config, es).jobs
    ensures WithinCeiling(config, es, id)
  {
    NoRecoveryNoStaleClaim(config, es, id);
    AttemptBound(config, es, id);
  }

  // Lease exclusion.

  /** Every acting clock, database latency included, is within epsilon of true time. */
  predicate ClockWithin(now: int, e: Event, epsilon: nat) {
    match e
    case Claims(_, _, clock) => now - epsilon <= clock <= now + epsilon
    case Heartbeats(_, clock) => now - epsilon <= clock <= now + epsilon
    case Completes(_, _, clock) => now - epsilon <= clock <= now + epsilon
    case LosesComplete(_, _, clock) => now - epsilon <= clock <= now + epsilon
    case FailWrites(_, _, clock, _) => now - epsilon <= clock <= now + epsilon
    case Recovers(_, clock) => now - epsilon <= clock <= now + epsilon
    case Retries(_, clock) => now - epsilon <= clock <= now + epsilon
    case _ => true
  }

  /** Every claim still at work on a running job renewed its lease less than `gap` ago. */
  predicate Timely(gap: int, s: System) {
    forall c :: 0 <= c < |s.claims| && Live(s.claims[c])
                && s.claims[c].jobId in s.jobs && s.jobs[s.claims[c].jobId].status == Running ==>
      s.now - s.claims[c].renewedAt < gap
  }

  ghost predicate RenewedWithin(config: Config, epsilon: nat, gap: int, es: seq<Event>)
    decreases |es|
  {
    && Feasible(config, es)
    && (es != [] ==>
        && RenewedWithin(config, epsilon, gap, Front(es))
        && Timely(gap, After(config, Front(es)))
        && ClockWithin(After(config, Front(es)).now, Last(es), epsilon))
  }

  ghost predicate Disciplined(config: Config, epsilon: nat, es: seq<Event>) {
    RenewedWithin(config, epsilon, config.leaseMs - 2 * epsilon, es)
  }

  /** A live claim is the latest one of its job, and the job's document names its worker, with lease
      to spare, unless the claim's own lost `complete` has completed it. */
  ghost predicate Holds(config: Config, epsilon: nat, s: System, c: Claim) {
    && c.jobId in s.jobs
    && var j := s.jobs[c.jobId];
      && c.epoch == LedgerOf(s, c.jobId).epoch && c.index == j.attempts
      && (|| (j.status == Completed && c.phase != Working)
          || (&& j.status == Running && j.claimedBy == Some(c.worker)
              && j.leaseUntil.Some? && c.renewedAt - epsilon + config.leaseMs <= j.leaseUntil.value))
  }

  ghost predicate AllHold(config: Config, epsilon: nat, s: System) {
    forall c :: 0 <= c < |s.claims| && Live(s.claims[c]) ==> Holds(config, epsilon, s, s.claims[c])
  }

  lemma SoleHolder(config: Config, epsilon: nat, s: System, c: nat, d: nat)
    requires Consistent(s) && AllHold(config, epsilon, s)
    requires c < |s.claims| && d < |s.claims| && Live(s.claims[c]) && Live(s.claims[d])
    requires s.claims[c].jobId == s.claims[d].jobId
    ensures c == d
  {
    assert Holds(config, epsilon, s, s.claims[c]) && Holds(config, epsilon, s, s.claims[d]);
    OthersApart(s, c, d);
  }

  lemma OutcomeOfAnotherJob(config: Config, s: System, e: Event, id: JobId)
    requires Enabled(s, e) && (e.Completes? || e.LosesComplete? || e.FailWrites?)
    requires id in s.jobs && s.claims[e.c].jobId != id
    ensures id in Step(config, s, e).jobs && Step(config, s, e).jobs[id] == s.jobs[id]
    ensures LedgerOf(Step(config, s, e), id) == LedgerOf(s, id)
  {
  }

  lemma OutcomeOfItsOwn(config: Config, s: System, e: Event)
    requires Enabled(s, e) && (e.Completes? || e.LosesComplete? || e.FailWrites?)
    requires Live(Step(config, s, e).claims[e.c])
    ensures e.LosesComplete?
  {
  }

  lemma OutcomeKeepsHolds(config: Config, epsilon: nat, s: System, e: Event, c: nat)
    requires Consistent(s) && AllHold(config, epsilon, s) && Enabled(s, e)
    requires e.Completes? || e.LosesComplete? || e.FailWrites?
    requires c < |s.claims| && Live(s.claims[c]) && Live(Step(config, s, e).claims[c])
    ensures Holds(config, epsilon, Step(config, s, e), Step(config, s, e).claims[c])
  {
    assert Holds(config, epsilon, s, s.claims[c]);
    if s.claims[e.c].jobId == s.claims[c].jobId {
      SoleHolder(config, epsilon, s, c, e.c);
      OutcomeOfItsOwn(config, s, e);
    } else {
      OutcomeOfAnotherJob(config, s, e, s.claims[c].jobId);
    }
  }

  lemma QueueKeepsHolds(config: Config, epsilon: nat, s: System, e: Event, c: nat)
    requires Enabled(s, e) && !e.Completes? && !e.LosesComplete? && !e.FailWrites?
    requires Timely(config.leaseMs - 2 * epsilon, s) && ClockWithin(s.now, e, epsilon)
    requires c < |s.claims| && Live(s.claims[c]) && Live(Step(config, s, e).claims[c])
    requires Holds(config, epsilon, s, s.claims[c]) && s.claims[c].renewedAt <= s.now
    ensures Holds(config, epsilon, Step(config, s, e), Step(config, s, e).claims[c])
  {
  }

  lemma StepKeepsHolds(config: Config, epsilon: nat, s: System, e: Event, c: nat)
    requires Consistent(s) && AllHold(config, epsilon, s) && Enabled(s, e)
    requires Timely(config.leaseMs - 2 * epsilon, s) && ClockWithin(s.now, e, epsilon)
    requires c < |s.claims| && Live(s.claims[c]) && Live(Step(config, s, e).claims[c])
    ensures Holds(config, epsilon, Step(config, s, e), Step(config, s, e).claims[c])
  {
    assert Holds(config, epsilon, s, s.claims[c]) && ClaimConsistent(s, s.claims[c]);
    if e.Completes? || e.LosesComplete? || e.FailWrites? {
      OutcomeKeepsHolds(config, epsilon, s, e, c);
    } else {
      QueueKeepsHolds(config, epsilon, s, e, c);
    }
  }

  lemma NewClaimHolds(config: Config, epsilon: nat, s: System, e: Event)
    requires Enabled(s, e) && e.Claims? && ClockWithin(s.now, e, epsilon)
    ensures |Step(config, s, e).claims| == |s.claims| + 1
    ensures Holds(config, epsilon, Step(config, s, e), Step(config, s, e).claims[|s.claims|])
  {
  }

  lemma StepKeepsAllHold(config: Config, epsilon: nat, s: System, e: Event)
    requires Consistent(s) && AllHold(config, epsilon, s) && Enabled(s, e)
    requires Timely(config.leaseMs - 2 * epsilon, s) && ClockWithin(s.now, e, epsilon)
    ensures AllHold(config, epsilon, Step(config, s, e))
  {
    var s' := Step(config, s, e);
    StepOnClaims(config, s, e);
    forall c | 0 <= c < |s'.claims| && Live(s'.claims[c]) ensures Holds(config, epsilon, s', s'.claims[c]) {
      if c < |s.claims| {
        StillLive(config, s, e, c);
        StepKeepsHolds(config, epsilon, s, e, c);
      } else {
        NewClaimHolds(config, epsilon, s, e);
      }
    }
  }

  lemma {:induction false} DisciplinedAllHold(config: Config, epsilon: nat, es: seq<Event>)
    requires Disciplined(config, epsilon, es)
    ensures AllHold(config, epsilon, After(config, es))
  {
    if es != [] {
      DisciplinedAllHold(config, epsilon, Front(es));
      ReachableConsistent(config, Front(es));
      StepKeepsAllHold(config, epsilon, After(config, Front(es)), Last(es));
    }
  }

  /** No job has two live claims. */
  predicate Exclusive(s: System) {
    forall c, d :: 0 <= c < d < |s.claims| && Live(s.claims[c]) && Live(s.claims[d]) ==>
      s.claims[c].jobId != s.claims[d].jobId
  }

  /** Lease exclusion: for any number of workers and jobs, no job ever has two live claims, and the
      document of a live claim's job names that claim's worker or was completed by that claim. */
  lemma LeaseExclusion(config: Config, epsilon: nat, es: seq<Event>, c: nat, d: nat)
    requires Disciplined(config, epsilon, es)
    requires c < |After(config, es).claims| && d < |After(config, es).claims|
    requires Live(After(config, es).claims[c]) && Live(After(config, es).claims[d])
    ensures After(config, es).claims[c].jobId == After(config, es).claims[d].jobId ==> c == d
    ensures Holds(config, epsilon, After(config, es), After(config, es).claims[c])
  {
    DisciplinedAllHold(config, epsilon, es);
    ReachableConsistent(config, es);
    if After(config, es).claims[c].jobId == After(config, es).claims[d].jobId {
      SoleHolder(config, epsilon, After(config, es), c, d);
    }
  }

  /** A recovery never takes the job of a claim still at work. */
  lemma RecoverySparesLiveClaims(config: Config, epsilon: nat, es: seq<Event>, id: JobId, clock: int)
    requires Disciplined(config, epsilon, es + [Recovers(id, clock)])
    ensures Feasible(config, es) && NoLiveClaimOf(After(config, es), id)
  {
    assert Front(es + [Recovers(id, clock)]) == es;
    DisciplinedAllHold(config, epsilon, es);
    var s := After(config, es);
    forall c | 0 <= c < |s.claims| && Live(s.claims[c]) ensures s.claims[c].jobId != id {
      assert Holds(config, epsilon, s, s.claims[c]);
    }
  }
}
