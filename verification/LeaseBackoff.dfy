/** When the next claim of a requeued job waits its backoff out, and when a completed job is requeued. */
module LeaseBackoff {
  import opened Backoff
  import opened JobQueue
  import opened LeaseProtocol
  import opened LeaseTheorems
  import opened LeaseOutcomes

  /** The event neither takes the job, nor retries it by hand, nor, being a failing claim's write,
      puts it back to be due before `due`. */
  predicate LeavesDue(config: Config, s: System, e: Event, id: JobId, due: int) {
    match e
    case Claims(j, _, _) => j != id
    case Retries(j, _) => j != id
    case FailWrites(c, error, clock, _) =>
      c < |s.claims| && s.claims[c].phase.ReadForFail? && s.claims[c].jobId == id && id in s.jobs
      && Requeues(s.jobs[id], s.claims[c].phase.seen, error) ==>
        due <= clock + Exp(s.claims[c].phase.seen, config.backoffBaseMs, config.backoffMaxMs)
    case _ => true
  }

  predicate NotDueBefore(j: Job, due: int) {
    (j.status == RetryWait && due <= j.nextRunAt) || Terminal(j)
  }

  lemma StepKeepsDue(config: Config, s: System, e: Event, id: JobId, due: int)
    requires Enabled(s, e) && id in s.jobs && NotDueBefore(s.jobs[id], due) && LeavesDue(config, s, e, id, due)
    ensures id in Step(config, s, e).jobs && NotDueBefore(Step(config, s, e).jobs[id], due)
  {
    match e {
      case FailWrites(c, _, _, u) =>
        DelayBounds(s.claims[c].phase.seen, config.backoffBaseMs, config.backoffMaxMs, u);
      case _ =>
    }
  }

  ghost predicate AllLeaveDue(config: Config, pre: seq<Event>, mid: seq<Event>, id: JobId, due: int) {
    && Feasible(config, pre + mid)
    && forall k :: 0 <= k < |mid| && Feasible(config, pre + mid[..k]) ==>
        LeavesDue(config, After(config, pre + mid[..k]), mid[k], id, due)
  }

  lemma {:induction false} RunKeepsDue(config: Config, pre: seq<Event>, mid: seq<Event>, id: JobId, due: int)
    requires Feasible(config, pre) && id in After(config, pre).jobs && NotDueBefore(After(config, pre).jobs[id], due)
    requires AllLeaveDue(config, pre, mid, id, due)
    ensures id in After(config, pre + mid).jobs && NotDueBefore(After(config, pre + mid).jobs[id], due)
  {
    if mid == [] {
      assert pre + mid == pre;
    } else {
      assert Front(pre + mid) == pre + Front(mid);
      forall k | 0 <= k < |Front(mid)| && Feasible(config, pre + Front(mid)[..k])
        ensures LeavesDue(config, After(config, pre + Front(mid)[..k]), Front(mid)[k], id, due)
      {
        assert Front(mid)[..k] == mid[..k];
      }
      RunKeepsDue(config, pre, Front(mid), id, due);
      assert mid[..|mid| - 1] == Front(mid);
      assert LeavesDue(config, After(config, pre + mid[..|mid| - 1]), mid[|mid| - 1], id, due);
      StepKeepsDue(config, After(config, pre + Front(mid)), Last(mid), id, due);
    }
  }

  /** The job's earliest next claim after a requeue: the write's clock plus the capped wait. */
  function DueAfter(config: Config, claim: Claim, clock: int): int
    requires claim.phase.ReadForFail?
  {
    clock + Exp(claim.phase.seen, config.backoffBaseMs, config.backoffMaxMs)
  }

  ghost predicate RequeuedBy(config: Config, es: seq<Event>, fail: Event, id: JobId) {
    && fail.FailWrites? && Feasible(config, es) && Enabled(After(config, es), fail)
    && After(config, es).claims[fail.c].jobId == id
    && Requeues(After(config, es).jobs[id], After(config, es).claims[fail.c].phase.seen, fail.error)
  }

  lemma RequeueSetsDue(config: Config, es: seq<Event>, fail: Event, id: JobId)
    requires RequeuedBy(config, es, fail, id)
    ensures Feasible(config, es + [fail]) && id in After(config, es + [fail]).jobs
    ensures var j := After(config, es + [fail]).jobs[id];
      j.status == RetryWait && DueAfter(config, After(config, es).claims[fail.c], fail.clock) <= j.nextRunAt
  {
    Extend(config, es, fail);
    DelayBounds(After(config, es).claims[fail.c].phase.seen, config.backoffBaseMs, config.backoffMaxMs, fail.u);
  }

  /** Backoff is honoured by the next claim, whatever else happens in between, recoveries and
      stale completions included, as long as no other failing claim requeues the job for earlier. */
  lemma BackoffHonoured(config: Config, es: seq<Event>, fail: Event, mid: seq<Event>, id: JobId,
                        worker: WorkerId, clock: int)
    requires RequeuedBy(config, es, fail, id)
    requires Feasible(config, es + [fail])
    requires AllLeaveDue(config, es + [fail], mid, id, DueAfter(config, After(config, es).claims[fail.c], fail.clock))
    requires Feasible(config, es + [fail] + mid + [Claims(id, worker, clock)])
    ensures DueAfter(config, After(config, es).claims[fail.c], fail.clock) <= clock
  {
    var s := After(config, es);
    RequeueSetsDue(config, es, fail, id);
    RunKeepsDue(config, es + [fail], mid, id, DueAfter(config, s.claims[fail.c], fail.clock));
    Extend(config, es + [fail] + mid, Claims(id, worker, clock));
  }

  predicate NoClaimOf(es: seq<Event>, id: JobId) {
    forall k :: 0 <= k < |es| && es[k].Claims? ==> es[k].id != id
  }

  lemma {:induction false} DisciplinedPrefix(config: Config, epsilon: nat, es: seq<Event>, k: nat)
    requires Disciplined(config, epsilon, es) && k <= |es|
    ensures Disciplined(config, epsilon, es[..k])
    decreases |es| - k
  {
    if k < |es| {
      DisciplinedPrefix(config, epsilon, es, k + 1);
      assert Front(es[..k + 1]) == es[..k];
    } else {
      assert es[..k] == es;
    }
  }

  lemma {:induction false} WaitingJobHasNoLiveClaim(config: Config, epsilon: nat, pre: seq<Event>,
                                                    mid: seq<Event>, id: JobId)
    requires Disciplined(config, epsilon, pre + mid) && Disciplined(config, epsilon, pre)
    requires id in After(config, pre).jobs && After(config, pre).jobs[id].status == RetryWait
    requires NoClaimOf(mid, id) && NoRetryOf(mid, id)
    ensures id in After(config, pre + mid).jobs && After(config, pre + mid).jobs[id] == After(config, pre).jobs[id]
    ensures NoLiveClaimOf(After(config, pre + mid), id)
  {
    var s := After(config, pre + mid);
    if mid == [] {
      assert pre + mid == pre;
    } else {
      assert Front(pre + mid) == pre + Front(mid);
      assert Last(mid) == mid[|mid| - 1];
      WaitingJobHasNoLiveClaim(config, epsilon, pre, Front(mid), id);
    }
    DisciplinedAllHold(config, epsilon, pre + mid);
    forall c | 0 <= c < |s.claims| && Live(s.claims[c]) ensures s.claims[c].jobId != id {
      assert Holds(config, epsilon, s, s.claims[c]);
    }
  }

  /** In disciplined runs backoff is always honoured, short of a manual retry. */
  lemma BackoffHonouredUnderDiscipline(config: Config, epsilon: nat, es: seq<Event>, fail: Event, mid: seq<Event>,
                                       id: JobId, worker: WorkerId, clock: int)
    requires RequeuedBy(config, es, fail, id)
    requires Disciplined(config, epsilon, es + [fail] + mid + [Claims(id, worker, clock)])
    requires NoClaimOf(mid, id) && NoRetryOf(mid, id)
    ensures DueAfter(config, After(config, es).claims[fail.c], fail.clock) <= clock
  {
    var pre := es + [fail];
    var all := pre + mid + [Claims(id, worker, clock)];
    assert Disciplined(config, epsilon, pre) by {
      DisciplinedPrefix(config, epsilon, all, |pre|);
      assert all[..|pre|] == pre;
    }
    assert Disciplined(config, epsilon, pre + mid) by {
      assert Front(all) == pre + mid;
    }
    RequeueSetsDue(config, es, fail, id);
    WaitingJobHasNoLiveClaim(config, epsilon, pre, mid, id);
    Extend(config, pre + mid, Claims(id, worker, clock));
  }

  // Without discipline: exactly which runs cut a backoff short or reopen a completed job.

  /** What a failing claim's write would decide, or does decide once it has read. */
  predicate CanRequeue(s: System, c: Claim, id: JobId) {
    && c.jobId == id && id in s.jobs
    && (|| (AtWork(c) && s.jobs[id].attempts < s.jobs[id].maxAttempts)
        || (c.phase.ReadForFail? && c.phase.seen < s.jobs[id].maxAttempts))
  }

  ghost predicate SomeCanRequeue(s: System, id: JobId) {
    exists c :: 0 <= c < |s.claims| && CanRequeue(s, s.claims[c], id)
  }

  lemma StepKeepsUnrequeueable(config: Config, s: System, e: Event, id: JobId, c: nat)
    requires Enabled(s, e) && id in s.jobs && s.jobs[id].status != Running && c < |s.claims|
    requires !(e.Claims? && e.id == id) && !(e.Retries? && e.id == id)
    requires !CanRequeue(s, s.claims[c], id)
    ensures c < |Step(config, s, e).claims| && !CanRequeue(Step(config, s, e), Step(config, s, e).claims[c], id)
  {
  }

  lemma UnrequeueableStep(config: Config, s: System, e: Event, id: JobId)
    requires Enabled(s, e) && id in s.jobs && s.jobs[id].status != Running && !SomeCanRequeue(s, id)
    requires !(e.Claims? && e.id == id) && !(e.Retries? && e.id == id)
    ensures id in Step(config, s, e).jobs && !SomeCanRequeue(Step(config, s, e), id)
    ensures Step(config, s, e).jobs[id] == s.jobs[id] || Terminal(Step(config, s, e).jobs[id])
  {
    StepOnClaims(config, s, e);
    forall c | 0 <= c < |Step(config, s, e).claims|
      ensures !CanRequeue(Step(config, s, e), Step(config, s, e).claims[c], id)
    {
      if c < |s.claims| { StepKeepsUnrequeueable(config, s, e, id, c); }
    }
    if e.FailWrites? { assert !CanRequeue(s, s.claims[e.c], id); }
  }

  lemma {:induction false} UnrequeueableRun(config: Config, pre: seq<Event>, mid: seq<Event>, id: JobId)
    requires Feasible(config, pre) && id in After(config, pre).jobs && After(config, pre).jobs[id].status != Running
    requires !SomeCanRequeue(After(config, pre), id) && Feasible(config, pre + mid) && NoRetryOf(mid, id)
    requires Terminal(After(config, pre).jobs[id]) || NoClaimOf(mid, id)
    ensures id in After(config, pre + mid).jobs && !SomeCanRequeue(After(config, pre + mid), id)
    ensures || After(config, pre + mid).jobs[id] == After(config, pre).jobs[id]
            || Terminal(After(config, pre + mid).jobs[id])
  {
    if mid == [] {
      assert pre + mid == pre;
    } else {
      assert Front(pre + mid) == pre + Front(mid);
      assert Last(mid) == mid[|mid| - 1];
      UnrequeueableRun(config, pre, Front(mid), id);
      UnrequeueableStep(config, After(config, pre + Front(mid)), Last(mid), id);
    }
  }

  /** The attempt count a claim decides by, and counts its wait from, if it fails now. */
  function WouldSee(s: System, c: Claim, id: JobId): int
    requires id in s.jobs
  {
    if c.phase.ReadForFail? then c.phase.seen else s.jobs[id].attempts
  }

  function WouldWait(config: Config, s: System, c: Claim, id: JobId): nat
    requires id in s.jobs
  {
    Exp(WouldSee(s, c, id), config.backoffBaseMs, config.backoffMaxMs)
  }

  lemma RequeueAt(config: Config, pre: seq<Event>, c: nat, id: JobId, clock: int) returns (mid: seq<Event>)
    requires Feasible(config, pre) && c < |After(config, pre).claims|
    requires CanRequeue(After(config, pre), After(config, pre).claims[c], id)
    ensures NoClaimOf(mid, id) && NoRetryOf(mid, id) && WritesFrom(mid, clock) && Feasible(config, pre + mid)
    ensures id in After(config, pre + mid).jobs && After(config, pre + mid).jobs[id].status == RetryWait
    ensures var due := clock + WouldWait(config, After(config, pre), After(config, pre).claims[c], id);
      forall now :: Claimable(After(config, pre + mid).jobs[id], now) <==> due <= now
  {
    var s := After(config, pre);
    var write := FailWrites(c, Failure("PROCESSING_ERROR", "", true, clock), clock, 0.0);
    UnjitteredDelay(WouldSee(s, s.claims[c], id), config.backoffBaseMs, config.backoffMaxMs);
    if AtWork(s.claims[c]) {
      Extend(config, pre, FailReads(c));
      Extend(config, pre + [FailReads(c)], write);
      mid := [FailReads(c), write];
      assert pre + [FailReads(c)] + [write] == pre + mid;
    } else {
      Extend(config, pre, write);
      mid := [write];
    }
  }

  /** After `pre`, and with no claim or manual retry of the job in `mid`, it is claimed before `due`. */
  ghost predicate CutsShort(config: Config, pre: seq<Event>, mid: seq<Event>, id: JobId, due: int) {
    && NoClaimOf(mid, id) && NoRetryOf(mid, id)
    && exists worker, clock :: ClaimedBefore(config, pre + mid, id, due, worker, clock)
  }

  predicate ClaimedBefore(config: Config, es: seq<Event>, id: JobId, due: int, worker: WorkerId, clock: int) {
    clock < due && Feasible(config, es + [Claims(id, worker, clock)])
  }

  lemma ClaimableCutsShort(config: Config, pre: seq<Event>, mid: seq<Event>, id: JobId, due: int)
    requires Feasible(config, pre + mid) && id in After(config, pre + mid).jobs
    requires NoClaimOf(mid, id) && NoRetryOf(mid, id)
    requires Claimable(After(config, pre + mid).jobs[id], due - 1)
    ensures CutsShort(config, pre, mid, id, due)
  {
    Extend(config, pre + mid, Claims(id, "w", due - 1));
    assert ClaimedBefore(config, pre + mid, id, due, "w", due - 1);
  }

  lemma NotDueCutsNothing(config: Config, pre: seq<Event>, mid: seq<Event>, id: JobId, due: int)
    requires Feasible(config, pre + mid) ==>
      id in After(config, pre + mid).jobs && NotDueBefore(After(config, pre + mid).jobs[id], due)
    ensures !CutsShort(config, pre, mid, id, due)
  {
    forall worker, clock ensures !ClaimedBefore(config, pre + mid, id, due, worker, clock) {
      assert Front(pre + mid + [Claims(id, worker, clock)]) == pre + mid;
      if Feasible(config, pre + mid) { Extend(config, pre + mid, Claims(id, worker, clock)); }
    }
  }

  /** Whatever the clocks, backoff can be cut short exactly when, once the requeue is written, some
      other claim of the job can still requeue it. */
  lemma BackoffIsCutShortIff(config: Config, es: seq<Event>, fail: Event, id: JobId)
    requires RequeuedBy(config, es, fail, id)
    ensures Feasible(config, es + [fail])
    ensures (exists mid ::
               CutsShort(config, es + [fail], mid, id, DueAfter(config, After(config, es).claims[fail.c], fail.clock)))
       <==> SomeCanRequeue(After(config, es + [fail]), id)
  {
    var pre, due := es + [fail], DueAfter(config, After(config, es).claims[fail.c], fail.clock);
    RequeueSetsDue(config, es, fail, id);
    var s := After(config, pre);
    if SomeCanRequeue(s, id) {
      var c :| 0 <= c < |s.claims| && CanRequeue(s, s.claims[c], id);
      var mid := RequeueAt(config, pre, c, id, due - 1 - WouldWait(config, s, s.claims[c], id));
      ClaimableCutsShort(config, pre, mid, id, due);
    } else {
      forall mid ensures !CutsShort(config, pre, mid, id, due) {
        if NoClaimOf(mid, id) && NoRetryOf(mid, id) {
          if Feasible(config, pre + mid) { UnrequeueableRun(config, pre, mid, id); }
          NotDueCutsNothing(config, pre, mid, id, due);
        }
      }
    }
  }

  // The same when failing claims write no earlier, by their clocks, than the first requeue was written.

  predicate WritesFrom(es: seq<Event>, from: int) {
    forall k :: 0 <= k < |es| && es[k].FailWrites? ==> from <= es[k].clock
  }

  predicate RequeuesSooner(config: Config, s: System, c: Claim, id: JobId, wait: nat) {
    CanRequeue(s, c, id) && WouldWait(config, s, c, id) < wait
  }

  ghost predicate SomeRequeuesSooner(config: Config, s: System, id: JobId, wait: nat) {
    exists c :: 0 <= c < |s.claims| && RequeuesSooner(config, s, s.claims[c], id, wait)
  }

  lemma StepKeepsLate(config: Config, s: System, e: Event, id: JobId, c: nat, wait: nat)
    requires Enabled(s, e) && id in s.jobs && s.jobs[id].status != Running && c < |s.claims|
    requires !(e.Claims? && e.id == id) && !(e.Retries? && e.id == id)
    requires !RequeuesSooner(config, s, s.claims[c], id, wait)
    ensures c < |Step(config, s, e).claims|
    ensures !RequeuesSooner(config, Step(config, s, e), Step(config, s, e).claims[c], id, wait)
  {
  }

  lemma LateStep(config: Config, s: System, e: Event, id: JobId, from: int, wait: nat)
    requires Enabled(s, e) && id in s.jobs && NotDueBefore(s.jobs[id], from + wait)
    requires !SomeRequeuesSooner(config, s, id, wait)
    requires !(e.Claims? && e.id == id) && !(e.Retries? && e.id == id) && (e.FailWrites? ==> from <= e.clock)
    ensures id in Step(config, s, e).jobs && NotDueBefore(Step(config, s, e).jobs[id], from + wait)
    ensures !SomeRequeuesSooner(config, Step(config, s, e), id, wait)
  {
    StepOnClaims(config, s, e);
    forall c | 0 <= c < |Step(config, s, e).claims|
      ensures !RequeuesSooner(config, Step(config, s, e), Step(config, s, e).claims[c], id, wait)
    {
      if c < |s.claims| { StepKeepsLate(config, s, e, id, c, wait); }
    }
    if e.FailWrites? { assert !RequeuesSooner(config, s, s.claims[e.c], id, wait); }
    StepKeepsDue(config, s, e, id, from + wait);
  }

  lemma {:induction false} LateRun(config: Config, pre: seq<Event>, mid: seq<Event>, id: JobId, from: int, wait: nat)
    requires Feasible(config, pre) && id in After(config, pre).jobs
    requires NotDueBefore(After(config, pre).jobs[id], from + wait)
    requires !SomeRequeuesSooner(config, After(config, pre), id, wait)
    requires Feasible(config, pre + mid) && NoRetryOf(mid, id) && NoClaimOf(mid, id) && WritesFrom(mid, from)
    ensures id in After(config, pre + mid).jobs && NotDueBefore(After(config, pre + mid).jobs[id], from + wait)
    ensures !SomeRequeuesSooner(config, After(config, pre + mid), id, wait)
  {
    if mid == [] {
      assert pre + mid == pre;
    } else {
      assert Front(pre + mid) == pre + Front(mid);
      assert Last(mid) == mid[|mid| - 1];
      LateRun(config, pre, Front(mid), id, from, wait);
      LateStep(config, After(config, pre + Front(mid)), Last(mid), id, from, wait);
    }
  }

  /** With clocks that do not go back, backoff can be cut short exactly when some other claim of the
      job can still requeue it and would count its wait from a smaller attempt, short of the cap. */
  lemma BackoffIsCutShortInTimeIff(config: Config, es: seq<Event>, fail: Event, id: JobId)
    requires RequeuedBy(config, es, fail, id)
    ensures Feasible(config, es + [fail])
    ensures var claim := After(config, es).claims[fail.c];
      (exists mid ::
         WritesFrom(mid, fail.clock) && CutsShort(config, es + [fail], mid, id, DueAfter(config, claim, fail.clock)))
      <==> SomeRequeuesSooner(config, After(config, es + [fail]), id,
                              Exp(claim.phase.seen, config.backoffBaseMs, config.backoffMaxMs))
  {
    var pre, due := es + [fail], DueAfter(config, After(config, es).claims[fail.c], fail.clock);
    var wait := Exp(After(config, es).claims[fail.c].phase.seen, config.backoffBaseMs, config.backoffMaxMs);
    RequeueSetsDue(config, es, fail, id);
    var s := After(config, pre);
    if SomeRequeuesSooner(config, s, id, wait) {
      var c :| 0 <= c < |s.claims| && RequeuesSooner(config, s, s.claims[c], id, wait);
      var mid := RequeueAt(config, pre, c, id, fail.clock);
      ClaimableCutsShort(config, pre, mid, id, due);
    } else {
      forall mid | WritesFrom(mid, fail.clock) ensures !CutsShort(config, pre, mid, id, due) {
        if NoClaimOf(mid, id) && NoRetryOf(mid, id) {
          if Feasible(config, pre + mid) { LateRun(config, pre, mid, id, fail.clock, wait); }
          NotDueCutsNothing(config, pre, mid, id, due);
        }
      }
    }
  }

  ghost predicate Reopens(config: Config, pre: seq<Event>, mid: seq<Event>, id: JobId) {
    && Feasible(config, pre + mid) && id in After(config, pre + mid).jobs
    && After(config, pre + mid).jobs[id].status == RetryWait
  }

  /** A completed job can be put back in the queue exactly when some claim of it can still requeue it. */
  lemma CompletedIsReopenedIff(config: Config, es: seq<Event>, id: JobId)
    requires Feasible(config, es) && id in After(config, es).jobs && After(config, es).jobs[id].status == Completed
    ensures (exists mid :: NoRetryOf(mid, id) && Reopens(config, es, mid, id))
       <==> SomeCanRequeue(After(config, es), id)
  {
    if SomeCanRequeue(After(config, es), id) {
      var c :| 0 <= c < |After(config, es).claims| && CanRequeue(After(config, es), After(config, es).claims[c], id);
      var mid := RequeueAt(config, es, c, id, 0);
      assert Reopens(config, es, mid, id);
    } else {
      forall mid | NoRetryOf(mid, id) ensures !Reopens(config, es, mid, id) {
        if Feasible(config, es + mid) { UnrequeueableRun(config, es, mid, id); }
      }
    }
  }
}
