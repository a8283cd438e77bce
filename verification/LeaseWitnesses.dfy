/** Runs that attain the queue's bounds or break what its theorems keep, and with them the exact
    conditions: when leases exclude, and when the attempt ceiling holds. */
module LeaseWitnesses {
  import opened Wrappers
  import opened Backoff
  import opened JobQueue
  import opened LeaseProtocol
  import opened LeaseTheorems
  import opened LeaseBackoff

  const RETRYABLE := Failure("PROCESSING_ERROR", "down", true, 0)
  const FATAL := Failure("PROCESSING_ERROR", "not retryable", false, 0)
  const SUMMARY := Summary(1, 0, 0)

  function JobFrom(maxAttempts: int, start: int): Job {
    NewJob("ws", "op", "corr", None, None, "idem-key", maxAttempts, 20000, start)
  }

  // The attempt bound is attained.

  /** What AttemptBound counts. */
  datatype Tally = Tally(attempts: int, recoveries: nat, staleRequeues: nat)

  function TallyOf(s: System, id: JobId): Tally
    requires id in s.jobs
  {
    Tally(s.jobs[id].attempts, LedgerOf(s, id).recoveries, LedgerOf(s, id).staleRequeues)
  }

  /** Claims from before the last manual retry, which have read the job just after it. */
  predicate AreStale(s: System, id: JobId, stale: set<nat>) {
    forall c :: c in stale ==>
      && c < |s.claims| && s.claims[c].jobId == id
      && s.claims[c].phase == ReadForFail(0) && s.claims[c].epoch < LedgerOf(s, id).epoch
  }

  ghost predicate IsWaitingRun(config: Config, es: seq<Event>, id: JobId, m: int, t: Tally, stale: set<nat>) {
    && Feasible(config, es) && id in After(config, es).jobs
    && var s := After(config, es); var j := s.jobs[id];
      && Waiting(j) && j.leaseUntil == None && j.maxAttempts == m
      && TallyOf(s, id) == t && AreStale(s, id, stale)
  }

  predicate IsAtWork(s: System, id: JobId, c: int) {
    && 0 <= c < |s.claims| && s.claims[c].jobId == id
    && s.claims[c].phase == Working && s.claims[c].epoch == LedgerOf(s, id).epoch
  }

  /** A run whose last claim is at work on the job. */
  ghost predicate IsClaimedRun(config: Config, es: seq<Event>, id: JobId, m: int, t: Tally, stale: set<nat>) {
    && Feasible(config, es) && id in After(config, es).jobs
    && var s := After(config, es); var j := s.jobs[id];
      && j.status == Running && j.leaseUntil.Some? && j.maxAttempts == m
      && TallyOf(s, id) == t && AreStale(s, id, stale)
      && IsAtWork(s, id, |s.claims| - 1)
  }

  /** `es'` goes on from `es`: no manual retry of the job, that many recoveries of it, one more claim. */
  ghost predicate GoesOn(config: Config, es: seq<Event>, es': seq<Event>, id: JobId, recoveries: nat)
    requires Feasible(config, es) && Feasible(config, es')
  {
    && Recoveries(es', id) == Recoveries(es, id) + recoveries
    && (NoRetryOf(es, id) ==> NoRetryOf(es', id))
    && |After(config, es').claims| == |After(config, es).claims| + 1
  }

  lemma Next(config: Config, es: seq<Event>, e: Event, id: JobId)
    requires Feasible(config, es) && Enabled(After(config, es), e)
    ensures Feasible(config, es + [e]) && After(config, es + [e]) == Step(config, After(config, es), e)
    ensures Recoveries(es + [e], id) == Recoveries(es, id) + if e.Recovers? && e.id == id then 1 else 0
    ensures NoRetryOf(es, id) && !e.Retries? ==> NoRetryOf(es + [e], id)
  {
    Extend(config, es, e);
    assert Front(es + [e]) == es && Last(es + [e]) == e;
  }

  lemma ClaimAgain(config: Config, es: seq<Event>, id: JobId, m: int, t: Tally, stale: set<nat>)
    returns (es': seq<Event>)
    requires IsWaitingRun(config, es, id, m, t, stale)
    ensures IsClaimedRun(config, es', id, m, t.(attempts := t.attempts + 1), stale) && GoesOn(config, es, es', id, 0)
    ensures forall c :: IsAtWork(After(config, es), id, c) ==> IsAtWork(After(config, es'), id, c)
  {
    var claim := Claims(id, "w", After(config, es).jobs[id].nextRunAt);
    Next(config, es, claim, id);
    es' := es + [claim];
  }

  lemma RecoverAgain(config: Config, es: seq<Event>, id: JobId, m: int, t: Tally, stale: set<nat>)
    returns (es': seq<Event>)
    requires IsClaimedRun(config, es, id, m, t, stale)
    ensures IsClaimedRun(config, es', id, m, Tally(t.attempts + 1, t.recoveries + 1, t.staleRequeues), stale)
    ensures GoesOn(config, es, es', id, 1)
    ensures forall c :: IsAtWork(After(config, es), id, c) ==> IsAtWork(After(config, es'), id, c)
  {
    var recover := Recovers(id, After(config, es).jobs[id].leaseUntil.value);
    Next(config, es, recover, id);
    es' := ClaimAgain(config, es + [recover], id, m, t.(recoveries := t.recoveries + 1), stale);
  }

  lemma LastClaimRequeues(config: Config, es: seq<Event>, id: JobId, m: int, t: Tally, stale: set<nat>)
    returns (es': seq<Event>)
    requires IsClaimedRun(config, es, id, m, t, stale) && t.attempts < m
    ensures IsWaitingRun(config, es', id, m, t, stale)
    ensures Recoveries(es', id) == Recoveries(es, id) && (NoRetryOf(es, id) ==> NoRetryOf(es', id))
    ensures |After(config, es').claims| == |After(config, es).claims|
  {
    var c := |After(config, es).claims| - 1;
    var read, write := FailReads(c), FailWrites(c, RETRYABLE, 0, 0.0);
    Next(config, es, read, id);
    Next(config, es + [read], write, id);
    es' := es + [read] + [write];
  }

  /** Below the ceiling the last claim may fail and the job be claimed again. */
  lemma FailAgain(config: Config, es: seq<Event>, id: JobId, m: int, t: Tally, stale: set<nat>)
    returns (es': seq<Event>)
    requires IsClaimedRun(config, es, id, m, t, stale) && t.attempts < m
    ensures IsClaimedRun(config, es', id, m, t.(attempts := t.attempts + 1), stale) && GoesOn(config, es, es', id, 0)
  {
    var waiting := LastClaimRequeues(config, es, id, m, t, stale);
    es' := ClaimAgain(config, waiting, id, m, t, stale);
  }

  /** A stale claim's failure puts the running job back, and it is claimed again. */
  lemma StaleFailAgain(config: Config, es: seq<Event>, id: JobId, m: int, t: Tally, stale: set<nat>, c: nat)
    returns (es': seq<Event>)
    requires IsClaimedRun(config, es, id, m, t, stale) && c in stale && 0 < m
    ensures IsClaimedRun(config, es', id, m, Tally(t.attempts + 1, t.recoveries, t.staleRequeues + 1), stale - {c})
  {
    var write := FailWrites(c, RETRYABLE, 0, 0.0);
    Next(config, es, write, id);
    es' := ClaimAgain(config, es + [write], id, m, t.(staleRequeues := t.staleRequeues + 1), stale - {c});
  }

  // How claims become stale.

  lemma LastClaimDeadLetters(config: Config, es: seq<Event>, id: JobId, m: int, t: Tally, stale: set<nat>, a: nat)
    returns (es': seq<Event>)
    requires IsClaimedRun(config, es, id, m, t, stale)
    requires a < |After(config, es).claims| - 1 && IsAtWork(After(config, es), id, a)
    ensures Feasible(config, es') && id in After(config, es').jobs
    ensures var s := After(config, es'); var j := s.jobs[id];
      j.status == DeadLettered && j.maxAttempts == m && AreStale(s, id, stale) && IsAtWork(s, id, a)
  {
    var b := |After(config, es).claims| - 1;
    var read, write := FailReads(b), FailWrites(b, FATAL, 0, 0.0);
    Next(config, es, read, id);
    Next(config, es + [read], write, id);
    es' := es + [read] + [write];
  }

  lemma RetriedWhileAtWork(config: Config, es: seq<Event>, id: JobId, m: int, stale: set<nat>, a: nat)
    returns (es': seq<Event>)
    requires Feasible(config, es) && id in After(config, es).jobs && a !in stale
    requires var s := After(config, es); var j := s.jobs[id];
      j.status == DeadLettered && j.maxAttempts == m && AreStale(s, id, stale) && IsAtWork(s, id, a)
    ensures IsWaitingRun(config, es', id, m, Tally(0, 0, 0), stale + {a})
  {
    Next(config, es, Retries(id, 0), id);
    Next(config, es + [Retries(id, 0)], FailReads(a), id);
    es' := es + [Retries(id, 0)] + [FailReads(a)];
  }

  /** A job not yet claimed since its last manual retry, with that many stale claims. */
  lemma {:induction false} WithStaleClaims(config: Config, id: JobId, m: int, k: nat)
    returns (es: seq<Event>, stale: set<nat>)
    ensures IsWaitingRun(config, es, id, m, Tally(0, 0, 0), stale) && |stale| == k
    ensures k == 0 ==> NoRetryOf(es, id) && Recoveries(es, id) == 0
  {
    if k == 0 {
      var create := Create(id, JobFrom(m, 0));
      Next(config, [], create, id);
      assert [] + [create] == [create];
      es, stale := [create], {};
    } else {
      es, stale := WithStaleClaims(config, id, m, k - 1);
      var a := |After(config, es).claims|;
      assert a !in stale;
      es := ClaimAgain(config, es, id, m, Tally(0, 0, 0), stale);
      es := RecoverAgain(config, es, id, m, Tally(1, 0, 0), stale);
      es := LastClaimDeadLetters(config, es, id, m, Tally(2, 1, 0), stale, a);
      es := RetriedWhileAtWork(config, es, id, m, stale, a);
      stale := stale + {a};
    }
  }

  lemma {:induction false} ClimbToCeiling(config: Config, es0: seq<Event>, id: JobId, m: int, stale: set<nat>, n: nat)
    returns (es: seq<Event>)
    requires IsWaitingRun(config, es0, id, m, Tally(0, 0, 0), stale) && 1 <= n && (n == 1 || n <= m)
    ensures IsClaimedRun(config, es, id, m, Tally(n, 0, 0), stale)
    ensures Recoveries(es, id) == Recoveries(es0, id) && (NoRetryOf(es0, id) ==> NoRetryOf(es, id))
    decreases n
  {
    if n == 1 {
      es := ClaimAgain(config, es0, id, m, Tally(0, 0, 0), stale);
    } else {
      es := ClimbToCeiling(config, es0, id, m, stale, n - 1);
      es := FailAgain(config, es, id, m, Tally(n - 1, 0, 0), stale);
    }
  }

  lemma {:induction false} RecoverTimes(config: Config, es0: seq<Event>, id: JobId,
                                        m: int, n: int, stale: set<nat>, r: nat)
    returns (es: seq<Event>)
    requires IsClaimedRun(config, es0, id, m, Tally(n, 0, 0), stale)
    ensures IsClaimedRun(config, es, id, m, Tally(n + r, r, 0), stale)
    ensures Recoveries(es, id) == Recoveries(es0, id) + r && (NoRetryOf(es0, id) ==> NoRetryOf(es, id))
    decreases r
  {
    if r == 0 {
      es := es0;
    } else {
      es := RecoverTimes(config, es0, id, m, n, stale, r - 1);
      es := RecoverAgain(config, es, id, m, Tally(n + r - 1, r - 1, 0), stale);
    }
  }

  lemma {:induction false} StaleFailAll(config: Config, es0: seq<Event>, id: JobId, m: int, t: Tally, stale: set<nat>)
    returns (es: seq<Event>)
    requires IsClaimedRun(config, es0, id, m, t, stale) && (stale == {} || 0 < m)
    ensures IsClaimedRun(config, es, id, m, Tally(t.attempts + |stale|, t.recoveries, t.staleRequeues + |stale|), {})
    ensures stale == {} ==> es == es0
    decreases |stale|
  {
    if stale == {} {
      es := es0;
    } else {
      var c :| c in stale;
      es := StaleFailAgain(config, es0, id, m, t, stale, c);
      es := StaleFailAll(config, es, id, m, Tally(t.attempts + 1, t.recoveries, t.staleRequeues + 1), stale - {c});
    }
  }

  /** AttemptBound is exact in all its terms: for every configuration, ceiling, r and k, some run
      counts r recoveries and k stale requeues since the last manual retry and makes the attempts
      that allows; with no attempt allowed nothing is ever requeued by a failure. Without stale
      requeues it needs no manual retry, so AttemptBoundBetweenRetries is exact too. */
  lemma AttemptBoundIsAttained(config: Config, id: JobId, m: int, r: nat, k: nat) returns (es: seq<Event>)
    requires k == 0 || m >= 1
    ensures Feasible(config, es) && id in After(config, es).jobs && After(config, es).jobs[id].maxAttempts == m
    ensures TallyOf(After(config, es), id) == Tally((if m < 1 then 1 else m) + r + k, r, k)
    ensures k == 0 ==> NoRetryOf(es, id) && Recoveries(es, id) == r
  {
    var ceiling := if m < 1 then 1 else m;
    var stale;
    es, stale := WithStaleClaims(config, id, m, k);
    es := ClimbToCeiling(config, es, id, m, stale, ceiling);
    es := RecoverTimes(config, es, id, m, ceiling, stale, r);
    es := StaleFailAll(config, es, id, m, Tally(ceiling + r, r, 0), stale);
  }

  /** A run with `r` recoveries of a job that allows `m` attempts. */
  ghost predicate IsRunWith(config: Config, es: seq<Event>, id: JobId, m: int, r: nat) {
    && Feasible(config, es) && Recoveries(es, id) == r
    && id in After(config, es).jobs && After(config, es).jobs[id].maxAttempts == m
  }

  /** The ceiling is guaranteed exactly when nothing was recovered, over all runs, manual retries
      and stale writers included: neither claiming nor recovering looks at it. */
  lemma CeilingHoldsIff(config: Config, id: JobId, m: int, r: nat)
    ensures (forall es :: IsRunWith(config, es, id, m, r) ==> WithinCeiling(config, es, id)) <==> r == 0
  {
    if r == 0 {
      forall es | IsRunWith(config, es, id, m, 0) ensures WithinCeiling(config, es, id) {
        UnrecoveredIsWithinCeiling(config, es, id);
      }
    } else {
      var es := AttemptBoundIsAttained(config, id, m, r, 0);
      assert IsRunWith(config, es, id, m, r) && !WithinCeiling(config, es, id);
    }
  }

  // Exclusion needs renewal in time.

  /** The longest a holder may let its lease write age, whatever clocks within epsilon do. */
  function Tolerated(config: Config, epsilon: nat): int {
    if 2 * epsilon <= config.leaseMs then config.leaseMs - 2 * epsilon else 0
  }

  lemma {:induction false} SmallerGap(config: Config, epsilon: nat, gap: int, larger: int, es: seq<Event>)
    requires RenewedWithin(config, epsilon, gap, es) && gap <= larger
    ensures RenewedWithin(config, epsilon, larger, es)
  {
    if es != [] {
      SmallerGap(config, epsilon, gap, larger, Front(es));
    }
  }

  /** With no age tolerated at all, nothing can follow a first claim. */
  lemma {:induction false} NothingFollowsAClaim(config: Config, epsilon: nat, gap: int, es: seq<Event>)
    requires RenewedWithin(config, epsilon, gap, es) && gap <= 0
    ensures var s := After(config, es);
      |s.claims| <= 1
      && (|s.claims| == 1 ==> && Live(s.claims[0]) && s.claims[0].renewedAt <= s.now
                              && s.claims[0].jobId in s.jobs && s.jobs[s.claims[0].jobId].status == Running)
  {
    if es != [] {
      NothingFollowsAClaim(config, epsilon, gap, Front(es));
      assert After(config, Front(es)).claims == [];
    }
  }

  lemma RenewedIsExclusive(config: Config, epsilon: nat, gap: int, es: seq<Event>)
    requires RenewedWithin(config, epsilon, gap, es) && gap <= Tolerated(config, epsilon)
    ensures Exclusive(After(config, es))
  {
    var s := After(config, es);
    if gap <= config.leaseMs - 2 * epsilon {
      SmallerGap(config, epsilon, gap, config.leaseMs - 2 * epsilon, es);
      forall c, d | 0 <= c < d < |s.claims| && Live(s.claims[c]) && Live(s.claims[d])
        ensures s.claims[c].jobId != s.claims[d].jobId
      {
        LeaseExclusion(config, epsilon, es, c, d);
      }
    } else {
      NothingFollowsAClaim(config, epsilon, gap, es);
    }
  }

  lemma Then(config: Config, epsilon: nat, gap: int, es: seq<Event>, s: System, e: Event)
    requires RenewedWithin(config, epsilon, gap, es) && After(config, es) == s && Enabled(s, e)
    requires Timely(gap, s) && ClockWithin(s.now, e, epsilon)
    ensures RenewedWithin(config, epsilon, gap, es + [e]) && After(config, es + [e]) == Step(config, s, e)
  {
    Extend(config, es, e);
    assert Front(es + [e]) == es;
  }

  /** `es` leads to `s` with every renewal in time so far. */
  ghost predicate Reaches(config: Config, epsilon: nat, gap: int, es: seq<Event>, s: System) {
    RenewedWithin(config, epsilon, gap, es) && After(config, es) == s && Timely(gap, s)
  }

  lemma ThenTick(config: Config, epsilon: nat, gap: int, es: seq<Event>, s: System, to: int)
    requires Reaches(config, epsilon, gap, es, s) && s.now <= to
    ensures RenewedWithin(config, epsilon, gap, es + [Tick(to)])
    ensures After(config, es + [Tick(to)]) == s.(now := to)
  {
    Then(config, epsilon, gap, es, s, Tick(to));
  }

  lemma ThenReads(config: Config, epsilon: nat, gap: int, es: seq<Event>, s: System, c: nat)
    requires Reaches(config, epsilon, gap, es, s)
    requires c < |s.claims| && AtWork(s.claims[c]) && s.claims[c].jobId in s.jobs
    ensures Reaches(config, epsilon, gap, es + [FailReads(c)],
                    WithPhase(s, c, ReadForFail(s.jobs[s.claims[c].jobId].attempts)))
  {
    Then(config, epsilon, gap, es, s, FailReads(c));
  }

  lemma ThenRecovers(config: Config, epsilon: nat, gap: int, es: seq<Event>, s: System, id: JobId, clock: int)
    requires Reaches(config, epsilon, gap, es, s) && id in s.jobs && id in s.ledger
    requires Abandoned(s.jobs[id], clock) && s.now - epsilon <= clock <= s.now + epsilon
    ensures Reaches(config, epsilon, gap, es + [Recovers(id, clock)],
                    WithJob(s, id, Recovered(s.jobs[id], clock),
                            s.ledger[id].(recoveries := s.ledger[id].recoveries + 1)))
  {
    Then(config, epsilon, gap, es, s, Recovers(id, clock));
  }

  lemma ThenClaims(config: Config, epsilon: nat, gap: int, es: seq<Event>, s: System, id: JobId,
                   worker: WorkerId, clock: int) returns (s': System)
    requires RenewedWithin(config, epsilon, gap, es) && After(config, es) == s && Timely(gap, s)
    requires id in s.jobs && id in s.ledger && Claimable(s.jobs[id], clock)
    requires s.now - epsilon <= clock <= s.now + epsilon
    ensures var l := s.ledger[id];
      s' == WithJob(s, id, Claimed(s.jobs[id], worker, clock, config.leaseMs), l.(claims := l.claims + 1))
            .(claims := s.claims + [Claim(id, worker, l.epoch, s.jobs[id].attempts + 1, s.now, Working)])
    ensures RenewedWithin(config, epsilon, gap, es + [Claims(id, worker, clock)])
    ensures After(config, es + [Claims(id, worker, clock)]) == s'
  {
    Then(config, epsilon, gap, es, s, Claims(id, worker, clock));
    s' := Step(config, s, Claims(id, worker, clock));
  }

  /** Job 0 is created and claimed at time 0, by clocks as far behind as allowed. */
  function StartClaimed(config: Config, start: int): System {
    System(0, map[0 := Claimed(JobFrom(3, start), "a", start, config.leaseMs)], map[0 := Ledger(0, 1, {}, {}, 0, 0)],
           [Claim(0, "a", 0, 1, 0, Working)])
  }

  lemma ClaimedAtStart(config: Config, epsilon: nat, gap: int, start: int)
    requires start + epsilon == 0
    ensures var es := [Create(0, JobFrom(3, start)), Claims(0, "a", start)];
      RenewedWithin(config, epsilon, gap, es) && After(config, es) == StartClaimed(config, start)
  {
    var create, claim := Create(0, JobFrom(3, start)), Claims(0, "a", start);
    assert [] + [create] == [create] && [create] + [claim] == [create, claim];
    Then(config, epsilon, gap, [], EMPTY, create);
    Then(config, epsilon, gap, [create], Step(config, EMPTY, create), claim);
  }

  /** Then the tolerated age passes, the first claim still at work or, if it has `read`, about to fail. */
  function Waited(config: Config, start: int, late: int, read: bool): System {
    StartClaimed(config, start)
    .(now := late, claims := [Claim(0, "a", 0, 1, 0, if read then ReadForFail(1) else Working)])
  }

  lemma WaitsTooLong(config: Config, epsilon: nat, gap: int, read: bool) returns (es: seq<Event>)
    requires gap > Tolerated(config, epsilon)
    ensures Reaches(config, epsilon, gap, es, Waited(config, 0 - epsilon, Tolerated(config, epsilon), read))
  {
    var start: int := 0 - epsilon;
    es := [Create(0, JobFrom(3, start)), Claims(0, "a", start)];
    ClaimedAtStart(config, epsilon, gap, start);
    if read {
      ThenReads(config, epsilon, gap, es, StartClaimed(config, start), 0);
      es := es + [FailReads(0)];
    }
    ThenTick(config, epsilon, gap, es, Waited(config, start, 0, read), Tolerated(config, epsilon));
    es := es + [Tick(Tolerated(config, epsilon))];
  }

  /** And a clock that is as far ahead as allowed recovers the job, and it is claimed again. */
  function Retaken(config: Config, start: int, late: int, clock: int, read: bool): System {
    var s := Waited(config, start, late, read);
    var j := Claimed(Recovered(s.jobs[0], clock), "b", clock, config.leaseMs);
    System(late, map[0 := j], map[0 := Ledger(0, 2, {}, {}, 1, 0)], s.claims + [Claim(0, "b", 0, 2, late, Working)])
  }

  lemma TakenFromLateHolder(config: Config, epsilon: nat, gap: int, read: bool) returns (es: seq<Event>)
    requires gap > Tolerated(config, epsilon)
    ensures var late := Tolerated(config, epsilon);
      Reaches(config, epsilon, gap, es, Retaken(config, 0 - epsilon, late, late + epsilon, read))
  {
    var late := Tolerated(config, epsilon);
    var clock := late + epsilon;
    es := WaitsTooLong(config, epsilon, gap, read);
    var s := Waited(config, 0 - epsilon, late, read);
    ThenRecovers(config, epsilon, gap, es, s, 0, clock);
    es := es + [Recovers(0, clock)];
    var s' := ThenClaims(config, epsilon, gap, es,
                         WithJob(s, 0, Recovered(s.jobs[0], clock), Ledger(0, 1, {}, {}, 1, 0)),
                         0, "b", clock);
    es := es + [Claims(0, "b", clock)];
    assert s' == Retaken(config, 0 - epsilon, late, clock, read);
  }

  /** Leases exclude exactly when holders renew within leaseMs less twice the clock error: for any
      clocks within epsilon of true time, no run in which every live claim on a running job renewed
      less than `gap` ago has two live claims of a job, if and only if `gap` is at most that. */
  lemma ExclusionHoldsIff(config: Config, epsilon: nat, gap: int)
    ensures (forall es :: RenewedWithin(config, epsilon, gap, es) ==> Exclusive(After(config, es)))
       <==> gap <= Tolerated(config, epsilon)
  {
    if gap <= Tolerated(config, epsilon) {
      forall es | RenewedWithin(config, epsilon, gap, es) ensures Exclusive(After(config, es)) {
        RenewedIsExclusive(config, epsilon, gap, es);
      }
    } else {
      var es := TakenFromLateHolder(config, epsilon, gap, false);
      assert !Exclusive(After(config, es)) by {
        assert Live(After(config, es).claims[0]) && Live(After(config, es).claims[1]);
      }
    }
  }

  /** The tolerated age is exact already for one recovery: a disciplined run, a claim at work whose
      lease write has just reached that age, and a recovery that takes its job. */
  lemma RenewalGapIsTight(config: Config, epsilon: nat) returns (es: seq<Event>, clock: int)
    requires 2 * epsilon <= config.leaseMs
    ensures Disciplined(config, epsilon, es)
    ensures var s := After(config, es);
      && |s.claims| == 1 && Live(s.claims[0])
      && s.now - s.claims[0].renewedAt == config.leaseMs - 2 * epsilon
      && ClockWithin(s.now, Recovers(0, clock), epsilon)
      && Enabled(s, Recovers(0, clock))
  {
    var gap, start: int := config.leaseMs - 2 * epsilon, 0 - epsilon;
    es, clock := [Create(0, JobFrom(3, start)), Claims(0, "a", start)], gap + epsilon;
    ClaimedAtStart(config, epsilon, gap, start);
    if gap > 0 {
      Then(config, epsilon, gap, es, StartClaimed(config, start), Tick(gap));
      es := es + [Tick(gap)];
    }
  }

  // What a late holder can still do. Nothing but its late renewal is at fault in these runs.

  /** A completed job is reopened by the first claim failing. */
  lemma StaleFailReopensCompletedJob(config: Config, epsilon: nat, gap: int) returns (es: seq<Event>, fail: Event)
    requires gap > Tolerated(config, epsilon)
    ensures RenewedWithin(config, epsilon, gap, es) && RenewedWithin(config, epsilon, gap, es + [fail])
    ensures 0 in After(config, es).jobs && After(config, es).jobs[0].status == Completed
    ensures 0 in After(config, es + [fail]).jobs && After(config, es + [fail]).jobs[0].status == RetryWait
  {
    var now := Tolerated(config, epsilon);
    var done := Completes(1, SUMMARY, now);
    fail := FailWrites(0, RETRYABLE, now, 0.0);
    es := TakenFromLateHolder(config, epsilon, gap, true);
    var s := Retaken(config, 0 - epsilon, now, now + epsilon, true);
    Then(config, epsilon, gap, es, s, done);
    Then(config, epsilon, gap, es + [done], Step(config, s, done), fail);
    es := es + [done];
  }

  /** Both claims have read, the first at attempt 1 and the second at attempt 2. */
  lemma BothRead(config: Config, epsilon: nat, gap: int) returns (es: seq<Event>, s: System)
    requires gap > Tolerated(config, epsilon)
    ensures Reaches(config, epsilon, gap, es, s)
    ensures
      && s.now == Tolerated(config, epsilon) && 0 in s.jobs && s.jobs[0].maxAttempts == 3
      && s.claims == [Claim(0, "a", 0, 1, 0, ReadForFail(1)), Claim(0, "b", 0, 2, s.now, ReadForFail(2))]
  {
    var now := Tolerated(config, epsilon);
    es := TakenFromLateHolder(config, epsilon, gap, true);
    s := Retaken(config, 0 - epsilon, now, now + epsilon, true);
    ThenReads(config, epsilon, gap, es, s, 1);
    es, s := es + [FailReads(1)], WithPhase(s, 1, ReadForFail(2));
  }

  /** The second claim's failure is followed by the first's, and the job is claimed when the shorter
      of the two waits is over. */
  lemma StaleFailShortensBackoff(config: Config, epsilon: nat, gap: int)
    returns (es: seq<Event>, fail: Event, mid: seq<Event>, claim: Event)
    requires gap > Tolerated(config, epsilon) && 0 < config.backoffBaseMs < config.backoffMaxMs
    ensures RequeuedBy(config, es, fail, 0) && claim.Claims? && claim.id == 0 && NoClaimOf(mid, 0) && NoRetryOf(mid, 0)
    ensures RenewedWithin(config, epsilon, gap, es + [fail] + mid + [claim])
    ensures claim.clock < DueAfter(config, After(config, es).claims[fail.c], fail.clock)
  {
    var s;
    es, s := BothRead(config, epsilon, gap);
    var over: int := s.now + config.backoffBaseMs;
    var stale := FailWrites(0, RETRYABLE, s.now, 0.0);
    fail, claim, mid := FailWrites(1, RETRYABLE, s.now, 0.0), Claims(0, "c", over), [stale, Tick(over)];
    FailsBoth(config, epsilon, gap, es, s, fail, stale);
    var s1 := After(config, es + [fail] + [stale]);
    ThenTick(config, epsilon, gap, es + [fail] + [stale], s1, over);
    assert es + [fail] + mid == es + [fail] + [stale] + [Tick(over)];
    var _ := ThenClaims(config, epsilon, gap, es + [fail] + mid, s1.(now := over), 0, "c", over);
    ShorterWait(config);
  }

  lemma ShorterWait(config: Config)
    requires 0 < config.backoffBaseMs < config.backoffMaxMs
    ensures Exp(1, config.backoffBaseMs, config.backoffMaxMs) == config.backoffBaseMs
    ensures Delay(1, config.backoffBaseMs, config.backoffMaxMs, 0.0) == config.backoffBaseMs
    ensures Exp(2, config.backoffBaseMs, config.backoffMaxMs) > config.backoffBaseMs
  {
    assert Pow2(0) == 1 && Pow2(1) == 2;
    UnjitteredDelay(1, config.backoffBaseMs, config.backoffMaxMs);
  }

  lemma FailsBoth(config: Config, epsilon: nat, gap: int, es: seq<Event>, s: System, fail: Event, stale: Event)
    requires Reaches(config, epsilon, gap, es, s) && 0 in s.jobs && s.jobs[0].maxAttempts == 3
    requires s.claims == [Claim(0, "a", 0, 1, 0, ReadForFail(1)), Claim(0, "b", 0, 2, s.now, ReadForFail(2))]
    requires fail == FailWrites(1, RETRYABLE, s.now, 0.0) && stale == FailWrites(0, RETRYABLE, s.now, 0.0)
    requires 0 < config.backoffBaseMs < config.backoffMaxMs
    ensures RequeuedBy(config, es, fail, 0)
    ensures RenewedWithin(config, epsilon, gap, es + [fail] + [stale])
    ensures var s' := After(config, es + [fail] + [stale]);
      && s'.now == s.now && 0 in s'.jobs && 0 in s'.ledger && s'.jobs[0].status == RetryWait
      && s'.jobs[0].leaseUntil == None && s'.jobs[0].nextRunAt == s.now + config.backoffBaseMs
      && Timely(gap, s')
  {
    ShorterWait(config);
    Then(config, epsilon, gap, es, s, fail);
    Then(config, epsilon, gap, es + [fail], Step(config, s, fail), stale);
  }

  /** Discipline does not make completed final: when a `complete` is applied and yet reports an
      error, its own claim goes on to fail and reopens the job. */
  lemma LostCompleteReopensCompletedJob(config: Config, epsilon: nat) returns (es: seq<Event>, fail: Event)
    requires 2 * epsilon < config.leaseMs
    ensures Disciplined(config, epsilon, es) && Disciplined(config, epsilon, es + [fail])
    ensures 0 in After(config, es).jobs && After(config, es).jobs[0].status == Completed
    ensures 0 in After(config, es + [fail]).jobs && After(config, es + [fail]).jobs[0].status == RetryWait
  {
    var start: int, gap := 0 - epsilon, config.leaseMs - 2 * epsilon;
    var lost, read := LosesComplete(0, SUMMARY, 0), FailReads(0);
    fail := FailWrites(0, RETRYABLE, 0, 0.0);
    es := [Create(0, JobFrom(3, start)), Claims(0, "a", start)];
    ClaimedAtStart(config, epsilon, gap, start);
    var s := StartClaimed(config, start);
    Then(config, epsilon, gap, es, s, lost);
    var s1 := Step(config, s, lost);
    Then(config, epsilon, gap, es + [lost], s1, read);
    Then(config, epsilon, gap, es + [lost] + [read], Step(config, s1, read), fail);
    es := es + [lost] + [read];
  }
}
