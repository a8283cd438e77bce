/** When a job's outcome is final, and when a job that has one can be put back in the queue. */
module LeaseOutcomes {
  import opened Wrappers
  import opened JobQueue
  import opened LeaseProtocol
  import opened LeaseTheorems

  predicate Terminal(j: Job) {
    j.status == Completed || j.status == DeadLettered
  }

  /** The job's document is the same after `mid` as before, if that can happen at all. */
  ghost predicate Keeps(config: Config, es: seq<Event>, mid: seq<Event>, id: JobId)
    requires Feasible(config, es) && id in After(config, es).jobs
  {
    Feasible(config, es + mid) ==>
      id in After(config, es + mid).jobs && After(config, es + mid).jobs[id] == After(config, es).jobs[id]
  }

  /** Nothing that can follow changes the job. */
  ghost predicate Final(config: Config, es: seq<Event>, id: JobId)
    requires Feasible(config, es) && id in After(config, es).jobs
  {
    forall mid :: Keeps(config, es, mid, id)
  }

  ghost predicate FinalUntilRetried(config: Config, es: seq<Event>, id: JobId)
    requires Feasible(config, es) && id in After(config, es).jobs
  {
    forall mid :: NoRetryOf(mid, id) ==> Keeps(config, es, mid, id)
  }

  lemma TerminalStep(config: Config, s: System, e: Event, id: JobId)
    requires Enabled(s, e) && id in s.jobs && Terminal(s.jobs[id]) && NoLiveClaimOf(s, id)
    requires s.jobs[id].status == Completed || !(e.Retries? && e.id == id)
    ensures id in Step(config, s, e).jobs && Step(config, s, e).jobs[id] == s.jobs[id]
    ensures NoLiveClaimOf(Step(config, s, e), id)
  {
    StepOnClaims(config, s, e);
    forall c | 0 <= c < |Step(config, s, e).claims| && Live(Step(config, s, e).claims[c])
      ensures Step(config, s, e).claims[c].jobId != id
    {
      if c < |s.claims| { StillLive(config, s, e, c); }
    }
  }

  lemma {:induction false} TerminalRun(config: Config, es: seq<Event>, mid: seq<Event>, id: JobId)
    requires Feasible(config, es) && Feasible(config, es + mid)
    requires id in After(config, es).jobs && Terminal(After(config, es).jobs[id])
    requires NoLiveClaimOf(After(config, es), id)
    requires After(config, es).jobs[id].status == Completed || NoRetryOf(mid, id)
    ensures Keeps(config, es, mid, id) && NoLiveClaimOf(After(config, es + mid), id)
  {
    if mid == [] {
      assert es + mid == es;
    } else {
      assert Front(es + mid) == es + Front(mid);
      assert Last(mid) == mid[|mid| - 1];
      TerminalRun(config, es, Front(mid), id);
      TerminalStep(config, After(config, es + Front(mid)), Last(mid), id);
    }
  }

  /** A live claim of a terminal job can still fail it: a change, and by no manual retry. */
  lemma LiveClaimChanges(config: Config, es: seq<Event>, c: nat, id: JobId) returns (mid: seq<Event>)
    requires Feasible(config, es) && id in After(config, es).jobs && Terminal(After(config, es).jobs[id])
    requires c < |After(config, es).claims| && Live(After(config, es).claims[c])
    requires After(config, es).claims[c].jobId == id
    ensures NoRetryOf(mid, id) && !Keeps(config, es, mid, id)
  {
    var s := After(config, es);
    var clock := if s.jobs[id].completedAt == Some(0) then 1 else 0;
    var write := FailWrites(c, Failure("PROCESSING_ERROR", "not retryable", false, clock), clock, 0.0);
    if AtWork(s.claims[c]) {
      Extend(config, es, FailReads(c));
      Extend(config, es + [FailReads(c)], write);
      mid := [FailReads(c), write];
      assert es + [FailReads(c)] + [write] == es + mid;
    } else {
      Extend(config, es, write);
      mid := [write];
    }
  }

  /** Completed is final exactly when no claim of the job is still at work. */
  lemma CompletedIsFinalIff(config: Config, es: seq<Event>, id: JobId)
    requires Feasible(config, es) && id in After(config, es).jobs && After(config, es).jobs[id].status == Completed
    ensures Final(config, es, id) <==> NoLiveClaimOf(After(config, es), id)
  {
    if NoLiveClaimOf(After(config, es), id) {
      forall mid ensures Keeps(config, es, mid, id) {
        if Feasible(config, es + mid) { TerminalRun(config, es, mid, id); }
      }
    } else {
      var c :| 0 <= c < |After(config, es).claims| && Live(After(config, es).claims[c])
               && After(config, es).claims[c].jobId == id;
      var mid := LiveClaimChanges(config, es, c, id);
    }
  }

  /** Dead-lettered is final, short of a manual retry, exactly when no claim of the job is still at work. */
  lemma DeadLetteredIsFinalIff(config: Config, es: seq<Event>, id: JobId)
    requires Feasible(config, es) && id in After(config, es).jobs && After(config, es).jobs[id].status == DeadLettered
    ensures FinalUntilRetried(config, es, id) <==> NoLiveClaimOf(After(config, es), id)
  {
    if NoLiveClaimOf(After(config, es), id) {
      forall mid | NoRetryOf(mid, id) ensures Keeps(config, es, mid, id) {
        if Feasible(config, es + mid) { TerminalRun(config, es, mid, id); }
      }
    } else {
      var c :| 0 <= c < |After(config, es).claims| && Live(After(config, es).claims[c])
               && After(config, es).claims[c].jobId == id;
      var mid := LiveClaimChanges(config, es, c, id);
    }
  }

  // Discipline rules live claims out, unless a `complete` reports an error after it was applied.

  predicate NoLostCompletes(es: seq<Event>) {
    forall k :: 0 <= k < |es| ==> !es[k].LosesComplete?
  }

  ghost predicate LiveMeansRunning(s: System) {
    forall c :: 0 <= c < |s.claims| && Live(s.claims[c]) ==>
      s.claims[c].jobId in s.jobs && s.jobs[s.claims[c].jobId].status == Running
  }

  lemma BecomesCompleted(config: Config, s: System, e: Event, id: JobId)
    requires Enabled(s, e) && id in s.jobs && s.jobs[id].status == Running
    requires id in Step(config, s, e).jobs && Step(config, s, e).jobs[id].status == Completed && !e.LosesComplete?
    ensures e.Completes? && s.claims[e.c].jobId == id && !Live(Step(config, s, e).claims[e.c])
  {
  }

  lemma StepKeepsLiveRunning(config: Config, epsilon: nat, s: System, e: Event)
    requires Consistent(s) && AllHold(config, epsilon, s) && Enabled(s, e) && !e.LosesComplete?
    requires AllHold(config, epsilon, Step(config, s, e))
    requires LiveMeansRunning(s)
    ensures LiveMeansRunning(Step(config, s, e))
  {
    var s' := Step(config, s, e);
    StepOnClaims(config, s, e);
    forall c | 0 <= c < |s'.claims| && Live(s'.claims[c])
      ensures s'.claims[c].jobId in s'.jobs && s'.jobs[s'.claims[c].jobId].status == Running
    {
      assert Holds(config, epsilon, s', s'.claims[c]);
      if c < |s.claims| && s'.jobs[s'.claims[c].jobId].status == Completed {
        StillLive(config, s, e, c);
        BecomesCompleted(config, s, e, s.claims[c].jobId);
        SoleHolder(config, epsilon, s, c, e.c);
      }
    }
  }

  lemma {:induction false} DisciplinedLiveRunning(config: Config, epsilon: nat, es: seq<Event>)
    requires Disciplined(config, epsilon, es) && NoLostCompletes(es)
    ensures LiveMeansRunning(After(config, es))
  {
    if es != [] {
      assert Last(es) == es[|es| - 1];
      DisciplinedLiveRunning(config, epsilon, Front(es));
      ReachableConsistent(config, Front(es));
      DisciplinedAllHold(config, epsilon, Front(es));
      DisciplinedAllHold(config, epsilon, es);
      StepKeepsLiveRunning(config, epsilon, After(config, Front(es)), Last(es));
    }
  }

  /** Under discipline dead-lettered is final until a manual retry; completed is final if no
      `complete` has reported an error after it was applied. What follows need not be disciplined. */
  lemma TerminalForever(config: Config, epsilon: nat, es: seq<Event>, id: JobId)
    requires Disciplined(config, epsilon, es) && id in After(config, es).jobs
    ensures After(config, es).jobs[id].status == DeadLettered ==> FinalUntilRetried(config, es, id)
    ensures After(config, es).jobs[id].status == Completed && NoLostCompletes(es) ==> Final(config, es, id)
  {
    var s := After(config, es);
    DisciplinedAllHold(config, epsilon, es);
    if s.jobs[id].status == DeadLettered {
      forall c | 0 <= c < |s.claims| && Live(s.claims[c]) ensures s.claims[c].jobId != id {
        assert Holds(config, epsilon, s, s.claims[c]);
      }
      DeadLetteredIsFinalIff(config, es, id);
    } else if s.jobs[id].status == Completed && NoLostCompletes(es) {
      DisciplinedLiveRunning(config, epsilon, es);
      CompletedIsFinalIff(config, es, id);
    }
  }
}
