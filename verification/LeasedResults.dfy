/** The leased queue and the stored results together: each claim of a job runs its analysis and may
    complete the job only once it has stored all of it. Claims overlap, crash, time out and fail as
    in the queue's protocol, and their upserts interleave; the inventory does not change. */
module LeasedResults {
  import opened Wrappers
  import opened Policy
  import opened ResultStore
  import ExactlyOnce
  import JobQueue
  import LeaseProtocol

  /** The resources each job's query finds. */
  type Inventory = map<JobRef, seq<Resource>>

  /** Within a job's inventory identifiers are distinct, and a job is known by its workspace and id. */
  ghost predicate Sound(inventory: Inventory) {
    && (forall job :: job in inventory ==> DistinctIds(inventory[job]))
    && (forall a, b :: a in inventory && b in inventory && a.workspaceId == b.workspaceId && a.jobId == b.jobId ==>
          a == b)
  }

  function AnalysesOf(inventory: Inventory): ExactlyOnce.Analyses {
    map job | job in inventory :: AnalysisOf(inventory[job])
  }

  function RefOf(id: JobQueue.JobId, job: JobQueue.Job): JobRef {
    JobRef(job.workspaceId, id, job.correlationId)
  }

  /** What a claim's processing has under way: its run of upserts, and how many resources it found. */
  datatype Work = Work(run: nat, scanned: nat)

  datatype World = World(queue: LeaseProtocol.System, results: ExactlyOnce.World, works: map<nat, Work>)

  /** `Finds` is the query and the analysis, which list the inventory in some order. */
  datatype Event =
    | Queues(e: LeaseProtocol.Event)
    | Finds(c: nat, resources: seq<Resource>)
    | Upserts(run: nat)
    | Completes(c: nat, clock: int)
    | LosesComplete(c: nat, clock: int)

  const EMPTY := World(LeaseProtocol.EMPTY, ExactlyOnce.World(EMPTY_STORE, []), map[])

  function ClaimRef(w: World, c: nat): JobRef
    requires c < |w.queue.claims| && w.queue.claims[c].jobId in w.queue.jobs
  {
    RefOf(w.queue.claims[c].jobId, w.queue.jobs[w.queue.claims[c].jobId])
  }

  /** The claim has stored every finding of its analysis. */
  predicate HasStored(w: World, c: nat) {
    && c in w.works && w.works[c].run < |w.results.runs|
    && var r := w.results.runs[w.works[c].run]; r.pc == 2 * |r.fs|
  }

  function SummaryOf(w: World, c: nat): JobQueue.Summary
    requires HasStored(w, c)
  {
    var n := |w.results.runs[w.works[c].run].fs|;
    JobQueue.Summary(w.works[c].scanned, n, n)
  }

  predicate Enabled(inventory: Inventory, w: World, e: Event) {
    match e
    case Queues(q) => !q.Completes? && !q.LosesComplete? && LeaseProtocol.Enabled(w.queue, q)
    case Finds(c, resources) =>
      && c !in w.works
      && c < |w.queue.claims| && w.queue.claims[c].phase.Working? && w.queue.claims[c].jobId in w.queue.jobs
      && ClaimRef(w, c) in inventory && multiset(resources) == multiset(inventory[ClaimRef(w, c)])
    case Upserts(run) => ExactlyOnce.Enabled(AnalysesOf(inventory), w.results, ExactlyOnce.Advances(run))
    case Completes(c, clock) =>
      HasStored(w, c) && LeaseProtocol.Enabled(w.queue, LeaseProtocol.Completes(c, SummaryOf(w, c), clock))
    case LosesComplete(c, clock) =>
      HasStored(w, c) && LeaseProtocol.Enabled(w.queue, LeaseProtocol.LosesComplete(c, SummaryOf(w, c), clock))
  }

  lemma FoundIsListed(inventory: Inventory, job: JobRef, resources: seq<Resource>)
    requires job in inventory && multiset(resources) == multiset(inventory[job])
    ensures ExactlyOnce.Lists(AnalysesOf(inventory), job, AnalysisOf(resources))
    ensures |resources| == |inventory[job]|
  {
    ExactlyOnce.AnyOrderIsListed(AnalysesOf(inventory), job, inventory[job], resources);
    assert |multiset(resources)| == |multiset(inventory[job])|;
  }

  /** The part of an event that the queue sees, and the part that the results see. */
  function QueuePart(inventory: Inventory, w: World, e: Event): (q: Option<LeaseProtocol.Event>)
    requires Enabled(inventory, w, e)
    ensures q.Some? ==> LeaseProtocol.Enabled(w.queue, q.value)
  {
    match e
    case Queues(q) => Some(q)
    case Completes(c, clock) => Some(LeaseProtocol.Completes(c, SummaryOf(w, c), clock))
    case LosesComplete(c, clock) => Some(LeaseProtocol.LosesComplete(c, SummaryOf(w, c), clock))
    case _ => None
  }

  function ResultsPart(inventory: Inventory, w: World, e: Event): (r: Option<ExactlyOnce.Event>)
    requires Enabled(inventory, w, e)
    ensures r.Some? ==> ExactlyOnce.Enabled(AnalysesOf(inventory), w.results, r.value)
  {
    match e
    case Finds(c, resources) =>
      FoundIsListed(inventory, ClaimRef(w, c), resources);
      Some(ExactlyOnce.Starts(ClaimRef(w, c), AnalysisOf(resources)))
    case Upserts(run) => Some(ExactlyOnce.Advances(run))
    case _ => None
  }

  function Step(config: JobQueue.Config, inventory: Inventory, w: World, e: Event): World
    requires Enabled(inventory, w, e)
  {
    var q, r := QueuePart(inventory, w, e), ResultsPart(inventory, w, e);
    World(if q.Some? then LeaseProtocol.Step(config, w.queue, q.value) else w.queue,
          if r.Some? then ExactlyOnce.Step(AnalysesOf(inventory), w.results, r.value) else w.results,
          if e.Finds? then w.works[e.c := Work(|w.results.runs|, |e.resources|)] else w.works)
  }

  function Run(config: JobQueue.Config, inventory: Inventory, es: seq<Event>): Option<World> {
    if es == [] then Some(EMPTY)
    else
      var before := Run(config, inventory, es[..|es| - 1]);
      if before.Some? && Enabled(inventory, before.value, es[|es| - 1])
      then Some(Step(config, inventory, before.value, es[|es| - 1])) else None
  }

  // Each half of a run is a run of its own protocol, so all that is proved of those holds of it.

  lemma QueueGoesOn(config: JobQueue.Config, qs: seq<LeaseProtocol.Event>, q: LeaseProtocol.Event)
    requires LeaseProtocol.Feasible(config, qs) && LeaseProtocol.Enabled(LeaseProtocol.After(config, qs), q)
    ensures LeaseProtocol.Feasible(config, qs + [q])
    ensures LeaseProtocol.After(config, qs + [q]) == LeaseProtocol.Step(config, LeaseProtocol.After(config, qs), q)
  {
    assert LeaseProtocol.Front(qs + [q]) == qs;
  }

  lemma {:induction false} IsRunOfBoth(config: JobQueue.Config, inventory: Inventory, es: seq<Event>)
    returns (qs: seq<LeaseProtocol.Event>, rs: seq<ExactlyOnce.Event>)
    requires Run(config, inventory, es).Some?
    ensures LeaseProtocol.Feasible(config, qs)
    ensures LeaseProtocol.After(config, qs) == Run(config, inventory, es).value.queue
    ensures ExactlyOnce.Run(AnalysesOf(inventory), rs) == Some(Run(config, inventory, es).value.results)
  {
    if es == [] {
      qs, rs := [], [];
    } else {
      qs, rs := IsRunOfBoth(config, inventory, es[..|es| - 1]);
      var w, e := Run(config, inventory, es[..|es| - 1]).value, es[|es| - 1];
      var q, r := QueuePart(inventory, w, e), ResultsPart(inventory, w, e);
      if q.Some? {
        QueueGoesOn(config, qs, q.value);
        qs := qs + [q.value];
      }
      if r.Some? {
        ExactlyOnce.RunSnoc(AnalysesOf(inventory), rs, r.value);
        rs := rs + [r.value];
      }
    }
  }

  // The invariant that ties the two.

  /** The claim's run is one of its job. */
  predicate WorkConsistent(inventory: Inventory, w: World, c: nat) {
    && c in w.works && c < |w.queue.claims| && w.queue.claims[c].jobId in w.queue.jobs
    && ClaimRef(w, c) in inventory && w.works[c].scanned == |inventory[ClaimRef(w, c)]|
    && w.works[c].run < |w.results.runs| && w.results.runs[w.works[c].run].job == ClaimRef(w, c)
  }

  /** A completed job has been stored, and its summary counts what was. */
  ghost predicate CompletedConsistent(inventory: Inventory, w: World, id: JobQueue.JobId) {
    id in w.queue.jobs && w.queue.jobs[id].status == JobQueue.Completed ==>
      IsAnalysed(inventory, w, id, w.queue.jobs[id])
  }

  ghost predicate IsAnalysed(inventory: Inventory, w: World, id: JobQueue.JobId, job: JobQueue.Job) {
    && RefOf(id, job) in inventory && ExactlyOnce.Finished(w.results, RefOf(id, job))
    && var n := |AnalysisOf(inventory[RefOf(id, job)])|;
      job.resultSummary == Some(JobQueue.Summary(|inventory[RefOf(id, job)]|, n, n))
  }

  ghost predicate Consistent(inventory: Inventory, w: World) {
    && (forall r :: 0 <= r < |w.results.runs| ==>
          ExactlyOnce.Lists(AnalysesOf(inventory), w.results.runs[r].job, w.results.runs[r].fs))
    && (forall c :: c in w.works ==> WorkConsistent(inventory, w, c))
    && (forall id :: CompletedConsistent(inventory, w, id))
  }

  /** Queue events never rename a job, and only a `complete` completes one. */
  lemma QueueStepOnJob(config: JobQueue.Config, s: LeaseProtocol.System, q: LeaseProtocol.Event, id: JobQueue.JobId)
    requires LeaseProtocol.Enabled(s, q)
    ensures var s' := LeaseProtocol.Step(config, s, q);
      && (id in s.jobs ==> id in s'.jobs && RefOf(id, s'.jobs[id]) == RefOf(id, s.jobs[id]))
      && (id in s'.jobs && s'.jobs[id].status == JobQueue.Completed && !q.Completes? && !q.LosesComplete? ==>
            id in s.jobs && s'.jobs[id] == s.jobs[id])
  {
  }

  lemma CompleteStepOnJob(config: JobQueue.Config, s: LeaseProtocol.System, q: LeaseProtocol.Event, id: JobQueue.JobId)
    requires LeaseProtocol.Enabled(s, q) && (q.Completes? || q.LosesComplete?)
    ensures var s' := LeaseProtocol.Step(config, s, q);
      && s'.jobs.Keys == s.jobs.Keys
      && (id in s.jobs && id != s.claims[q.c].jobId ==> s'.jobs[id] == s.jobs[id])
      && (id in s.jobs && id == s.claims[q.c].jobId ==> s'.jobs[id].resultSummary == Some(q.summary))
  {
  }

  /** Runs are kept, and a finished one stays so. */
  lemma ResultsStepOnRun(analyses: ExactlyOnce.Analyses, w: ExactlyOnce.World, e: ExactlyOnce.Event, r: nat)
    requires ExactlyOnce.Enabled(analyses, w, e) && r < |w.runs|
    ensures var w' := ExactlyOnce.Step(analyses, w, e);
      && r < |w'.runs| && w'.runs[r].job == w.runs[r].job && w'.runs[r].fs == w.runs[r].fs
      && (w.runs[r].pc == 2 * |w.runs[r].fs| ==> w'.runs[r] == w.runs[r])
  {
  }

  lemma StaysFinished(analyses: ExactlyOnce.Analyses, w: ExactlyOnce.World, e: ExactlyOnce.Event, job: JobRef)
    requires ExactlyOnce.Enabled(analyses, w, e) && ExactlyOnce.Finished(w, job)
    ensures ExactlyOnce.Finished(ExactlyOnce.Step(analyses, w, e), job)
  {
    var r: nat :| ExactlyOnce.IsFinishedRun(w, job, r);
    ResultsStepOnRun(analyses, w, e, r);
    assert ExactlyOnce.IsFinishedRun(ExactlyOnce.Step(analyses, w, e), job, r);
  }

  lemma StepKeepsRuns(config: JobQueue.Config, inventory: Inventory, w: World, e: Event)
    requires Consistent(inventory, w) && Enabled(inventory, w, e)
    ensures var w' := Step(config, inventory, w, e);
      && |w.results.runs| <= |w'.results.runs|
      && (forall r :: 0 <= r < |w.results.runs| ==> w'.results.runs[r].job == w.results.runs[r].job)
      && (forall r :: 0 <= r < |w'.results.runs| ==>
            ExactlyOnce.Lists(AnalysesOf(inventory), w'.results.runs[r].job, w'.results.runs[r].fs))
  {
    var part := ResultsPart(inventory, w, e);
    if part.Some? {
      forall r | 0 <= r < |w.results.runs|
        ensures var w' := Step(config, inventory, w, e);
          && r < |w'.results.runs| && w'.results.runs[r].job == w.results.runs[r].job
          && w'.results.runs[r].fs == w.results.runs[r].fs
      {
        ResultsStepOnRun(AnalysesOf(inventory), w.results, part.value, r);
      }
    }
  }

  lemma StepKeepsWork(config: JobQueue.Config, inventory: Inventory, w: World, e: Event, c: nat)
    requires Consistent(inventory, w) && Enabled(inventory, w, e) && c in Step(config, inventory, w, e).works
    ensures WorkConsistent(inventory, Step(config, inventory, w, e), c)
  {
    StepKeepsRuns(config, inventory, w, e);
    if e.Finds? && c == e.c {
      FoundIsListed(inventory, ClaimRef(w, c), e.resources);
    } else {
      assert WorkConsistent(inventory, w, c);
      var part := QueuePart(inventory, w, e);
      if part.Some? {
        LeaseProtocol.StepOnClaims(config, w.queue, part.value);
        assert LeaseProtocol.SameClaim(w.queue.claims[c], LeaseProtocol.Step(config, w.queue, part.value).claims[c]);
        QueueStepOnJob(config, w.queue, part.value, w.queue.claims[c].jobId);
      }
    }
  }

  lemma CompletionIsAnalysed(config: JobQueue.Config, inventory: Inventory, w: World, e: Event)
    requires Consistent(inventory, w) && Enabled(inventory, w, e) && (e.Completes? || e.LosesComplete?)
    ensures var w', id := Step(config, inventory, w, e), w.queue.claims[e.c].jobId;
      id in w'.queue.jobs && IsAnalysed(inventory, w', id, w'.queue.jobs[id])
  {
    var q := QueuePart(inventory, w, e).value;
    var id := w.queue.claims[e.c].jobId;
    QueueStepOnJob(config, w.queue, q, id);
    CompleteStepOnJob(config, w.queue, q, id);
    assert WorkConsistent(inventory, w, e.c);
    var run := w.works[e.c].run;
    assert ExactlyOnce.IsFinishedRun(w.results, ClaimRef(w, e.c), run);
    ExactlyOnce.ListsSameElements(AnalysesOf(inventory), w.results.runs[run].job, w.results.runs[run].fs);
  }

  lemma StepKeepsCompleted(config: JobQueue.Config, inventory: Inventory, w: World, e: Event, id: JobQueue.JobId)
    requires Consistent(inventory, w) && Enabled(inventory, w, e)
    ensures CompletedConsistent(inventory, Step(config, inventory, w, e), id)
  {
    var w' := Step(config, inventory, w, e);
    assert CompletedConsistent(inventory, w, id);
    if id in w'.queue.jobs && w'.queue.jobs[id].status == JobQueue.Completed {
      if (e.Completes? || e.LosesComplete?) && id == w.queue.claims[e.c].jobId {
        CompletionIsAnalysed(config, inventory, w, e);
      } else {
        var q, r := QueuePart(inventory, w, e), ResultsPart(inventory, w, e);
        if e.Completes? || e.LosesComplete? {
          CompleteStepOnJob(config, w.queue, q.value, id);
        } else if q.Some? {
          QueueStepOnJob(config, w.queue, q.value, id);
        }
        if r.Some? { StaysFinished(AnalysesOf(inventory), w.results, r.value, RefOf(id, w.queue.jobs[id])); }
      }
    }
  }

  lemma {:induction false} ReachableConsistent(config: JobQueue.Config, inventory: Inventory, es: seq<Event>)
    requires Run(config, inventory, es).Some?
    ensures Consistent(inventory, Run(config, inventory, es).value)
  {
    if es != [] {
      ReachableConsistent(config, inventory, es[..|es| - 1]);
      var w, e := Run(config, inventory, es[..|es| - 1]).value, es[|es| - 1];
      var w' := Step(config, inventory, w, e);
      StepKeepsRuns(config, inventory, w, e);
      forall c | c in w'.works ensures WorkConsistent(inventory, w', c) {
        StepKeepsWork(config, inventory, w, e, c);
      }
      forall id ensures CompletedConsistent(inventory, w', id) {
        StepKeepsCompleted(config, inventory, w, e, id);
      }
    }
  }

  /** Completed means analysed. In every reachable state, however many claims overlapped, crashed,
      failed or outlived their lease, a completed job's stored findings are exactly its analysis,
      each with its recommendation, and its summary counts the resources and those documents. */
  lemma CompletedMeansAnalysed(config: JobQueue.Config, inventory: Inventory, es: seq<Event>, id: JobQueue.JobId)
    requires Sound(inventory) && Run(config, inventory, es).Some?
    requires id in Run(config, inventory, es).value.queue.jobs
    requires Run(config, inventory, es).value.queue.jobs[id].status == JobQueue.Completed
    ensures var w := Run(config, inventory, es).value; var job := w.queue.jobs[id];
      var ref := JobRef(job.workspaceId, id, job.correlationId);
      && ref in inventory
      && var fs, view := AnalysisOf(inventory[ref]), ExactlyOnce.View(w.results.store, ref);
        && view.Keys == (set f | f in fs :: KeyOf(ref, f))
        && (forall f :: f in fs ==>
              view[KeyOf(ref, f)] == ExactlyOnce.Content(f.severity, ref.correlationId, Some(RecOf(ref, f))))
        && job.resultSummary == Some(JobQueue.Summary(|inventory[ref]|, |view|, |view|))
  {
    ReachableConsistent(config, inventory, es);
    var w := Run(config, inventory, es).value;
    assert CompletedConsistent(inventory, w, id);
    var ref := RefOf(id, w.queue.jobs[id]);
    var qs, rs := IsRunOfBoth(config, inventory, es);
    SoundIsSensible(inventory);
    ExactlyOnce.StoredIsTheAnalysis(AnalysesOf(inventory), rs, ref);
    ExactlyOnce.DistinctKeysCount(ref, AnalysisOf(inventory[ref]));
    var view := ExactlyOnce.View(w.results.store, ref);
    assert |view| == |view.Keys|;
  }

  lemma SoundIsSensible(inventory: Inventory)
    requires Sound(inventory)
    ensures ExactlyOnce.Sensible(AnalysesOf(inventory))
  {
    forall job | job in AnalysesOf(inventory) ensures DistinctKeys(AnalysesOf(inventory)[job]) {
      AnalysisHasDistinctKeys(inventory[job]);
    }
  }

  // And a claim at work can always get there.

  lemma RunSnoc(config: JobQueue.Config, inventory: Inventory, es: seq<Event>, e: Event)
    requires Run(config, inventory, es).Some? && Enabled(inventory, Run(config, inventory, es).value, e)
    ensures Run(config, inventory, es + [e]) == Some(Step(config, inventory, Run(config, inventory, es).value, e))
  {
    assert (es + [e])[..|es + [e]| - 1] == es;
  }

  predicate IsAtWork(w: World, c: nat) {
    && c < |w.queue.claims| && w.queue.claims[c].phase.Working? && w.queue.claims[c].jobId in w.queue.jobs
  }

  lemma {:induction false} StoresTheRest(config: JobQueue.Config, inventory: Inventory,
                                         es: seq<Event>, c: nat, left: nat)
    returns (es': seq<Event>)
    requires Run(config, inventory, es).Some?
    requires var w := Run(config, inventory, es).value;
      && c in w.works && w.works[c].run < |w.results.runs|
      && var r := w.results.runs[w.works[c].run]; r.pc + left == 2 * |r.fs|
    ensures es <= es' && Run(config, inventory, es').Some? && HasStored(Run(config, inventory, es').value, c)
    ensures Run(config, inventory, es').value.queue == Run(config, inventory, es).value.queue
    decreases left
  {
    if left == 0 {
      es' := es;
    } else {
      var upsert := Upserts(Run(config, inventory, es).value.works[c].run);
      RunSnoc(config, inventory, es, upsert);
      es' := StoresTheRest(config, inventory, es + [upsert], c, left - 1);
    }
  }

  lemma CanFind(config: JobQueue.Config, inventory: Inventory, w: World, c: nat)
    requires IsAtWork(w, c) && c !in w.works && ClaimRef(w, c) in inventory
    ensures var job := ClaimRef(w, c); var finds := Finds(c, inventory[job]);
      && Enabled(inventory, w, finds)
      && var w' := Step(config, inventory, w, finds);
        && w'.queue == w.queue && c in w'.works && w'.works[c].run < |w'.results.runs|
        && w'.results.runs[w'.works[c].run] == ExactlyOnce.RunState(job, AnalysisOf(inventory[job]), 0, 0)
  {
    FoundIsListed(inventory, ClaimRef(w, c), inventory[ClaimRef(w, c)]);
  }

  lemma CanComplete(config: JobQueue.Config, inventory: Inventory, w: World, c: nat)
    requires IsAtWork(w, c) && HasStored(w, c)
    ensures Enabled(inventory, w, Completes(c, 0))
    ensures var id, jobs := w.queue.claims[c].jobId, Step(config, inventory, w, Completes(c, 0)).queue.jobs;
      id in jobs && jobs[id].status == JobQueue.Completed
  {
  }

  /** Whatever happened before and whatever other claims are doing, a claim that is at work on a job,
      and has not begun its analysis, can store it and complete the job. */
  lemma ClaimCanComplete(config: JobQueue.Config, inventory: Inventory, es: seq<Event>, c: nat)
    returns (es': seq<Event>)
    requires Run(config, inventory, es).Some?
    requires var w := Run(config, inventory, es).value;
      IsAtWork(w, c) && c !in w.works && ClaimRef(w, c) in inventory
    ensures es <= es' && Run(config, inventory, es').Some?
    ensures var id := Run(config, inventory, es).value.queue.claims[c].jobId;
      var jobs := Run(config, inventory, es').value.queue.jobs;
      id in jobs && jobs[id].status == JobQueue.Completed
  {
    var w := Run(config, inventory, es).value;
    var job := ClaimRef(w, c);
    CanFind(config, inventory, w, c);
    RunSnoc(config, inventory, es, Finds(c, inventory[job]));
    es' := StoresTheRest(config, inventory, es + [Finds(c, inventory[job])], c, 2 * |AnalysisOf(inventory[job])|);
    CanComplete(config, inventory, Run(config, inventory, es').value, c);
    RunSnoc(config, inventory, es', Completes(c, 0));
    es' := es' + [Completes(c, 0)];
  }
}
