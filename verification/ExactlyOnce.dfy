/** At-least-once processing with exactly-once results: any interleaving of repeated, partial and
    overlapping runs over an unchanged inventory, each run listing it in its own order, stores what
    one run stores. */
module ExactlyOnce {
  import opened Wrappers
  import opened Policy
  import opened ResultStore

  /** What each job's analysis returns on every run of it, in an order that may differ from run to run. */
  type Analyses = map<JobRef, seq<Finding>>

  ghost predicate Sensible(analyses: Analyses) {
    && (forall job :: job in analyses ==> DistinctKeys(analyses[job]))
    && (forall a, b :: a in analyses && b in analyses && a.workspaceId == b.workspaceId && a.jobId == b.jobId ==>
          a == b)
  }

  /** A run stores `fs`, its own listing of the job's analysis. It has done `pc` upserts; after a
      finding's it holds the identifier that upsert returned. */
  datatype RunState = RunState(job: JobRef, fs: seq<Finding>, pc: nat, stored: FindingId)

  datatype World = World(store: Store, runs: seq<RunState>)

  /** A run that crashes or is timed out takes no more steps; one that outlives its timeout does. */
  datatype Event = Starts(job: JobRef, fs: seq<Finding>) | Advances(run: nat)

  predicate Lists(analyses: Analyses, job: JobRef, fs: seq<Finding>) {
    job in analyses && multiset(fs) == multiset(analyses[job])
  }

  lemma ListsSameElements(analyses: Analyses, job: JobRef, fs: seq<Finding>)
    requires Lists(analyses, job, fs)
    ensures |fs| == |analyses[job]| && forall f :: f in fs <==> f in analyses[job]
  {
    assert |multiset(fs)| == |multiset(analyses[job])|;
    forall f ensures f in fs <==> f in analyses[job] {
      assert f in fs <==> f in multiset(fs);
      assert f in analyses[job] <==> f in multiset(analyses[job]);
    }
  }

  /** The analysis of the same resources in any order is such a listing. */
  lemma AnyOrderIsListed(analyses: Analyses, job: JobRef, resources: seq<Resource>, resources': seq<Resource>)
    requires job in analyses && analyses[job] == AnalysisOf(resources) && multiset(resources) == multiset(resources')
    ensures Lists(analyses, job, AnalysisOf(resources'))
  {
    OrderDoesNotMatter(resources, resources');
  }

  predicate Enabled(analyses: Analyses, w: World, e: Event) {
    match e
    case Starts(job, fs) => Lists(analyses, job, fs)
    case Advances(run) => run < |w.runs| && w.runs[run].pc < 2 * |w.runs[run].fs|
  }

  function Step(analyses: Analyses, w: World, e: Event): World
    requires Enabled(analyses, w, e)
  {
    match e
    case Starts(job, fs) => w.(runs := w.runs + [RunState(job, fs, 0, 0)])
    case Advances(run) =>
      var r := w.runs[run];
      var f := r.fs[r.pc / 2];
      if r.pc % 2 == 0 then
        var store := UpsertFinding(w.store, r.job, f);
        World(store, w.runs[run := r.(pc := r.pc + 1, stored := store.findings[KeyOf(r.job, f)].id)])
      else
        World(UpsertRec(w.store, r.job, f, r.stored), w.runs[run := r.(pc := r.pc + 1)])
  }

  function Run(analyses: Analyses, es: seq<Event>): Option<World> {
    if es == [] then Some(World(EMPTY_STORE, []))
    else
      var before := Run(analyses, es[..|es| - 1]);
      if before.Some? && Enabled(analyses, before.value, es[|es| - 1])
      then Some(Step(analyses, before.value, es[|es| - 1])) else None
  }

  // The invariant.

  /** `key` is that of finding f of `job`. */
  predicate IsFinding(analyses: Analyses, key: FindingKey, job: JobRef, f: Finding) {
    job in analyses && f in analyses[job] && key == KeyOf(job, f)
  }

  ghost predicate FindingConsistent(analyses: Analyses, s: Store, key: FindingKey) {
    key in s.findings && s.findings[key].id < s.nextId
    && exists job, f :: IsFinding(analyses, key, job, f)
                        && s.findings[key].severity == f.severity
                        && s.findings[key].correlationId == job.correlationId
  }

  ghost predicate RecConsistent(analyses: Analyses, s: Store, rec: RecKey) {
    rec in s.recs
    && exists key, job, f :: IsFinding(analyses, key, job, f) && key in s.findings
                             && rec == RecKey(job.workspaceId, s.findings[key].id)
                             && s.recs[rec] == RecOf(job, f)
  }

  predicate RunConsistent(analyses: Analyses, s: Store, r: RunState) {
    && Lists(analyses, r.job, r.fs) && r.pc <= 2 * |r.fs|
    && (forall k :: 0 <= k < |r.fs| && 2 * k < r.pc ==> KeyOf(r.job, r.fs[k]) in s.findings)
    && (forall k :: 0 <= k < |r.fs| && 2 * k + 1 < r.pc && KeyOf(r.job, r.fs[k]) in s.findings ==>
          RecKey(r.job.workspaceId, s.findings[KeyOf(r.job, r.fs[k])].id) in s.recs)
    && (r.pc % 2 == 1 ==> && KeyOf(r.job, r.fs[r.pc / 2]) in s.findings
                          && r.stored == s.findings[KeyOf(r.job, r.fs[r.pc / 2])].id)
  }

  predicate UniqueIds(s: Store) {
    forall a, b :: a in s.findings && b in s.findings && s.findings[a].id == s.findings[b].id ==> a == b
  }

  ghost predicate StoreConsistent(analyses: Analyses, s: Store) {
    && (forall key :: key in s.findings ==> FindingConsistent(analyses, s, key))
    && UniqueIds(s)
    && (forall rec :: rec in s.recs ==> RecConsistent(analyses, s, rec))
  }

  ghost predicate Consistent(analyses: Analyses, w: World) {
    && StoreConsistent(analyses, w.store)
    && (forall r :: 0 <= r < |w.runs| ==> RunConsistent(analyses, w.store, w.runs[r]))
  }

  /** Upserts lose nothing and move no identifier. */
  predicate Extends(s: Store, s': Store) {
    && s.nextId <= s'.nextId
    && (forall key :: key in s.findings ==> key in s'.findings && s'.findings[key].id == s.findings[key].id)
    && s.recs.Keys <= s'.recs.Keys
  }

  lemma KeysIdentify(analyses: Analyses, key: FindingKey, job: JobRef, f: Finding, job': JobRef, f': Finding)
    requires Sensible(analyses)
    requires IsFinding(analyses, key, job, f) && IsFinding(analyses, key, job', f')
    ensures job == job' && f == f'
  {
    var k :| 0 <= k < |analyses[job]| && analyses[job][k] == f;
    var k' :| 0 <= k' < |analyses[job]| && analyses[job][k'] == f';
    assert SameSubject(f, f');
    assert DistinctKeys(analyses[job]);
  }

  /** The run's next upsert, which of the two kinds it is depending on how many it has done. */
  predicate IsNextUpsert(s: Store, s': Store, r: RunState) {
    && r.pc < 2 * |r.fs|
    && var f := r.fs[r.pc / 2];
      if r.pc % 2 == 0 then s' == UpsertFinding(s, r.job, f)
      else KeyOf(r.job, f) in s.findings && s' == UpsertRec(s, r.job, f, s.findings[KeyOf(r.job, f)].id)
  }

  lemma AdvanceIsNextUpsert(analyses: Analyses, w: World, run: nat)
    requires Enabled(analyses, w, Advances(run)) && RunConsistent(analyses, w.store, w.runs[run])
    ensures IsNextUpsert(w.store, Step(analyses, w, Advances(run)).store, w.runs[run])
  {
  }

  lemma UpsertKeepsStore(analyses: Analyses, s: Store, s': Store, r: RunState)
    requires StoreConsistent(analyses, s) && IsNextUpsert(s, s', r) && Lists(analyses, r.job, r.fs)
    ensures Extends(s, s') && StoreConsistent(analyses, s')
  {
    ListsSameElements(analyses, r.job, r.fs);
    if r.pc % 2 == 0 {
      FindingUpsertKeeps(analyses, s, r.job, r.fs[r.pc / 2]);
    } else {
      RecUpsertKeeps(analyses, s, r.job, r.fs[r.pc / 2]);
    }
  }

  lemma StepKeepsStore(analyses: Analyses, w: World, run: nat)
    requires Consistent(analyses, w) && Enabled(analyses, w, Advances(run))
    ensures Extends(w.store, Step(analyses, w, Advances(run)).store)
    ensures StoreConsistent(analyses, Step(analyses, w, Advances(run)).store)
  {
    AdvanceIsNextUpsert(analyses, w, run);
    UpsertKeepsStore(analyses, w.store, Step(analyses, w, Advances(run)).store, w.runs[run]);
  }

  lemma StepKeepsRun(analyses: Analyses, w: World, run: nat, i: nat)
    requires Consistent(analyses, w) && Enabled(analyses, w, Advances(run)) && i < |w.runs|
    ensures i < |Step(analyses, w, Advances(run)).runs|
    ensures RunConsistent(analyses, Step(analyses, w, Advances(run)).store, Step(analyses, w, Advances(run)).runs[i])
  {
    StepKeepsStore(analyses, w, run);
    assert RunConsistent(analyses, w.store, w.runs[i]);
    RunSurvives(analyses, w.store, Step(analyses, w, Advances(run)).store, w.runs[i]);
    if i == run {
      RunAdvances(analyses, w, run);
    }
  }

  lemma StepKeepsConsistent(analyses: Analyses, w: World, e: Event)
    requires Consistent(analyses, w) && Enabled(analyses, w, e)
    ensures Consistent(analyses, Step(analyses, w, e))
  {
    match e {
      case Starts(_, _) =>
      case Advances(run) =>
        StepKeepsStore(analyses, w, run);
        forall i | 0 <= i < |Step(analyses, w, e).runs|
          ensures RunConsistent(analyses, Step(analyses, w, e).store, Step(analyses, w, e).runs[i])
        {
          StepKeepsRun(analyses, w, run, i);
        }
    }
  }

  lemma RunSurvives(analyses: Analyses, s: Store, s': Store, r: RunState)
    requires RunConsistent(analyses, s, r) && Extends(s, s')
    ensures RunConsistent(analyses, s', r)
  {
  }

  lemma RunAdvances(analyses: Analyses, w: World, run: nat)
    requires Enabled(analyses, w, Advances(run))
    requires RunConsistent(analyses, w.store, w.runs[run])
    requires var w' := Step(analyses, w, Advances(run));
      Extends(w.store, w'.store) && RunConsistent(analyses, w'.store, w.runs[run])
    ensures RunConsistent(analyses, Step(analyses, w, Advances(run)).store, Step(analyses, w, Advances(run)).runs[run])
  {
    var r, s' := w.runs[run], Step(analyses, w, Advances(run)).store;
    forall k | 0 <= k < |r.fs| && 2 * k < r.pc + 1 ensures KeyOf(r.job, r.fs[k]) in s'.findings
    {
      if 2 * k == r.pc { assert k == r.pc / 2; }
    }
  }

  lemma FindingUpsertExtends(s: Store, job: JobRef, f: Finding)
    requires UniqueIds(s) && forall key :: key in s.findings ==> s.findings[key].id < s.nextId
    ensures Extends(s, UpsertFinding(s, job, f)) && UniqueIds(UpsertFinding(s, job, f))
  {
  }

  lemma FindingUpsertKeepsFindings(analyses: Analyses, s: Store, job: JobRef, f: Finding, key: FindingKey)
    requires job in analyses && f in analyses[job]
    requires key in UpsertFinding(s, job, f).findings
    requires key in s.findings ==> FindingConsistent(analyses, s, key)
    ensures FindingConsistent(analyses, UpsertFinding(s, job, f), key)
  {
    if key == KeyOf(job, f) {
      assert IsFinding(analyses, key, job, f);
    } else {
      var job', f' :| IsFinding(analyses, key, job', f') && s.findings[key].severity == f'.severity
                      && s.findings[key].correlationId == job'.correlationId;
      assert IsFinding(analyses, key, job', f');
    }
  }

  lemma RecSurvives(analyses: Analyses, s: Store, s': Store, rec: RecKey)
    requires RecConsistent(analyses, s, rec) && Extends(s, s') && rec in s'.recs && s'.recs[rec] == s.recs[rec]
    ensures RecConsistent(analyses, s', rec)
  {
    var key, job, f :| IsFinding(analyses, key, job, f) && key in s.findings
                       && rec == RecKey(job.workspaceId, s.findings[key].id)
                       && s.recs[rec] == RecOf(job, f);
    assert IsFinding(analyses, key, job, f) && key in s'.findings;
  }

  lemma FindingUpsertKeeps(analyses: Analyses, s: Store, job: JobRef, f: Finding)
    requires StoreConsistent(analyses, s)
    requires job in analyses && f in analyses[job]
    ensures Extends(s, UpsertFinding(s, job, f)) && StoreConsistent(analyses, UpsertFinding(s, job, f))
  {
    var s' := UpsertFinding(s, job, f);
    assert forall key :: key in s.findings ==> FindingConsistent(analyses, s, key);
    FindingUpsertExtends(s, job, f);
    forall key | key in s'.findings ensures FindingConsistent(analyses, s', key) {
      FindingUpsertKeepsFindings(analyses, s, job, f, key);
    }
    forall rec | rec in s'.recs ensures RecConsistent(analyses, s', rec) {
      RecSurvives(analyses, s, s', rec);
    }
  }

  lemma RecUpsertKeeps(analyses: Analyses, s: Store, job: JobRef, f: Finding)
    requires StoreConsistent(analyses, s)
    requires job in analyses && f in analyses[job] && KeyOf(job, f) in s.findings
    ensures var s' := UpsertRec(s, job, f, s.findings[KeyOf(job, f)].id);
      Extends(s, s') && StoreConsistent(analyses, s')
  {
    var key := KeyOf(job, f);
    var id := s.findings[key].id;
    var s' := UpsertRec(s, job, f, id);
    assert IsFinding(analyses, key, job, f);
    forall other | other in s'.findings ensures FindingConsistent(analyses, s', other) {
      assert FindingConsistent(analyses, s, other);
    }
    forall rec | rec in s'.recs ensures RecConsistent(analyses, s', rec) {
      if rec != RecKey(job.workspaceId, id) {
        RecSurvives(analyses, s, s', rec);
      }
    }
  }

  lemma {:induction false} ReachableConsistent(analyses: Analyses, es: seq<Event>)
    requires Run(analyses, es).Some?
    ensures Consistent(analyses, Run(analyses, es).value)
  {
    if es != [] {
      ReachableConsistent(analyses, es[..|es| - 1]);
      StepKeepsConsistent(analyses, Run(analyses, es[..|es| - 1]).value, es[|es| - 1]);
    }
  }

  // What is stored for a job, up to identifiers.

  datatype Content = Content(severity: Severity, correlationId: string, rec: Option<RecDoc>)

  predicate BelongsTo(key: FindingKey, job: JobRef) {
    key.workspaceId == job.workspaceId && key.jobId == job.jobId
  }

  function ContentAt(s: Store, key: FindingKey): Content
    requires key in s.findings
  {
    var rec := RecKey(key.workspaceId, s.findings[key].id);
    Content(s.findings[key].severity, s.findings[key].correlationId, if rec in s.recs then Some(s.recs[rec]) else None)
  }

  function View(s: Store, job: JobRef): map<FindingKey, Content> {
    map key | key in s.findings && BelongsTo(key, job) :: ContentAt(s, key)
  }

  predicate IsFinishedRun(w: World, job: JobRef, r: nat) {
    r < |w.runs| && w.runs[r].job == job && w.runs[r].pc == 2 * |w.runs[r].fs|
  }

  ghost predicate Finished(w: World, job: JobRef) {
    exists r: nat :: IsFinishedRun(w, job, r)
  }

  lemma FinishedRunStored(analyses: Analyses, w: World, job: JobRef, r: nat, f: Finding)
    requires Consistent(analyses, w) && IsFinishedRun(w, job, r)
    ensures Lists(analyses, job, w.runs[r].fs)
    ensures f in analyses[job] ==>
      && KeyOf(job, f) in w.store.findings
      && RecKey(job.workspaceId, w.store.findings[KeyOf(job, f)].id) in w.store.recs
  {
    assert RunConsistent(analyses, w.store, w.runs[r]);
    ListsSameElements(analyses, job, w.runs[r].fs);
    if f in analyses[job] {
      var k :| 0 <= k < |w.runs[r].fs| && w.runs[r].fs[k] == f;
    }
  }

  lemma FindingDetermined(analyses: Analyses, s: Store, job: JobRef, f: Finding)
    requires Sensible(analyses) && IsFinding(analyses, KeyOf(job, f), job, f)
    requires FindingConsistent(analyses, s, KeyOf(job, f))
    ensures s.findings[KeyOf(job, f)].severity == f.severity
    ensures s.findings[KeyOf(job, f)].correlationId == job.correlationId
  {
    var key := KeyOf(job, f);
    var job', f' :| IsFinding(analyses, key, job', f') && s.findings[key].severity == f'.severity
                    && s.findings[key].correlationId == job'.correlationId;
    KeysIdentify(analyses, key, job, f, job', f');
  }

  lemma RecDetermined(analyses: Analyses, s: Store, job: JobRef, f: Finding)
    requires Sensible(analyses) && IsFinding(analyses, KeyOf(job, f), job, f)
    requires KeyOf(job, f) in s.findings && UniqueIds(s)
    requires RecConsistent(analyses, s, RecKey(job.workspaceId, s.findings[KeyOf(job, f)].id))
    ensures s.recs[RecKey(job.workspaceId, s.findings[KeyOf(job, f)].id)] == RecOf(job, f)
  {
    var rec := RecKey(job.workspaceId, s.findings[KeyOf(job, f)].id);
    var key, job', f' :| IsFinding(analyses, key, job', f') && key in s.findings
                         && rec == RecKey(job'.workspaceId, s.findings[key].id)
                         && s.recs[rec] == RecOf(job', f');
    KeysIdentify(analyses, key, job, f, job', f');
  }

  lemma ContentDetermined(analyses: Analyses, w: World, job: JobRef, r: nat, f: Finding)
    requires Sensible(analyses) && Consistent(analyses, w) && IsFinishedRun(w, job, r)
    requires job in analyses && f in analyses[job]
    ensures var key := KeyOf(job, f);
      key in w.store.findings && ContentAt(w.store, key) == Content(f.severity, job.correlationId, Some(RecOf(job, f)))
  {
    FinishedRunStored(analyses, w, job, r, f);
    assert IsFinding(analyses, KeyOf(job, f), job, f);
    FindingDetermined(analyses, w.store, job, f);
    RecDetermined(analyses, w.store, job, f);
  }

  /** Once some run of a job has finished, the job's findings are exactly its analysis, each with
      its own recommendation, however many other runs of it did whatever part of the work, in
      whatever order. */
  lemma StoredIsTheAnalysis(analyses: Analyses, es: seq<Event>, job: JobRef)
    requires Sensible(analyses) && Run(analyses, es).Some? && Finished(Run(analyses, es).value, job)
    ensures job in analyses
    ensures var s := Run(analyses, es).value.store;
      && View(s, job).Keys == (set f | f in analyses[job] :: KeyOf(job, f))
      && forall f :: f in analyses[job] ==>
          View(s, job)[KeyOf(job, f)] == Content(f.severity, job.correlationId, Some(RecOf(job, f)))
    ensures forall f :: f in analyses[job] ==>
      && KeyOf(job, f) == FindingKey(job.workspaceId, job.jobId, f.resourceId, f.ruleId)
      && RecOf(job, f) == RecDoc(job.jobId, f.resourceId, f.actionType, job.correlationId)
  {
    ReachableConsistent(analyses, es);
    var w := Run(analyses, es).value;
    var r: nat :| IsFinishedRun(w, job, r);
    assert RunConsistent(analyses, w.store, w.runs[r]);
    assert job in analyses;
    forall f | f in analyses[job]
      ensures KeyOf(job, f) in View(w.store, job)
      ensures View(w.store, job)[KeyOf(job, f)] == Content(f.severity, job.correlationId, Some(RecOf(job, f)))
    {
      ContentDetermined(analyses, w, job, r, f);
    }
    forall key | key in View(w.store, job) ensures exists f :: f in analyses[job] && key == KeyOf(job, f) {
      assert FindingConsistent(analyses, w.store, key);
      var job', f :| IsFinding(analyses, key, job', f);
      assert job' == job;
    }
  }

  /** So any two histories with a finished run of the job agree on what it stored, up to identifiers. */
  lemma ExactlyOnceResults(analyses: Analyses, es: seq<Event>, es': seq<Event>, job: JobRef)
    requires Sensible(analyses) && Run(analyses, es).Some? && Run(analyses, es').Some?
    requires Finished(Run(analyses, es).value, job) && Finished(Run(analyses, es').value, job)
    ensures View(Run(analyses, es).value.store, job) == View(Run(analyses, es').value.store, job)
  {
    StoredIsTheAnalysis(analyses, es, job);
    StoredIsTheAnalysis(analyses, es', job);
    var v, v' := View(Run(analyses, es).value.store, job), View(Run(analyses, es').value.store, job);
    forall key | key in v ensures v[key] == v'[key] {
      var f :| f in analyses[job] && key == KeyOf(job, f);
    }
  }

  /** No recommendation is left over: each belongs to one stored finding, which is on the same
      resource and whose rule it answers, and no finding has two. */
  lemma RecommendationsBelong(analyses: Analyses, es: seq<Event>, rec: RecKey) returns (key: FindingKey, f: Finding)
    requires Sensible(analyses) && Run(analyses, es).Some? && rec in Run(analyses, es).value.store.recs
    ensures var s := Run(analyses, es).value.store;
      && key in s.findings && s.findings[key].id == rec.findingId && key.workspaceId == rec.workspaceId
      && (forall other :: other in s.findings && s.findings[other].id == rec.findingId ==> other == key)
      && (exists job :: job in analyses && f in analyses[job])
      && key.resourceId == s.recs[rec].resourceId && key.ruleId == f.ruleId && s.recs[rec].actionType == f.actionType
  {
    ReachableConsistent(analyses, es);
    var s := Run(analyses, es).value.store;
    assert RecConsistent(analyses, s, rec);
    var job;
    key, job, f :| IsFinding(analyses, key, job, f) && key in s.findings
                   && rec == RecKey(job.workspaceId, s.findings[key].id)
                   && s.recs[rec] == RecOf(job, f);
  }

  /** The counts a finished run reports, one of each kind per finding it listed, are the number of
      documents its job has, whatever the history: each finding with a recommendation. */
  lemma CountsAreDocuments(analyses: Analyses, es: seq<Event>, job: JobRef, r: nat)
    requires Sensible(analyses) && Run(analyses, es).Some? && IsFinishedRun(Run(analyses, es).value, job, r)
    ensures var w := Run(analyses, es).value;
      && |View(w.store, job)| == |w.runs[r].fs|
      && forall key :: key in View(w.store, job) ==> View(w.store, job)[key].rec.Some?
  {
    var w := Run(analyses, es).value;
    StoredIsTheAnalysis(analyses, es, job);
    ReachableConsistent(analyses, es);
    assert RunConsistent(analyses, w.store, w.runs[r]);
    ListsSameElements(analyses, job, w.runs[r].fs);
    DistinctKeysCount(job, analyses[job]);
    assert |View(w.store, job)| == |View(w.store, job).Keys|;
  }

  lemma {:induction false} DistinctKeysCount(job: JobRef, fs: seq<Finding>)
    requires DistinctKeys(fs)
    ensures |set f | f in fs :: KeyOf(job, f)| == |fs|
  {
    if fs != [] {
      var front, last := fs[..|fs| - 1], fs[|fs| - 1];
      DistinctKeysCount(job, front);
      var keys := set f | f in front :: KeyOf(job, f);
      assert KeyOf(job, last) !in keys by {
        forall f | f in front ensures KeyOf(job, f) != KeyOf(job, last) {
          var k :| 0 <= k < |front| && front[k] == f;
          assert !SameSubject(fs[k], fs[|fs| - 1]);
        }
      }
      assert fs == front + [last];
      assert (set f | f in fs :: KeyOf(job, f)) == keys + {KeyOf(job, last)};
    }
  }

  // The processor's loop, undisturbed, is such a run, wherever it starts and however far it gets.

  lemma RunSnoc(analyses: Analyses, es: seq<Event>, e: Event)
    requires Run(analyses, es).Some? && Enabled(analyses, Run(analyses, es).value, e)
    ensures Run(analyses, es + [e]) == Some(Step(analyses, Run(analyses, es).value, e))
  {
    assert (es + [e])[..|es + [e]| - 1] == es;
  }

  /** `w'` is `w` with one more run, which has made `pc` upserts by itself. */
  predicate IsAlone(w: World, job: JobRef, fs: seq<Finding>, pc: nat, w': World)
    requires pc <= 2 * |fs|
  {
    && w'.store == PersistPart(w.store, job, fs, pc)
    && |w'.runs| == |w.runs| + 1 && w'.runs[..|w.runs|] == w.runs
    && var r := w'.runs[|w.runs|];
      && r.job == job && r.fs == fs && r.pc == pc
      && (pc % 2 == 1 ==> KeyOf(job, fs[pc / 2]) in w'.store.findings
                          && r.stored == w'.store.findings[KeyOf(job, fs[pc / 2])].id)
  }

  lemma AdvancesAlone(analyses: Analyses, w: World, job: JobRef, fs: seq<Finding>, pc: nat, w': World)
    requires pc < 2 * |fs| && IsAlone(w, job, fs, pc, w')
    ensures Enabled(analyses, w', Advances(|w.runs|))
    ensures IsAlone(w, job, fs, pc + 1, Step(analyses, w', Advances(|w.runs|)))
  {
    var k := pc / 2;
    if pc % 2 == 0 {
      assert (pc + 1) / 2 == k;
    } else {
      assert (pc + 1) / 2 == k + 1;
      assert fs[..k + 1][..k] == fs[..k];
    }
  }

  /** `es'` reaches `w` with one more run, which has made `pc` upserts by itself. */
  predicate ReachesAlone(analyses: Analyses, es': seq<Event>, w: World, job: JobRef, fs: seq<Finding>, pc: nat) {
    && pc <= 2 * |fs| && Run(analyses, es').Some?
    && IsAlone(w, job, fs, pc, Run(analyses, es').value)
  }

  lemma StartsAlone(analyses: Analyses, es: seq<Event>, w: World, job: JobRef, fs: seq<Finding>)
    requires Run(analyses, es) == Some(w) && Lists(analyses, job, fs)
    ensures ReachesAlone(analyses, es + [Starts(job, fs)], w, job, fs, 0)
  {
    RunSnoc(analyses, es, Starts(job, fs));
    assert fs[..0] == [];
  }

  lemma AloneStep(analyses: Analyses, es: seq<Event>, w: World, job: JobRef, fs: seq<Finding>, pc: nat)
    requires 0 < pc <= 2 * |fs| && ReachesAlone(analyses, es, w, job, fs, pc - 1)
    ensures ReachesAlone(analyses, es + [Advances(|w.runs|)], w, job, fs, pc)
  {
    AdvancesAlone(analyses, w, job, fs, pc - 1, Run(analyses, es).value);
    RunSnoc(analyses, es, Advances(|w.runs|));
  }

  /** After any history a run may start and make its first `pc` upserts with nothing in between. */
  lemma {:induction false} AloneIsPersistPart(analyses: Analyses, es: seq<Event>, w: World, job: JobRef,
                                              fs: seq<Finding>, pc: nat)
    returns (es': seq<Event>)
    requires Run(analyses, es) == Some(w) && Lists(analyses, job, fs) && pc <= 2 * |fs|
    ensures es <= es' && |es'| == |es| + 1 + pc
    ensures ReachesAlone(analyses, es', w, job, fs, pc)
    decreases pc
  {
    if pc == 0 {
      StartsAlone(analyses, es, w, job, fs);
      es' := es + [Starts(job, fs)];
    } else {
      var before := AloneIsPersistPart(analyses, es, w, job, fs, pc - 1);
      AloneStep(analyses, before, w, job, fs, pc);
      es' := before + [Advances(|w.runs|)];
    }
  }

  /** After any history, first run or retry, a run that starts and is left alone persists all of its
      findings on top of what it found, and has then finished. */
  lemma AloneIsPersistAll(analyses: Analyses, es: seq<Event>, job: JobRef, fs: seq<Finding>) returns (es': seq<Event>)
    requires Run(analyses, es).Some? && Lists(analyses, job, fs)
    ensures es <= es' && Run(analyses, es').Some? && Finished(Run(analyses, es').value, job)
    ensures Run(analyses, es').value.store == PersistAll(Run(analyses, es).value.store, job, fs)
  {
    var w := Run(analyses, es).value;
    es' := AloneIsPersistPart(analyses, es, w, job, fs, 2 * |fs|);
    PersistPartWhole(w.store, job, fs);
    assert IsFinishedRun(Run(analyses, es').value, job, |w.runs|);
  }
}
