/** The collections a diagnosis writes, keyed by their unique indexes, and the worker's upserts. */
module ResultStore {
  import opened Policy

  type FindingId = nat

  /** A job as a diagnosis run sees it. */
  datatype JobRef = JobRef(workspaceId: string, jobId: nat, correlationId: string)

  /** Unique index of the Finding collection. */
  datatype FindingKey = FindingKey(workspaceId: string, jobId: nat, resourceId: ResourceId, ruleId: RuleId)

  datatype FindingDoc = FindingDoc(id: FindingId, severity: Severity, correlationId: string)

  /** Unique index of the Recommendation collection. */
  datatype RecKey = RecKey(workspaceId: string, findingId: FindingId)

  datatype RecDoc = RecDoc(jobId: nat, resourceId: ResourceId, actionType: ActionType, correlationId: string)

  /** `nextId` is above every identifier handed out. */
  datatype Store = Store(findings: map<FindingKey, FindingDoc>, recs: map<RecKey, RecDoc>, nextId: FindingId)

  const EMPTY_STORE := Store(map[], map[], 0)

  function KeyOf(job: JobRef, f: Finding): FindingKey {
    FindingKey(job.workspaceId, job.jobId, f.resourceId, f.ruleId)
  }

  function RecOf(job: JobRef, f: Finding): RecDoc {
    RecDoc(job.jobId, f.resourceId, f.actionType, job.correlationId)
  }

  /** An upsert keeps the identifier of a document already there. */
  function UpsertFinding(s: Store, job: JobRef, f: Finding): Store {
    var key := KeyOf(job, f);
    if key in s.findings then
      s.(findings := s.findings[key := FindingDoc(s.findings[key].id, f.severity, job.correlationId)])
    else
      s.(findings := s.findings[key := FindingDoc(s.nextId, f.severity, job.correlationId)], nextId := s.nextId + 1)
  }

  function UpsertRec(s: Store, job: JobRef, f: Finding, id: FindingId): Store {
    s.(recs := s.recs[RecKey(job.workspaceId, id) := RecOf(job, f)])
  }

  /** The upserts of one finding after another, undisturbed. */
  function PersistOne(s: Store, job: JobRef, f: Finding): Store {
    var s' := UpsertFinding(s, job, f);
    UpsertRec(s', job, f, s'.findings[KeyOf(job, f)].id)
  }

  function PersistAll(s: Store, job: JobRef, fs: seq<Finding>): Store {
    if fs == [] then s else PersistOne(PersistAll(s, job, fs[..|fs| - 1]), job, fs[|fs| - 1])
  }

  /** The first `upserts` of them. */
  function PersistPart(s: Store, job: JobRef, fs: seq<Finding>, upserts: nat): Store
    requires upserts <= 2 * |fs|
  {
    var whole := PersistAll(s, job, fs[..upserts / 2]);
    if upserts % 2 == 0 then whole else UpsertFinding(whole, job, fs[upserts / 2])
  }

  lemma PersistPartWhole(s: Store, job: JobRef, fs: seq<Finding>)
    ensures PersistPart(s, job, fs, 2 * |fs|) == PersistAll(s, job, fs)
  {
    assert fs[..2 * |fs| / 2] == fs;
  }
}
