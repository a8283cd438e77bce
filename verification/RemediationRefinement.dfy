/** The requests of whole runs are calls of the service, and the points an execution may die at are the
    databases it passes through. */
module RemediationRefinement {
  import opened RemediationDb
  import RemediationRuns
  import RemediationService

  /** Serves a request by calling the service. */
  method Serve(service: RemediationService.RemediationService, w: RemediationRuns.World, q: RemediationRuns.Request)
    returns (reply: Reply)
    requires service.Contents() == w.db && RemediationRuns.Enabled(w, q)
    requires !q.Elsewhere? && (q.Executes? ==> q.point == NoCrash)
    modifies service
    ensures service.Contents() == RemediationRuns.Step(service.config, w, q).db
  {
    match q {
      case Plans(request, order, id) => reply := service.CreatePlan(request, order, id);
      case Approves(workspaceId, planId, actorId, token, now) =>
        reply := service.Approve(workspaceId, planId, actorId, token, now);
      case Executes(r, _) =>
        ghost var trail;
        reply, trail := service.Execute(r);
    }
  }

  /** The number, counted from 0, of the last write made at a point after the first. */
  function WriteAt(point: CrashPoint, n: nat): nat {
    match point
    case AfterActions(done) => 1 + (if done < n then done else n)
    case AfterExecutionInsert => n + 2
    case NoCrash => n + 3
    case _ => 0
  }

  /** A crash leaves the database as it was, or as some write of the execution left it; and each of
      those can be left by a crash. */
  lemma CrashesAreOnTheTrail(config: Config, db: Db, r: ExecuteRequest, trail: seq<Db>)
    requires Proceeds(config, db, r) && RemediationService.Trails(config, db, r, trail)
    ensures var n := |db.plans[r.planId].actions|;
      && |trail| == n + 4
      && Execute(config, db, r, BeforeAnyWrite) == db
      && (forall point :: point != BeforeAnyWrite ==> trail[WriteAt(point, n)] == Execute(config, db, r, point))
      && (forall k :: 0 <= k < |trail| ==> trail[k] == Execute(config, db, r, RemediationService.PointAt(k, n)))
  {
    var n := |db.plans[r.planId].actions|;
    forall point | point != BeforeAnyWrite ensures trail[WriteAt(point, n)] == Execute(config, db, r, point) {
      assert trail[WriteAt(point, n)] == ExecutedTo(config, db, r, RemediationService.PointAt(WriteAt(point, n), n));
    }
  }
}
