/**
 * The two routers (backend/routes/jobs.js and
 * mern-job-finder/backend/routes/applications.js) as tables in registration
 * order: which handler a request reaches, and the role gate in front of it.
 * A request is answered by the first registered route whose method and
 * path pattern match it.
 */
module Routes {
  import opened Wrappers
  import opened Accounts

  datatype Verb = Get | Post | Put | Delete

  /** A path pattern segment: literal text, or a `:name` parameter matching any non-empty segment. */
  datatype Segment = Lit(text: string) | Param(name: string)

  datatype Handler =
    | GetJobs | GetJobById | CreateJob | UpdateJob | DeleteJob | GetMyJobs
    | ApplyForJob | GetMyApplications | GetJobApplications | UpdateApplicationStatus | DeleteApplication

  /**
   * The middleware in front of a handler: none, `protect` (a signed-in
   * caller), or `protect` followed by `authorize(...roles)`.
   */
  datatype Gate = Public | Protected | Authorized(roles: set<Role>)

  datatype Route = Route(verb: Verb, pattern: seq<Segment>, gate: Gate, handler: Handler)

  const EmployerOrAdmin: set<Role> := {Employer, Admin}

  /** The job router, relative to its mount point. */
  const JobRoutes: seq<Route> := [
    Route(Get, [], Public, GetJobs),
    Route(Post, [], Authorized(EmployerOrAdmin), CreateJob),
    Route(Get, [Lit("my-jobs")], Authorized(EmployerOrAdmin), GetMyJobs),
    Route(Get, [Param("id")], Public, GetJobById),
    Route(Put, [Param("id")], Authorized(EmployerOrAdmin), UpdateJob),
    Route(Delete, [Param("id")], Authorized(EmployerOrAdmin), DeleteJob)
  ]

  /** The application router, relative to its mount point. */
  const ApplicationRoutes: seq<Route> := [
    Route(Post, [], Protected, ApplyForJob),
    Route(Get, [Lit("my-applications")], Protected, GetMyApplications),
    Route(Get, [Lit("job"), Param("jobId")], Authorized(EmployerOrAdmin), GetJobApplications),
    Route(Put, [Param("id")], Authorized(EmployerOrAdmin), UpdateApplicationStatus),
    Route(Delete, [Param("id")], Protected, DeleteApplication)
  ]

  predicate SegmentMatches(s: Segment, part: string) {
    match s
    case Lit(t) => part == t
    case Param(_) => part != []
  }

  /** The path has as many segments as the pattern, and each matches its counterpart. */
  predicate Matches(pattern: seq<Segment>, path: seq<string>) {
    if pattern == [] then path == []
    else path != [] && SegmentMatches(pattern[0], path[0]) && Matches(pattern[1..], path[1..])
  }

  predicate Answers(r: Route, verb: Verb, path: seq<string>) {
    r.verb == verb && Matches(r.pattern, path)
  }

  /** The position of the first registered route answering the request, if any. */
  function Resolve(routes: seq<Route>, verb: Verb, path: seq<string>): (r: Option<nat>)
    ensures r.Some? ==> r.value < |routes| && Answers(routes[r.value], verb, path)
    ensures r.Some? ==> forall k :: 0 <= k < r.value ==> !Answers(routes[k], verb, path)
    ensures r.None? <==> forall k :: 0 <= k < |routes| ==> !Answers(routes[k], verb, path)
  {
    if routes == [] then None
    else if Answers(routes[0], verb, path) then Some(0)
    else
      match Resolve(routes[1..], verb, path)
      case None => None
      case Some(k) => Some(k + 1)
  }

  /** The route at `k` answers and none registered before it does, so it is the one resolved. */
  lemma ResolveAt(routes: seq<Route>, verb: Verb, path: seq<string>, k: nat)
    requires k < |routes| && Answers(routes[k], verb, path)
    requires forall j :: 0 <= j < k ==> !Answers(routes[j], verb, path)
    ensures Resolve(routes, verb, path) == Some(k)
  {
  }

  /** What the middleware decides: the request passes, or 401 without a caller, or 403 for a role not listed. */
  datatype GateOutcome = Pass | Unauthenticated | WrongRole

  function Admit(g: Gate, caller: Option<Actor>): (o: GateOutcome)
    ensures o == Pass <==> g.Public? || (caller.Some? && (g.Authorized? ==> caller.value.role in g.roles))
    ensures o == Unauthenticated <==> !g.Public? && caller.None?
  {
    match g
    case Public => Pass
    case Protected => if caller.None? then Unauthenticated else Pass
    case Authorized(roles) =>
      if caller.None? then Unauthenticated
      else if caller.value.role !in roles then WrongRole
      else Pass
  }

  /** The outcome of a request: no route (404), stopped by a gate, or handed to a handler. */
  datatype Dispatched = NoRoute | Stopped(outcome: GateOutcome) | Reached(handler: Handler)

  function Dispatch(routes: seq<Route>, verb: Verb, path: seq<string>, caller: Option<Actor>): (d: Dispatched)
    ensures d.Reached? ==> exists k :: 0 <= k < |routes| && routes[k].handler == d.handler
                                     && Answers(routes[k], verb, path) && Admit(routes[k].gate, caller) == Pass
    ensures d.NoRoute? <==> forall k :: 0 <= k < |routes| ==> !Answers(routes[k], verb, path)
    ensures d.Stopped? ==> d.outcome != Pass
  {
    match Resolve(routes, verb, path)
    case None => NoRoute
    case Some(k) =>
      var o := Admit(routes[k].gate, caller);
      if o == Pass then Reached(routes[k].handler) else Stopped(o)
  }

  /** Listing jobs and fetching one job need no caller at all. */
  lemma PublicJobReads(id: string, caller: Option<Actor>)
    requires id != [] && id != "my-jobs"
    ensures Dispatch(JobRoutes, Get, [], caller) == Reached(GetJobs)
    ensures Dispatch(JobRoutes, Get, [id], caller) == Reached(GetJobById)
  {
    ResolveAt(JobRoutes, Get, [], 0);
    forall j | 0 <= j < 3 ensures !Answers(JobRoutes[j], Get, [id]) {
      if j == 2 {
        assert !SegmentMatches(Lit("my-jobs"), id);
      }
    }
    ResolveAt(JobRoutes, Get, [id], 3);
  }

  /** Creating a job passes the gate exactly for a signed-in employer or admin, and reaches `createJob`. */
  lemma CreateJobGated(caller: Option<Actor>)
    ensures Dispatch(JobRoutes, Post, [], caller).Reached? <==> caller.Some? && caller.value.role in EmployerOrAdmin
    ensures Dispatch(JobRoutes, Post, [], caller).Reached? ==> Dispatch(JobRoutes, Post, [], caller).handler == CreateJob
  {
    ResolveAt(JobRoutes, Post, [], 1);
  }

  /** Updating a job passes the gate exactly for a signed-in employer or admin, and reaches `updateJob`. */
  lemma UpdateJobGated(id: string, caller: Option<Actor>)
    requires id != []
    ensures Dispatch(JobRoutes, Put, [id], caller).Reached? <==> caller.Some? && caller.value.role in EmployerOrAdmin
    ensures Dispatch(JobRoutes, Put, [id], caller).Reached? ==> Dispatch(JobRoutes, Put, [id], caller).handler == UpdateJob
  {
    forall j | 0 <= j < 4 ensures !Answers(JobRoutes[j], Put, [id]) {
      if j == 0 {} else if j == 1 {} else if j == 2 {} else {}
    }
    ResolveAt(JobRoutes, Put, [id], 4);
  }

  /** Deleting a job passes the gate exactly for a signed-in employer or admin, and reaches `deleteJob`. */
  lemma DeleteJobGated(id: string, caller: Option<Actor>)
    requires id != []
    ensures Dispatch(JobRoutes, Delete, [id], caller).Reached? <==> caller.Some? && caller.value.role in EmployerOrAdmin
    ensures Dispatch(JobRoutes, Delete, [id], caller).Reached? ==> Dispatch(JobRoutes, Delete, [id], caller).handler == DeleteJob
  {
    forall j | 0 <= j < 5 ensures !Answers(JobRoutes[j], Delete, [id]) {
      if j == 0 {} else if j == 1 {} else if j == 2 {} else if j == 3 {} else {}
    }
    ResolveAt(JobRoutes, Delete, [id], 5);
  }

  /** Listing one's own jobs passes the gate exactly for a signed-in employer or admin, and reaches `getMyJobs`. */
  lemma MyJobsGated(caller: Option<Actor>)
    ensures Dispatch(JobRoutes, Get, ["my-jobs"], caller).Reached? <==> caller.Some? && caller.value.role in EmployerOrAdmin
    ensures Dispatch(JobRoutes, Get, ["my-jobs"], caller).Reached? ==> Dispatch(JobRoutes, Get, ["my-jobs"], caller).handler == GetMyJobs
  {
    MyJobsBeforeId(caller);
  }

  /**
   * `/my-jobs` is registered before `/:id`: the `:id` pattern would take
   * "my-jobs" as an identity, but the request is resolved to `getMyJobs`.
   */
  lemma MyJobsBeforeId(caller: Option<Actor>)
    ensures Answers(JobRoutes[3], Get, ["my-jobs"])
    ensures Resolve(JobRoutes, Get, ["my-jobs"]) == Some(2)
    ensures Dispatch(JobRoutes, Get, ["my-jobs"], caller) != Reached(GetJobById)
  {
    forall j | 0 <= j < 2 ensures !Answers(JobRoutes[j], Get, ["my-jobs"]) {
    }
    ResolveAt(JobRoutes, Get, ["my-jobs"], 2);
  }

  /** Applying and listing one's own applications need a signed-in caller of any role. */
  lemma ApplicationSelfServiceGated(caller: Option<Actor>)
    ensures Dispatch(ApplicationRoutes, Post, [], caller) == if caller.Some? then Reached(ApplyForJob) else Stopped(Unauthenticated)
    ensures Dispatch(ApplicationRoutes, Get, ["my-applications"], caller)
            == if caller.Some? then Reached(GetMyApplications) else Stopped(Unauthenticated)
  {
    ResolveAt(ApplicationRoutes, Post, [], 0);
    ApplicationLiteralsBeforeId("x", caller);
  }

  /**
   * Listing a job's applications and updating an application need an
   * employer or admin; deleting an application needs only a signed-in
   * caller, ownership being left to the handler.
   */
  lemma ApplicationReviewGated(id: string, caller: Option<Actor>)
    requires id != []
    ensures Dispatch(ApplicationRoutes, Get, ["job", id], caller).Reached? <==> caller.Some? && caller.value.role in EmployerOrAdmin
    ensures Dispatch(ApplicationRoutes, Put, [id], caller).Reached? <==> caller.Some? && caller.value.role in EmployerOrAdmin
    ensures Dispatch(ApplicationRoutes, Delete, [id], caller) == if caller.Some? then Reached(DeleteApplication) else Stopped(Unauthenticated)
    ensures Dispatch(ApplicationRoutes, Get, ["job", id], caller).Reached? ==> Dispatch(ApplicationRoutes, Get, ["job", id], caller).handler == GetJobApplications
    ensures Dispatch(ApplicationRoutes, Put, [id], caller).Reached? ==> Dispatch(ApplicationRoutes, Put, [id], caller).handler == UpdateApplicationStatus
  {
    JobApplicationsResolved(id);
    forall j | 0 <= j < 3 ensures !Answers(ApplicationRoutes[j], Put, [id]) {
      if j == 0 {} else if j == 1 {} else {}
    }
    ResolveAt(ApplicationRoutes, Put, [id], 3);
    forall j | 0 <= j < 4 ensures !Answers(ApplicationRoutes[j], Delete, [id]) {
      if j == 0 {} else if j == 1 {} else if j == 2 {} else {}
    }
    ResolveAt(ApplicationRoutes, Delete, [id], 4);
  }

  /** `/job/:jobId` takes any non-empty job identity. */
  lemma JobApplicationsResolved(id: string)
    requires id != []
    ensures Resolve(ApplicationRoutes, Get, ["job", id]) == Some(2)
  {
    assert Matches([Param("jobId")], [id]);
    assert ["job", id][1..] == [id];
    forall j | 0 <= j < 2 ensures !Answers(ApplicationRoutes[j], Get, ["job", id]) {
    }
    ResolveAt(ApplicationRoutes, Get, ["job", id], 2);
  }

  /**
   * `/my-applications` and `/job/:jobId` are registered before `/:id`, and
   * the router has no GET for `/:id` at all.
   */
  lemma ApplicationLiteralsBeforeId(id: string, caller: Option<Actor>)
    requires id != [] && id != "my-applications"
    ensures Resolve(ApplicationRoutes, Get, ["my-applications"]) == Some(1)
    ensures Dispatch(ApplicationRoutes, Get, [id], caller) == NoRoute
  {
    ResolveAt(ApplicationRoutes, Get, ["my-applications"], 1);
    forall j | 0 <= j < |ApplicationRoutes| ensures !Answers(ApplicationRoutes[j], Get, [id]) {
      if j == 0 {
      } else if j == 1 {
        assert !SegmentMatches(Lit("my-applications"), id);
      } else if j == 2 {
        assert [id][1..] == [];
        assert !Matches([Param("jobId")], []);
      } else if j == 3 {
      } else {
      }
    }
  }

  /**
   * The gate and the handler's owner-or-admin rule together: a caller who
   * passes the employer-or-admin gate and the ownership check of a record
   * owned by `owner` is an admin, or the employer who owns it.
   */
  lemma GateThenOwnership(caller: Option<Actor>, owner: UserId)
    requires Admit(Authorized(EmployerOrAdmin), caller) == Pass
    ensures caller.Some?
    ensures OwnerOrAdmin(caller.value, owner) <==>
            caller.value.role == Admin || (caller.value.role == Employer && caller.value.id == owner)
  {
  }

  /** Behind a gate that only signs the caller in, ownership alone decides: a job seeker may delete their own application. */
  lemma ProtectedThenOwnership(caller: Option<Actor>, owner: UserId)
    requires Admit(Protected, caller) == Pass
    ensures caller.Some?
    ensures OwnerOrAdmin(caller.value, owner) <==> caller.value.role == Admin || caller.value.id == owner
  {
  }
}
