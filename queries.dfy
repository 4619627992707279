/**
 * Lookups by identity over the two tables, and the read-only handlers:
 * `getJobById`, `getMyJobs` (jobController.js) and `getMyApplications`,
 * `getJobApplications` (applicationController.js).
 */
module Queries {
  import opened Wrappers
  import opened Seqs
  import opened Accounts
  import opened JobModel
  import opened ApplicationModel
  import opened Api

  /**
   * `findById(id)` over a table whose entries carry their identity as
   * `key`: the position of the entry with that identity, if any.
   */
  function Find<T>(s: seq<T>, id: nat, key: T -> nat): (r: Option<nat>)
    ensures r.Some? ==> r.value < |s| && key(s[r.value]) == id
    ensures r.None? <==> forall i :: 0 <= i < |s| ==> key(s[i]) != id
  {
    if s == [] then None
    else if key(s[0]) == id then Some(0)
    else
      match Find(s[1..], id, key)
      case None => None
      case Some(k) => Some(k + 1)
  }

  /** The identity of a job, as `Job.findById` looks it up. */
  function JobKey(j: Job): nat {
    j.id
  }

  /** The identity of an application, as `Application.findById` looks it up. */
  function AppKey(a: Application): nat {
    a.id
  }

  /** `getJobById`: the job with that identity, of any status, or 404. */
  function JobById(jobs: seq<Job>, id: JobId): (r: Result<Job, ApiError>)
    ensures r.Ok? <==> exists i :: 0 <= i < |jobs| && jobs[i].id == id
    ensures r.Ok? ==> r.value in jobs && r.value.id == id
    ensures r.Err? ==> r.error == NotFound
  {
    match Find(jobs, id, JobKey)
    case None => Err(NotFound)
    case Some(i) => Ok(jobs[i])
  }

  function CreatedAt(j: Job): int {
    j.createdAt
  }

  function AppliedAt(a: Application): int {
    a.appliedAt
  }

  /**
   * `getMyJobs`: `Job.find({ postedBy: caller }).sort('-createdAt')` — every
   * job the caller posted, whatever its status, newest first.
   */
  function MyJobs(jobs: seq<Job>, actor: Actor): (r: seq<Job>)
    ensures SortedDesc(r, CreatedAt)
    ensures forall j :: multiset(r)[j] == if j.postedBy == actor.id then multiset(jobs)[j] else 0
    ensures forall j :: j in r <==> j in jobs && j.postedBy == actor.id
  {
    var mine := Filter(jobs, (j: Job) => j.postedBy == actor.id);
    var r := SortDesc(mine, CreatedAt);
    assert forall j :: j in r <==> j in mine by {
      forall j ensures j in r <==> j in mine {
        assert multiset(r)[j] == multiset(mine)[j];
      }
    }
    r
  }

  /** `getMyApplications`: every application of the caller, newest `appliedAt` first. */
  function MyApplications(apps: seq<Application>, actor: Actor): (r: seq<Application>)
    ensures SortedDesc(r, AppliedAt)
    ensures forall a :: multiset(r)[a] == if a.applicant == actor.id then multiset(apps)[a] else 0
    ensures forall a :: a in r <==> a in apps && a.applicant == actor.id
  {
    var mine := Filter(apps, (a: Application) => a.applicant == actor.id);
    var r := SortDesc(mine, AppliedAt);
    assert forall a :: a in r <==> a in mine by {
      forall a ensures a in r <==> a in mine {
        assert multiset(r)[a] == multiset(mine)[a];
      }
    }
    r
  }

  /** Every application for `job`, newest `appliedAt` first. */
  function ApplicationsFor(apps: seq<Application>, job: JobId): (r: seq<Application>)
    ensures SortedDesc(r, AppliedAt)
    ensures forall a :: multiset(r)[a] == if a.job == job then multiset(apps)[a] else 0
    ensures forall a :: a in r <==> a in apps && a.job == job
  {
    var theirs := Filter(apps, (a: Application) => a.job == job);
    var r := SortDesc(theirs, AppliedAt);
    assert forall a :: a in r <==> a in theirs by {
      forall a ensures a in r <==> a in theirs {
        assert multiset(r)[a] == multiset(theirs)[a];
      }
    }
    r
  }

  /**
   * `getJobApplications`: 404 when the job does not exist, then 403 unless
   * the caller posted it or is an admin, and otherwise the job's
   * applications, newest first.
   */
  function JobApplications(jobs: seq<Job>, apps: seq<Application>, actor: Actor, jobId: JobId)
    : (r: Result<seq<Application>, ApiError>)
    ensures r == Err(NotFound) <==> forall i :: 0 <= i < |jobs| ==> jobs[i].id != jobId
    ensures r == Err(Forbidden) ==> exists i :: 0 <= i < |jobs| && jobs[i].id == jobId && !OwnerOrAdmin(actor, jobs[i].postedBy)
    ensures r.Ok? ==> exists i :: 0 <= i < |jobs| && jobs[i].id == jobId && OwnerOrAdmin(actor, jobs[i].postedBy)
    ensures r.Err? ==> r.error == NotFound || r.error == Forbidden
    ensures r.Ok? ==> r.value == ApplicationsFor(apps, jobId)
  {
    match Find(jobs, jobId, JobKey)
    case None => Err(NotFound)
    case Some(i) =>
      if !OwnerOrAdmin(actor, jobs[i].postedBy) then Err(Forbidden)
      else Ok(ApplicationsFor(apps, jobId))
  }

  /** With distinct identities, the owner-or-admin rule decides between 403 and the list. */
  lemma JobApplicationsAuthorization(jobs: seq<Job>, apps: seq<Application>, actor: Actor, i: nat)
    requires i < |jobs|
    requires forall a, b :: 0 <= a < b < |jobs| ==> jobs[a].id != jobs[b].id
    ensures JobApplications(jobs, apps, actor, jobs[i].id).Ok? <==> OwnerOrAdmin(actor, jobs[i].postedBy)
    ensures !OwnerOrAdmin(actor, jobs[i].postedBy) ==> JobApplications(jobs, apps, actor, jobs[i].id) == Err(Forbidden)
  {
    var k := Find(jobs, jobs[i].id, JobKey).value;
    assert k == i;
  }
}
