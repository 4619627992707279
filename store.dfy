/**
 * The two collections the handlers change — jobs and applications — as one
 * object, and the state-changing handlers of jobController.js and
 * applicationController.js as its methods. Identities are handed out from
 * counters and never reused.
 */
module Store {
  import opened Wrappers
  import opened Seqs
  import opened Accounts
  import opened JobModel
  import opened ApplicationModel
  import opened Api
  import opened Queries

  /**
   * Every stored job satisfies the part of the schema updates keep;
   * identities are distinct and already handed out.
   */
  predicate JobsWellFormed(jobs: seq<Job>, nextJobId: nat) {
    && (forall i :: 0 <= i < |jobs| ==> StoredJob(jobs[i]) && jobs[i].id < nextJobId)
    && (forall i, k :: 0 <= i < k < |jobs| ==> jobs[i].id != jobs[k].id)
  }

  /**
   * Every stored application satisfies the schema, identities are distinct
   * and already handed out, each refers to a job identity handed out before
   * it, and the (job, applicant) index is unique.
   */
  predicate AppsWellFormed(apps: seq<Application>, nextAppId: nat, nextJobId: nat) {
    && (forall i :: 0 <= i < |apps| ==> ValidApplication(apps[i]) && apps[i].id < nextAppId && apps[i].job < nextJobId)
    && (forall i, k :: 0 <= i < k < |apps| ==> apps[i].id != apps[k].id)
    && UniqueJobApplicant(apps)
  }

  /**
   * A stored job lists every application that refers to it. The handlers
   * keep this as long as no update body carries `applications`; one that
   * does overwrites the list with whatever it holds.
   */
  predicate BackReferenced(jobs: seq<Job>, apps: seq<Application>) {
    forall i, k :: 0 <= i < |apps| && 0 <= k < |jobs| && jobs[k].id == apps[i].job ==> apps[i].id in jobs[k].applications
  }

  predicate WellFormed(jobs: seq<Job>, apps: seq<Application>, nextJobId: nat, nextAppId: nat) {
    JobsWellFormed(jobs, nextJobId) && AppsWellFormed(apps, nextAppId, nextJobId)
  }

  /**
   * A new job takes a fresh identity, so no stored application refers to it
   * yet, whatever list of applications its body preset.
   */
  lemma AddJobKeeps(jobs: seq<Job>, apps: seq<Application>, nextJobId: nat, nextAppId: nat, j: Job)
    requires WellFormed(jobs, apps, nextJobId, nextAppId)
    requires StoredJob(j) && j.id == nextJobId
    ensures WellFormed(jobs + [j], apps, nextJobId + 1, nextAppId)
    ensures BackReferenced(jobs, apps) ==> BackReferenced(jobs + [j], apps)
  {
    var r := jobs + [j];
    if BackReferenced(jobs, apps) {
      forall i, k | 0 <= i < |apps| && 0 <= k < |r| && r[k].id == apps[i].job
        ensures apps[i].id in r[k].applications
      {
        assert k < |jobs|;
      }
    }
  }

  /**
   * Replacing a job by one with the same identity keeps the tables
   * consistent; the back references survive when its list of applications
   * is kept too.
   */
  lemma ReplaceJobKeeps(jobs: seq<Job>, apps: seq<Application>, nextJobId: nat, nextAppId: nat, i: nat, u: Job)
    requires WellFormed(jobs, apps, nextJobId, nextAppId)
    requires i < |jobs| && StoredJob(u) && u.id == jobs[i].id
    ensures WellFormed(jobs[i := u], apps, nextJobId, nextAppId)
    ensures BackReferenced(jobs, apps) && u.applications == jobs[i].applications ==> BackReferenced(jobs[i := u], apps)
  {
  }

  /**
   * An update that empties the list of a job some application refers to
   * leaves that application unlisted: the back references are lost.
   */
  lemma ClearedListBreaksBackReferences(jobs: seq<Job>, apps: seq<Application>, i: nat, k: nat)
    requires i < |jobs| && k < |apps| && apps[k].job == jobs[i].id
    ensures ApplyJobUpdate(jobs[i], EmptyBody.(applications := Some([]))).Ok?
    ensures !BackReferenced(jobs[i := ApplyJobUpdate(jobs[i], EmptyBody.(applications := Some([]))).value], apps)
  {
    UpdateClearsApplications(jobs[i]);
    var js := jobs[i := jobs[i].(applications := [])];
    assert js[i].id == apps[k].job && apps[k].id !in js[i].applications;
  }

  /** Removing a job keeps the tables consistent; the applications that referred to it are left orphaned. */
  lemma RemoveJobKeeps(jobs: seq<Job>, apps: seq<Application>, nextJobId: nat, nextAppId: nat, i: nat)
    requires WellFormed(jobs, apps, nextJobId, nextAppId) && i < |jobs|
    ensures WellFormed(RemoveAt(jobs, i), apps, nextJobId, nextAppId)
    ensures BackReferenced(jobs, apps) ==> BackReferenced(RemoveAt(jobs, i), apps)
    ensures Find(RemoveAt(jobs, i), jobs[i].id, JobKey).None?
  {
    var r := RemoveAt(jobs, i);
    forall x | 0 <= x < |r| ensures r[x] == jobs[if x < i then x else x + 1] {
    }
    forall x, y | 0 <= x < y < |r| ensures r[x].id != r[y].id {
      var x', y' := if x < i then x else x + 1, if y < i then y else y + 1;
      assert r[x] == jobs[x'] && r[y] == jobs[y'];
    }
    forall x | 0 <= x < |r| ensures r[x].id != jobs[i].id {
      var x' := if x < i then x else x + 1;
      assert r[x] == jobs[x'] && x' != i;
    }
  }

  /**
   * A new application for job `i`, by an applicant who has none for it yet,
   * taking a fresh identity and listed in the job, keeps the tables consistent.
   */
  lemma AddApplicationKeeps(jobs: seq<Job>, apps: seq<Application>, nextJobId: nat, nextAppId: nat, i: nat, a: Application)
    requires WellFormed(jobs, apps, nextJobId, nextAppId) && i < |jobs|
    requires ValidApplication(a) && a.id == nextAppId && a.job == jobs[i].id
    requires !HasApplied(apps, a.job, a.applicant)
    ensures WellFormed(jobs[i := jobs[i].(applications := jobs[i].applications + [a.id])], apps + [a], nextJobId, nextAppId + 1)
    ensures BackReferenced(jobs, apps) ==>
              BackReferenced(jobs[i := jobs[i].(applications := jobs[i].applications + [a.id])], apps + [a])
  {
    var js := jobs[i := jobs[i].(applications := jobs[i].applications + [a.id])];
    var r := apps + [a];
    AppendKeepsUnique(apps, a);
    if BackReferenced(jobs, apps) {
      forall x, k | 0 <= x < |r| && 0 <= k < |js| && js[k].id == r[x].job
        ensures r[x].id in js[k].applications
      {
        if k == i {
          assert js[k].applications == jobs[i].applications + [a.id];
        } else if x == |apps| {
          assert false;
        }
      }
    }
  }

  /**
   * A new application stored without its job listing it (the job's `save()`
   * failed) keeps the tables consistent, and the back references survive
   * only if the job's list happened to hold its identity already.
   */
  lemma AddUnlistedApplicationKeeps(jobs: seq<Job>, apps: seq<Application>, nextJobId: nat, nextAppId: nat, i: nat, a: Application)
    requires WellFormed(jobs, apps, nextJobId, nextAppId) && i < |jobs|
    requires ValidApplication(a) && a.id == nextAppId && a.job == jobs[i].id
    requires !HasApplied(apps, a.job, a.applicant)
    ensures WellFormed(jobs, apps + [a], nextJobId, nextAppId + 1)
    ensures BackReferenced(jobs, apps + [a]) <==> BackReferenced(jobs, apps) && a.id in jobs[i].applications
  {
    var r := apps + [a];
    AppendKeepsUnique(apps, a);
    if BackReferenced(jobs, apps) && a.id in jobs[i].applications {
      forall x, k | 0 <= x < |r| && 0 <= k < |jobs| && jobs[k].id == r[x].job
        ensures r[x].id in jobs[k].applications
      {
        if x == |apps| {
          assert k == i;
        }
      }
    }
    if BackReferenced(jobs, r) {
      assert r[|apps|] == a;
      forall x, k | 0 <= x < |apps| && 0 <= k < |jobs| && jobs[k].id == apps[x].job
        ensures apps[x].id in jobs[k].applications
      {
        assert r[x] == apps[x];
      }
    }
  }

  /** Replacing an application by one with the same identity, job and applicant keeps the tables consistent. */
  lemma ReplaceApplicationKeeps(jobs: seq<Job>, apps: seq<Application>, nextJobId: nat, nextAppId: nat, k: nat, u: Application)
    requires WellFormed(jobs, apps, nextJobId, nextAppId)
    requires k < |apps| && ValidApplication(u)
    requires u.id == apps[k].id && u.job == apps[k].job && u.applicant == apps[k].applicant
    ensures WellFormed(jobs, apps[k := u], nextJobId, nextAppId)
    ensures BackReferenced(jobs, apps) ==> BackReferenced(jobs, apps[k := u])
  {
  }

  /** Removing an application keeps the tables consistent; its job still lists its identity. */
  lemma RemoveApplicationKeeps(jobs: seq<Job>, apps: seq<Application>, nextJobId: nat, nextAppId: nat, k: nat)
    requires WellFormed(jobs, apps, nextJobId, nextAppId) && k < |apps|
    ensures WellFormed(jobs, RemoveAt(apps, k), nextJobId, nextAppId)
    ensures BackReferenced(jobs, apps) ==> BackReferenced(jobs, RemoveAt(apps, k))
  {
    var r := RemoveAt(apps, k);
    forall x, y | 0 <= x < y < |r|
      ensures r[x].id != r[y].id && (r[x].job != r[y].job || r[x].applicant != r[y].applicant)
    {
      var x', y' := if x < k then x else x + 1, if y < k then y else y + 1;
      assert r[x] == apps[x'] && r[y] == apps[y'];
    }
    forall x | 0 <= x < |r| ensures exists x' :: 0 <= x' < |apps| && r[x] == apps[x'] {
      var x' := if x < k then x else x + 1;
      assert r[x] == apps[x'];
    }
  }

  class Board {
    var jobs: seq<Job>
    var apps: seq<Application>
    var nextJobId: nat
    var nextAppId: nat

    predicate Valid()
      reads this
    {
      WellFormed(jobs, apps, nextJobId, nextAppId)
    }

    /** Every job lists the applications that refer to it. */
    predicate Linked()
      reads this
    {
      BackReferenced(jobs, apps)
    }

    /** An empty database. */
    constructor()
      ensures Valid() && Linked()
      ensures jobs == [] && apps == [] && nextJobId == 0 && nextAppId == 0
    {
      jobs := [];
      apps := [];
      nextJobId := 0;
      nextAppId := 0;
    }

    /**
     * `createJob`: the body, with `postedBy` forced to the caller, becomes a
     * new job under a fresh identity, or the validators' errors (400).
     */
    method CreateJob(actor: Actor, b: JobBody, now: int) returns (r: Result<Job, ApiError>)
      requires Valid()
      modifies this
      ensures Valid()
      ensures old(Linked()) ==> Linked()
      ensures apps == old(apps) && nextAppId == old(nextAppId)
      ensures r.Ok? ==> r.value.postedBy == actor.id && r.value.applications == b.applications.GetOr([])
      ensures var built := BuildJob(b, actor.id, old(nextJobId), now);
              && (built.Ok? ==> r == Ok(built.value) && jobs == old(jobs) + [built.value] && nextJobId == old(nextJobId) + 1)
              && (built.Err? ==> r == Err(InvalidJob(built.error)) && jobs == old(jobs) && nextJobId == old(nextJobId))
    {
      var built := BuildJob(b, actor.id, nextJobId, now);
      if built.Err? {
        return Err(InvalidJob(built.error));
      }
      Insert(built.value);
      r := Ok(built.value);
    }

    /** `Job.create`: stores a valid new job under the next identity. */
    method Insert(j: Job)
      requires Valid()
      requires ValidJob(j) && j.id == nextJobId
      modifies this
      ensures Valid()
      ensures old(Linked()) ==> Linked()
      ensures jobs == old(jobs) + [j] && nextJobId == old(nextJobId) + 1
      ensures apps == old(apps) && nextAppId == old(nextAppId)
    {
      AddJobKeeps(jobs, apps, nextJobId, nextAppId, j);
      jobs := jobs + [j];
      nextJobId := nextJobId + 1;
    }

    /**
     * `updateJob`: 404 for an unknown identity, then 403 unless the caller
     * posted the job or is an admin, then the update with the validators of
     * the paths it names (400), and otherwise the job is replaced. The back
     * references survive a body without `applications`.
     */
    method UpdateJob(actor: Actor, id: JobId, b: JobBody) returns (r: Result<Job, ApiError>)
      requires Valid()
      modifies this
      ensures Valid()
      ensures old(Linked()) && b.applications.None? ==> Linked()
      ensures apps == old(apps) && nextJobId == old(nextJobId) && nextAppId == old(nextAppId)
      ensures old(Find(jobs, id, JobKey)).None? ==> r == Err(NotFound) && jobs == old(jobs)
      ensures old(Find(jobs, id, JobKey)).Some? ==>
                var i := old(Find(jobs, id, JobKey)).value;
                var u := ApplyJobUpdate(old(jobs[i]), b);
                if !OwnerOrAdmin(actor, old(jobs[i]).postedBy) then r == Err(Forbidden) && jobs == old(jobs)
                else if u.Err? then r == Err(InvalidJob(u.error)) && jobs == old(jobs)
                else r == Ok(u.value) && jobs == old(jobs)[i := u.value]
    {
      var found := Find(jobs, id, JobKey);
      if found.None? {
        return Err(NotFound);
      }
      var i := found.value;
      if !OwnerOrAdmin(actor, jobs[i].postedBy) {
        return Err(Forbidden);
      }
      var u := ApplyJobUpdate(jobs[i], b);
      if u.Err? {
        return Err(InvalidJob(u.error));
      }
      ReplaceJobKeeps(jobs, apps, nextJobId, nextAppId, i, u.value);
      jobs := jobs[i := u.value];
      r := Ok(u.value);
    }

    /**
     * `deleteJob`: 404, then 403 as for an update, and otherwise the job is
     * removed; its applications stay in place.
     */
    method DeleteJob(actor: Actor, id: JobId) returns (r: Result<(), ApiError>)
      requires Valid()
      modifies this
      ensures Valid()
      ensures old(Linked()) ==> Linked()
      ensures apps == old(apps) && nextJobId == old(nextJobId) && nextAppId == old(nextAppId)
      ensures old(Find(jobs, id, JobKey)).None? ==> r == Err(NotFound) && jobs == old(jobs)
      ensures old(Find(jobs, id, JobKey)).Some? ==>
                var i := old(Find(jobs, id, JobKey)).value;
                if !OwnerOrAdmin(actor, old(jobs[i]).postedBy) then r == Err(Forbidden) && jobs == old(jobs)
                else r == Ok(()) && jobs == RemoveAt(old(jobs), i) && Find(jobs, id, JobKey).None?
    {
      var found := Find(jobs, id, JobKey);
      if found.None? {
        return Err(NotFound);
      }
      var i := found.value;
      if !OwnerOrAdmin(actor, jobs[i].postedBy) {
        return Err(Forbidden);
      }
      RemoveJobKeeps(jobs, apps, nextJobId, nextAppId, i);
      jobs := RemoveAt(jobs, i);
      r := Ok(());
    }

    /**
     * `applyForJob`: 404 for a missing or unknown job (of any status), then
     * 400 if the caller already applied for it, then the application
     * validators (400); otherwise the application is stored under a fresh
     * identity and appended to the job's list, and the job is saved. The
     * save validates the whole job: when its salary lacks a bound it fails
     * with 400, after the application was stored, and the job's list is left
     * as it was.
     */
    method ApplyForJob(actor: Actor, jobId: Option<JobId>, resume: Option<string>, coverLetter: Option<string>, now: int)
      returns (r: Result<Application, ApiError>)
      requires Valid()
      modifies this
      ensures Valid()
      ensures old(Linked()) && (r.Ok? || apps == old(apps)) ==> Linked()
      ensures nextJobId == old(nextJobId)
      ensures (jobId.None? || old(Find(jobs, jobId.value, JobKey)).None?) ==>
                r == Err(NotFound) && jobs == old(jobs) && apps == old(apps) && nextAppId == old(nextAppId)
      ensures jobId.Some? && old(Find(jobs, jobId.value, JobKey)).Some? ==>
                var i := old(Find(jobs, jobId.value, JobKey)).value;
                var built := BuildApplication(old(nextAppId), jobId.value, actor.id, resume, coverLetter, now);
                if old(HasApplied(apps, jobId.value, actor.id)) then
                  r == Err(AlreadyApplied) && jobs == old(jobs) && apps == old(apps) && nextAppId == old(nextAppId)
                else if built.Err? then
                  r == Err(InvalidApplication(built.error)) && jobs == old(jobs) && apps == old(apps) && nextAppId == old(nextAppId)
                else if SaveErrors(old(jobs[i])) != {} then
                  && r == Err(InvalidJob(SaveErrors(old(jobs[i]))))
                  && apps == old(apps) + [built.value]
                  && jobs == old(jobs)
                  && nextAppId == old(nextAppId) + 1
                  && (Linked() <==> old(Linked()) && built.value.id in old(jobs[i]).applications)
                else
                  && r == Ok(built.value)
                  && apps == old(apps) + [built.value]
                  && jobs == old(jobs)[i := old(jobs[i]).(applications := old(jobs[i]).applications + [built.value.id])]
                  && nextAppId == old(nextAppId) + 1
      ensures r.Ok? ==> HasApplied(apps, r.value.job, actor.id) && r.value.status == Pending
      ensures r.Err? && r.error.InvalidJob? ==> jobId.Some? && HasApplied(apps, jobId.value, actor.id)
    {
      if jobId.None? {
        return Err(NotFound);
      }
      var found := Find(jobs, jobId.value, JobKey);
      if found.None? {
        return Err(NotFound);
      }
      var i := found.value;
      if HasApplied(apps, jobId.value, actor.id) {
        return Err(AlreadyApplied);
      }
      var built := BuildApplication(nextAppId, jobId.value, actor.id, resume, coverLetter, now);
      if built.Err? {
        return Err(InvalidApplication(built.error));
      }
      var a := built.value;
      // The identity pushed onto the list plays no part in the validation
      // (JobModel.SaveIgnoresApplications).
      var saveErrors := SaveErrors(jobs[i]);
      if saveErrors != {} {
        StoreUnlisted(i, a);
        return Err(InvalidJob(saveErrors));
      }
      StoreListed(i, a);
      r := Ok(a);
    }

    /** `Application.create` and a successful `job.save()`: the application is stored and listed in job `i`. */
    method StoreListed(i: nat, a: Application)
      requires Valid() && i < |jobs|
      requires ValidApplication(a) && a.id == nextAppId && a.job == jobs[i].id
      requires !HasApplied(apps, a.job, a.applicant)
      modifies this
      ensures Valid()
      ensures old(Linked()) ==> Linked()
      ensures apps == old(apps) + [a] && nextAppId == old(nextAppId) + 1 && nextJobId == old(nextJobId)
      ensures jobs == old(jobs)[i := old(jobs[i]).(applications := old(jobs[i]).applications + [a.id])]
      ensures HasApplied(apps, a.job, a.applicant)
    {
      AddApplicationKeeps(jobs, apps, nextJobId, nextAppId, i, a);
      apps := apps + [a];
      jobs := jobs[i := jobs[i].(applications := jobs[i].applications + [a.id])];
      nextAppId := nextAppId + 1;
      assert apps[|apps| - 1] == a;
    }

    /** `Application.create` and a failed `job.save()`: the application is stored, and job `i` does not list it. */
    method StoreUnlisted(i: nat, a: Application)
      requires Valid() && i < |jobs|
      requires ValidApplication(a) && a.id == nextAppId && a.job == jobs[i].id
      requires !HasApplied(apps, a.job, a.applicant)
      modifies this
      ensures Valid()
      ensures Linked() <==> old(Linked()) && a.id in old(jobs[i]).applications
      ensures apps == old(apps) + [a] && nextAppId == old(nextAppId) + 1 && nextJobId == old(nextJobId)
      ensures jobs == old(jobs)
      ensures HasApplied(apps, a.job, a.applicant)
    {
      AddUnlistedApplicationKeeps(jobs, apps, nextJobId, nextAppId, i, a);
      apps := apps + [a];
      nextAppId := nextAppId + 1;
      assert apps[|apps| - 1] == a;
    }

    /**
     * `updateApplicationStatus`: 404 for an unknown application; 400 when its
     * job no longer exists (the populated reference is null); 403 unless the
     * caller posted that job or is an admin; then the falsy-keeping update of
     * status and notes with the status validator (400).
     */
    method UpdateApplicationStatus(actor: Actor, id: AppId, status: Option<string>, notes: Option<string>)
      returns (r: Result<Application, ApiError>)
      requires Valid()
      modifies this
      ensures Valid()
      ensures old(Linked()) ==> Linked()
      ensures jobs == old(jobs) && nextJobId == old(nextJobId) && nextAppId == old(nextAppId)
      ensures old(Find(apps, id, AppKey)).None? ==> r == Err(NotFound) && apps == old(apps)
      ensures old(Find(apps, id, AppKey)).Some? ==>
                var k := old(Find(apps, id, AppKey)).value;
                var parent := Find(jobs, old(apps[k]).job, JobKey);
                var u := ApplyStatusUpdate(old(apps[k]), status, notes);
                if parent.None? then r == Err(BrokenReference) && apps == old(apps)
                else if !OwnerOrAdmin(actor, jobs[parent.value].postedBy) then r == Err(Forbidden) && apps == old(apps)
                else if u.Err? then r == Err(InvalidApplication(u.error)) && apps == old(apps)
                else r == Ok(u.value) && apps == old(apps)[k := u.value]
    {
      var found := Find(apps, id, AppKey);
      if found.None? {
        return Err(NotFound);
      }
      var k := found.value;
      var parent := Find(jobs, apps[k].job, JobKey);
      if parent.None? {
        return Err(BrokenReference);
      }
      if !OwnerOrAdmin(actor, jobs[parent.value].postedBy) {
        return Err(Forbidden);
      }
      var u := ApplyStatusUpdate(apps[k], status, notes);
      if u.Err? {
        return Err(InvalidApplication(u.error));
      }
      ReplaceApplicationKeeps(jobs, apps, nextJobId, nextAppId, k, u.value);
      apps := apps[k := u.value];
      r := Ok(u.value);
    }

    /**
     * `deleteApplication`: 404, then 403 unless the caller is the applicant
     * or an admin, and otherwise the application is removed; the job keeps
     * its identity in its list.
     */
    method DeleteApplication(actor: Actor, id: AppId) returns (r: Result<(), ApiError>)
      requires Valid()
      modifies this
      ensures Valid()
      ensures old(Linked()) ==> Linked()
      ensures jobs == old(jobs) && nextJobId == old(nextJobId) && nextAppId == old(nextAppId)
      ensures old(Find(apps, id, AppKey)).None? ==> r == Err(NotFound) && apps == old(apps)
      ensures old(Find(apps, id, AppKey)).Some? ==>
                var k := old(Find(apps, id, AppKey)).value;
                if !OwnerOrAdmin(actor, old(apps[k]).applicant) then r == Err(Forbidden) && apps == old(apps)
                else r == Ok(()) && apps == RemoveAt(old(apps), k)
    {
      var found := Find(apps, id, AppKey);
      if found.None? {
        return Err(NotFound);
      }
      var k := found.value;
      if !OwnerOrAdmin(actor, apps[k].applicant) {
        return Err(Forbidden);
      }
      RemoveApplicationKeeps(jobs, apps, nextJobId, nextAppId, k);
      apps := RemoveAt(apps, k);
      r := Ok(());
    }
  }
}
