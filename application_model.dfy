/**
 * The application schema (backend/models/Application.js): the stored record,
 * its status enumeration, what `Application.create` does with the fields
 * `applyForJob` passes it, what `updateApplicationStatus` writes before
 * `save`, and the unique (job, applicant) index.
 */
module ApplicationModel {
  import opened Wrappers
  import opened Accounts
  import opened JobModel

  datatype AppStatus = Pending | Reviewing | Shortlisted | Rejected | Accepted

  function AppStatusName(s: AppStatus): string {
    match s
    case Pending => "pending"
    case Reviewing => "reviewing"
    case Shortlisted => "shortlisted"
    case Rejected => "rejected"
    case Accepted => "accepted"
  }

  /** The enum validator of `status`: accepts exactly the five names. */
  function ParseAppStatus(s: string): (r: Option<AppStatus>)
    ensures r.Some? ==> AppStatusName(r.value) == s
    ensures r.None? ==> forall t :: AppStatusName(t) != s
  {
    if s == "pending" then Some(Pending)
    else if s == "reviewing" then Some(Reviewing)
    else if s == "shortlisted" then Some(Shortlisted)
    else if s == "rejected" then Some(Rejected)
    else if s == "accepted" then Some(Accepted)
    else None
  }

  /** Each status name parses back to its status. */
  lemma ParseAppStatusName(st: AppStatus)
    ensures ParseAppStatus(AppStatusName(st)) == Some(st)
  {
  }

  /**
   * A stored application. `job` and `applicant` are required references;
   * `coverLetter` and `notes` are optional.
   */
  datatype Application = Application(
    id: AppId,
    job: JobId,
    applicant: UserId,
    resume: string,
    coverLetter: Option<string>,
    status: AppStatus,
    appliedAt: int,
    notes: Option<string>)

  const CoverLetterMaxLength := 1000

  /** The schema as an invariant: a non-empty resume, a cover letter of at most 1000 characters. */
  predicate ValidApplication(a: Application) {
    a.resume != [] && (a.coverLetter.Some? ==> |a.coverLetter.value| <= CoverLetterMaxLength)
  }

  /** The schema paths a validation error can name. */
  datatype AppField = ResumeField | CoverLetterField | AppStatusField

  /**
   * Whether the validator of path `f` rejects a new application with these
   * fields: `required` fails on a missing or empty resume (no trim setter, so
   * blanks count as content), `maxlength` on a cover letter over 1000
   * characters; a new application always takes the default status.
   */
  predicate ApplicationRejects(resume: Option<string>, coverLetter: Option<string>, f: AppField) {
    match f
    case ResumeField => resume.None? || resume.value == []
    case CoverLetterField => coverLetter.Some? && |coverLetter.value| > CoverLetterMaxLength
    case AppStatusField => false
  }

  /** The paths the validators of a new application reject. */
  function ApplicationErrors(resume: Option<string>, coverLetter: Option<string>): (errors: set<AppField>)
    ensures forall f :: f in errors <==> ApplicationRejects(resume, coverLetter, f)
  {
    (if ApplicationRejects(resume, coverLetter, ResumeField) then {ResumeField} else {})
    + (if ApplicationRejects(resume, coverLetter, CoverLetterField) then {CoverLetterField} else {})
  }

  /**
   * `Application.create({ job, applicant, resume, coverLetter })`: the
   * document gets identity `id`, the time `now`, status pending and no notes;
   * a rejected one names the failing paths.
   */
  function BuildApplication(id: AppId, job: JobId, applicant: UserId, resume: Option<string>,
                            coverLetter: Option<string>, now: int): (r: Result<Application, set<AppField>>)
    ensures r.Ok? <==> resume.Some? && resume.value != []
                       && (coverLetter.Some? ==> |coverLetter.value| <= CoverLetterMaxLength)
    ensures r.Err? ==> r.error != {} && forall f :: f in r.error <==> ApplicationRejects(resume, coverLetter, f)
    ensures r.Ok? ==> ValidApplication(r.value)
    ensures r.Ok? ==> && r.value.id == id && r.value.job == job && r.value.applicant == applicant
                      && Some(r.value.resume) == resume && r.value.coverLetter == coverLetter
                      && r.value.status == Pending && r.value.appliedAt == now && r.value.notes.None?
  {
    var errors := ApplicationErrors(resume, coverLetter);
    if errors != {} then Err(errors)
    else
      assert !ApplicationRejects(resume, coverLetter, ResumeField);
      assert !ApplicationRejects(resume, coverLetter, CoverLetterField);
      Ok(Application(id, job, applicant, resume.value, coverLetter, Pending, now, None))
  }

  /** A JavaScript string is falsy exactly when it is missing or empty. */
  predicate Truthy(v: Option<string>) {
    v.Some? && v.value != []
  }

  /**
   * `application.status = req.body.status || application.status` and the same
   * for `notes`, then `save()`: a falsy value keeps the field, a status must
   * be one of the five names (any of them, whatever the current status), and
   * notes are free text.
   */
  function ApplyStatusUpdate(a: Application, status: Option<string>, notes: Option<string>)
    : (r: Result<Application, set<AppField>>)
    ensures r.Err? <==> Truthy(status) && ParseAppStatus(status.value).None?
    ensures r.Err? ==> r.error == {AppStatusField}
    ensures r.Ok? ==> r.value == a.(status := r.value.status, notes := r.value.notes)
    ensures r.Ok? ==> && (!Truthy(status) ==> r.value.status == a.status)
                      && (Truthy(status) ==> status.value == AppStatusName(r.value.status))
    ensures r.Ok? ==> r.value.notes == if Truthy(notes) then notes else a.notes
    ensures ValidApplication(a) && r.Ok? ==> ValidApplication(r.value)
  {
    if !Truthy(status) then
      Ok(a.(notes := if Truthy(notes) then notes else a.notes))
    else
      match ParseAppStatus(status.value)
      case None => Err({AppStatusField})
      case Some(st) => Ok(a.(status := st, notes := if Truthy(notes) then notes else a.notes))
  }

  /** Any of the five statuses can be set, from any current status. */
  lemma AnyStatusReachable(a: Application, st: AppStatus)
    ensures ApplyStatusUpdate(a, Some(AppStatusName(st)), None) == Ok(a.(status := st))
  {
    ParseAppStatusName(st);
  }

  /** A request with neither a status nor notes leaves the application as it was. */
  lemma FalsyUpdateKeeps(a: Application, status: Option<string>, notes: Option<string>)
    requires !Truthy(status) && !Truthy(notes)
    ensures ApplyStatusUpdate(a, status, notes) == Ok(a)
  {
  }

  /** The unique index on (job, applicant): no two applications share the pair. */
  predicate UniqueJobApplicant(apps: seq<Application>) {
    forall i, k :: 0 <= i < k < |apps| ==> apps[i].job != apps[k].job || apps[i].applicant != apps[k].applicant
  }

  /** Whether `applicant` already has an application for `job`. */
  predicate HasApplied(apps: seq<Application>, job: JobId, applicant: UserId) {
    exists i :: 0 <= i < |apps| && apps[i].job == job && apps[i].applicant == applicant
  }

  /** Adding an application for a pair not yet present keeps the index unique. */
  lemma AppendKeepsUnique(apps: seq<Application>, a: Application)
    requires UniqueJobApplicant(apps) && !HasApplied(apps, a.job, a.applicant)
    ensures UniqueJobApplicant(apps + [a])
  {
    var r := apps + [a];
    forall i, k | 0 <= i < k < |r| ensures r[i].job != r[k].job || r[i].applicant != r[k].applicant {
      if k == |apps| {
        assert r[i] == apps[i];
      }
    }
  }
}
