/**
 * The job posting schema (backend/models/Job.js): the stored record, the
 * enumerations it draws on, what `Job.create` does with a request body
 * (trim setters, defaults, required/maxlength/enum validators), and what
 * `findByIdAndUpdate(..., { runValidators: true })` does with one.
 * A stored job that passed validation satisfies `ValidJob`, the invariant the
 * store keeps.
 */
module JobModel {
  import opened Wrappers
  import opened Text
  import opened Seqs
  import opened Accounts

  type JobId = nat

  /** Identity of an application, as held in a job's `applications` list. */
  type AppId = nat

  datatype JobType = FullTime | PartTime | Contract | Internship | Remote

  function JobTypeName(t: JobType): string {
    match t
    case FullTime => "Full-time"
    case PartTime => "Part-time"
    case Contract => "Contract"
    case Internship => "Internship"
    case Remote => "Remote"
  }

  /** The enum validator of `jobType`: accepts exactly the five names. */
  function ParseJobType(s: string): (r: Option<JobType>)
    ensures r.Some? ==> JobTypeName(r.value) == s
    ensures r.None? ==> forall t :: JobTypeName(t) != s
  {
    if s == "Full-time" then Some(FullTime)
    else if s == "Part-time" then Some(PartTime)
    else if s == "Contract" then Some(Contract)
    else if s == "Internship" then Some(Internship)
    else if s == "Remote" then Some(Remote)
    else None
  }

  datatype Category = Technology | Marketing | Sales | Design | Finance | Healthcare | Education | Other

  function CategoryName(c: Category): string {
    match c
    case Technology => "Technology"
    case Marketing => "Marketing"
    case Sales => "Sales"
    case Design => "Design"
    case Finance => "Finance"
    case Healthcare => "Healthcare"
    case Education => "Education"
    case Other => "Other"
  }

  /** The enum validator of `category`: accepts exactly the eight names. */
  function ParseCategory(s: string): (r: Option<Category>)
    ensures r.Some? ==> CategoryName(r.value) == s
    ensures r.None? ==> forall c :: CategoryName(c) != s
  {
    if s == "Technology" then Some(Technology)
    else if s == "Marketing" then Some(Marketing)
    else if s == "Sales" then Some(Sales)
    else if s == "Design" then Some(Design)
    else if s == "Finance" then Some(Finance)
    else if s == "Healthcare" then Some(Healthcare)
    else if s == "Education" then Some(Education)
    else if s == "Other" then Some(Other)
    else None
  }

  datatype ExperienceLevel = Entry | Mid | Senior | Lead

  function ExperienceLevelName(e: ExperienceLevel): string {
    match e
    case Entry => "Entry"
    case Mid => "Mid"
    case Senior => "Senior"
    case Lead => "Lead"
  }

  /** The enum validator of `experienceLevel`: accepts exactly the four names. */
  function ParseExperienceLevel(s: string): (r: Option<ExperienceLevel>)
    ensures r.Some? ==> ExperienceLevelName(r.value) == s
    ensures r.None? ==> forall e :: ExperienceLevelName(e) != s
  {
    if s == "Entry" then Some(Entry)
    else if s == "Mid" then Some(Mid)
    else if s == "Senior" then Some(Senior)
    else if s == "Lead" then Some(Lead)
    else None
  }

  datatype JobStatus = Active | Closed | Draft

  function JobStatusName(s: JobStatus): string {
    match s
    case Active => "active"
    case Closed => "closed"
    case Draft => "draft"
  }

  /** The enum validator of `status`: accepts exactly the three names. */
  function ParseJobStatus(s: string): (r: Option<JobStatus>)
    ensures r.Some? ==> JobStatusName(r.value) == s
    ensures r.None? ==> forall t :: JobStatusName(t) != s
  {
    if s == "active" then Some(Active)
    else if s == "closed" then Some(Closed)
    else if s == "draft" then Some(Draft)
    else None
  }

  /**
   * The nested salary object. Both bounds are plain numbers and nothing
   * orders them. A bound is `None` when the object lacks it, which only an
   * update replacing the whole object can leave behind.
   */
  datatype Salary = Salary(min: Option<int>, max: Option<int>)

  /** A stored job posting. `deadline` is kept as the text the client sent. */
  datatype Job = Job(
    id: JobId,
    title: string,
    company: string,
    description: string,
    requirements: seq<string>,
    location: string,
    jobType: JobType,
    salary: Salary,
    category: Category,
    experienceLevel: ExperienceLevel,
    skills: seq<string>,
    postedBy: UserId,
    applications: seq<AppId>,
    status: JobStatus,
    deadline: Option<string>,
    createdAt: int)

  const TitleMaxLength := 100
  const DescriptionMaxLength := 2000

  /** Every entry of `xs` has no whitespace at either end. */
  predicate AllTrimmed(xs: seq<string>) {
    forall i :: 0 <= i < |xs| ==> Trimmed(xs[i])
  }

  /** Both salary bounds are present. */
  predicate SalaryComplete(s: Salary) {
    s.min.Some? && s.max.Some?
  }

  /**
   * The part of the schema every stored job satisfies, whatever updates it
   * went through: title, company and location are required and trimmed,
   * the title at most 100 characters; the description is required (not
   * trimmed) and at most 2000 characters; requirement and skill entries are
   * trimmed. The enumerations and `postedBy` are present by construction of
   * `Job`.
   */
  predicate StoredJob(j: Job) {
    && j.title != [] && Trimmed(j.title) && |j.title| <= TitleMaxLength
    && j.company != [] && Trimmed(j.company)
    && j.description != [] && |j.description| <= DescriptionMaxLength
    && j.location != [] && Trimmed(j.location)
    && AllTrimmed(j.requirements)
    && AllTrimmed(j.skills)
  }

  /**
   * The whole schema, as a new document is validated: in addition, both
   * salary bounds are present.
   */
  predicate ValidJob(j: Job) {
    StoredJob(j) && SalaryComplete(j.salary)
  }

  /**
   * The keys of a request body that the job schema knows; `None` is a key the
   * body does not carry. Enumerations arrive as text, and `salary` as a whole
   * nested object.
   */
  datatype JobBody = JobBody(
    title: Option<string>,
    company: Option<string>,
    description: Option<string>,
    requirements: Option<seq<string>>,
    location: Option<string>,
    jobType: Option<string>,
    salary: Option<Salary>,
    category: Option<string>,
    experienceLevel: Option<string>,
    skills: Option<seq<string>>,
    postedBy: Option<UserId>,
    status: Option<string>,
    deadline: Option<string>,
    applications: Option<seq<AppId>>,
    createdAt: Option<int>)

  /** A body with no keys. */
  const EmptyBody := JobBody(None, None, None, None, None, None, None, None, None, None, None, None, None, None, None)

  /** The schema paths a validation error can name. */
  datatype JobField =
    | TitleField | CompanyField | DescriptionField | LocationField | JobTypeField
    | SalaryMinField | SalaryMaxField | CategoryField | ExperienceLevelField | StatusField

  /** Title after its trim setter: non-empty and at most 100 characters. */
  predicate TitleAccepted(v: string) {
    Trim(v) != [] && |Trim(v)| <= TitleMaxLength
  }

  /** Description (no setter): non-empty and at most 2000 characters. */
  predicate DescriptionAccepted(v: string) {
    v != [] && |v| <= DescriptionMaxLength
  }

  const AllJobFields: set<JobField> := {TitleField, CompanyField, DescriptionField, LocationField, JobTypeField,
                                        SalaryMinField, SalaryMaxField, CategoryField, ExperienceLevelField, StatusField}

  /**
   * Whether the validator of path `f` rejects the body when it is validated as
   * a whole new document: `required` fails on a missing key and on a string
   * that is empty after its setter, `maxlength` on a longer one, `enum` on a
   * name outside the list; `status` is optional.
   */
  predicate CreateRejects(b: JobBody, f: JobField) {
    match f
    case TitleField => b.title.None? || !TitleAccepted(b.title.value)
    case CompanyField => b.company.None? || Trim(b.company.value) == []
    case DescriptionField => b.description.None? || !DescriptionAccepted(b.description.value)
    case LocationField => b.location.None? || Trim(b.location.value) == []
    case JobTypeField => b.jobType.None? || ParseJobType(b.jobType.value).None?
    case SalaryMinField => b.salary.None? || b.salary.value.min.None?
    case SalaryMaxField => b.salary.None? || b.salary.value.max.None?
    case CategoryField => b.category.None? || ParseCategory(b.category.value).None?
    case ExperienceLevelField => b.experienceLevel.None? || ParseExperienceLevel(b.experienceLevel.value).None?
    case StatusField => b.status.Some? && ParseJobStatus(b.status.value).None?
  }

  /** No validator rejects the body of a new document. */
  predicate CreateAccepts(b: JobBody) {
    && !CreateRejects(b, TitleField) && !CreateRejects(b, CompanyField)
    && !CreateRejects(b, DescriptionField) && !CreateRejects(b, LocationField)
    && !CreateRejects(b, JobTypeField) && !CreateRejects(b, SalaryMinField)
    && !CreateRejects(b, SalaryMaxField) && !CreateRejects(b, CategoryField)
    && !CreateRejects(b, ExperienceLevelField) && !CreateRejects(b, StatusField)
  }

  /** `AllJobFields` lists every path. */
  lemma AllJobFieldsListed(f: JobField)
    ensures f in AllJobFields
  {
    match f
    case TitleField =>
    case CompanyField =>
    case DescriptionField =>
    case LocationField =>
    case JobTypeField =>
    case SalaryMinField =>
    case SalaryMaxField =>
    case CategoryField =>
    case ExperienceLevelField =>
    case StatusField =>
  }

  /** A body every listed validator of a new document accepts is rejected on no path. */
  lemma CreateAcceptsRejectsNothing(b: JobBody)
    requires CreateAccepts(b)
    ensures forall f :: !CreateRejects(b, f)
  {
    forall f ensures !CreateRejects(b, f) {
        match f
        case TitleField =>
        case CompanyField =>
        case DescriptionField =>
        case LocationField =>
        case JobTypeField =>
        case SalaryMinField =>
        case SalaryMaxField =>
        case CategoryField =>
        case ExperienceLevelField =>
        case StatusField =>
    }
  }

  /** The paths a new document's validators reject: exactly those `CreateRejects` names. */
  function CreateErrors(b: JobBody): (errors: set<JobField>)
    ensures forall f :: f in errors <==> CreateRejects(b, f)
    ensures errors == {} <==> CreateAccepts(b)
  {
    var errors := set f | f in AllJobFields && CreateRejects(b, f);
    assert forall f :: f in errors <==> CreateRejects(b, f) by {
      forall f ensures f in errors <==> CreateRejects(b, f) {
        AllJobFieldsListed(f);
      }
    }
    assert CreateAccepts(b) ==> errors == {} by {
      if CreateAccepts(b) { CreateAcceptsRejectsNothing(b); }
    }
    errors
  }

  /** Trimming every entry gives a list of trimmed entries. */
  lemma MapTrimAllTrimmed(xs: seq<string>)
    ensures AllTrimmed(Map(xs, Trim))
  {
  }

  /**
   * `Job.create({ ...body, postedBy: caller })`: the trim setters and defaults
   * applied, then the validators. The new document gets identity `id` and,
   * whatever the body says, `postedBy == caller`. The spread copies every
   * other key: `applications` defaults to the empty list, `createdAt` to the
   * time `now` and `status` to active, but a body naming them presets them.
   * A rejected body names the paths that failed.
   */
  function BuildJob(b: JobBody, caller: UserId, id: JobId, now: int): (r: Result<Job, set<JobField>>)
    ensures r.Ok? <==> CreateAccepts(b)
    ensures r.Err? ==> r.error != {} && forall f :: f in r.error <==> CreateRejects(b, f)
    ensures r.Ok? ==> ValidJob(r.value)
    ensures r.Ok? ==> r.value.id == id && r.value.postedBy == caller
                      && r.value.applications == b.applications.GetOr([])
                      && r.value.createdAt == b.createdAt.GetOr(now)
    ensures r.Ok? ==> && b.title.Some? && r.value.title == Trim(b.title.value)
                      && b.company.Some? && r.value.company == Trim(b.company.value)
                      && b.description == Some(r.value.description)
                      && b.location.Some? && r.value.location == Trim(b.location.value)
                      && b.jobType == Some(JobTypeName(r.value.jobType))
                      && b.category == Some(CategoryName(r.value.category))
                      && b.experienceLevel == Some(ExperienceLevelName(r.value.experienceLevel))
                      && b.salary == Some(r.value.salary)
                      && r.value.deadline == b.deadline
                      && r.value.requirements == Map(b.requirements.GetOr([]), Trim)
                      && r.value.skills == Map(b.skills.GetOr([]), Trim)
    ensures r.Ok? ==> && (b.status.None? ==> r.value.status == Active)
                      && (b.status.Some? ==> b.status.value == JobStatusName(r.value.status))
  {
    if !CreateAccepts(b) then Err(CreateErrors(b)) else Ok(NewJob(b, caller, id, now))
  }

  /** The `jobType` an accepted body names. */
  function JobTypeOf(b: JobBody): (t: JobType)
    requires !CreateRejects(b, JobTypeField)
    ensures b.jobType == Some(JobTypeName(t))
  {
    ParseJobType(b.jobType.value).value
  }

  /** The `category` an accepted body names. */
  function CategoryOf(b: JobBody): (c: Category)
    requires !CreateRejects(b, CategoryField)
    ensures b.category == Some(CategoryName(c))
  {
    ParseCategory(b.category.value).value
  }

  /** The `experienceLevel` an accepted body names. */
  function ExperienceLevelOf(b: JobBody): (e: ExperienceLevel)
    requires !CreateRejects(b, ExperienceLevelField)
    ensures b.experienceLevel == Some(ExperienceLevelName(e))
  {
    ParseExperienceLevel(b.experienceLevel.value).value
  }

  /** The `status` of an accepted body: the one it names, active by default. */
  function StatusOf(b: JobBody): (st: JobStatus)
    requires !CreateRejects(b, StatusField)
    ensures b.status.None? ==> st == Active
    ensures b.status.Some? ==> b.status.value == JobStatusName(st)
  {
    if b.status.None? then Active else ParseJobStatus(b.status.value).value
  }

  /** The document an accepted body becomes. */
  function NewJob(b: JobBody, caller: UserId, id: JobId, now: int): (j: Job)
    requires CreateAccepts(b)
    ensures ValidJob(j)
    ensures j.id == id && j.postedBy == caller
    ensures j.applications == b.applications.GetOr([]) && j.createdAt == b.createdAt.GetOr(now)
    ensures && j.title == Trim(b.title.value)
            && j.company == Trim(b.company.value)
            && b.description == Some(j.description)
            && j.location == Trim(b.location.value)
            && b.jobType == Some(JobTypeName(j.jobType))
            && b.category == Some(CategoryName(j.category))
            && b.experienceLevel == Some(ExperienceLevelName(j.experienceLevel))
            && b.salary == Some(j.salary)
            && j.deadline == b.deadline
            && j.requirements == Map(b.requirements.GetOr([]), Trim)
            && j.skills == Map(b.skills.GetOr([]), Trim)
    ensures && (b.status.None? ==> j.status == Active)
            && (b.status.Some? ==> b.status.value == JobStatusName(j.status))
  {
    var j := Job(
      id,
      Trim(b.title.value),
      Trim(b.company.value),
      b.description.value,
      Map(b.requirements.GetOr([]), Trim),
      Trim(b.location.value),
      JobTypeOf(b),
      b.salary.value,
      CategoryOf(b),
      ExperienceLevelOf(b),
      Map(b.skills.GetOr([]), Trim),
      caller,
      b.applications.GetOr([]),
      StatusOf(b),
      b.deadline,
      b.createdAt.GetOr(now));
    assert ValidJob(j) by {
      MapTrimAllTrimmed(b.requirements.GetOr([]));
      MapTrimAllTrimmed(b.skills.GetOr([]));
    }
    j
  }

  /** The body that carries every field of `j` (except `postedBy`, which creation sets). */
  function BodyOf(j: Job): JobBody {
    JobBody(
      title := Some(j.title), company := Some(j.company), description := Some(j.description),
      requirements := Some(j.requirements), location := Some(j.location),
      jobType := Some(JobTypeName(j.jobType)), salary := Some(j.salary),
      category := Some(CategoryName(j.category)), experienceLevel := Some(ExperienceLevelName(j.experienceLevel)),
      skills := Some(j.skills), postedBy := None, status := Some(JobStatusName(j.status)), deadline := j.deadline,
      applications := Some(j.applications), createdAt := Some(j.createdAt))
  }

  /** Trimming every entry of an already trimmed list changes nothing. */
  lemma MapTrimOfTrimmed(xs: seq<string>)
    requires AllTrimmed(xs)
    ensures Map(xs, Trim) == xs
  {
    forall i | 0 <= i < |xs| ensures Map(xs, Trim)[i] == xs[i] {
      TrimOfTrimmed(xs[i]);
    }
  }

  /** Each enumeration name parses back to its member. */
  lemma ParseNames(t: JobType, c: Category, e: ExperienceLevel, st: JobStatus)
    ensures ParseJobType(JobTypeName(t)) == Some(t)
    ensures ParseCategory(CategoryName(c)) == Some(c)
    ensures ParseExperienceLevel(ExperienceLevelName(e)) == Some(e)
    ensures ParseJobStatus(JobStatusName(st)) == Some(st)
  {
  }

  /** The fields of a valid job pass every validator. */
  lemma BodyOfValidAccepted(j: Job)
    requires ValidJob(j)
    ensures CreateAccepts(BodyOf(j))
  {
    TrimOfTrimmed(j.title);
    TrimOfTrimmed(j.company);
    TrimOfTrimmed(j.location);
    ParseNames(j.jobType, j.category, j.experienceLevel, j.status);
  }

  /**
   * The fields of a stored job pass every validator of a new document
   * except the `required` of a salary bound it lacks.
   */
  lemma StoredBodyRejects(j: Job)
    requires StoredJob(j)
    ensures forall f :: CreateRejects(BodyOf(j), f) <==>
                          || (f == SalaryMinField && j.salary.min.None?)
                          || (f == SalaryMaxField && j.salary.max.None?)
  {
    TrimOfTrimmed(j.title);
    TrimOfTrimmed(j.company);
    TrimOfTrimmed(j.location);
    ParseNames(j.jobType, j.category, j.experienceLevel, j.status);
    forall f ensures CreateRejects(BodyOf(j), f) <==>
                       || (f == SalaryMinField && j.salary.min.None?)
                       || (f == SalaryMaxField && j.salary.max.None?)
    {
      match f
      case TitleField =>
      case CompanyField =>
      case DescriptionField =>
      case LocationField =>
      case JobTypeField =>
      case SalaryMinField =>
      case SalaryMaxField =>
      case CategoryField =>
      case ExperienceLevelField =>
      case StatusField =>
    }
  }

  /**
   * `job.save()` on a loaded document: every path is validated as for a new
   * document, whether or not it changed. For a stored job only a salary
   * bound it lacks can fail.
   */
  function SaveErrors(j: Job): (errors: set<JobField>)
    ensures StoredJob(j) ==> forall f :: f in errors <==>
                                           || (f == SalaryMinField && j.salary.min.None?)
                                           || (f == SalaryMaxField && j.salary.max.None?)
    ensures StoredJob(j) ==> (errors == {} <==> SalaryComplete(j.salary))
  {
    var errors := CreateErrors(BodyOf(j));
    assert StoredJob(j) ==> (errors == {} <==> SalaryComplete(j.salary)) by {
      if StoredJob(j) {
        StoredBodyRejects(j);
        if !SalaryComplete(j.salary) {
          assert SalaryMinField in errors || SalaryMaxField in errors;
        }
      }
    }
    errors
  }

  /**
   * A stored job whose salary object lost its maximum (as an update naming
   * only the minimum leaves it) fails `save()` on exactly that path.
   */
  lemma DroppedBoundFailsSave(j: Job, min: int)
    requires StoredJob(j)
    ensures SaveErrors(j.(salary := Salary(Some(min), None))) == {SalaryMaxField}
  {
    var k := j.(salary := Salary(Some(min), None));
    assert StoredJob(k);
    var e := SaveErrors(k);
    assert forall f :: f in e <==> f == SalaryMaxField;
  }

  /** What `save()` rejects does not depend on the job's list of applications. */
  lemma SaveIgnoresApplications(j: Job, ids: seq<AppId>)
    ensures SaveErrors(j.(applications := ids)) == SaveErrors(j)
  {
    var k := j.(applications := ids);
    assert forall f :: CreateRejects(BodyOf(k), f) == CreateRejects(BodyOf(j), f);
  }

  /**
   * Every valid job can be created: submitting its own fields as a body, by
   * its owner and under its identity, yields that job again at any time.
   */
  lemma BuildJobOfValid(j: Job, now: int)
    requires ValidJob(j)
    ensures BuildJob(BodyOf(j), j.postedBy, j.id, now) == Ok(j)
  {
    BodyOfValidAccepted(j);
    var r := BuildJob(BodyOf(j), j.postedBy, j.id, now);
    assert r.Ok?;
    TrimOfTrimmed(j.title);
    TrimOfTrimmed(j.company);
    TrimOfTrimmed(j.location);
    MapTrimOfTrimmed(j.requirements);
    MapTrimOfTrimmed(j.skills);
    ParseNames(j.jobType, j.category, j.experienceLevel, j.status);
    assert r.value.jobType == j.jobType;
    assert r.value.category == j.category;
    assert r.value.experienceLevel == j.experienceLevel && r.value.status == j.status;
  }

  /**
   * Nothing in the schema relates the two salary bounds: a posting whose
   * minimum exceeds its maximum is accepted.
   */
  lemma InvertedSalaryAccepted(j: Job)
    requires ValidJob(j)
    ensures BuildJob(BodyOf(j).(salary := Some(Salary(Some(200), Some(100)))), j.postedBy, j.id, j.createdAt)
            == Ok(j.(salary := Salary(Some(200), Some(100))))
  {
    var k := j.(salary := Salary(Some(200), Some(100)));
    assert BodyOf(k) == BodyOf(j).(salary := Some(Salary(Some(200), Some(100))));
    BuildJobOfValid(k, j.createdAt);
  }

  /**
   * Whether the validator of path `f` rejects an update body: with
   * `runValidators` only the paths the update names are validated.
   */
  predicate UpdateRejects(b: JobBody, f: JobField) {
    match f
    case TitleField => b.title.Some? && !TitleAccepted(b.title.value)
    case CompanyField => b.company.Some? && Trim(b.company.value) == []
    case DescriptionField => b.description.Some? && !DescriptionAccepted(b.description.value)
    case LocationField => b.location.Some? && Trim(b.location.value) == []
    case JobTypeField => b.jobType.Some? && ParseJobType(b.jobType.value).None?
    case SalaryMinField => false
    case SalaryMaxField => false
    case CategoryField => b.category.Some? && ParseCategory(b.category.value).None?
    case ExperienceLevelField => b.experienceLevel.Some? && ParseExperienceLevel(b.experienceLevel.value).None?
    case StatusField => b.status.Some? && ParseJobStatus(b.status.value).None?
  }

  /** No validator rejects an update body. */
  predicate UpdateAccepts(b: JobBody) {
    && !UpdateRejects(b, TitleField) && !UpdateRejects(b, CompanyField)
    && !UpdateRejects(b, DescriptionField) && !UpdateRejects(b, LocationField)
    && !UpdateRejects(b, JobTypeField) && !UpdateRejects(b, CategoryField)
    && !UpdateRejects(b, ExperienceLevelField) && !UpdateRejects(b, StatusField)
  }

  /** A body every listed validator of an update accepts is rejected on no path. */
  lemma UpdateAcceptsRejectsNothing(b: JobBody)
    requires UpdateAccepts(b)
    ensures forall f :: !UpdateRejects(b, f)
  {
    forall f ensures !UpdateRejects(b, f) {
        match f
        case TitleField =>
        case CompanyField =>
        case DescriptionField =>
        case LocationField =>
        case JobTypeField =>
        case SalaryMinField =>
        case SalaryMaxField =>
        case CategoryField =>
        case ExperienceLevelField =>
        case StatusField =>
    }
  }

  /** The paths an update's validators reject: exactly those `UpdateRejects` names. */
  function UpdateErrors(b: JobBody): (errors: set<JobField>)
    ensures forall f :: f in errors <==> UpdateRejects(b, f)
    ensures errors == {} <==> UpdateAccepts(b)
  {
    var errors := set f | f in AllJobFields && UpdateRejects(b, f);
    assert forall f :: f in errors <==> UpdateRejects(b, f) by {
      forall f ensures f in errors <==> UpdateRejects(b, f) {
        AllJobFieldsListed(f);
      }
    }
    assert UpdateAccepts(b) ==> errors == {} by {
      if UpdateAccepts(b) { UpdateAcceptsRejectsNothing(b); }
    }
    errors
  }

  /**
   * `findByIdAndUpdate(id, body, { new: true, runValidators: true })`: every
   * key the body carries replaces that field (after its setter), the others
   * are kept. The body is not filtered, so a `postedBy` key reassigns the
   * job, an `applications` key overwrites its list of applications, a
   * `createdAt` key redates it, and a `salary` object replaces the whole
   * nested object, dropping a bound it lacks. Only the schema part of
   * `StoredJob` is therefore kept in general; the complete salary only when
   * the body brings none or a complete one.
   */
  function ApplyJobUpdate(j: Job, b: JobBody): (r: Result<Job, set<JobField>>)
    ensures r.Ok? <==> UpdateAccepts(b)
    ensures r.Err? ==> r.error != {} && forall f :: f in r.error <==> UpdateRejects(b, f)
    ensures StoredJob(j) && r.Ok? ==> StoredJob(r.value)
    ensures ValidJob(j) && r.Ok? && (b.salary.Some? ==> SalaryComplete(b.salary.value)) ==> ValidJob(r.value)
    ensures r.Ok? ==> r.value.id == j.id && r.value.applications == b.applications.GetOr(j.applications)
                      && r.value.createdAt == b.createdAt.GetOr(j.createdAt)
                      && r.value.postedBy == b.postedBy.GetOr(j.postedBy)
    ensures r.Ok? ==> && r.value.title == (if b.title.Some? then Trim(b.title.value) else j.title)
                      && r.value.company == (if b.company.Some? then Trim(b.company.value) else j.company)
                      && r.value.description == b.description.GetOr(j.description)
                      && r.value.location == (if b.location.Some? then Trim(b.location.value) else j.location)
                      && r.value.requirements
                         == (if b.requirements.Some? then Map(b.requirements.value, Trim) else j.requirements)
                      && r.value.skills == (if b.skills.Some? then Map(b.skills.value, Trim) else j.skills)
                      && r.value.salary == b.salary.GetOr(j.salary)
                      && r.value.deadline == (if b.deadline.Some? then b.deadline else j.deadline)
    ensures r.Ok? ==> && (b.jobType.None? ==> r.value.jobType == j.jobType)
                      && (b.jobType.Some? ==> b.jobType.value == JobTypeName(r.value.jobType))
                      && (b.category.None? ==> r.value.category == j.category)
                      && (b.category.Some? ==> b.category.value == CategoryName(r.value.category))
                      && (b.experienceLevel.None? ==> r.value.experienceLevel == j.experienceLevel)
                      && (b.experienceLevel.Some? ==> b.experienceLevel.value == ExperienceLevelName(r.value.experienceLevel))
                      && (b.status.None? ==> r.value.status == j.status)
                      && (b.status.Some? ==> b.status.value == JobStatusName(r.value.status))
  {
    if !UpdateAccepts(b) then Err(UpdateErrors(b)) else Ok(UpdatedJob(j, b))
  }

  /** `jobType` after an accepted update: the one the body names, else the old one. */
  function UpdatedJobType(j: Job, b: JobBody): (t: JobType)
    requires !UpdateRejects(b, JobTypeField)
    ensures b.jobType.None? ==> t == j.jobType
    ensures b.jobType.Some? ==> b.jobType.value == JobTypeName(t)
  {
    if b.jobType.Some? then ParseJobType(b.jobType.value).value else j.jobType
  }

  /** `category` after an accepted update. */
  function UpdatedCategory(j: Job, b: JobBody): (c: Category)
    requires !UpdateRejects(b, CategoryField)
    ensures b.category.None? ==> c == j.category
    ensures b.category.Some? ==> b.category.value == CategoryName(c)
  {
    if b.category.Some? then ParseCategory(b.category.value).value else j.category
  }

  /** `experienceLevel` after an accepted update. */
  function UpdatedExperienceLevel(j: Job, b: JobBody): (e: ExperienceLevel)
    requires !UpdateRejects(b, ExperienceLevelField)
    ensures b.experienceLevel.None? ==> e == j.experienceLevel
    ensures b.experienceLevel.Some? ==> b.experienceLevel.value == ExperienceLevelName(e)
  {
    if b.experienceLevel.Some? then ParseExperienceLevel(b.experienceLevel.value).value else j.experienceLevel
  }

  /** `status` after an accepted update. */
  function UpdatedStatus(j: Job, b: JobBody): (st: JobStatus)
    requires !UpdateRejects(b, StatusField)
    ensures b.status.None? ==> st == j.status
    ensures b.status.Some? ==> b.status.value == JobStatusName(st)
  {
    if b.status.Some? then ParseJobStatus(b.status.value).value else j.status
  }

  function UpdatedEnums(j: Job, b: JobBody): (r: Job)
    requires !UpdateRejects(b, JobTypeField) && !UpdateRejects(b, CategoryField)
    requires !UpdateRejects(b, ExperienceLevelField) && !UpdateRejects(b, StatusField)
    ensures r == j.(jobType := r.jobType, category := r.category, experienceLevel := r.experienceLevel, status := r.status)
    ensures && (b.jobType.None? ==> r.jobType == j.jobType)
            && (b.jobType.Some? ==> b.jobType.value == JobTypeName(r.jobType))
            && (b.category.None? ==> r.category == j.category)
            && (b.category.Some? ==> b.category.value == CategoryName(r.category))
            && (b.experienceLevel.None? ==> r.experienceLevel == j.experienceLevel)
            && (b.experienceLevel.Some? ==> b.experienceLevel.value == ExperienceLevelName(r.experienceLevel))
            && (b.status.None? ==> r.status == j.status)
            && (b.status.Some? ==> b.status.value == JobStatusName(r.status))
  {
    j.(jobType := UpdatedJobType(j, b), category := UpdatedCategory(j, b),
       experienceLevel := UpdatedExperienceLevel(j, b), status := UpdatedStatus(j, b))
  }

  /** The document an accepted update leaves behind. */
  function UpdatedJob(j: Job, b: JobBody): (r: Job)
    requires UpdateAccepts(b)
    ensures StoredJob(j) ==> StoredJob(r)
    ensures r.id == j.id && r.applications == b.applications.GetOr(j.applications)
            && r.createdAt == b.createdAt.GetOr(j.createdAt) && r.postedBy == b.postedBy.GetOr(j.postedBy)
    ensures && r.title == (if b.title.Some? then Trim(b.title.value) else j.title)
            && r.company == (if b.company.Some? then Trim(b.company.value) else j.company)
            && r.description == b.description.GetOr(j.description)
            && r.location == (if b.location.Some? then Trim(b.location.value) else j.location)
            && r.requirements == (if b.requirements.Some? then Map(b.requirements.value, Trim) else j.requirements)
            && r.skills == (if b.skills.Some? then Map(b.skills.value, Trim) else j.skills)
            && r.salary == b.salary.GetOr(j.salary)
            && r.deadline == (if b.deadline.Some? then b.deadline else j.deadline)
    ensures && (b.jobType.None? ==> r.jobType == j.jobType)
            && (b.jobType.Some? ==> b.jobType.value == JobTypeName(r.jobType))
            && (b.category.None? ==> r.category == j.category)
            && (b.category.Some? ==> b.category.value == CategoryName(r.category))
            && (b.experienceLevel.None? ==> r.experienceLevel == j.experienceLevel)
            && (b.experienceLevel.Some? ==> b.experienceLevel.value == ExperienceLevelName(r.experienceLevel))
            && (b.status.None? ==> r.status == j.status)
            && (b.status.Some? ==> b.status.value == JobStatusName(r.status))
  {
    var r := UpdatedEnums(UpdatedText(j, b), b);
    assert StoredJob(j) ==> StoredJob(r) by {
      if StoredJob(j) {
        UpdatedJobValid(j, b, r);
      }
    }
    r
  }

  /** The fields of an accepted update other than the enumerations. */
  function UpdatedText(j: Job, b: JobBody): Job
  {
    j.(
      title := if b.title.Some? then Trim(b.title.value) else j.title,
      company := if b.company.Some? then Trim(b.company.value) else j.company,
      description := b.description.GetOr(j.description),
      requirements := if b.requirements.Some? then Map(b.requirements.value, Trim) else j.requirements,
      location := if b.location.Some? then Trim(b.location.value) else j.location,
      salary := b.salary.GetOr(j.salary),
      skills := if b.skills.Some? then Map(b.skills.value, Trim) else j.skills,
      postedBy := b.postedBy.GetOr(j.postedBy),
      deadline := if b.deadline.Some? then b.deadline else j.deadline,
      applications := b.applications.GetOr(j.applications),
      createdAt := b.createdAt.GetOr(j.createdAt))
  }

  /** The fields an accepted update writes keep the schema's invariant. */
  lemma UpdatedJobValid(j: Job, b: JobBody, r: Job)
    requires StoredJob(j)
    requires && !UpdateRejects(b, TitleField) && !UpdateRejects(b, CompanyField)
             && !UpdateRejects(b, DescriptionField) && !UpdateRejects(b, LocationField)
    requires && r.title == (if b.title.Some? then Trim(b.title.value) else j.title)
             && r.company == (if b.company.Some? then Trim(b.company.value) else j.company)
             && r.description == b.description.GetOr(j.description)
             && r.location == (if b.location.Some? then Trim(b.location.value) else j.location)
             && r.requirements == (if b.requirements.Some? then Map(b.requirements.value, Trim) else j.requirements)
             && r.skills == (if b.skills.Some? then Map(b.skills.value, Trim) else j.skills)
    ensures StoredJob(r)
  {
    assert r.title != [] && Trimmed(r.title) && |r.title| <= TitleMaxLength;
    assert r.company != [] && Trimmed(r.company);
    assert r.description != [] && |r.description| <= DescriptionMaxLength;
    assert r.location != [] && Trimmed(r.location);
    assert AllTrimmed(r.requirements) by {
      MapTrimAllTrimmed(b.requirements.GetOr([]));
    }
    assert AllTrimmed(r.skills) by {
      MapTrimAllTrimmed(b.skills.GetOr([]));
    }
  }

  /** An update whose body only names `postedBy` hands the job to another account. */
  lemma UpdateReassignsOwner(j: Job, other: UserId)
    ensures ApplyJobUpdate(j, EmptyBody.(postedBy := Some(other))) == Ok(j.(postedBy := other))
  {
    assert UpdateAccepts(EmptyBody.(postedBy := Some(other)));
  }

  /** An update with an empty body changes nothing. */
  lemma EmptyUpdateKeepsJob(j: Job)
    ensures ApplyJobUpdate(j, EmptyBody) == Ok(j)
  {
    assert UpdateAccepts(EmptyBody);
  }

  /** An update whose body carries an empty `applications` list forgets every application to the job. */
  lemma UpdateClearsApplications(j: Job)
    ensures ApplyJobUpdate(j, EmptyBody.(applications := Some([]))) == Ok(j.(applications := []))
  {
    assert UpdateAccepts(EmptyBody.(applications := Some([])));
  }

  /** An update whose body carries `createdAt` moves the job to another time in the listing order. */
  lemma UpdateRedatesJob(j: Job, t: int)
    ensures ApplyJobUpdate(j, EmptyBody.(createdAt := Some(t))) == Ok(j.(createdAt := t))
  {
    assert UpdateAccepts(EmptyBody.(createdAt := Some(t)));
  }

  /**
   * An update whose `salary` object names only the minimum replaces the whole
   * nested object: the maximum is gone, and the job no longer satisfies the
   * schema it was created under.
   */
  lemma PartialSalaryDropsBound(j: Job, min: int)
    ensures ApplyJobUpdate(j, EmptyBody.(salary := Some(Salary(Some(min), None))))
            == Ok(j.(salary := Salary(Some(min), None)))
    ensures !ValidJob(j.(salary := Salary(Some(min), None)))
  {
    assert UpdateAccepts(EmptyBody.(salary := Some(Salary(Some(min), None))));
  }
}
