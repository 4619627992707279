/**
 * The job form of mern-job-finder/frontend/src/pages/CreateJob.js: its
 * initial state and the request body `handleSubmit` builds from it.
 */
module CreateJobForm {
  import opened Wrappers
  import opened Text
  import opened JobModel
  import opened FormLists

  /**
   * The form's fields as typed. The two salary inputs hold a number or
   * nothing (the empty input).
   */
  datatype JobForm = JobForm(
    title: string,
    company: string,
    description: string,
    requirements: string,
    location: string,
    jobType: string,
    minSalary: Option<int>,
    maxSalary: Option<int>,
    category: string,
    experienceLevel: string,
    skills: string,
    deadline: string)

  /** The form as first shown: everything empty except the three selects. */
  const InitialForm := JobForm("", "", "", "", "", "Full-time", None, None, "Technology", "Mid", "", "")

  /** `Number(input)`: an empty input is 0. */
  function SalaryNumber(v: Option<int>): (n: int)
    ensures v.None? ==> n == 0
    ensures v.Some? ==> n == v.value
  {
    v.GetOr(0)
  }

  /**
   * `handleSubmit`'s `jobData`: text fields as typed, requirements one per
   * non-blank line, skills comma-separated and trimmed, salary bounds as
   * numbers in one complete salary object, and the deadline left out when it
   * is empty. The form never sends `postedBy`, `status`, `applications` or
   * `createdAt`.
   */
  function Payload(f: JobForm): (b: JobBody)
    ensures b.postedBy.None? && b.status.None? && b.applications.None? && b.createdAt.None?
    ensures b.salary == Some(Salary(Some(SalaryNumber(f.minSalary)), Some(SalaryNumber(f.maxSalary))))
    ensures b.deadline.None? <==> f.deadline == []
    ensures b.deadline.Some? ==> b.deadline.value == f.deadline
    ensures b.requirements == Some(RequirementsOf(f.requirements)) && b.skills == Some(SkillsOf(f.skills))
    ensures forall i :: 0 <= i < |b.requirements.value| ==> NotBlank(b.requirements.value[i])
    ensures |b.requirements.value| <= Count(f.requirements, '\n') + 1
    ensures |b.skills.value| <= Count(f.skills, ',') + 1
    ensures b.title == Some(f.title) && b.company == Some(f.company) && b.description == Some(f.description)
    ensures b.location == Some(f.location)
    ensures b.jobType == Some(f.jobType) && b.category == Some(f.category) && b.experienceLevel == Some(f.experienceLevel)
  {
    JobBody(
      title := Some(f.title),
      company := Some(f.company),
      description := Some(f.description),
      requirements := Some(RequirementsOf(f.requirements)),
      location := Some(f.location),
      jobType := Some(f.jobType),
      salary := Some(Salary(Some(SalaryNumber(f.minSalary)), Some(SalaryNumber(f.maxSalary)))),
      category := Some(f.category),
      experienceLevel := Some(f.experienceLevel),
      skills := Some(SkillsOf(f.skills)),
      postedBy := None,
      status := None,
      deadline := if f.deadline == [] then None else Some(f.deadline),
      applications := None,
      createdAt := None)
  }

  /** The three preselected values are members of the schema's enumerations. */
  lemma InitialSelectsValid()
    ensures ParseJobType(InitialForm.jobType) == Some(FullTime)
    ensures ParseCategory(InitialForm.category) == Some(Technology)
    ensures ParseExperienceLevel(InitialForm.experienceLevel) == Some(Mid)
  {
    ParseNames(FullTime, Technology, Mid, Active);
  }

  /** The form's text fields and selects, as they stand in a body the form sent. */
  predicate SentBy(b: JobBody, f: JobForm) {
    && b.title == Some(f.title) && b.company == Some(f.company) && b.description == Some(f.description)
    && b.location == Some(f.location)
    && b.jobType == Some(f.jobType) && b.category == Some(f.category) && b.experienceLevel == Some(f.experienceLevel)
    && b.salary.Some? && SalaryComplete(b.salary.value) && b.status.None?
  }

  /** What the server's validators decide about a body the form sent, field by field. */
  lemma SentAccepted(b: JobBody, f: JobForm)
    requires SentBy(b, f)
    ensures CreateAccepts(b) <==>
              && TitleAccepted(f.title) && Trim(f.company) != [] && DescriptionAccepted(f.description)
              && Trim(f.location) != []
              && ParseJobType(f.jobType).Some? && ParseCategory(f.category).Some?
              && ParseExperienceLevel(f.experienceLevel).Some?
  {
  }

  /**
   * Which forms the server accepts: the text fields must pass their
   * validators and the selects must name enumeration members. Empty salary
   * inputs never cause a rejection, since they are sent as 0.
   */
  lemma PayloadAccepted(f: JobForm)
    ensures CreateAccepts(Payload(f)) <==>
              && TitleAccepted(f.title) && Trim(f.company) != [] && DescriptionAccepted(f.description)
              && Trim(f.location) != []
              && ParseJobType(f.jobType).Some? && ParseCategory(f.category).Some?
              && ParseExperienceLevel(f.experienceLevel).Some?
  {
    var b := Payload(f);
    assert SentBy(b, f);
    SentAccepted(b, f);
  }
}
