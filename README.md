# Job board model

A Dafny model of the core of a MERN job board: an Express/Mongoose REST
backend where employers post jobs and job seekers apply to them, and a
React front end. The model covers:

- **Schemas** (`JobModel`, `ApplicationModel`). The job and application
  schemas become datatypes with validity predicates, validators that name
  the failing paths, setters (trim) and defaults. The unique
  (job, applicant) index becomes an invariant.
- **The search handler** `getJobs` (`JobSearch`). It covers the query object
  built from the query string, what the database admits with it, the
  newest-first order, skip/limit paging, and the `page`/`pages`/`total` the
  response reports.
- **The read-only handlers** (`Queries`): `getJobById`, `getMyJobs`,
  `getMyApplications` and `getJobApplications`.
- **The state-changing handlers** of both controllers (`Store`). They are the
  methods of a class `Board` that holds the job and application collections
  and the identity counters. Its invariant is the schemas plus unique
  identities and the unique index. The job-to-application back-references
  are a second property (`Linked`) that every method keeps, except an
  update whose body carries `applications` and an application whose job
  then fails to save.
  Each method checks "not found" before "not authorized". Owner-or-admin
  is decided against the job's `postedBy`, the parent job's `postedBy`, or
  the application's `applicant`, depending on the handler.
- **The two routers** (`Routes`). They are tables in registration order with
  the `protect`/`authorize` gate in front of each handler. A request goes to
  the first registered route that matches it.
- **Front-end transforms.** The create-job payload (`CreateJobForm`), the
  profile editor (`ProfileForm`), the requirement and skill list parsing
  they share (`FormLists`), and the status badge class (`StatusBadge`).
  `Text` and `Seqs` hold the string and sequence primitives they use
  (JavaScript `trim`, `split`, `join`, case-insensitive containment,
  filter, sort, windows, pages).

Two rules of the system's intended design are not enforced by its code;
the model follows the code:

- The design treats a job's owner as fixed after creation. `updateJob`
  passes the request body to the update unfiltered, so a `postedBy` key
  reassigns the job (`JobModel.UpdateReassignsOwner`). The same holds for
  `applications` (`JobModel.UpdateClearsApplications`) and `createdAt`
  (`JobModel.UpdateRedatesJob`), and a `salary` object naming one bound
  replaces the whole object (`JobModel.PartialSalaryDropsBound`).
- The design gives the salary range as `min <= max`. The schema does
  not enforce it (`JobModel.InvertedSalaryAccepted`).

Failures are an `ApiError` value mapped to the HTTP status the handler
answers with (`Api.StatusCode`). The caller of a request is an explicit
`Actor` (identity, role). The current time is a parameter `now`.

## Model

| member | source | states |
|---|---|---|
| Accounts.OwnerOrAdminMeaning | backend/controllers/jobController.js:126 | the ownership check admits exactly the owner and administrators |
| Api.StatusCode | backend/controllers/jobController.js:109-128 | not found is 404, not authorized is 403, a failed query is 500, and validation and duplicate errors are 400 |
| Text.Trim | backend/models/Job.js:4-14 | the trimmed value has no whitespace at either end, is a contiguous part of the input, and only whitespace was cut on each side |
| Text.TrimEmpty | backend/models/Job.js:6-7 | a value trims to empty exactly when it is all whitespace, so `required` rejects blank text |
| Text.TrimIdempotent | backend/models/Job.js:7 | trimming a trimmed value changes nothing |
| Text.TrimLeadingWhitespace | frontend/src/pages/Profile.js:43 | whitespace in front of a trimmed non-empty entry is removed and nothing else is |
| Text.ContainsIgnoringCase | backend/controllers/jobController.js:15-17 | true exactly when the pattern occurs at some offset of the text, up to case |
| Text.Split | mern-job-finder/frontend/src/pages/CreateJob.js:37 | `split` gives one more piece than there are separators, and no piece holds a separator |
| Text.JoinOfSplit | mern-job-finder/frontend/src/pages/CreateJob.js:37 | joining the pieces with the separator gives the input back |
| Text.SplitOfJoin | frontend/src/pages/Profile.js:25 | splitting a join of separator-free pieces gives the pieces back |
| Text.SplitConcat | mern-job-finder/frontend/src/pages/CreateJob.js:46 | the pieces of `a + sep + b` are the pieces of `a` followed by those of `b` |
| Seqs.SortDesc | backend/controllers/jobController.js:59 | `sort('-createdAt')`: the result is ordered newest first and is a permutation of the input |
| Seqs.Window | backend/controllers/jobController.js:60-61 | `skip(n).limit(m)`: the result has `min(m, len - n)` elements (none past the end), taken in order from position `n` |
| Seqs.CeilDiv | backend/controllers/jobController.js:68 | `Math.ceil(total / limit)` for either sign of the limit, by its defining bounds |
| JobModel.ParseNames | backend/models/Job.js:29-71 | each job type, category, experience level and status name is accepted by its enum validator as that member |
| JobModel.CreateErrors | backend/models/Job.js:3-79 | the validation error names exactly the paths whose validators reject a new document, and is empty exactly when the body is accepted |
| JobModel.MapTrimAllTrimmed | backend/models/Job.js:20-23 | the trim setter on a list leaves every entry trimmed |
| JobModel.MapTrimOfTrimmed | backend/models/Job.js:54-57 | the trim setter on a list of trimmed entries keeps the list |
| JobModel.StatusOf | backend/models/Job.js:67-71 | status is the one the body names, and active when it names none |
| JobModel.BuildJob | backend/controllers/jobController.js:103-106 | `Job.create({...body, postedBy})` succeeds exactly when every validator accepts, and otherwise names the rejected paths. The new job is valid and owned by the caller whatever the body says. Its applications and creation time are the body's when it carries them, else none and the current time, and its other fields are the body's after trimming |
| JobModel.NewJob | backend/models/Job.js:3-79 | the document an accepted body becomes is valid and takes the defaults (status active, no applications, creation time) for the keys the body lacks |
| JobModel.BodyOfValidAccepted | backend/models/Job.js:3-79 | every valid job's own fields pass every validator |
| JobModel.BuildJobOfValid | backend/models/Job.js:3-79 | creating a job from all the fields of a valid job, by its owner, gives that job back at any time |
| JobModel.InvertedSalaryAccepted | backend/models/Job.js:34-43 | a job whose minimum salary exceeds its maximum is accepted |
| JobModel.UpdateErrors | backend/controllers/jobController.js:130-133 | with `runValidators`, the rejected paths are exactly those the update names and fails |
| JobModel.ApplyJobUpdate | backend/controllers/jobController.js:130-133 | `findByIdAndUpdate`: accepted exactly when no named path fails. Each key present, `postedBy`, `applications`, `createdAt` and the whole `salary` object included, replaces its field, after the trim setter. Absent keys keep theirs. The identity is kept. The schema part that updates check is kept, and a valid job stays valid unless the body brings an incomplete salary object |
| JobModel.UpdatedJobValid | backend/models/Job.js:3-33 | the text fields an accepted update writes keep the schema invariant of stored jobs |
| JobModel.UpdateReassignsOwner | backend/controllers/jobController.js:130 | an update body carrying only `postedBy` hands the job to that account |
| JobModel.EmptyUpdateKeepsJob | backend/controllers/jobController.js:130-133 | an empty update changes nothing |
| JobModel.UpdateClearsApplications | backend/controllers/jobController.js:130 | an update body carrying an empty `applications` list empties the job's list |
| JobModel.UpdateRedatesJob | backend/controllers/jobController.js:130 | an update body carrying `createdAt` changes the job's creation time |
| JobModel.PartialSalaryDropsBound | backend/models/Job.js:34-43 | an update whose `salary` names only the minimum leaves no maximum, and the job then fails the schema it was created under |
| JobModel.StoredBodyRejects | backend/models/Job.js:3-79 | a stored job's own fields fail only the `required` of a salary bound it lacks |
| JobModel.SaveErrors | mern-job-finder/backend/controllers/applicationController.js:37 | `job.save()` validates the whole document: for a stored job it fails exactly on the salary bounds it lacks, and passes exactly when both are present |
| JobModel.DroppedBoundFailsSave | backend/models/Job.js:34-43 | a job whose salary maximum an update dropped fails `save()` on `salary.max` alone |
| JobModel.SaveIgnoresApplications | mern-job-finder/backend/controllers/applicationController.js:36-37 | the identity pushed onto `applications` plays no part in what `save()` rejects |
| ApplicationModel.ParseAppStatus | backend/models/Application.js:22-26 | the status validator accepts exactly the five names |
| ApplicationModel.ParseAppStatusName | backend/models/Application.js:22-26 | each status name is accepted as that status |
| ApplicationModel.ApplicationErrors | backend/models/Application.js:14-21 | a missing or empty resume and a cover letter over 1000 characters are exactly the rejected paths |
| ApplicationModel.BuildApplication | mern-job-finder/backend/controllers/applicationController.js:28-33 | `Application.create` succeeds exactly when the resume is present and the cover letter within 1000 characters, and otherwise names the paths. The new application belongs to the caller and the job, with status pending, the current time and no notes |
| ApplicationModel.ApplyStatusUpdate | mern-job-finder/backend/controllers/applicationController.js:102-105 | a falsy status or notes keeps the field. A truthy status must be one of the five names, else it is rejected on the status path. Nothing else changes, and validity is kept |
| ApplicationModel.AnyStatusReachable | mern-job-finder/backend/controllers/applicationController.js:102 | any of the five statuses can be set from any current one |
| ApplicationModel.FalsyUpdateKeeps | mern-job-finder/backend/controllers/applicationController.js:102-103 | a request with neither status nor notes leaves the application as it was |
| ApplicationModel.AppendKeepsUnique | backend/models/Application.js:37 | adding an application for a (job, applicant) pair not yet present keeps the pair unique |
| JobSearch.ActiveByName | backend/controllers/jobController.js:10 | the condition `status: 'active'` holds exactly for active jobs |
| JobSearch.KeywordAlternatives | backend/controllers/jobController.js:14-18 | the `$or` holds exactly when title, description or company contains the keyword, up to case |
| JobSearch.KeywordMeaning | backend/controllers/jobController.js:13-19 | a keyword admits what `$or` admits; no keyword admits everything |
| JobSearch.LocationMeaning | backend/controllers/jobController.js:22-24 | a location admits jobs whose location contains it, up to case; no location admits everything |
| JobSearch.EnumMeaning | backend/controllers/jobController.js:27-39 | job type, category and experience level each admit exact name matches; absent ones impose nothing |
| JobSearch.SalaryMeaning | backend/controllers/jobController.js:42-50 | `minSalary` bounds only `salary.min` from below, `maxSalary` only `salary.max` from above; a missing bound matches neither |
| JobSearch.QueryMeaning | backend/controllers/jobController.js:10-50 | the query object admits a job exactly when it is active and meets every supplied filter (the AND of all of them) |
| JobSearch.SalaryBoundsIndependent | backend/controllers/jobController.js:42-50 | without `maxSalary`, the salary maximum plays no part; without `minSalary`, the minimum plays none; no range-overlap test. A job lacking the bound a filter names never matches |
| JobSearch.PageNumber | backend/controllers/jobController.js:53 | `Number(page) \|\| 1`: absent or zero gives 1, any other number (negatives too) is kept |
| JobSearch.LimitNumber | backend/controllers/jobController.js:54 | `Number(limit) \|\| 10`: absent or zero gives 10, any other number is kept |
| JobSearch.SearchOrder | backend/controllers/jobController.js:57-59 | the matches are ordered newest first |
| JobSearch.SearchOrderMatches | backend/controllers/jobController.js:57-59 | the sorted matches are exactly the admitted jobs of the table, each as often as it occurs there |
| JobSearch.GetJobs | backend/controllers/jobController.js:6-74 | a negative skip fails with 500. Otherwise the response holds the window `skip`, `\|limit\|` of the sorted matches, the page as computed, `total` = all matches regardless of page, and `pages = ceil(total / limit)` |
| JobSearch.SearchReturnsAdmitted | backend/controllers/jobController.js:10-61 | a page holds at most `\|limit\|` jobs, each from the table, meeting every filter and active whatever the other filters |
| JobSearch.SearchOrderIgnoresPage | backend/controllers/jobController.js:57-63 | the page parameter does not change the query object or the matches |
| JobSearch.SkipAtPage | backend/controllers/jobController.js:53-55 | on page `p >= 1` the skip is `(p - 1) * limit` and not negative |
| JobSearch.GetJobsPage | backend/controllers/jobController.js:53-68 | page `p >= 1` is the `p`-th block of `limit` sorted matches |
| JobSearch.MatchOnItsPage | backend/controllers/jobController.js:55-68 | when no two matches share a creation time, every match appears on page `i / limit + 1`, which lies within `1..pages`: the pages cover the matches |
| JobSearch.PagesEndAtLast | backend/controllers/jobController.js:60-68 | a page is empty exactly when its number exceeds `pages` |
| JobSearch.SearchOrderDistinct | backend/controllers/jobController.js:57-59 | a table without duplicates gives matches without duplicates |
| JobSearch.PagesShareNothing | backend/controllers/jobController.js:55-61 | when no two matches share a creation time, two different pages share no job |
| JobSearch.NegativePageFails | backend/controllers/jobController.js:53-73 | a negative page passes the fallback and makes the skip negative, so the search answers 500 |
| JobSearch.NegativeLimitFirstPage | backend/controllers/jobController.js:54-68 | a negative limit on the first page returns up to its absolute value of jobs and a non-positive `pages` |
| Queries.Find | backend/controllers/jobController.js:119 | `findById` finds the position of the entry with that identity, and finds nothing exactly when none has it; jobs and applications alike |
| Queries.JobById | backend/controllers/jobController.js:79-96 | `getJobById` returns the job with that identity, of any status, and 404 exactly when there is none |
| Queries.MyJobs | backend/controllers/jobController.js:168-178 | exactly the caller's jobs, of any status, each as often as stored, newest first |
| Queries.MyApplications | mern-job-finder/backend/controllers/applicationController.js:48-58 | exactly the caller's applications, newest `appliedAt` first |
| Queries.ApplicationsFor | mern-job-finder/backend/controllers/applicationController.js:76-78 | exactly the applications for the job, newest `appliedAt` first |
| Queries.JobApplications | mern-job-finder/backend/controllers/applicationController.js:63-84 | 404 exactly when the job is missing. 403 only for a job whose owner is neither the caller nor an admin. Otherwise the job's applications |
| Queries.JobApplicationsAuthorization | mern-job-finder/backend/controllers/applicationController.js:65-74 | for an existing job, the list is returned exactly when the caller is its owner or an admin, else 403 |
| Store.AddJobKeeps | backend/controllers/jobController.js:103-106 | a new job under a fresh identity keeps the store invariant and the back references, whatever list of applications it was created with |
| Store.ReplaceJobKeeps | backend/controllers/jobController.js:130-133 | replacing a job by a stored one with the same identity keeps the invariant, and the back references when its applications are kept |
| Store.ClearedListBreaksBackReferences | backend/controllers/jobController.js:130 | an update emptying the list of a job some application refers to loses the back references |
| Store.RemoveJobKeeps | backend/controllers/jobController.js:157 | removing a job keeps the invariant and the back references (its applications stay) and its identity is no longer found |
| Store.AddApplicationKeeps | mern-job-finder/backend/controllers/applicationController.js:28-37 | a new application for a pair not yet present, also appended to its job's list, keeps the invariant and the back references |
| Store.AddUnlistedApplicationKeeps | mern-job-finder/backend/controllers/applicationController.js:28-41 | a new application stored while its job's `save()` fails keeps the invariant; the back references survive exactly when the job's list already held its identity |
| Store.ReplaceApplicationKeeps | mern-job-finder/backend/controllers/applicationController.js:102-105 | saving an application with the same identity, job and applicant keeps the invariant and the back references |
| Store.RemoveApplicationKeeps | mern-job-finder/backend/controllers/applicationController.js:129 | removing an application keeps the invariant and the back references |
| Store.Board.CreateJob | backend/controllers/jobController.js:101-112 | the job `BuildJob` gives is stored under the next identity, owned by the caller. A rejected body is a 400 with the paths, and nothing changes. Applications are untouched and the back references kept |
| Store.Board.UpdateJob | backend/controllers/jobController.js:117-139 | 404 before 403 before the validators. Only an accepted update by the owner or an admin replaces that job. Every failure leaves the store unchanged. The back references are kept unless the body carries `applications` |
| Store.Board.DeleteJob | backend/controllers/jobController.js:144-163 | 404 before 403. The owner or an admin removes only that job. Its applications stay |
| Store.Board.ApplyForJob | mern-job-finder/backend/controllers/applicationController.js:7-43 | a missing job is 404 and a repeated (job, caller) pair is 400; both leave the store unchanged. When the job's salary lacks a bound, `job.save()` fails with 400 naming that path, the application stays stored and the job's list is unchanged, so the back references are lost unless the list already held its identity. Otherwise exactly one application by the caller, status pending, is stored, and its identity is appended to that job's list |
| Store.Board.StoreListed | mern-job-finder/backend/controllers/applicationController.js:28-37 | the application is stored and appended to its job's list; the invariant and the back references are kept |
| Store.Board.StoreUnlisted | mern-job-finder/backend/controllers/applicationController.js:28-41 | the application is stored and the jobs are unchanged; the back references survive exactly when the list already held its identity |
| Store.Board.UpdateApplicationStatus | mern-job-finder/backend/controllers/applicationController.js:89-111 | 404, then a missing parent job, then 403 against the parent job's owner or admin, then the falsy-keeping update. Only that application changes, and every failure leaves the store unchanged |
| Store.Board.DeleteApplication | mern-job-finder/backend/controllers/applicationController.js:116-135 | 404 before 403. The applicant or an admin removes only that application. The job's list of application identities is left as it was |
| Routes.Resolve | backend/routes/jobs.js:13-22 | the first registered route answering the method and path, or none exactly when no route answers |
| Routes.Admit | backend/routes/jobs.js:15 | the gate passes public routes, signed-in callers behind `protect`, and listed roles behind `authorize`; without a caller it answers 401 |
| Routes.Dispatch | backend/routes/jobs.js:13-22 | a request reaches a handler only through a route that answers it and whose gate passes; 404 exactly when no route answers |
| Routes.PublicJobReads | backend/routes/jobs.js:13-20 | listing jobs and fetching one reach their handlers with or without a caller |
| Routes.CreateJobGated | backend/routes/jobs.js:13-15 | creating a job reaches `createJob` exactly for an employer or an admin |
| Routes.UpdateJobGated | backend/routes/jobs.js:19-21 | updating a job reaches `updateJob` exactly for an employer or an admin |
| Routes.DeleteJobGated | backend/routes/jobs.js:19-22 | deleting a job reaches `deleteJob` exactly for an employer or an admin |
| Routes.MyJobsGated | backend/routes/jobs.js:17 | `/my-jobs` reaches `getMyJobs` exactly for an employer or an admin |
| Routes.MyJobsBeforeId | backend/routes/jobs.js:17-20 | `/:id` would match "my-jobs", but the earlier `/my-jobs` route wins, so it never reaches `getJobById` |
| Routes.ApplicationSelfServiceGated | mern-job-finder/backend/routes/applications.js:12-13 | applying and listing one's own applications need a signed-in caller of any role |
| Routes.ApplicationReviewGated | mern-job-finder/backend/routes/applications.js:14-18 | listing a job's applications and updating one need an employer or admin. Deleting needs only a signed-in caller |
| Routes.JobApplicationsResolved | mern-job-finder/backend/routes/applications.js:14 | `/job/:jobId` is resolved for any non-empty job identity |
| Routes.ApplicationLiteralsBeforeId | mern-job-finder/backend/routes/applications.js:13-18 | `/my-applications` is resolved before `/:id`, and a GET of `/:id` matches no route |
| Routes.GateThenOwnership | backend/routes/jobs.js:21-22 | behind the employer-or-admin gate, the ownership check passes exactly an admin or the owning employer |
| Routes.ProtectedThenOwnership | mern-job-finder/backend/routes/applications.js:18 | behind `protect` alone, ownership decides: any applicant may delete their own application |
| FormLists.RequirementsOf | mern-job-finder/frontend/src/pages/CreateJob.js:37 | requirements are the non-blank lines, kept as typed. There are at most one more than the newlines, and a line is kept exactly when it is a non-blank piece |
| FormLists.RequirementLine | mern-job-finder/frontend/src/pages/CreateJob.js:37 | a blank line gives nothing; any other line is kept whole, not trimmed |
| FormLists.RequirementsConcat | mern-job-finder/frontend/src/pages/CreateJob.js:37 | the requirements of two blocks of lines are those of the first followed by those of the second (order kept) |
| FormLists.SkillsOf | mern-job-finder/frontend/src/pages/CreateJob.js:46 | there are at most one more skill than commas |
| FormLists.SkillsArePlain | frontend/src/pages/Profile.js:43 | every parsed skill is non-empty, trimmed and free of commas |
| FormLists.SkillsConcat | mern-job-finder/frontend/src/pages/CreateJob.js:46 | the skills of `a,b` are those of `a` followed by those of `b` (order kept) |
| FormLists.SkillsOfSingle | mern-job-finder/frontend/src/pages/CreateJob.js:46 | text without a comma gives its trimmed form, or nothing when that is empty |
| FormLists.SkillsOfJoin | frontend/src/pages/Profile.js:25-43 | showing plain skills with `join(', ')` and parsing them back gives the same list |
| FormLists.SkillsStable | frontend/src/pages/Profile.js:25-43 | parsing, showing and parsing again gives what the first parse gave |
| CreateJobForm.SalaryNumber | mern-job-finder/frontend/src/pages/CreateJob.js:41-42 | `Number(input)`: an empty input is 0 |
| CreateJobForm.Payload | mern-job-finder/frontend/src/pages/CreateJob.js:33-48 | text fields and selects go as typed. The salary goes as one complete object of the two inputs as numbers. The requirements and skills go as their parsed lists, with their count bounds. An empty deadline is left out. No `postedBy`, `status`, `applications` or `createdAt` is sent |
| CreateJobForm.InitialSelectsValid | mern-job-finder/frontend/src/pages/CreateJob.js:16-20 | the preselected 'Full-time', 'Technology' and 'Mid' are members of the schema enums |
| CreateJobForm.SentAccepted | mern-job-finder/frontend/src/pages/CreateJob.js:33-45 | the server accepts a body the form sent exactly when title, company, description and location pass their validators and the selects name enum members |
| CreateJobForm.PayloadAccepted | mern-job-finder/frontend/src/pages/CreateJob.js:33-48 | the same for the form's own payload; empty salary inputs never cause a rejection |
| ProfileForm.Shown | frontend/src/pages/Profile.js:21-24 | `value \|\| ''`: a missing value shows as the empty string, a present one as itself |
| ProfileForm.FormOf | frontend/src/pages/Profile.js:20-27 | missing fields and missing skills fill the form as empty. Plain skills are shown so that they parse back. An experience of 0 or none leaves the input empty |
| ProfileForm.Submit | frontend/src/pages/Profile.js:38-45 | the update carries the text fields as typed, the parsed skill list (plain skills, at most one more than the commas) and the experience as entered, 0 when empty |
| ProfileForm.SaveUnchanged | frontend/src/pages/Profile.js:20-45 | opening the editor and saving unchanged writes the profile back, missing fields as empty (0 for experience), when its skills are plain |
| StatusBadge.StatusClass | frontend/src/pages/MyApplications.js:27-40 | the class is one of the five badge classes. The four named statuses get `status-` plus their name; anything else, pending included, gets `status-pending` |
| StatusBadge.BadgeOfStatus | frontend/src/pages/MyApplications.js:27-38 | each schema status gets the class named after it |
| StatusBadge.BadgeInjective | frontend/src/pages/MyApplications.js:27-40 | different schema statuses get different classes |

## Left out

- Text.ContainsIgnoringCase: the keyword and location filters are MongoDB regular expressions with the `i` option. The model treats the pattern as literal text, so metacharacters have no special meaning. Case folding covers ASCII letters only.
- JobSearch.BuildQuery: line 43 of the search handler also sets an empty `salary` equality key when a salary bound is given. How Mongoose casts that key is a library matter. The model takes the two dotted-path bounds of lines 45 and 48 as the whole salary filter. If the key instead reached the database as an equality with `{}`, no job would match, and every search with a salary bound would return nothing. JobSearch.SalaryMeaning and JobSearch.QueryMeaning hold under the cast the model assumes.
- Numbers: `Number()` coercion, `NaN` and floating point are not modelled. Salary bounds, page, limit and profile experience are integers. A non-numeric page or limit is the same as an absent one.
- Dates: `createdAt`, `appliedAt` and the deadline are integers or the text sent. The model's stable sort places results with equal timestamps in table order, but the database breaks such ties in no fixed way. So JobSearch.MatchOnItsPage and JobSearch.PagesShareNothing require that no two matches share a creation time.
- JobModel.BuildJob: the `_id` key of a request body is not modelled, so a body cannot preset the identity. An invalid deadline date is not a validation error here.
- JobModel.ApplyJobUpdate: update validators run on the leaf paths an update names. A `salary` object is not checked for its missing bound, and no other key of the body is modelled.
- JobModel.CreateErrors, ApplicationModel.ApplicationErrors: the length limits count Unicode scalar values. JavaScript counts UTF-16 code units, so a text with characters outside the Basic Multilingual Plane can pass here and fail there.
- JobSearch.GetJobs, JobSearch.BuildQuery: every query parameter is a string or absent. Express also parses arrays and objects (`?jobType[$ne]=Remote` becomes an operator; an array keyword makes the handler fail with 500), which the model does not capture.
- Store.Board.ApplyForJob: the duplicate check and the insert run as one step, so the race between concurrent requests is not modelled, and the unique index is kept as an invariant of the store instead. A database failure between the two writes is not modelled either. The failing `save()` of a job whose salary lost a bound is modelled.
- Store.Board.UpdateApplicationStatus: an application whose job was deleted makes the handler's populated reference null. The model answers 400 (`BrokenReference`), as the caught `TypeError` does; the error message itself is not modelled.
- Identities are natural numbers from counters. Malformed ids (Mongoose `CastError`, answered 400 or 500) and `populate` of referenced documents are not modelled.
- The `protect` and `authorize` middleware are not part of this model, and neither is token issuance. The gate takes the caller, when there is one, as an identity and a role.
- Express path matching is reduced to literal and `:param` segments. Trailing slashes, case-insensitive routing and the mount points of the routers are not modelled.
- The user model and the server-side profile update are not part of this model. Only what the profile page sends is modelled.
- FormLists.SkillsOfJoin: a skill that contains a comma, has blanks at its ends or is empty does not come back unchanged from the profile editor. That is the page's behaviour; the lemma requires plain skills.
- JSX rendering, React state and effects, navigation, toasts and the network calls of the front end are presentation and I/O and are left out. So are the remaining pages and components.
- The text index on title, description and company is not used by the search handler and is left out.
