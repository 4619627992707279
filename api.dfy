/**
 * How the handlers fail: each failure the controllers answer with an error
 * response, and the HTTP status code that response carries.
 */
module Api {
  import opened JobModel
  import opened ApplicationModel

  datatype ApiError =
    | NotFound                              // "... not found"
    | Forbidden                             // "Not authorized to ..."
    | AlreadyApplied                        // "You have already applied for this job"
    | InvalidJob(jobPaths: set<JobField>)   // a job validator rejected these paths
    | InvalidApplication(appPaths: set<AppField>) // an application validator rejected these paths
    | BrokenReference                       // the populated parent job is gone (a TypeError)
    | QueryFailed                           // the database rejected the query

  /**
   * The status code of each failure: 404 and 403 for the explicit checks,
   * 400 for what the create and update handlers catch, 500 for a failed query.
   */
  function StatusCode(e: ApiError): (code: int)
    ensures code == 404 <==> e.NotFound?
    ensures code == 403 <==> e.Forbidden?
    ensures code == 500 <==> e.QueryFailed?
    ensures code in {400, 403, 404, 500}
  {
    match e
    case NotFound => 404
    case Forbidden => 403
    case AlreadyApplied => 400
    case InvalidJob(_) => 400
    case InvalidApplication(_) => 400
    case BrokenReference => 400
    case QueryFailed => 500
  }
}
