/**
 * `getStatusColor` of frontend/src/pages/MyApplications.js: the style class
 * of an application's status badge.
 */
module StatusBadge {
  import opened ApplicationModel

  const Recognised: set<string> := {"accepted", "rejected", "shortlisted", "reviewing"}

  const BadgeClasses: set<string> :=
    {"status-accepted", "status-rejected", "status-shortlisted", "status-reviewing", "status-pending"}

  /**
   * Four statuses get a class of their own name; "pending" and anything
   * else fall to the default, "status-pending".
   */
  function StatusClass(status: string): (c: string)
    ensures c in BadgeClasses
    ensures status in Recognised ==> c == "status-" + status
    ensures status !in Recognised ==> c == "status-pending"
  {
    match status
    case "accepted" => "status-accepted"
    case "rejected" => "status-rejected"
    case "shortlisted" => "status-shortlisted"
    case "reviewing" => "status-reviewing"
    case _ => "status-pending"
  }

  /** Each of the five schema statuses gets the class named after it. */
  lemma BadgeOfStatus(st: AppStatus)
    ensures StatusClass(AppStatusName(st)) == "status-" + AppStatusName(st)
  {
  }

  /** Different schema statuses get different classes. */
  lemma BadgeInjective(s: AppStatus, t: AppStatus)
    requires StatusClass(AppStatusName(s)) == StatusClass(AppStatusName(t))
    ensures s == t
  {
    BadgeOfStatus(s);
    BadgeOfStatus(t);
    var a, b := AppStatusName(s), AppStatusName(t);
    assert ("status-" + a)[7..] == a;
    assert ("status-" + b)[7..] == b;
    ParseAppStatusName(s);
    ParseAppStatusName(t);
  }
}
