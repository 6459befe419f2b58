/**
 * The `jobApplication` document of the Convex schema (convex/schema.ts):
 * the owner, the job's link and extracted fields, the applied date as an
 * ISO string, the status enumeration and the creation time.
 */
module JobRecord {
  import opened Wrappers

  /** The four statuses a job application may have. */
  datatype Status = Waiting | Interviewed | Rejected | Accepted

  /**
   * The string literal that stands for each status in the schema and the
   * forms: one of the union's literals.
   */
  function StatusName(s: Status): (r: string)
    ensures r in StatusNames
  {
    match s
    case Waiting => "waiting"
    case Interviewed => "interviewed"
    case Rejected => "rejected"
    case Accepted => "accepted"
  }

  /** The literals of the status union, in declaration order. */
  const StatusNames: seq<string> := ["waiting", "interviewed", "rejected", "accepted"]

  /**
   * The status union validator: a string is accepted exactly when it is one
   * of the four literals, and then it names the status returned.
   */
  function ParseStatus(name: string): (r: Option<Status>)
    ensures r.Some? <==> name in StatusNames
    ensures r.Some? ==> StatusName(r.value) == name
  {
    if name == "waiting" then Some(Waiting)
    else if name == "interviewed" then Some(Interviewed)
    else if name == "rejected" then Some(Rejected)
    else if name == "accepted" then Some(Accepted)
    else None
  }

  /** Every status is written as a literal the validator accepts back. */
  lemma ParseStatusName(s: Status)
    ensures StatusName(s) in StatusNames
    ensures ParseStatus(StatusName(s)) == Some(s)
  {
  }

  /** Different statuses are written differently. */
  lemma StatusNameInjective(s: Status, t: Status)
    requires StatusName(s) == StatusName(t)
    ensures s == t
  {
    ParseStatusName(s);
    ParseStatusName(t);
  }

  /** One stored job application. */
  datatype JobApplication = JobApplication(
    userId: string,
    url: string,
    title: Option<string>,
    company: Option<string>,
    location: Option<string>,
    appliedDate: Option<string>,
    status: Status,
    createdAt: int)
}
