/**
 * `createJobSchema` (schemas/createJobApplication.ts): the form that takes
 * a job link and the date applied.
 */
module CreateJobSchema {
  import opened Wrappers
  import opened FormValidation

  datatype CreateJobForm = CreateJobForm(jobLink: string, date: DateInput)

  /** `iss` is the issue of a check that `form` fails. */
  predicate CreateCheckFails(form: CreateJobForm, isUrl: string -> bool, iss: Issue)
  {
    || (iss == Issue("jobLink", "Please enter a valid URL") && !isUrl(form.jobLink))
    || (iss == Issue("jobLink", "Job link is required") && form.jobLink == "")
    || (iss == Issue("date", "Please select a date") && form.date.NoDate?)
    || (iss == Issue("date", "Invalid date") && form.date.InvalidDate?)
  }

  /**
   * The issues zod reports: exactly one for each failed check, the link's
   * issues before the date's.
   */
  function CreateJobIssues(form: CreateJobForm, isUrl: string -> bool): (r: seq<Issue>)
    ensures forall iss :: iss in r <==> CreateCheckFails(form, isUrl, iss)
    ensures forall i, j :: 0 <= i < j < |r| && r[i].path == "date" ==> r[j].path == "date"
    ensures forall i, j :: 0 <= i < j < |r| ==> r[i] != r[j]
    ensures forall i, j ::
      (0 <= i < |r| && 0 <= j < |r| && r[i] == Issue("jobLink", "Please enter a valid URL")
       && r[j] == Issue("jobLink", "Job link is required")) ==> i < j
  {
    UrlCheck("jobLink", form.jobLink, "Please enter a valid URL", isUrl)
    + MinLengthOne("jobLink", form.jobLink, "Job link is required")
    + DateCheck("date", form.date, "Please select a date")
  }

  /** The parsed values: the link and the date's time value. */
  datatype CreateJob = CreateJob(jobLink: string, date: int)

  /** `createJobSchema.safeParse`. */
  function ParseCreateJob(form: CreateJobForm, isUrl: string -> bool): (r: Result<CreateJob, seq<Issue>>)
    ensures r.Success? <==> form.jobLink != "" && isUrl(form.jobLink) && form.date.ValidDate?
    ensures r.Success? ==> r.value == CreateJob(form.jobLink, form.date.time)
    ensures r.Failure? ==> r.error != []
    ensures form.jobLink == "" ==> r.Failure? && Issue("jobLink", "Job link is required") in r.error
    ensures !isUrl(form.jobLink) ==> r.Failure? && Issue("jobLink", "Please enter a valid URL") in r.error
    ensures form.date.NoDate? ==> r.Failure? && Issue("date", "Please select a date") in r.error
    ensures form.date.InvalidDate? ==> r.Failure? && Issue("date", "Invalid date") in r.error
    ensures r.Failure? ==> forall iss :: iss in r.error ==> CreateCheckFails(form, isUrl, iss)
  {
    var issues := CreateJobIssues(form, isUrl);
    if issues == [] then Success(CreateJob(form.jobLink, form.date.time)) else Failure(issues)
  }

  /**
   * An empty link is reported twice, first as not a URL and then as
   * missing, whenever the empty string is not a URL.
   */
  lemma EmptyLinkIssues(date: DateInput, isUrl: string -> bool)
    requires !isUrl("")
    ensures CreateJobIssues(CreateJobForm("", date), isUrl)[..2]
            == [Issue("jobLink", "Please enter a valid URL"), Issue("jobLink", "Job link is required")]
  {
  }
}
