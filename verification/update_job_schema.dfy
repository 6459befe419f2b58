/**
 * `updateJobSchema` (schemas/updateJobApplication.ts): the edit form's six
 * fields.
 */
module UpdateJobSchema {
  import opened Wrappers
  import opened FormValidation
  import opened JobRecord

  datatype UpdateJobForm = UpdateJobForm(
    title: string,
    company: string,
    location: string,
    url: string,
    appliedDate: DateInput,
    status: string)

  /** `z.enum([...])` on the status literals. */
  function StatusCheck(value: string): (r: seq<Issue>)
    ensures r == [] <==> ParseStatus(value).Some?
    ensures r != [] ==> r == [Issue("status", "Invalid enum value")]
  {
    if ParseStatus(value).Some? then [] else [Issue("status", "Invalid enum value")]
  }

  /** `iss` is the issue of a check that `form` fails. */
  predicate UpdateCheckFails(form: UpdateJobForm, isUrl: string -> bool, iss: Issue)
  {
    || (iss == Issue("title", "Title is required") && form.title == "")
    || (iss == Issue("company", "Company is required") && form.company == "")
    || (iss == Issue("location", "Location is required") && form.location == "")
    || (iss == Issue("url", "Please enter a valid URL") && !isUrl(form.url))
    || (iss == Issue("appliedDate", "Please select a date") && form.appliedDate.NoDate?)
    || (iss == Issue("appliedDate", "Invalid date") && form.appliedDate.InvalidDate?)
    || (iss == Issue("status", "Invalid enum value") && ParseStatus(form.status).None?)
  }

  /** The position of each field in the schema's declaration. */
  function FieldRank(path: string): nat
  {
    if path == "title" then 0
    else if path == "company" then 1
    else if path == "location" then 2
    else if path == "url" then 3
    else if path == "appliedDate" then 4
    else 5
  }

  lemma FieldRanks()
    ensures FieldRank("title") == 0 && FieldRank("company") == 1 && FieldRank("location") == 2
    ensures FieldRank("url") == 3 && FieldRank("appliedDate") == 4 && FieldRank("status") == 5
  {
  }

  /** Issues strictly in declaration order of their fields. */
  predicate Ranked(issues: seq<Issue>)
  {
    forall i, j :: 0 <= i < j < |issues| ==> FieldRank(issues[i].path) < FieldRank(issues[j].path)
  }

  /** The ranks of a list's fields stay below `n`. */
  predicate RanksBelow(issues: seq<Issue>, n: nat)
  {
    forall i :: 0 <= i < |issues| ==> FieldRank(issues[i].path) < n
  }

  /**
   * A ranked list whose fields all come before field `n`, followed by at
   * most one issue of field `n`, is ranked, with its fields up to `n`.
   */
  lemma RankedSnoc(a: seq<Issue>, b: seq<Issue>, n: nat)
    requires Ranked(a) && RanksBelow(a, n)
    requires |b| <= 1 && (b != [] ==> FieldRank(b[0].path) == n)
    ensures Ranked(a + b) && RanksBelow(a + b, n + 1)
  {
  }

  /** The issues zod reports: exactly one for each failed check. */
  function UpdateJobIssues(form: UpdateJobForm, isUrl: string -> bool): (r: seq<Issue>)
    ensures forall iss :: iss in r <==> UpdateCheckFails(form, isUrl, iss)
  {
    MinLengthOne("title", form.title, "Title is required")
    + MinLengthOne("company", form.company, "Company is required")
    + MinLengthOne("location", form.location, "Location is required")
    + UrlCheck("url", form.url, "Please enter a valid URL", isUrl)
    + DateCheck("appliedDate", form.appliedDate, "Please select a date")
    + StatusCheck(form.status)
  }

  /** The issues come field by field, in the schema's declaration order. */
  lemma UpdateIssuesInFieldOrder(form: UpdateJobForm, isUrl: string -> bool)
    ensures Ranked(UpdateJobIssues(form, isUrl))
  {
    var title := MinLengthOne("title", form.title, "Title is required");
    var company := MinLengthOne("company", form.company, "Company is required");
    var location := MinLengthOne("location", form.location, "Location is required");
    var url := UrlCheck("url", form.url, "Please enter a valid URL", isUrl);
    var date := DateCheck("appliedDate", form.appliedDate, "Please select a date");
    var status := StatusCheck(form.status);
    FieldRanks();
    RankedSnoc([], title, 0);
    assert [] + title == title;
    var upToCompany := title + company;
    RankedSnoc(title, company, 1);
    var upToLocation := upToCompany + location;
    RankedSnoc(upToCompany, location, 2);
    var upToUrl := upToLocation + url;
    RankedSnoc(upToLocation, url, 3);
    var upToDate := upToUrl + date;
    RankedSnoc(upToUrl, date, 4);
    RankedSnoc(upToDate, status, 5);
    assert UpdateJobIssues(form, isUrl) == upToDate + status;
  }

  /** The parsed values, with the status as the enumeration. */
  datatype UpdateJob = UpdateJob(
    title: string,
    company: string,
    location: string,
    url: string,
    appliedDate: int,
    status: Status)

  /** The six constraints of the schema. */
  predicate MeetsSchema(form: UpdateJobForm, isUrl: string -> bool)
  {
    && form.title != ""
    && form.company != ""
    && form.location != ""
    && isUrl(form.url)
    && form.appliedDate.ValidDate?
    && ParseStatus(form.status).Some?
  }

  /** `updateJobSchema.safeParse`. */
  function ParseUpdateJob(form: UpdateJobForm, isUrl: string -> bool): (r: Result<UpdateJob, seq<Issue>>)
    ensures r.Success? <==> MeetsSchema(form, isUrl)
    ensures r.Success? ==>
      && r.value.title == form.title && r.value.company == form.company
      && r.value.location == form.location && r.value.url == form.url
      && form.appliedDate == ValidDate(r.value.appliedDate)
      && StatusName(r.value.status) == form.status
    ensures r.Failure? ==> r.error != []
    ensures form.title == "" ==> r.Failure? && Issue("title", "Title is required") in r.error
    ensures form.company == "" ==> r.Failure? && Issue("company", "Company is required") in r.error
    ensures form.location == "" ==> r.Failure? && Issue("location", "Location is required") in r.error
    ensures !isUrl(form.url) ==> r.Failure? && Issue("url", "Please enter a valid URL") in r.error
    ensures form.appliedDate.NoDate? ==>
      r.Failure? && Issue("appliedDate", "Please select a date") in r.error
    ensures ParseStatus(form.status).None? ==>
      r.Failure? && Issue("status", "Invalid enum value") in r.error
    ensures form.appliedDate.InvalidDate? ==>
      r.Failure? && Issue("appliedDate", "Invalid date") in r.error
    ensures r.Failure? ==> forall iss :: iss in r.error ==> UpdateCheckFails(form, isUrl, iss)
  {
    var issues := UpdateJobIssues(form, isUrl);
    if issues == [] then
      Success(UpdateJob(form.title, form.company, form.location, form.url,
                        form.appliedDate.time, ParseStatus(form.status).value))
    else Failure(issues)
  }

  /** Every status the record can hold passes the form's status check. */
  lemma StoredStatusAccepted(s: Status)
    ensures StatusCheck(StatusName(s)) == []
  {
    ParseStatusName(s);
  }
}
