# Job-application tracker core, modelled in Dafny

This project models the logic of a personal job-application tracker. A user pastes a
job-posting URL. The server reduces the page to its visible text and asks a generative
model for the title, company and location. It then stores a record the user can list,
read, update and delete. Five pieces of that system are modelled:

- **The record table** (`JobStore`, `job_store.dfy`). The five Convex handlers run
  against the `jobApplication` table. The table is a class holding a map from document id
  to record, plus an id counter. Every handler first requires an authenticated caller.
  `get`, `update` and `delete` also require that the record exists and belongs to the
  caller, and they raise one error, "not found or access denied", for both failures.
  Listing returns the caller's records newest first. A larger id means a later insert,
  which is the order Convex's descending default order follows.
- **The extraction route** (`VisibleText`, `ReplyFields`, `ExtractJobInfo`). The page
  text has every whitespace run collapsed to one space and is then trimmed. The prompt
  embeds at most the first 10 000 characters of that text. The model's reply is split on
  commas, each piece is trimmed, and the pieces are mapped by position to title, company
  and location. The route answers 400 when the HTML is missing and 500 when the API key
  is missing, in that order.
- **The filter panel's helpers** (`JobFilters`). Each helper is a function that returns
  the new filter value.
- **The "newly added" highlight state** (`NewlyAddedJobs`). A class holds the set of
  highlighted job ids and the map of pending timers.
- **The two form schemas** (`FormValidation`, `CreateJobSchema`, `UpdateJobSchema`).
  Each schema is a parse function that returns either the typed values or zod's list of
  issues.

`Wrappers` holds `Option` and `Result`. `JobRecord` holds the record type and the status
enumeration from `convex/schema.ts`.

Inputs the code receives from outside are parameters:
- the caller's identity, as `Option<string>` (its token identifier);
- the clock value `Date.now()`;
- the page's body text as cheerio extracts it;
- the model call, as a function returning `None` when it throws;
- `parseDate`, `CalendarDate.toString` and the locale date formatting;
- zod's URL test, as `isUrl`.

Not in the code, and so not modelled:
- The code has no filtering by search text, location or date. It has no sorting by
  applied date and no pagination. The server lists by owner, newest created first.
- The code has no "Invalid job posting" sentinel. A reply is always mapped to three
  fields.
- `createJobApplication` requires a status argument and gives no default. It accepts
  any string as the URL, including the empty one.

## Model

| member | source | states |
|---|---|---|
| JobRecord.ParseStatus | convex/schema.ts:17-22 | a string is accepted as a status exactly when it is one of waiting, interviewed, rejected, accepted, and then it names the status returned |
| JobRecord.StatusName | convex/schema.ts:17-22 | every status is written as one of the four literals of the union |
| JobRecord.ParseStatusName | convex/schema.ts:17-22 | every status prints as one of the four literals and parses back to itself |
| JobRecord.StatusNameInjective | convex/schema.ts:17-22 | two statuses written with the same literal are the same status |
| JobStore.Listing | convex/jobApplications.ts:13-17 | the listing holds exactly the stored documents whose `userId` is the owner, each with its stored record, with ids strictly decreasing (newest first) |
| JobStore.Patched | convex/jobApplications.ts:110-117 | a patched record keeps its owner and creation time, and its url, title, company, location, applied date and status take the patch's values |
| JobStore.PatchedForgetsOldFields | convex/jobApplications.ts:110-117 | nothing of the old editable values survives: two records with the same owner and creation time are patched into the same record |
| JobStore.PatchedIdempotent | convex/jobApplications.ts:110-117 | applying the same patch twice gives the record applying it once gives |
| JobStore.JobTable.List | convex/jobApplications.ts:4-21 | with no identity it fails with Unauthenticated; otherwise it returns exactly the caller's records, newest first |
| JobStore.JobTable.Get | convex/jobApplications.ts:23-42 | with no identity it fails with Unauthenticated; an absent id or another user's record gives the single NotFoundOrDenied error; an owned record is returned unchanged |
| JobStore.JobTable.Create | convex/jobApplications.ts:44-78 | a status outside the union is rejected first and a missing identity next, both leaving the table unchanged; otherwise exactly one record is added, under a fresh id, owned by the caller, with the arguments' fields and the clock value, and every other record is untouched |
| JobStore.JobTable.Update | convex/jobApplications.ts:80-121 | errors (bad status, no identity, absent or foreign record) leave the table unchanged; on success only url, title, company, location, appliedDate and status change; `userId` and `createdAt` are kept; the stored status is the one given |
| JobStore.JobTable.Delete | convex/jobApplications.ts:123-143 | with no identity, or for an absent or foreign record, it fails and the table is unchanged; otherwise exactly the target is removed and the result is `success: true` |
| VisibleText.TrimStart | app/api/extract-job-info/route.ts:7 | what is left is a suffix of the input that does not start with whitespace, and everything dropped is whitespace |
| VisibleText.TrimEnd | app/api/extract-job-info/route.ts:7 | what is left is a prefix of the input that does not end with whitespace, and everything dropped is whitespace |
| VisibleText.Trim | app/api/extract-job-info/route.ts:7 | the trimmed text is a contiguous slice of the input with no whitespace at either end, is no longer than the input, keeps every non-whitespace character in order, and is the input itself when that has no edge whitespace |
| VisibleText.CollapseRuns | app/api/extract-job-info/route.ts:7 | after replacing whitespace runs, the only whitespace left is `' '`, no two whitespace characters are adjacent, and none comes first when the text continues a run |
| VisibleText.ExtractJobText | app/api/extract-job-info/route.ts:5-8 | the normalised text is the words of the body text (its maximal runs of non-whitespace characters) joined by single spaces; it has no whitespace at either end, no two adjacent whitespace characters, no whitespace other than `' '`, and the same words as the input |
| VisibleText.Words | app/api/extract-job-info/route.ts:7 | every word is non-empty and contains no whitespace |
| VisibleText.NormalizedIsJoined | app/api/extract-job-info/route.ts:7 | a text in normal form is its own words joined by single spaces |
| VisibleText.OneSpaceBetweenWords | app/api/extract-job-info/route.ts:7 | any non-empty whitespace run between two words becomes exactly one space |
| VisibleText.NormalizedIsFixed | app/api/extract-job-info/route.ts:7 | a text already in that shape is returned unchanged |
| VisibleText.ExtractJobTextIdempotent | app/api/extract-job-info/route.ts:7 | normalising twice gives the same text as normalising once |
| VisibleText.ExtractJobTextKeepsContent | app/api/extract-job-info/route.ts:7 | the non-whitespace characters of the input survive, all of them and in order |
| VisibleText.ExtractJobTextExample | app/api/extract-job-info/route.ts:7 | `"a\n\n  b\t c"` becomes `"a b c"` |
| ExtractJobInfo.PromptExcerpt | app/api/extract-job-info/route.ts:50 | the excerpt is a prefix of the visible text of at most 10 000 characters; it is the whole text when that is short enough, and exactly 10 000 characters otherwise |
| ExtractJobInfo.BuildPrompt | app/api/extract-job-info/route.ts:35-51 | the prompt is the fixed head of lines 35-49, the excerpt, and the closing quotes, so its length is bounded by the head, 10 000 and the tail |
| ExtractJobInfo.PromptIgnoresLaterText | app/api/extract-job-info/route.ts:50 | two texts that agree on their first 10 000 characters give the same prompt |
| ReplyFields.SplitComma | app/api/extract-job-info/route.ts:57 | splitting always yields at least one piece, and no piece contains a comma |
| ReplyFields.JoinSplit | app/api/extract-job-info/route.ts:57 | joining the pieces with commas gives back the reply |
| ReplyFields.SplitJoin | app/api/extract-job-info/route.ts:57 | splitting comma-free pieces joined by commas gives back the pieces |
| ReplyFields.SplitCommaPrefix | app/api/extract-job-info/route.ts:57 | a comma-free text followed by a comma is the first piece, and the rest is split on its own |
| ReplyFields.SplitCommaFree | app/api/extract-job-info/route.ts:57 | a comma-free reply is a single piece |
| ReplyFields.TrimmedParts | app/api/extract-job-info/route.ts:57 | there is one trimmed part per piece, and each is that piece trimmed |
| ReplyFields.TrimIsSlice | app/api/extract-job-info/route.ts:57 | a trimmed piece is a contiguous part of the piece, with no whitespace at either end |
| ReplyFields.TrimmedPieceClean | app/api/extract-job-info/route.ts:57 | a trimmed comma-free piece stays comma-free and has no whitespace at either end |
| ReplyFields.ParseFields | app/api/extract-job-info/route.ts:57-63 | no extracted field contains a comma or has whitespace at either end, whatever the reply |
| ReplyFields.TitleIsFirstPiece | app/api/extract-job-info/route.ts:57-60 | the title is the trimmed text before the first comma |
| ReplyFields.NoCommaIsTitleOnly | app/api/extract-job-info/route.ts:57-63 | a reply without a comma is all title, trimmed, with empty company and location |
| ReplyFields.FieldsDropLaterPieces | app/api/extract-job-info/route.ts:57-63 | company and location are the trimmed second and third pieces, and everything after the third comma is discarded |
| ReplyFields.FieldsOfThreePieces | app/api/extract-job-info/route.ts:57-63 | three comma-separated pieces become the three trimmed fields |
| ReplyFields.FieldsOfTwoPieces | app/api/extract-job-info/route.ts:57-63 | two pieces give title and company, and location is `""` |
| ReplyFields.TrimAfterSpace | app/api/extract-job-info/route.ts:57 | the space after each comma in the requested format is removed by the trim |
| ReplyFields.ParseRoundTrip | app/api/extract-job-info/route.ts:45-63 | for trimmed, comma-free t, c and l, the requested format `t + ", " + c + ", " + l` parses back to (t, c, l) |
| ReplyFields.ParseTrailingComma | app/api/extract-job-info/route.ts:57-63 | a trimmed title followed by a comma gives that title with empty company and location |
| ExtractJobInfo.TrailingCommaReplyExample | app/api/extract-job-info/route.ts:57-63 | `"Engineer,"` gives ("Engineer", "", "") |
| ExtractJobInfo.EarlyExit | app/api/extract-job-info/route.ts:14-28 | missing or empty HTML gives 400 "HTML content is required" whatever the key; with HTML, a missing or empty key gives 500 "GEMINI_API_KEY is not configured"; the model is reached only when both are present |
| ExtractJobInfo.HandleExtract | app/api/extract-job-info/route.ts:10-71 | the early exits come first; otherwise the model sees the prompt built from the normalised page text; a failed model call gives 500 "Failed to extract job information"; a reply gives the parsed fields, none of which contains a comma |
| JobFilters.ActiveAfterOneChange | components/JobApplicationFilters.tsx:71-76 | from cleared filters, one change makes the filters active exactly when the value it sets restricts: non-empty, and other than "all" on the location and status selects |
| JobFilters.HasActiveFilters | components/JobApplicationFilters.tsx:71-76 | the filters are active exactly when some key holds a value that restricts: non-empty text, or on the location and status selects a value other than "all" |
| JobFilters.ClearAllFilters | components/JobApplicationFilters.tsx:78-87 | the cleared value is {"", "all", "all", "", ""} and is not active |
| JobFilters.UpdateFilter | components/JobApplicationFilters.tsx:89-94 | the updated key holds the new value and the other four keys are unchanged |
| JobFilters.UpdateFilterLaws | components/JobApplicationFilters.tsx:89-94 | setting a key to its current value changes nothing, and of two updates of one key the later wins |
| JobFilters.GetDateRange | components/JobApplicationFilters.tsx:97-109 | a range is returned exactly when both dates are non-empty and both parse, and then it holds the parsed dates; otherwise there is none, never a failure |
| JobFilters.HandleDateRangeChange | components/JobApplicationFilters.tsx:112-126 | search text, location and status are unchanged; a range stores its two ends as strings; no range clears both dates |
| JobFilters.DateRangeRoundTrip | components/JobApplicationFilters.tsx:97-126 | storing a picked range and reading it back gives the same range when dates print and parse back; a cleared range reads back as none |
| JobFilters.ClearedDatesActivity | components/JobApplicationFilters.tsx:119-124 | after clearing the dates, the filters are active exactly when search text, location or status makes them so |
| JobFilters.FormatDateRange | components/JobApplicationFilters.tsx:128-150 | the label is "Select date range" with no dates, "From …" with only a start, "Until …" with only an end, and "… to …" with both |
| JobFilters.StatusOptionsCoverStatuses | components/JobApplicationFilters.tsx:36-42 | the status options are "all" followed by the four record statuses in order, each with its caption |
| NewlyAddedJobs.JobHighlights.Add | contexts/JobApplicationContext.tsx:17-26 | the id becomes highlighted and no other id's membership changes (so adding twice is adding once); its pending timer, if any, is cleared and removed from the map, and the other timers are unchanged |
| NewlyAddedJobs.JobHighlights.Remove | contexts/JobApplicationContext.tsx:28-40 | the id is no longer highlighted and no other id's membership changes (so removing an absent id changes nothing); its pending timer, if any, is cleared and removed, and the other timers are unchanged |
| NewlyAddedJobs.JobHighlights.IsJobNewlyAdded | contexts/JobApplicationContext.tsx:42-44 | the answer is membership in the highlighted set, and no state changes |
| NewlyAddedJobs.JobHighlights.PendingFor | contexts/JobApplicationContext.tsx:21-25 | the timer an add or remove cancels is the one stored for that id, if there is one |
| FormValidation.MinLengthOne | schemas/updateJobApplication.ts:4 | an empty string gives exactly one issue with the given message, and a non-empty one none |
| FormValidation.UrlCheck | schemas/updateJobApplication.ts:7 | a string that fails the URL test gives exactly one issue with the given message, and one that passes none |
| FormValidation.DateCheck | schemas/updateJobApplication.ts:8 | a missing date gives the required message, an invalid one "Invalid date", and a valid one no issue |
| CreateJobSchema.ParseCreateJob | schemas/createJobApplication.ts:3-9 | accepted exactly when the link is non-empty and a URL and a valid date is present; an empty link is reported "Job link is required", a non-URL "Please enter a valid URL", a missing date "Please select a date", an invalid one "Invalid date"; and every reported issue is one of a check that fails |
| CreateJobSchema.CreateJobIssues | schemas/createJobApplication.ts:3-9 | an issue is reported exactly when its check fails (invalid URL, empty link, missing date, invalid date), no issue is reported twice, the URL issue comes before the "Job link is required" issue, and the link's issues come before the date's |
| CreateJobSchema.EmptyLinkIssues | schemas/createJobApplication.ts:4-7 | an empty link is reported twice, first as not a valid URL and then as required |
| UpdateJobSchema.StatusCheck | schemas/updateJobApplication.ts:9 | a status is accepted exactly when it is one of the four literals |
| UpdateJobSchema.ParseUpdateJob | schemas/updateJobApplication.ts:3-10 | accepted exactly when all six constraints hold, and then the values are the form's, with the status as the enumeration; each violated constraint is reported with its own message, and every reported issue is one of a check that fails |
| UpdateJobSchema.UpdateJobIssues | schemas/updateJobApplication.ts:3-10 | an issue is reported exactly when its check fails, one per failed check of the six fields |
| UpdateJobSchema.UpdateIssuesInFieldOrder | schemas/updateJobApplication.ts:3-10 | the issues come field by field in the schema's declaration order |
| UpdateJobSchema.StoredStatusAccepted | schemas/updateJobApplication.ts:9 | every status a stored record can hold passes the form's status check |

## Left out

- Convex's query engine, indexes and `ctx.auth` are not modelled. The identity is an input, and the descending order is modelled as descending id.
- Convex argument validation is modelled only for the status union. Id validation and type checks of other arguments are left out.
- The argument-validation error is modelled as one `InvalidArgument` value. Convex's exact message text is not modelled.
- The handlers' errors are the `StoreError` values `Unauthenticated` ("User is not authenticated") and `NotFoundOrDenied` ("Job application not found or access denied"); the thrown `Error` objects and their message strings are not modelled.
- JobStore.JobTable.Update: only the UI's call, with all six fields supplied, is modelled. How the store treats a field passed as `undefined` is left out, so the model does not claim that omitted fields are kept.
- JobStore.JobTable.Create: Convex's own system fields (`_id`, `_creationTime`) are represented only by the counter id.
- cheerio's HTML parsing (`$("body").text()`) is an input function. The Gemini call is a parameter that returns `None` when it throws.
- A failure of `request.json()` is left out: the request's `html` field arrives already decoded, as `Option<string>`. A non-string `html` value is also left out.
- ExtractJobInfo.PromptExcerpt counts characters, while JavaScript's `slice` counts UTF-16 code units. The two differ on text with characters outside the Basic Multilingual Plane.
- `lib/ai.ts`, the fetch pipeline that calls the two routes, is network plumbing and is not part of this model.
- The search debounce timer and the local search-input state of the filter panel are not modelled (components/JobApplicationFilters.tsx:50-69).
- `parseDate`, `CalendarDate.toString` and `toLocaleDateString` are parameters. Date parsing and formatting themselves are not modelled.
- React's asynchronous state updates are not modelled: `setNewlyAddedJobs` takes effect at once in the model. The context provider and hook plumbing are left out too.
- `clearTimeout` is recorded as a log of cancelled handles. Timers firing is not modelled, and neither is anything that fills the timer map; the shown code never adds to it.
- UpdateJobSchema.StatusCheck uses the message "Invalid enum value". zod's full default text, which lists the allowed values, depends on the zod version and is not reproduced.
- Zod's URL test is the parameter `isUrl`. A `Date` value is reduced to missing, invalid, or valid with its time value.
- The rendering components, styling maps, mock data and pagination widget hold no stateable logic and are not modelled.
