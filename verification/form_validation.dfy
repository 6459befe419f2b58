/**
 * The pieces of zod's object validation that the two form schemas use:
 * an issue names the field and carries the message, every check of every
 * field runs, and the issues are reported in field order and, within a
 * field, in check order. zod's URL test is the parameter `isUrl`.
 */
module FormValidation {

  /** One validation issue: the field's name and the message shown. */
  datatype Issue = Issue(path: string, message: string)

  /** What a date field holds: nothing, an invalid `Date`, or a valid one (its time value). */
  datatype DateInput = NoDate | InvalidDate | ValidDate(time: int)

  /** `z.string().min(1, message)`. */
  function MinLengthOne(path: string, value: string, message: string): (r: seq<Issue>)
    ensures r == [] <==> value != ""
    ensures r != [] ==> r == [Issue(path, message)]
  {
    if |value| >= 1 then [] else [Issue(path, message)]
  }

  /** `z.string().url(message)`. */
  function UrlCheck(path: string, value: string, message: string, isUrl: string -> bool): (r: seq<Issue>)
    ensures r == [] <==> isUrl(value)
    ensures r != [] ==> r == [Issue(path, message)]
  {
    if isUrl(value) then [] else [Issue(path, message)]
  }

  /** `z.date({ required_error: message })`: a missing date, or zod's own message for an invalid one. */
  function DateCheck(path: string, value: DateInput, requiredMessage: string): (r: seq<Issue>)
    ensures r == [] <==> value.ValidDate?
    ensures value.NoDate? ==> r == [Issue(path, requiredMessage)]
    ensures value.InvalidDate? ==> r == [Issue(path, "Invalid date")]
  {
    match value
    case NoDate => [Issue(path, requiredMessage)]
    case InvalidDate => [Issue(path, "Invalid date")]
    case ValidDate(_) => []
  }
}
