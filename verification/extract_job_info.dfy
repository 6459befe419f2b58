/**
 * The `POST` handler of the job-extraction route
 * (app/api/extract-job-info/route.ts): the early exits for a missing HTML
 * body or API key, the bounded prompt built from the page's visible text,
 * and the answer built from the model's reply.
 */
module ExtractJobInfo {
  import opened Wrappers
  import opened VisibleText
  import opened ReplyFields

  /** The most characters of visible text the prompt embeds. */
  const MaxPromptChars: nat := 10000

  const PromptHead: string :=
    "\nYou are an AI assistant that extracts job posting info.\n"
    + "Languages that the job postings are in can vary so be aware of that.\n"
    + "Typically, location is a city or can be a country but remote. In that case, it should be mentioned as \"Country (Remote)\".\n"
    + "From the following text, extract:\n\n"
    + "- Job title\n- Company name\n- Location\n\n"
    + "Return the result as a pure string text with the data separated by comas in the following format:\n"
    + "Job title, Company name, Location\n\n"
    + "Job posting text:\n\"\"\"\n"

  const PromptTail: string := "\n\"\"\""

  /** `visibleText.slice(0, 10000)`. */
  function PromptExcerpt(visibleText: string): (r: string)
    ensures |r| <= MaxPromptChars
    ensures r <= visibleText
    ensures |visibleText| <= MaxPromptChars ==> r == visibleText
    ensures |visibleText| > MaxPromptChars ==> |r| == MaxPromptChars
  {
    if |visibleText| <= MaxPromptChars then visibleText else visibleText[..MaxPromptChars]
  }

  /**
   * The prompt sent to the model: the fixed head, the excerpt of the
   * visible text, and the fixed tail, so its length is bounded whatever
   * the page.
   */
  function BuildPrompt(visibleText: string): (r: string)
    ensures |r| == |PromptHead| + |PromptExcerpt(visibleText)| + |PromptTail|
    ensures |r| <= |PromptHead| + MaxPromptChars + |PromptTail|
    ensures r[..|PromptHead|] == PromptHead
    ensures r[|PromptHead|..|r| - |PromptTail|] == PromptExcerpt(visibleText)
    ensures r[|r| - |PromptTail|..] == PromptTail
  {
    var e := PromptExcerpt(visibleText);
    assert (PromptHead + e + PromptTail)[..|PromptHead|] == PromptHead;
    assert (PromptHead + e + PromptTail)[|PromptHead|..|PromptHead| + |e|] == e;
    PromptHead + e + PromptTail
  }

  /**
   * The prompt holds nothing of the visible text past its first 10 000
   * characters: two texts that agree on those give the same prompt.
   */
  lemma PromptIgnoresLaterText(visibleText: string, other: string)
    requires |visibleText| >= MaxPromptChars && |other| >= MaxPromptChars
    requires visibleText[..MaxPromptChars] == other[..MaxPromptChars]
    ensures BuildPrompt(visibleText) == BuildPrompt(other)
  {
    assert PromptExcerpt(visibleText) == PromptExcerpt(other);
  }

  /** A reply cut short after the title. */
  lemma TrailingCommaReplyExample()
    ensures ParseFields("Engineer,") == ExtractedJob("Engineer", "", "")
  {
    var e := "Engineer";
    assert ',' !in e && NoEdgeSpace(e);
    assert "Engineer," == e + ",";
    ParseTrailingComma(e);
  }

  /** What the route answers. */
  datatype Response = Fields(job: ExtractedJob) | Error(status: int, message: string)

  /** JavaScript truthiness of an optional string: present and non-empty. */
  predicate Truthy(s: Option<string>)
  {
    s.Some? && s.value != ""
  }

  /** The checks the handler makes before calling the model. */
  function EarlyExit(html: Option<string>, apiKey: Option<string>): (r: Option<Response>)
    ensures !Truthy(html) <==> r == Some(Error(400, "HTML content is required"))
    ensures Truthy(html) && !Truthy(apiKey) <==> r == Some(Error(500, "GEMINI_API_KEY is not configured"))
    ensures r.None? <==> Truthy(html) && Truthy(apiKey)
  {
    if !Truthy(html) then Some(Error(400, "HTML content is required"))
    else if !Truthy(apiKey) then Some(Error(500, "GEMINI_API_KEY is not configured"))
    else None
  }

  /**
   * The whole handler. `bodyText` stands for cheerio's `$("body").text()`
   * of the HTML and `generate` for the model call, `None` when it throws.
   */
  function HandleExtract(html: Option<string>, apiKey: Option<string>,
                         bodyText: string -> string, generate: string -> Option<string>): (r: Response)
    ensures !Truthy(html) ==> r == Error(400, "HTML content is required")
    ensures Truthy(html) && !Truthy(apiKey) ==> r == Error(500, "GEMINI_API_KEY is not configured")
    ensures Truthy(html) && Truthy(apiKey) ==>
      var reply := generate(BuildPrompt(ExtractJobText(bodyText(html.value))));
      r == if reply.None? then Error(500, "Failed to extract job information")
           else Fields(ParseFields(reply.value))
    ensures r.Fields? ==> ',' !in r.job.title && ',' !in r.job.company && ',' !in r.job.location
  {
    match EarlyExit(html, apiKey)
    case Some(exit) => exit
    case None =>
      var visibleText := ExtractJobText(bodyText(html.value));
      match generate(BuildPrompt(visibleText))
      case None => Error(500, "Failed to extract job information")
      case Some(reply) => Fields(ParseFields(reply))
  }
}
