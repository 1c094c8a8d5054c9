/**
 * The paper records returned by the CORE search and the helpers of the research
 * analyzer that sit between the external services: the empty-query check of the
 * search, the choice of a paper's link and of the text to analyse, and the Gemini
 * wrappers with their prompts and error strings. The services themselves (CORE
 * search, PDF download and extraction, Gemini) are function-valued parameters.
 */
module Papers {
  import opened Wrappers
  import opened PyStr

  /** A string-valued field of a search hit as decoded from JSON: missing, `null`, or a string. */
  datatype Field = Absent | Null | Str(s: string)

  /** A search hit of the CORE works API, reduced to the fields the analyzer reads. */
  datatype Paper = Paper(title: Field, url: Field, downloadUrl: Field, fullTextUrl: Field, fullText: Field)

  /** Python truthiness of `paper.get(key)`: a non-empty string. */
  predicate Truthy(f: Field) { f.Str? && f.s != "" }

  /** What `generate_content` did: returned a response with this text, or raised with this message. */
  datatype Reply = Answer(text: string) | Raised(message: string)

  /** The external services, as functions of their arguments. */
  datatype Services = Services(
    /** The CORE request of `search_core_papers` past its query check: (query, limit, sort_by) to results;
        HTTP and connection failures already turned into the empty list. */
    search: (string, int, string) -> seq<Paper>,
    /** `extract_text_from_pdf(url)`, which yields "" on any failure. */
    pdfText: string -> string,
    /** `GenerativeModel(model).generate_content(prompt)`. */
    gemini: (string, string) -> Reply)

  /** A request made to an external service, recorded in order. An ideas request is recorded by the
      arguments of `generate_new_ideas`; the prompt it sends is `IdeasPrompt` of them. */
  datatype Call =
    | Search(query: string, limit: int, sort: string)
    | FetchPdf(url: string)
    | Analyze(prompt: string)
    | Ideas(limitations: string, topic: string, numIdeas: int, wordLimit: int)

  const FlashModel: string := "gemini-1.5-flash"
  const EmptyQueryMessage: string := "Search query cannot be empty"

  /** `search_core_papers`: an empty query raises before any request is made. */
  function SearchCorePapers(query: string, limit: int, sortBy: string, search: (string, int, string) -> seq<Paper>)
    : (r: Result<seq<Paper>>)
    ensures r.Failure? <==> query == ""
    ensures r.Failure? ==> r.error == EmptyQueryMessage
    ensures r.Success? ==> r.value == search(query, limit, sortBy)
  {
    if query == "" then Failure(EmptyQueryMessage) else Success(search(query, limit, sortBy))
  }

  /** `paper.get('title', 'Untitled')` as an f-string renders it. */
  function TitleText(p: Paper): string {
    match p.title
    case Absent => "Untitled"
    case Null => "None"
    case Str(s) => s
  }

  /** `paper.get('url') or paper.get('downloadUrl') or paper.get('fullTextUrl')`. */
  function Link(p: Paper): (l: Field)
    ensures Truthy(l) <==> Truthy(p.url) || Truthy(p.downloadUrl) || Truthy(p.fullTextUrl)
    ensures Truthy(p.url) ==> l == p.url
    ensures !Truthy(p.url) && Truthy(p.downloadUrl) ==> l == p.downloadUrl
    ensures !Truthy(p.url) && !Truthy(p.downloadUrl) && Truthy(p.fullTextUrl) ==> l == p.fullTextUrl
    ensures !l.Absent?
  {
    if Truthy(p.url) then p.url
    else if Truthy(p.downloadUrl) then p.downloadUrl
    else if p.fullTextUrl.Absent? then Null
    else p.fullTextUrl
  }

  /** Whether a paper's PDF is downloaded: it has no usable `fullText` but a usable `downloadUrl`. */
  predicate FetchesPdf(p: Paper) {
    !Truthy(p.fullText) && Truthy(p.downloadUrl)
  }

  /** The text analysed for a paper ("" when there is none). */
  function PaperText(p: Paper, pdfText: string -> string): (t: string)
    ensures Truthy(p.fullText) ==> t == p.fullText.s
    ensures t != "" && !Truthy(p.fullText) ==> FetchesPdf(p) && t == pdfText(p.downloadUrl.s)
    ensures !Truthy(p.fullText) && !Truthy(p.downloadUrl) ==> t == ""
  {
    if Truthy(p.fullText) then p.fullText.s
    else if Truthy(p.downloadUrl) then pdfText(p.downloadUrl.s)
    else ""
  }

  /** The request `analyze_with_gemini` sends: the instructions, a blank line, the paper text. */
  function AnalysisRequest(text: string, prompt: string): (r: string)
    ensures StartsWith(r, prompt + "\n\n") && EndsWith(r, text)
  {
    ConcatAffixes(prompt + "\n\n", text);
    prompt + "\n\n" + text
  }

  const AnalysisErrorPrefix: string := "Error analyzing with Gemini: "
  const IdeasErrorPrefix: string := "Error generating new ideas: "
  const ElaborateErrorPrefix: string := "Error elaborating idea: "

  /** `analyze_with_gemini`: the reply text, or an error string in place of an exception. */
  function AnalyzeWithGemini(text: string, prompt: string, gemini: (string, string) -> Reply): (r: string)
    ensures gemini(FlashModel, AnalysisRequest(text, prompt)).Answer? ==>
              r == gemini(FlashModel, AnalysisRequest(text, prompt)).text
    ensures gemini(FlashModel, AnalysisRequest(text, prompt)).Raised? ==>
              r == AnalysisErrorPrefix + gemini(FlashModel, AnalysisRequest(text, prompt)).message
  {
    match gemini(FlashModel, AnalysisRequest(text, prompt))
    case Answer(t) => t
    case Raised(m) => AnalysisErrorPrefix + m
  }

  const IdeasOpening: string :=
    "You are an expert research assistant. Based on the following limitations and scope found in recent research papers about '"
  const IdeasMiddle: string :=
    " innovative research ideas or directions that address these gaps. "
    + "For each idea, elaborate thoroughly in a separate paragraph, ensuring each idea is explained in more than 100 words and within "
  const IdeasClosing: string :=
    " words. Number each idea and do not combine them. Be specific, detailed, and concise. List them as numbered points.\n\n"

  /** The prompt of `generate_new_ideas`; the limitations text closes it. */
  function IdeasPrompt(limitationsText: string, topic: string, numIdeas: int, wordLimit: int): (r: string)
    ensures EndsWith(r, "Limitations and Scope:\n" + limitationsText)
  {
    var head := IdeasOpening + topic + "', suggest " + IntToString(numIdeas) + IdeasMiddle
      + IntToString(wordLimit) + IdeasClosing;
    ConcatAffixes(head, "Limitations and Scope:\n" + limitationsText);
    head + ("Limitations and Scope:\n" + limitationsText)
  }

  /** `generate_new_ideas`: the reply text, or an error string in place of an exception. */
  function GenerateNewIdeas(limitationsText: string, topic: string, numIdeas: int, wordLimit: int,
                            gemini: (string, string) -> Reply): (r: string)
    ensures gemini(FlashModel, IdeasPrompt(limitationsText, topic, numIdeas, wordLimit)).Answer? ==>
              r == gemini(FlashModel, IdeasPrompt(limitationsText, topic, numIdeas, wordLimit)).text
    ensures gemini(FlashModel, IdeasPrompt(limitationsText, topic, numIdeas, wordLimit)).Raised? ==>
              r == IdeasErrorPrefix + gemini(FlashModel, IdeasPrompt(limitationsText, topic, numIdeas, wordLimit)).message
  {
    match gemini(FlashModel, IdeasPrompt(limitationsText, topic, numIdeas, wordLimit))
    case Answer(t) => t
    case Raised(m) => IdeasErrorPrefix + m
  }

  const IdeaElabOpening: string := "You are an expert research assistant. Please elaborate in detail (up to "
  const IdeaElabMiddle: string := " words) on the following research idea related to '"
  const IdeaElabClosing: string :=
    "'. Discuss its significance, possible methodology, expected challenges, and potential impact. Be thorough and insightful.\n\n"

  /** The prompt of `elaborate_idea`; the idea text closes it. */
  function ElaboratePrompt(ideaText: string, topic: string, wordLimit: int): (r: string)
    ensures EndsWith(r, "Idea:\n" + ideaText)
  {
    var head := IdeaElabOpening + IntToString(wordLimit) + IdeaElabMiddle + topic + IdeaElabClosing;
    ConcatAffixes(head, "Idea:\n" + ideaText);
    head + ("Idea:\n" + ideaText)
  }

  /** `elaborate_idea`: the reply text, or an error string in place of an exception. */
  function ElaborateIdea(ideaText: string, topic: string, wordLimit: int, gemini: (string, string) -> Reply): (r: string)
    ensures gemini(FlashModel, ElaboratePrompt(ideaText, topic, wordLimit)).Answer? ==>
              r == gemini(FlashModel, ElaboratePrompt(ideaText, topic, wordLimit)).text
    ensures gemini(FlashModel, ElaboratePrompt(ideaText, topic, wordLimit)).Raised? ==>
              r == ElaborateErrorPrefix + gemini(FlashModel, ElaboratePrompt(ideaText, topic, wordLimit)).message
  {
    match gemini(FlashModel, ElaboratePrompt(ideaText, topic, wordLimit))
    case Answer(t) => t
    case Raised(m) => ElaborateErrorPrefix + m
  }
}
