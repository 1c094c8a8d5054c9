/**
 * The `analyze_papers` route of the analyzer web service: search CORE for the
 * topic, and for each of the first `num_papers` results report its title, its
 * link, the Gemini analysis of its text and the limitations/scope excerpt of that
 * analysis, or a "Skipped" note when the paper has no text.
 */
module PaperRoutes {
  import opened Wrappers
  import opened PyStr
  import opened Limitations
  import opened Papers
  import Orchestrator

  const RouteSkipped: string := "Skipped: Full text not available for analysis"
  const RelevanceSort: string := "relevance"

  /** The instructions the route sends with every paper text. */
  const RouteAnalysisPrompt: string :=
    "Please provide a detailed analysis of this research paper covering:\n"
    + "    1. Main research question/hypothesis\n"
    + "    2. Methodology used\n"
    + "    3. Key findings\n"
    + "    4. Limitations\n"
    + "    5. Potential applications\n"
    + "    6. Relationship to other work in the field"

  /** An entry of the route's response. */
  datatype RouteEntry = RouteEntry(title: Field, link: Field, analysis: string, limScope: string)

  /** `paper.get('title', 'Untitled')`. */
  function RouteTitle(p: Paper): (t: Field)
    ensures p.title.Absent? ==> t == Str("Untitled")
    ensures !p.title.Absent? ==> t == p.title
  {
    if p.title.Absent? then Str("Untitled") else p.title
  }

  /** The entry for one paper, analysed with the instructions `prompt`. */
  function EntryFor(p: Paper, prompt: string, svc: Services): RouteEntry {
    var text := PaperText(p, svc.pdfText);
    if text == "" then RouteEntry(RouteTitle(p), Link(p), RouteSkipped, "")
    else
      var analysis := AnalyzeWithGemini(text, prompt, svc.gemini);
      RouteEntry(RouteTitle(p), Link(p), analysis, LimitationsScope(analysis))
  }

  /** A paper without text is skipped with an empty excerpt; a paper with text is analysed, and its
      excerpt is the one the command-line pipeline would collect for the same instructions. */
  lemma EntryForSpec(p: Paper, prompt: string, svc: Services)
    ensures var e := EntryFor(p, prompt, svc);
            && e.link == Link(p)
            && (PaperText(p, svc.pdfText) == "" ==> e.analysis == RouteSkipped && e.limScope == "")
            && (PaperText(p, svc.pdfText) != "" ==>
                  e.analysis == AnalyzeWithGemini(PaperText(p, svc.pdfText), prompt, svc.gemini))
            && e.limScope == Orchestrator.Excerpt(p, prompt, svc)
  {
  }

  /** The entries of the visited papers, in order. */
  function Entries(ps: seq<Paper>, prompt: string, svc: Services): (r: seq<RouteEntry>)
    ensures |r| == |ps|
  {
    seq(|ps|, i requires 0 <= i < |ps| => EntryFor(ps[i], prompt, svc))
  }

  /** One iteration of the route's loop. */
  method AnalyzeEntry(paper: Paper, prompt: string, svc: Services) returns (e: RouteEntry)
    ensures e == EntryFor(paper, prompt, svc)
  {
    var title := RouteTitle(paper);
    var link := Link(paper);
    var text := if Truthy(paper.fullText) then paper.fullText.s else "";
    if text == "" && Truthy(paper.downloadUrl) {
      text := svc.pdfText(paper.downloadUrl.s);
    }
    if text != "" {
      var analysis := AnalyzeWithGemini(text, prompt, svc.gemini);
      var limScope := ExtractLimitationsScope(analysis);
      e := RouteEntry(title, link, analysis, limScope);
    } else {
      e := RouteEntry(title, link, RouteSkipped, "");
    }
  }

  /** The papers the route visits: `papers[:num_papers]` of the search results. */
  function RouteVisited(topic: string, numPapers: int, svc: Services): seq<Paper> {
    PyPrefix(svc.search(topic, numPapers, RelevanceSort), numPapers)
  }

  /** The loop of the route: one entry appended per paper, in order. */
  method AnalyzeAll(papers: seq<Paper>, prompt: string, svc: Services) returns (result: seq<RouteEntry>)
    ensures |result| == |papers|
    ensures forall k :: 0 <= k < |papers| ==> result[k] == EntryFor(papers[k], prompt, svc)
  {
    result := [];
    var i := 0;
    while i < |papers|
      invariant 0 <= i <= |papers|
      invariant |result| == i
      invariant forall k :: 0 <= k < i ==> result[k] == EntryFor(papers[k], prompt, svc)
    {
      var e := AnalyzeEntry(papers[i], prompt, svc);
      result := result + [e];
      i := i + 1;
    }
  }

  /** The route: an empty topic raises the search's error; otherwise one entry per visited paper. */
  method AnalyzePapersRoute(topic: string, numPapers: int, svc: Services) returns (r: Result<seq<RouteEntry>>)
    ensures r.Failure? <==> topic == ""
    ensures r.Failure? ==> r.error == EmptyQueryMessage
    ensures r.Success? ==> r.value == Entries(RouteVisited(topic, numPapers, svc), RouteAnalysisPrompt, svc)
  {
    var search := SearchCorePapers(topic, numPapers, RelevanceSort, svc.search);
    if search.Failure? {
      return Failure(search.error);
    }
    var papers := PyPrefix(search.value, numPapers);
    var result := AnalyzeAll(papers, RouteAnalysisPrompt, svc);
    assert result == Entries(papers, RouteAnalysisPrompt, svc);
    r := Success(result);
  }

  /** At most `num_papers` entries, for the first search results in search order. */
  lemma RouteBounded(topic: string, numPapers: int, prompt: string, svc: Services)
    requires numPapers >= 0
    ensures var results := svc.search(topic, numPapers, RelevanceSort);
            var es := Entries(RouteVisited(topic, numPapers, svc), prompt, svc);
            && |es| == Min(numPapers, |results|)
            && forall i :: 0 <= i < |es| ==> es[i] == EntryFor(results[i], prompt, svc)
  {
  }
}
