/**
 * `process_papers`, the batch pipeline of the research analyzer: search for papers,
 * analyse at most `num_papers` of them in order, collect the non-empty
 * limitations/scope excerpts, and ask for new ideas once when any excerpt was
 * collected. The result is the transcript (the output lines joined by newlines)
 * together with the log of requests made to the external services.
 */
module Orchestrator {
  import opened Wrappers
  import opened PyStr
  import opened Limitations
  import opened Papers

  /** The 50-character rule printed before each paper and before the ideas. */
  const Rule: string := "=================================================="

  const NoPapersLine: string := "\nNo papers found for your topic. Try a different search term."
  const SkippedLine: string := "\nSkipped: Full text not available for analysis"
  const IdeasHeading: string := "\nSuggested Research Ideas:\n"
  const NoExcerptLine: string := "\nCould not extract limitations/scope from the analyzed papers. No new ideas generated."

  function FoundLine(found: nat, numPapers: int, sortBy: string): string {
    "\nFound " + IntToString(found) + " relevant papers. Analyzing top " + IntToString(numPapers)
    + " (sorted by " + sortBy + ")..."
  }

  function GeneratingLine(numIdeas: int, wordLimit: int): string {
    "Generating " + IntToString(numIdeas) + " new research ideas based on identified gaps (each >100 and <= "
    + IntToString(wordLimit) + " words)..."
  }

  function HeaderLine(idx: nat, numPapers: int): string {
    "\n" + Rule + "\nAnalyzing paper " + IntToString(idx + 1) + "/" + IntToString(numPapers)
  }

  /** The link line: the link when it is truthy, else a placeholder. */
  function LinkLine(link: Field): string {
    if Truthy(link) then "Link: " + link.s else "Link: Not available"
  }

  /** The excerpt a paper contributes ("" when it has no text or its analysis has no limitations section). */
  function Excerpt(p: Paper, analysisPrompt: string, svc: Services): string {
    var text := PaperText(p, svc.pdfText);
    if text == "" then "" else LimitationsScope(AnalyzeWithGemini(text, analysisPrompt, svc.gemini))
  }

  /** What one iteration of the paper loop adds. */
  datatype Step = Step(lines: seq<string>, excerpt: string, calls: seq<Call>)

  /** The iteration for the paper at position `idx` (0-based) of the visited papers. */
  function PaperStep(p: Paper, idx: nat, numPapers: int, analysisPrompt: string, svc: Services): Step {
    var head := [HeaderLine(idx, numPapers), "Title: " + TitleText(p), LinkLine(Link(p))];
    var fetch := if FetchesPdf(p) then [FetchPdf(p.downloadUrl.s)] else [];
    var text := PaperText(p, svc.pdfText);
    if text == "" then
      Step(head + [SkippedLine], "", fetch)
    else
      Step(head + ["\nAnalysis:\n" + AnalyzeWithGemini(text, analysisPrompt, svc.gemini)],
           Excerpt(p, analysisPrompt, svc),
           fetch + [Analyze(AnalysisRequest(text, analysisPrompt))])
  }

  /** Lines, excerpts and requests accumulated by the loop after visiting `ps`. */
  datatype Progress = Progress(lines: seq<string>, excerpts: seq<string>, calls: seq<Call>)

  function Walk(ps: seq<Paper>, numPapers: int, analysisPrompt: string, svc: Services): Progress
    decreases |ps|
  {
    if ps == [] then Progress([], [], [])
    else
      var before := Walk(ps[..|ps| - 1], numPapers, analysisPrompt, svc);
      var step := PaperStep(ps[|ps| - 1], |ps| - 1, numPapers, analysisPrompt, svc);
      Progress(before.lines + step.lines,
               before.excerpts + (if step.excerpt == "" then [] else [step.excerpt]),
               before.calls + step.calls)
  }

  lemma WalkStep(ps: seq<Paper>, idx: nat, numPapers: int, analysisPrompt: string, svc: Services)
    requires idx < |ps|
    ensures var w := Walk(ps[..idx], numPapers, analysisPrompt, svc);
            var step := PaperStep(ps[idx], idx, numPapers, analysisPrompt, svc);
            Walk(ps[..idx + 1], numPapers, analysisPrompt, svc)
            == Progress(w.lines + step.lines, w.excerpts + (if step.excerpt == "" then [] else [step.excerpt]),
                        w.calls + step.calls)
  {
    assert ps[..idx + 1][..idx] == ps[..idx];
  }

  /** The papers the loop visits: `papers[:num_papers]` of the search result. */
  function Visited(query: string, numPapers: int, sortBy: string, svc: Services): seq<Paper> {
    if query == "" then [] else PyPrefix(svc.search(query, numPapers, sortBy), numPapers)
  }

  /** The ideas request made for the collected excerpts. */
  function IdeasCall(excerpts: seq<string>, query: string, numIdeas: int, wordLimit: int): Call {
    Ideas(Join(excerpts, "\n\n"), query, numIdeas, wordLimit)
  }

  /** The requests that follow a non-empty search: the loop's, then the ideas request when an
      excerpt was collected. */
  function ReportRequests(query: string, analysisPrompt: string, numPapers: int, numIdeas: int,
                          wordLimit: int, papers: seq<Paper>, svc: Services): seq<Call>
  {
    var walk := Walk(PyPrefix(papers, numPapers), numPapers, analysisPrompt, svc);
    walk.calls + if walk.excerpts == [] then [] else [IdeasCall(walk.excerpts, query, numIdeas, wordLimit)]
  }

  /** The closing lines when excerpts were collected: the rule, the announcement, the heading and the ideas. */
  function SuggestionLines(excerpts: seq<string>, query: string, numIdeas: int, wordLimit: int,
                           gemini: (string, string) -> Reply): seq<string>
  {
    ["\n" + Rule, GeneratingLine(numIdeas, wordLimit), IdeasHeading,
     GenerateNewIdeas(Join(excerpts, "\n\n"), query, numIdeas, wordLimit, gemini)]
  }

  /** The lines that follow a non-empty search: the found line and the paper loop's lines, then
      either the ideas with their heading or the no-excerpt line. */
  function ReportLines(query: string, analysisPrompt: string, sortBy: string, numPapers: int, numIdeas: int,
                       wordLimit: int, papers: seq<Paper>, svc: Services): seq<string>
  {
    var walk := Walk(PyPrefix(papers, numPapers), numPapers, analysisPrompt, svc);
    var lines := [FoundLine(|papers|, numPapers, sortBy)] + walk.lines;
    if walk.excerpts != [] then lines + SuggestionLines(walk.excerpts, query, numIdeas, wordLimit, svc.gemini)
    else lines + [NoExcerptLine]
  }

  /** The requests of a run of `process_papers`, in order. */
  function Requests(query: string, analysisPrompt: string, sortBy: string, numPapers: int, numIdeas: int,
                    wordLimit: int, svc: Services): seq<Call>
  {
    if query == "" then []
    else
      var papers := svc.search(query, numPapers, sortBy);
      [Search(query, numPapers, sortBy)]
      + if papers == [] then [] else ReportRequests(query, analysisPrompt, numPapers, numIdeas, wordLimit, papers, svc)
  }

  /** The output lines of a run of `process_papers`; the transcript is these joined by newlines. */
  function Transcript(query: string, analysisPrompt: string, sortBy: string, numPapers: int, numIdeas: int,
                      wordLimit: int, svc: Services): seq<string>
  {
    match SearchCorePapers(query, numPapers, sortBy, svc.search)
    case Failure(e) => ["\nError processing papers: " + e]
    case Success(papers) =>
      if papers == [] then [NoPapersLine]
      else ReportLines(query, analysisPrompt, sortBy, numPapers, numIdeas, wordLimit, papers, svc)
  }

  /** The body of the paper loop: the lines it appends, the excerpt it extracts ("" for a
      skipped paper) and the requests it makes. */
  method AnalyzePaper(paper: Paper, idx: nat, numPapers: int, analysisPrompt: string, svc: Services)
    returns (lines: seq<string>, limScope: string, calls: seq<Call>)
    ensures Step(lines, limScope, calls) == PaperStep(paper, idx, numPapers, analysisPrompt, svc)
  {
    lines := [HeaderLine(idx, numPapers)];
    lines := lines + ["Title: " + TitleText(paper)];
    lines := lines + [LinkLine(Link(paper))];
    calls := [];
    var text := if Truthy(paper.fullText) then paper.fullText.s else "";
    if !Truthy(paper.fullText) && Truthy(paper.downloadUrl) {
      calls := calls + [FetchPdf(paper.downloadUrl.s)];
      text := svc.pdfText(paper.downloadUrl.s);
    }
    assert text == PaperText(paper, svc.pdfText);
    assert calls == if FetchesPdf(paper) then [FetchPdf(paper.downloadUrl.s)] else [];
    assert lines == [HeaderLine(idx, numPapers), "Title: " + TitleText(paper), LinkLine(Link(paper))];
    if text != "" {
      calls := calls + [Analyze(AnalysisRequest(text, analysisPrompt))];
      var analysis := AnalyzeWithGemini(text, analysisPrompt, svc.gemini);
      lines := lines + ["\nAnalysis:\n" + analysis];
      limScope := ExtractLimitationsScope(analysis);
    } else {
      lines := lines + [SkippedLine];
      limScope := "";
    }
  }

  /** The paper loop of `process_papers`: it appends each paper's lines, excerpt and requests in turn. */
  method AnalyzeVisited(visited: seq<Paper>, numPapers: int, analysisPrompt: string, svc: Services)
    returns (outputLines: seq<string>, limitationsList: seq<string>, calls: seq<Call>)
    ensures Progress(outputLines, limitationsList, calls) == Walk(visited, numPapers, analysisPrompt, svc)
  {
    outputLines, limitationsList, calls := [], [], [];
    var idx := 0;
    while idx < |visited|
      invariant idx <= |visited|
      invariant Progress(outputLines, limitationsList, calls) == Walk(visited[..idx], numPapers, analysisPrompt, svc)
    {
      var lines, limScope, paperCalls := AnalyzePaper(visited[idx], idx, numPapers, analysisPrompt, svc);
      outputLines := outputLines + lines;
      calls := calls + paperCalls;
      if limScope != "" {
        limitationsList := limitationsList + [limScope];
      }
      WalkStep(visited, idx, numPapers, analysisPrompt, svc);
      idx := idx + 1;
    }
    assert visited[..idx] == visited;
  }

  /** The idea-generation step of `process_papers`, printing as it goes. */
  method SuggestIdeas(limitationsList: seq<string>, query: string, numIdeas: int, wordLimit: int,
                      gemini: (string, string) -> Reply) returns (lines: seq<string>)
    ensures lines == SuggestionLines(limitationsList, query, numIdeas, wordLimit, gemini)
  {
    lines := ["\n" + Rule];
    lines := lines + [GeneratingLine(numIdeas, wordLimit)];
    var allLimitations := Join(limitationsList, "\n\n");
    var newIdeas := GenerateNewIdeas(allLimitations, query, numIdeas, wordLimit, gemini);
    lines := lines + [IdeasHeading];
    lines := lines + [newIdeas];
  }

  /** The part of `process_papers` after a non-empty search. */
  method AnalyzeAndSuggest(query: string, analysisPrompt: string, sortBy: string, numPapers: int, numIdeas: int,
                           wordLimit: int, papers: seq<Paper>, svc: Services)
    returns (outputLines: seq<string>, calls: seq<Call>)
    ensures outputLines == ReportLines(query, analysisPrompt, sortBy, numPapers, numIdeas, wordLimit, papers, svc)
    ensures calls == ReportRequests(query, analysisPrompt, numPapers, numIdeas, wordLimit, papers, svc)
  {
    outputLines := [FoundLine(|papers|, numPapers, sortBy)];
    var visited := PyPrefix(papers, numPapers);
    var paperLines, limitationsList, paperCalls := AnalyzeVisited(visited, numPapers, analysisPrompt, svc);
    outputLines := outputLines + paperLines;
    calls := paperCalls;
    if limitationsList != [] {
      var suggestion := SuggestIdeas(limitationsList, query, numIdeas, wordLimit, svc.gemini);
      outputLines := outputLines + suggestion;
      calls := calls + [IdeasCall(limitationsList, query, numIdeas, wordLimit)];
    } else {
      outputLines := outputLines + [NoExcerptLine];
      assert calls == paperCalls + [];
    }
  }

  /** `process_papers`: the transcript is the output lines joined by newlines. */
  method ProcessPapers(query: string, analysisPrompt: string, sortBy: string, numPapers: int, numIdeas: int,
                       wordLimit: int, svc: Services) returns (output: string, calls: seq<Call>)
    ensures output == Join(Transcript(query, analysisPrompt, sortBy, numPapers, numIdeas, wordLimit, svc), "\n")
    ensures calls == Requests(query, analysisPrompt, sortBy, numPapers, numIdeas, wordLimit, svc)
  {
    var outputLines: seq<string>;
    var found := SearchCorePapers(query, numPapers, sortBy, svc.search);
    if found.Failure? {
      outputLines := ["\nError processing papers: " + found.error];
      output, calls := Join(outputLines, "\n"), [];
      return;
    }
    calls := [Search(query, numPapers, sortBy)];
    var papers := found.value;
    if papers == [] {
      outputLines := [NoPapersLine];
      output := Join(outputLines, "\n");
      assert calls == calls + [];
      return;
    }
    var reportCalls;
    outputLines, reportCalls := AnalyzeAndSuggest(query, analysisPrompt, sortBy, numPapers, numIdeas, wordLimit, papers, svc);
    calls := calls + reportCalls;
    output := Join(outputLines, "\n");
  }

  predicate IsIdeas(c: Call) { c.Ideas? }

  predicate IsAnalyze(c: Call) { c.Analyze? }

  /** How many requests of a kind a log holds. */
  function Count(cs: seq<Call>, kind: Call -> bool): nat
    decreases |cs|
  {
    if cs == [] then 0 else Count(cs[..|cs| - 1], kind) + (if kind(cs[|cs| - 1]) then 1 else 0)
  }

  lemma {:induction false} CountAppend(a: seq<Call>, b: seq<Call>, kind: Call -> bool)
    ensures Count(a + b, kind) == Count(a, kind) + Count(b, kind)
    decreases |b|
  {
    if b == [] {
      assert a + b == a;
    } else {
      var ab := a + b;
      assert ab[..|ab| - 1] == a + b[..|b| - 1];
      assert ab[|ab| - 1] == b[|b| - 1];
      CountAppend(a, b[..|b| - 1], kind);
    }
  }

  /** How many of `ps` have text to analyse. */
  function WithText(ps: seq<Paper>, pdfText: string -> string): (n: nat)
    ensures n <= |ps|
    decreases |ps|
  {
    if ps == [] then 0
    else WithText(ps[..|ps| - 1], pdfText) + (if PaperText(ps[|ps| - 1], pdfText) != "" then 1 else 0)
  }

  /** One paper: no ideas request, one analysis exactly when it has text, and its excerpt. */
  lemma StepFacts(p: Paper, idx: nat, numPapers: int, analysisPrompt: string, svc: Services)
    ensures var step := PaperStep(p, idx, numPapers, analysisPrompt, svc);
            && Count(step.calls, IsIdeas) == 0
            && Count(step.calls, IsAnalyze) == (if PaperText(p, svc.pdfText) != "" then 1 else 0)
            && step.excerpt == Excerpt(p, analysisPrompt, svc)
  {
    var text := PaperText(p, svc.pdfText);
    var fetch := if FetchesPdf(p) then [FetchPdf(p.downloadUrl.s)] else [];
    assert Count(fetch, IsIdeas) == 0 && Count(fetch, IsAnalyze) == 0 by {
      if fetch != [] {
        assert fetch[..0] == [];
      }
    }
    if text != "" {
      var analyze := [Analyze(AnalysisRequest(text, analysisPrompt))];
      assert analyze[..0] == [];
      CountAppend(fetch, analyze, IsIdeas);
      CountAppend(fetch, analyze, IsAnalyze);
    }
  }

  /** The loop requests no ideas and analyses exactly the papers that have text. */
  lemma {:induction false} WalkCounts(ps: seq<Paper>, numPapers: int, analysisPrompt: string, svc: Services)
    ensures Count(Walk(ps, numPapers, analysisPrompt, svc).calls, IsIdeas) == 0
    ensures Count(Walk(ps, numPapers, analysisPrompt, svc).calls, IsAnalyze) == WithText(ps, svc.pdfText)
    decreases |ps|
  {
    if ps != [] {
      var init, last := ps[..|ps| - 1], ps[|ps| - 1];
      WalkCounts(init, numPapers, analysisPrompt, svc);
      var w := Walk(init, numPapers, analysisPrompt, svc);
      var step := PaperStep(last, |ps| - 1, numPapers, analysisPrompt, svc);
      StepFacts(last, |ps| - 1, numPapers, analysisPrompt, svc);
      CountAppend(w.calls, step.calls, IsIdeas);
      CountAppend(w.calls, step.calls, IsAnalyze);
    }
  }

  /** The excerpt of each paper of `ps`, in order, empty ones included. */
  function Excerpts(ps: seq<Paper>, analysisPrompt: string, svc: Services): (r: seq<string>)
    ensures |r| == |ps|
    decreases |ps|
  {
    if ps == [] then [] else Excerpts(ps[..|ps| - 1], analysisPrompt, svc) + [Excerpt(ps[|ps| - 1], analysisPrompt, svc)]
  }

  lemma {:induction false} ExcerptsAt(ps: seq<Paper>, k: nat, analysisPrompt: string, svc: Services)
    requires k < |ps|
    ensures Excerpts(ps, analysisPrompt, svc)[k] == Excerpt(ps[k], analysisPrompt, svc)
    decreases |ps|
  {
    if k < |ps| - 1 {
      var init := ps[..|ps| - 1];
      ExcerptsAt(init, k, analysisPrompt, svc);
      assert init[k] == ps[k];
    }
  }

  /** The loop's excerpt list is the papers' excerpts with the empty ones dropped, in paper order. */
  lemma {:induction false} WalkCollects(ps: seq<Paper>, numPapers: int, analysisPrompt: string, svc: Services)
    ensures Walk(ps, numPapers, analysisPrompt, svc).excerpts == DropEmpty(Excerpts(ps, analysisPrompt, svc))
    decreases |ps|
  {
    if ps != [] {
      var xs := Excerpts(ps, analysisPrompt, svc);
      WalkCollects(ps[..|ps| - 1], numPapers, analysisPrompt, svc);
      StepFacts(ps[|ps| - 1], |ps| - 1, numPapers, analysisPrompt, svc);
      assert xs[..|xs| - 1] == Excerpts(ps[..|ps| - 1], analysisPrompt, svc);
    }
  }

  /** Every PDF download is for a visited paper without usable full text, at its `downloadUrl`. */
  lemma {:induction false} WalkFetches(ps: seq<Paper>, numPapers: int, analysisPrompt: string, svc: Services)
    ensures forall c :: c in Walk(ps, numPapers, analysisPrompt, svc).calls && c.FetchPdf? ==>
              exists k :: 0 <= k < |ps| && FetchesPdf(ps[k]) && c.url == ps[k].downloadUrl.s
    decreases |ps|
  {
    if ps != [] {
      var init := ps[..|ps| - 1];
      WalkFetches(init, numPapers, analysisPrompt, svc);
      assert forall k :: 0 <= k < |init| ==> init[k] == ps[k];
    }
  }

  /** An empty query is caught: one error line, and no request is made. */
  lemma EmptyQueryOutcome(analysisPrompt: string, sortBy: string, numPapers: int, numIdeas: int,
                          wordLimit: int, svc: Services)
    ensures Join(Transcript("", analysisPrompt, sortBy, numPapers, numIdeas, wordLimit, svc), "\n")
            == "\nError processing papers: " + EmptyQueryMessage
    ensures Requests("", analysisPrompt, sortBy, numPapers, numIdeas, wordLimit, svc) == []
  {
    assert Transcript("", analysisPrompt, sortBy, numPapers, numIdeas, wordLimit, svc)
           == ["\nError processing papers: " + EmptyQueryMessage];
  }

  /** No search results: the one "no papers" line, and nothing beyond the search is requested. */
  lemma NoPapersOutcome(query: string, analysisPrompt: string, sortBy: string, numPapers: int, numIdeas: int,
                        wordLimit: int, svc: Services)
    requires query != "" && svc.search(query, numPapers, sortBy) == []
    ensures Join(Transcript(query, analysisPrompt, sortBy, numPapers, numIdeas, wordLimit, svc), "\n") == NoPapersLine
    ensures Requests(query, analysisPrompt, sortBy, numPapers, numIdeas, wordLimit, svc) == [Search(query, numPapers, sortBy)]
  {
    assert Transcript(query, analysisPrompt, sortBy, numPapers, numIdeas, wordLimit, svc) == [NoPapersLine];
    assert [Search(query, numPapers, sortBy)] + [] == [Search(query, numPapers, sortBy)];
  }

  lemma CountSingle(c: Call, kind: Call -> bool)
    ensures Count([c], kind) == if kind(c) then 1 else 0
  {
    assert [c][..0] == [];
  }

  /** Some paper of `ps` yields an excerpt exactly when the collected list is non-empty. */
  lemma SomeExcerptIff(ps: seq<Paper>, numPapers: int, analysisPrompt: string, svc: Services)
    ensures Walk(ps, numPapers, analysisPrompt, svc).excerpts != []
            <==> exists k :: 0 <= k < |ps| && Excerpt(ps[k], analysisPrompt, svc) != ""
  {
    var xs := Excerpts(ps, analysisPrompt, svc);
    WalkCollects(ps, numPapers, analysisPrompt, svc);
    DropEmptyFacts(xs);
    if DropEmpty(xs) != [] {
      var k :| 0 <= k < |xs| && xs[k] != "";
      ExcerptsAt(ps, k, analysisPrompt, svc);
    }
    if exists k :: 0 <= k < |ps| && Excerpt(ps[k], analysisPrompt, svc) != "" {
      var k :| 0 <= k < |ps| && Excerpt(ps[k], analysisPrompt, svc) != "";
      ExcerptsAt(ps, k, analysisPrompt, svc);
    }
  }

  /** After a non-empty search, the transcript closes with the ideas generated from the collected
      excerpts, under their heading, when some visited paper yields an excerpt, and with the
      "Could not extract" line otherwise. */
  lemma TranscriptCloses(query: string, analysisPrompt: string, sortBy: string, numPapers: int, numIdeas: int,
                         wordLimit: int, svc: Services)
    requires query != "" && svc.search(query, numPapers, sortBy) != []
    ensures var t := Transcript(query, analysisPrompt, sortBy, numPapers, numIdeas, wordLimit, svc);
            var visited := Visited(query, numPapers, sortBy, svc);
            var excerpts := DropEmpty(Excerpts(visited, analysisPrompt, svc));
            && |t| >= 2
            && ((exists k :: 0 <= k < |visited| && Excerpt(visited[k], analysisPrompt, svc) != "") ==>
                  && t[|t| - 2] == IdeasHeading
                  && t[|t| - 1] == GenerateNewIdeas(Join(excerpts, "\n\n"), query, numIdeas, wordLimit, svc.gemini))
            && ((forall k :: 0 <= k < |visited| ==> Excerpt(visited[k], analysisPrompt, svc) == "") ==>
                  t[|t| - 1] == NoExcerptLine)
  {
    var papers := svc.search(query, numPapers, sortBy);
    var visited := Visited(query, numPapers, sortBy, svc);
    assert visited == PyPrefix(papers, numPapers);
    WalkCollects(visited, numPapers, analysisPrompt, svc);
    SomeExcerptIff(visited, numPapers, analysisPrompt, svc);
    ReportLinesClose(query, analysisPrompt, sortBy, numPapers, numIdeas, wordLimit, papers, svc);
    assert Transcript(query, analysisPrompt, sortBy, numPapers, numIdeas, wordLimit, svc)
           == ReportLines(query, analysisPrompt, sortBy, numPapers, numIdeas, wordLimit, papers, svc);
  }

  /** The last lines after a non-empty search, in terms of the loop's excerpt list. */
  lemma ReportLinesClose(query: string, analysisPrompt: string, sortBy: string, numPapers: int, numIdeas: int,
                         wordLimit: int, papers: seq<Paper>, svc: Services)
    ensures var r := ReportLines(query, analysisPrompt, sortBy, numPapers, numIdeas, wordLimit, papers, svc);
            var w := Walk(PyPrefix(papers, numPapers), numPapers, analysisPrompt, svc);
            && |r| >= 2
            && (w.excerpts != [] ==>
                  && r[|r| - 2] == IdeasHeading
                  && r[|r| - 1] == GenerateNewIdeas(Join(w.excerpts, "\n\n"), query, numIdeas, wordLimit, svc.gemini))
            && (w.excerpts == [] ==> r[|r| - 1] == NoExcerptLine)
  {
  }

  /** The requests of a run with a non-empty query, split as the search, the loop's requests
      and the ideas requests (none or one). */
  lemma RequestsSplit(query: string, analysisPrompt: string, sortBy: string, numPapers: int, numIdeas: int,
                      wordLimit: int, svc: Services, kind: Call -> bool)
    requires query != ""
    ensures var visited := Visited(query, numPapers, sortBy, svc);
            var w := Walk(visited, numPapers, analysisPrompt, svc);
            Count(Requests(query, analysisPrompt, sortBy, numPapers, numIdeas, wordLimit, svc), kind)
            == (if kind(Search(query, numPapers, sortBy)) then 1 else 0) + Count(w.calls, kind)
               + if w.excerpts == [] then 0 else if kind(IdeasCall(w.excerpts, query, numIdeas, wordLimit)) then 1 else 0
  {
    var papers := svc.search(query, numPapers, sortBy);
    var searched := Search(query, numPapers, sortBy);
    var visited := Visited(query, numPapers, sortBy, svc);
    var w := Walk(visited, numPapers, analysisPrompt, svc);
    var tail := if papers == [] then [] else ReportRequests(query, analysisPrompt, numPapers, numIdeas, wordLimit, papers, svc);
    assert Requests(query, analysisPrompt, sortBy, numPapers, numIdeas, wordLimit, svc) == [searched] + tail;
    CountSingle(searched, kind);
    CountAppend([searched], tail, kind);
    if papers == [] {
      assert visited == [];
    } else {
      var extra := if w.excerpts == [] then [] else [IdeasCall(w.excerpts, query, numIdeas, wordLimit)];
      assert tail == w.calls + extra;
      CountAppend(w.calls, extra, kind);
      if w.excerpts != [] {
        CountSingle(IdeasCall(w.excerpts, query, numIdeas, wordLimit), kind);
      }
    }
  }

  /** Idea generation is requested once when some visited paper yields an excerpt, and never otherwise. */
  lemma IdeasRequestedOnceIff(query: string, analysisPrompt: string, sortBy: string, numPapers: int, numIdeas: int,
                              wordLimit: int, svc: Services)
    ensures var visited := Visited(query, numPapers, sortBy, svc);
            Count(Requests(query, analysisPrompt, sortBy, numPapers, numIdeas, wordLimit, svc), IsIdeas)
            == if exists k :: 0 <= k < |visited| && Excerpt(visited[k], analysisPrompt, svc) != "" then 1 else 0
  {
    if query != "" {
      var visited := Visited(query, numPapers, sortBy, svc);
      RequestsSplit(query, analysisPrompt, sortBy, numPapers, numIdeas, wordLimit, svc, IsIdeas);
      WalkCounts(visited, numPapers, analysisPrompt, svc);
      SomeExcerptIff(visited, numPapers, analysisPrompt, svc);
    }
  }

  /** At most `num_papers` papers are visited, a prefix of the search results, and exactly
      those of them that have text are analysed. */
  lemma AnalysesBounded(query: string, analysisPrompt: string, sortBy: string, numPapers: int, numIdeas: int,
                        wordLimit: int, svc: Services)
    ensures var visited := Visited(query, numPapers, sortBy, svc);
            && (query != "" ==> visited == svc.search(query, numPapers, sortBy)[..|visited|])
            && (numPapers >= 0 ==> |visited| <= numPapers)
            && Count(Requests(query, analysisPrompt, sortBy, numPapers, numIdeas, wordLimit, svc), IsAnalyze)
               == WithText(visited, svc.pdfText)
  {
    if query != "" {
      var visited := Visited(query, numPapers, sortBy, svc);
      RequestsSplit(query, analysisPrompt, sortBy, numPapers, numIdeas, wordLimit, svc, IsAnalyze);
      WalkCounts(visited, numPapers, analysisPrompt, svc);
    }
  }
}
