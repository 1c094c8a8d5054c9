/**
 * The Gemini-backed routes of the random-ideas web service other than the gap
 * generator: the per-paper analysis with its "Analysis:" / "Limitations:" line
 * splitter, the `analyze_papers` route that applies it to every fetched paper, the
 * one-summary-per-line `generate_ideas` route and the `elaborate` route, each with
 * its fallback when the API key is missing or the request raises.
 */
module GeminiRoutes {
  import opened Wrappers
  import opened PyStr
  import opened Papers
  import opened GapIdeas

  const AnalysisUnavailable: string := "AI analysis unavailable."
  const ElaborationUnavailable: string := "AI elaboration unavailable."

  /** The result of `analyze_paper_with_gemini`: the "analysis" and "lim_scope" entries. */
  datatype Assessment = Assessment(analysis: string, limScope: string)

  const Unassessed: Assessment := Assessment(AnalysisUnavailable, "")

  /** `s.partition(":")[2]`: what follows the first ':', or "" when there is none. */
  function AfterColon(s: string): (r: string)
    ensures ':' !in s ==> r == ""
    decreases |s|
  {
    if s == [] then "" else if s[0] == ':' then s[1..] else AfterColon(s[1..])
  }

  /** What follows the first ':' is everything after it, colons included. */
  lemma {:induction false} AfterColonOf(head: string, tail: string)
    requires ':' !in head
    ensures AfterColon(head + ":" + tail) == tail
    decreases |head|
  {
    var s := head + ":" + tail;
    if head == [] {
      assert s == ":" + tail;
      assert s[1..] == tail;
    } else {
      assert s[0] == head[0];
      assert s[1..] == head[1..] + ":" + tail;
      AfterColonOf(head[1..], tail);
    }
  }

  /** A line whose lower-case form starts with "analysis:". */
  predicate IsAnalysisLine(l: string) {
    StartsWith(Lower(l), "analysis:")
  }

  /** A line that is not an analysis line and mentions "limitation" or "scope" in any case. */
  predicate IsScopeLine(l: string) {
    !IsAnalysisLine(l) && (Contains(Lower(l), "limitation") || Contains(Lower(l), "scope"))
  }

  /** The splitter over the reply lines, for any classification of lines: each analysis line
      overwrites `analysis`, each other scope line overwrites `limScope`, with the stripped text
      after its first ':'. */
  function Overwrite(lines: seq<string>, isAnalysis: string -> bool, isScope: string -> bool): Assessment
    decreases |lines|
  {
    if lines == [] then Assessment("", "")
    else
      var a := Overwrite(lines[..|lines| - 1], isAnalysis, isScope);
      var l := lines[|lines| - 1];
      if isAnalysis(l) then a.(analysis := Strip(AfterColon(l)))
      else if isScope(l) then a.(limScope := Strip(AfterColon(l)))
      else a
  }

  /** The splitter of `analyze_paper_with_gemini`. */
  function Assess(lines: seq<string>): Assessment {
    Overwrite(lines, IsAnalysisLine, IsScopeLine)
  }

  /** `i` is the last line satisfying `p`. */
  ghost predicate LastWith(lines: seq<string>, i: int, p: string -> bool) {
    0 <= i < |lines| && p(lines[i]) && forall j :: i < j < |lines| ==> !p(lines[j])
  }

  /** The last line with `p` before the final line is still the last one once that line is dropped. */
  lemma LastInInit(lines: seq<string>, i: int, p: string -> bool)
    requires LastWith(lines, i, p) && i < |lines| - 1
    ensures LastWith(lines[..|lines| - 1], i, p)
  {
    var init := lines[..|lines| - 1];
    assert forall j :: i < j < |init| ==> init[j] == lines[j];
  }

  lemma {:induction false} OverwriteAnalysis(lines: seq<string>, isAnalysis: string -> bool, isScope: string -> bool)
    ensures (forall i :: 0 <= i < |lines| ==> !isAnalysis(lines[i])) ==> Overwrite(lines, isAnalysis, isScope).analysis == ""
    ensures forall i :: LastWith(lines, i, isAnalysis) ==>
              Overwrite(lines, isAnalysis, isScope).analysis == Strip(AfterColon(lines[i]))
    decreases |lines|
  {
    if lines != [] {
      var init := lines[..|lines| - 1];
      OverwriteAnalysis(init, isAnalysis, isScope);
      forall i | LastWith(lines, i, isAnalysis) && i < |init|
        ensures LastWith(init, i, isAnalysis)
      {
        LastInInit(lines, i, isAnalysis);
      }
    }
  }

  lemma {:induction false} OverwriteScope(lines: seq<string>, isAnalysis: string -> bool, isScope: string -> bool)
    requires forall l :: isScope(l) ==> !isAnalysis(l)
    ensures (forall i :: 0 <= i < |lines| ==> !isScope(lines[i])) ==> Overwrite(lines, isAnalysis, isScope).limScope == ""
    ensures forall i :: LastWith(lines, i, isScope) ==>
              Overwrite(lines, isAnalysis, isScope).limScope == Strip(AfterColon(lines[i]))
    decreases |lines|
  {
    if lines != [] {
      var init := lines[..|lines| - 1];
      OverwriteScope(init, isAnalysis, isScope);
      forall i | LastWith(lines, i, isScope) && i < |init|
        ensures LastWith(init, i, isScope)
      {
        LastInInit(lines, i, isScope);
      }
    }
  }

  /** `analysis` comes from the last analysis line and `limScope` from the last scope line, each ""
      when there is no such line; a scope line is never an analysis line, so an analysis line
      never sets `limScope`. */
  lemma AssessSpec(lines: seq<string>)
    ensures (forall i :: 0 <= i < |lines| ==> !IsAnalysisLine(lines[i])) ==> Assess(lines).analysis == ""
    ensures forall i :: LastWith(lines, i, IsAnalysisLine) ==> Assess(lines).analysis == Strip(AfterColon(lines[i]))
    ensures (forall i :: 0 <= i < |lines| ==> !IsScopeLine(lines[i])) ==> Assess(lines).limScope == ""
    ensures forall i :: LastWith(lines, i, IsScopeLine) ==> Assess(lines).limScope == Strip(AfterColon(lines[i]))
  {
    OverwriteAnalysis(lines, IsAnalysisLine, IsScopeLine);
    OverwriteScope(lines, IsAnalysisLine, IsScopeLine);
  }

  /** One reply line of the splitter. */
  method AssessLine(a: Assessment, line: string) returns (b: Assessment)
    ensures IsAnalysisLine(line) ==> b == a.(analysis := Strip(AfterColon(line)))
    ensures IsScopeLine(line) ==> b == a.(limScope := Strip(AfterColon(line)))
    ensures !IsAnalysisLine(line) && !IsScopeLine(line) ==> b == a
  {
    var lower := Lower(line);
    if StartsWith(lower, "analysis:") {
      b := a.(analysis := Strip(AfterColon(line)));
    } else if Contains(lower, "limitation") || Contains(lower, "scope") {
      b := a.(limScope := Strip(AfterColon(line)));
    } else {
      b := a;
    }
  }

  /** The line loop of `analyze_paper_with_gemini`. */
  method SplitAssessment(text: string) returns (a: Assessment)
    ensures a == Assess(Split(text))
  {
    var lines := Split(text);
    a := Assessment("", "");
    var i := 0;
    while i < |lines|
      invariant 0 <= i <= |lines|
      invariant a == Assess(lines[..i])
    {
      assert lines[..i + 1][..i] == lines[..i];
      a := AssessLine(a, lines[i]);
      i := i + 1;
    }
    assert lines[..i] == lines;
  }

  const AssessOpening: string := "Given the following research paper:\nTitle: "
  const AssessInstructions: string :=
    "Provide a concise analysis of the paper, and then list any limitations or scope for future work."
    + "\nFormat:\nAnalysis: ...\nLimitations/Scope: ..."

  /** The prompt of `analyze_paper_with_gemini`. */
  function AssessPrompt(title: string, abstractText: string): string {
    AssessOpening + title + "\nAbstract: " + abstractText + "\n\n" + AssessInstructions
  }

  /** What `analyze_paper_with_gemini` returns for a paper. */
  function AssessmentOf(hasKey: bool, title: string, abstractText: string, gemini: (string, string) -> Reply)
    : Assessment
  {
    if !hasKey then Unassessed
    else match gemini(GeminiPro, AssessPrompt(title, abstractText))
      case Raised(_) => Unassessed
      case Answer(text) => Assess(Split(text))
  }

  /** `analyze_paper_with_gemini`; `request` is the prompt sent, if any. */
  method AnalyzePaperWithGemini(hasKey: bool, title: string, abstractText: string, gemini: (string, string) -> Reply)
    returns (a: Assessment, request: Option<string>)
    ensures a == AssessmentOf(hasKey, title, abstractText, gemini)
    ensures !hasKey ==> a == Unassessed && request == None
    ensures hasKey ==> request == Some(AssessPrompt(title, abstractText))
    ensures request.Some? && gemini(GeminiPro, request.value).Raised? ==> a == Unassessed
    ensures request.Some? && gemini(GeminiPro, request.value).Answer? ==>
              a == Assess(Split(gemini(GeminiPro, request.value).text))
  {
    if !hasKey {
      return Unassessed, None;
    }
    var prompt := AssessPrompt(title, abstractText);
    request := Some(prompt);
    match gemini(GeminiPro, prompt)
    case Raised(_) =>
      a := Unassessed;
    case Answer(text) =>
      a := SplitAssessment(text);
  }

  /** A paper of `fetch_papers_for_topic`: title, abstract and url each from `hit.get(key, "")`,
      so a paper built by `FromHit` has no `Absent` field. */
  datatype TopicPaper = TopicPaper(title: Field, abstractText: Field, url: Field, keywords: seq<string>)

  /** `hit.get(key, "")`: an absent entry reads as "", a present one (`null` included) is kept. */
  function GetOrEmpty(f: Field): Field {
    if f.Absent? then Str("") else f
  }

  /** The paper `fetch_papers_for_topic` builds from a CORE hit's title, description, url and topics. */
  function FromHit(title: Field, description: Field, url: Field, topics: seq<string>): (p: TopicPaper)
    ensures !p.title.Absent? && !p.abstractText.Absent? && !p.url.Absent?
    ensures title.Absent? ==> p.title == Str("")
    ensures !title.Absent? ==> p.title == title
    ensures description.Absent? ==> p.abstractText == Str("")
    ensures !description.Absent? ==> p.abstractText == description
    ensures url.Absent? ==> p.url == Str("")
    ensures !url.Absent? ==> p.url == url
    ensures p.keywords == topics
  {
    TopicPaper(GetOrEmpty(title), GetOrEmpty(description), GetOrEmpty(url), topics)
  }

  /** An entry of the `analyze_papers` response. */
  datatype PaperEntry = PaperEntry(title: Field, link: Field, analysis: string, limScope: string, keywords: seq<string>)

  /** The entry for one paper: its own title, url and keywords with its Gemini assessment. */
  function EntryOf(hasKey: bool, p: TopicPaper, gemini: (string, string) -> Reply): PaperEntry {
    var a := AssessmentOf(hasKey, Shown(p.title), Shown(p.abstractText), gemini);
    PaperEntry(p.title, p.url, a.analysis, a.limScope, p.keywords)
  }

  /** The `analyze_papers` route over the fetched papers: one entry per paper, in order. */
  method AnalyzeTopicPapers(hasKey: bool, papers: seq<TopicPaper>, gemini: (string, string) -> Reply)
    returns (entries: seq<PaperEntry>)
    ensures |entries| == |papers|
    ensures forall i :: 0 <= i < |papers| ==> entries[i] == EntryOf(hasKey, papers[i], gemini)
  {
    entries := [];
    var i := 0;
    while i < |papers|
      invariant 0 <= i <= |papers|
      invariant |entries| == i
      invariant forall k :: 0 <= k < i ==> entries[k] == EntryOf(hasKey, papers[k], gemini)
    {
      var p := papers[i];
      var a, request := AnalyzePaperWithGemini(hasKey, Shown(p.title), Shown(p.abstractText), gemini);
      entries := entries + [PaperEntry(p.title, p.url, a.analysis, a.limScope, p.keywords)];
      i := i + 1;
    }
  }

  /** Without a key every entry carries the unavailable analysis. */
  lemma EntriesWithoutKey(p: TopicPaper, gemini: (string, string) -> Reply)
    ensures EntryOf(false, p, gemini).analysis == AnalysisUnavailable
    ensures EntryOf(false, p, gemini).limScope == ""
    ensures EntryOf(false, p, gemini).title == p.title && EntryOf(false, p, gemini).link == p.url
  {
  }

  /** A reply line of `generate_ideas`: list markers and spaces trimmed, then stripped. */
  function Summary(line: string): string {
    Strip(Trim(line, BulletTrim))
  }

  /** `[Summary(line) for line in lines if line.strip()]`. */
  function SummaryLines(lines: seq<string>): seq<string>
    decreases |lines|
  {
    if lines == [] then []
    else
      SummaryLines(lines[..|lines| - 1])
      + if Strip(lines[|lines| - 1]) != "" then [Summary(lines[|lines| - 1])] else []
  }

  /** The summaries of a reply: non-empty ones, in order, at most `numIdeas` of them. */
  function Summaries(text: string, numIdeas: int): seq<string> {
    PyPrefix(DropEmpty(SummaryLines(Split(text))), numIdeas)
  }

  /** A blank string strips to "". */
  lemma BlankStrips(s: string)
    requires AllIn(s, Whitespace)
    ensures Strip(s) == ""
  {
    LTrimSpec(s, Whitespace);
    RTrimSpec(LTrim(s, Whitespace), Whitespace);
  }

  /** Trimming a blank string leaves a blank string. */
  lemma TrimBlank(s: string, cs: set<char>)
    requires AllIn(s, Whitespace)
    ensures AllIn(Trim(s, cs), Whitespace)
  {
    var l := LTrim(s, cs);
    LTrimSpec(s, cs);
    assert forall i :: 0 <= i < |l| ==> l[i] == s[|s| - |l| + i];
    var r := RTrim(l, cs);
    RTrimSpec(l, cs);
    assert forall i :: 0 <= i < |r| ==> r[i] == l[i];
  }

  /** A string that strips to "" is blank. */
  lemma StripsBlank(s: string)
    requires Strip(s) == ""
    ensures AllIn(s, Whitespace)
  {
    var l := LTrim(s, Whitespace);
    LTrimSpec(s, Whitespace);
    RTrimSpec(l, Whitespace);
    assert l == [];
  }

  /** A blank line has an empty summary, so the blank-line filter only drops lines that the
      empty-summary filter would drop anyway. */
  lemma BlankSummary(line: string)
    requires Strip(line) == ""
    ensures Summary(line) == ""
  {
    StripsBlank(line);
    TrimBlank(line, BulletTrim);
    BlankStrips(Trim(line, BulletTrim));
  }

  /** The summaries of all lines, blank ones included. */
  function AllSummaries(lines: seq<string>): (r: seq<string>)
    ensures |r| == |lines|
  {
    seq(|lines|, i requires 0 <= i < |lines| => Summary(lines[i]))
  }

  /** The summaries are exactly the non-empty summaries of all lines, in order. */
  lemma {:induction false} SummaryLinesSpec(lines: seq<string>)
    ensures DropEmpty(SummaryLines(lines)) == DropEmpty(AllSummaries(lines))
    decreases |lines|
  {
    if lines != [] {
      var init := lines[..|lines| - 1];
      var last := lines[|lines| - 1];
      SummaryLinesSpec(init);
      var all := AllSummaries(lines);
      assert all[..|all| - 1] == AllSummaries(init);
      assert all[|all| - 1] == Summary(last);
      DropEmptySnoc(all);
      var tail := if Strip(last) != "" then [Summary(last)] else [];
      DropEmptyAppend(SummaryLines(init), tail);
      if Strip(last) == "" {
        BlankSummary(last);
        assert DropEmpty([Summary(last)]) == [] by {
          assert [Summary(last)][..0] == [];
        }
      }
    }
  }

  lemma DropEmptyAppend(xs: seq<string>, tail: seq<string>)
    requires |tail| <= 1
    ensures DropEmpty(xs + tail) == DropEmpty(xs) + DropEmpty(tail)
  {
    if tail == [] {
      assert xs + tail == xs;
    } else {
      assert (xs + tail)[..|xs + tail| - 1] == xs;
      assert tail[..0] == [];
    }
  }

  lemma DropEmptySnoc(xs: seq<string>)
    requires xs != []
    ensures DropEmpty(xs) == DropEmpty(xs[..|xs| - 1]) + DropEmpty([xs[|xs| - 1]])
  {
    assert [xs[|xs| - 1]][..0] == [];
  }

  /** Summaries are non-empty, come from reply lines, keep the reply order and number
      `min(numIdeas, available)` for a non-negative `numIdeas`. */
  lemma SummariesSpec(text: string, numIdeas: int)
    ensures var all := DropEmpty(SummaryLines(Split(text)));
            var r := Summaries(text, numIdeas);
            && (forall e :: e in r ==> e != "")
            && r == all[..|r|]
            && (numIdeas >= 0 ==> |r| == Min(numIdeas, |all|))
  {
    var all := DropEmpty(SummaryLines(Split(text)));
    DropEmptyFacts(SummaryLines(Split(text)));
    var r := Summaries(text, numIdeas);
    PrefixIn(all, |r|);
  }

  lemma PrefixIn(xs: seq<string>, n: nat)
    requires n <= |xs|
    ensures forall e :: e in xs[..n] ==> e in xs
  {
  }

  /** Unlike the gap parser, repeated lines give repeated summaries. */
  lemma SummariesKeepRepeats(line: string)
    requires '\n' !in line && Summary(line) != ""
    ensures Summaries(line + "\n" + line, 2) == [Summary(line), Summary(line)]
  {
    SplitConcat(line, line);
    SplitNoNewline(line);
    var lines := [line, line];
    assert Split(line + "\n" + line) == lines;
    BlankNotEmpty(line);
    assert lines[..1] == [line];
    assert SummaryLines([line]) == [Summary(line)] by {
      assert [line][..0] == [];
    }
    assert SummaryLines(lines) == [Summary(line), Summary(line)];
    assert DropEmpty([Summary(line)]) == [Summary(line)] by {
      assert [Summary(line)][..0] == [];
    }
    assert [Summary(line), Summary(line)][..1] == [Summary(line)];
  }

  lemma BlankNotEmpty(line: string)
    requires Summary(line) != ""
    ensures Strip(line) != ""
  {
    if Strip(line) == "" {
      BlankSummary(line);
    }
  }

  const IdeasRouteOpening: string := "Given the following research topic: "
  const IdeasRouteLimits: string := "\nand these limitations or scope from recent papers:\n"
  const IdeasRouteAsk: string := "\n\nGenerate "
  const IdeasRouteWithin: string := " new research gaps or ideas, each within "
  const IdeasRouteClosing: string := " words. Format each as a summary paragraph."

  /** The prompt of the `generate_ideas` route. */
  function IdeasRoutePrompt(limitations: string, topic: string, numIdeas: int, wordLimit: int): string {
    IdeasRouteOpening + topic + IdeasRouteLimits + limitations + IdeasRouteAsk + IntToString(numIdeas)
    + IdeasRouteWithin + IntToString(wordLimit) + IdeasRouteClosing
  }

  /** The `generate_ideas` route: no summaries without a key or when the request raises. */
  function GenerateIdeasRoute(hasKey: bool, limitations: string, topic: string, numIdeas: int, wordLimit: int,
                              gemini: (string, string) -> Reply): seq<string>
  {
    if !hasKey then []
    else match gemini(GeminiPro, IdeasRoutePrompt(limitations, topic, numIdeas, wordLimit))
      case Raised(_) => []
      case Answer(text) => Summaries(text, numIdeas)
  }

  /** The route never returns more than `numIdeas` summaries, nor an empty one, and none at all
      without a key. */
  lemma GenerateIdeasRouteBounded(hasKey: bool, limitations: string, topic: string, numIdeas: int, wordLimit: int,
                                  gemini: (string, string) -> Reply)
    requires numIdeas >= 0
    ensures var r := GenerateIdeasRoute(hasKey, limitations, topic, numIdeas, wordLimit, gemini);
            && |r| <= numIdeas && (forall e :: e in r ==> e != "")
            && (!hasKey ==> r == [])
  {
    if hasKey {
      var reply := gemini(GeminiPro, IdeasRoutePrompt(limitations, topic, numIdeas, wordLimit));
      if reply.Answer? {
        SummariesSpec(reply.text, numIdeas);
      }
    }
  }

  const ElaborateOpening: string := "Given the research topic: "
  const ElaborateIdeaLabel: string := "\nand the following research idea or gap:\n"
  const ElaborateAsk: string := "\n\nWrite a detailed elaboration (within "
  const ElaborateClosing: string :=
    " words) covering significance, methodology, expected challenges, and potential impact."

  /** The prompt of the `elaborate` route. */
  function ElaborateRoutePrompt(topic: string, ideaText: string, wordLimit: int): string {
    var head := ElaborateOpening + topic + ElaborateIdeaLabel;
    var tail := ElaborateAsk + IntToString(wordLimit) + ElaborateClosing;
    head + ideaText + tail
  }

  /** The request of the `elaborate` route carries the idea text. */
  lemma ElaborateRoutePromptCarries(topic: string, ideaText: string, wordLimit: int)
    ensures Contains(ElaborateRoutePrompt(topic, ideaText, wordLimit), ideaText)
    ensures StartsWith(ElaborateRoutePrompt(topic, ideaText, wordLimit), ElaborateOpening + topic + ElaborateIdeaLabel)
  {
    var head := ElaborateOpening + topic + ElaborateIdeaLabel;
    var tail := ElaborateAsk + IntToString(wordLimit) + ElaborateClosing;
    assert ideaText[0..|ideaText|] == ideaText;
    assert OccursAt(ideaText, ideaText, 0);
    Framed(head, ideaText, tail, ideaText);
  }

  /** The `elaborate` route: the reply text, or the unavailable message without a key or when the
      request raises. */
  function ElaborateRoute(hasKey: bool, topic: string, ideaText: string, wordLimit: int,
                          gemini: (string, string) -> Reply): (r: string)
    ensures !hasKey ==> r == ElaborationUnavailable
    ensures hasKey && gemini(GeminiPro, ElaborateRoutePrompt(topic, ideaText, wordLimit)).Raised? ==> r == ElaborationUnavailable
    ensures hasKey && gemini(GeminiPro, ElaborateRoutePrompt(topic, ideaText, wordLimit)).Answer? ==>
              r == gemini(GeminiPro, ElaborateRoutePrompt(topic, ideaText, wordLimit)).text
  {
    if !hasKey then ElaborationUnavailable
    else match gemini(GeminiPro, ElaborateRoutePrompt(topic, ideaText, wordLimit))
      case Raised(_) => ElaborationUnavailable
      case Answer(text) => text
  }
}
