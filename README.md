# Research paper analyzer — a verified model of its text logic

The research analyzer helps a researcher explore a topic. It searches the CORE
paper index, has Gemini analyse each paper, cuts a "limitations / scope" excerpt
out of every analysis, and asks Gemini for new research ideas based on those
excerpts. It ships as a command-line pipeline (`research_analyzer.py`), two Flask
web services with near-duplicate routes (`api.py`, `ai_random_ideas_api.py`) and a
small Hugging Face image front end (`app.py`).

Almost everything in the repository is glue around four external services: the
CORE search, PDF download and extraction, Gemini and the Hugging Face inference
API. This project models the deterministic logic between those calls and proves
what it does. Each service is a function-valued parameter (`Papers.Services`,
`gemini: (string, string) -> Reply`, `generate: string -> ImageReply`). An
exception a service raises is an explicit `Raised(message)` or `Failed(message)`
value, and a missing API key is a `hasKey: bool`.

Modules, in dependency order:

- `Wrappers`: `Option` and `Result`, plus `Min` and `Max`.
- `PyStr`: the Python `str` operations the code relies on, on ASCII text.
  - `lower()`, `isspace()`, `strip()` and `strip(chars)`.
  - `split("\n")`, and `splitlines()` with `'\n'` as its only line break.
  - `"\n".join(...)`.
  - Slicing `s[:n]`, negative `n` included.
  - `str(int)`.
- `Limitations`: `extract_limitations_scope`.
  - A scanner method with a capture flag and an early `break`.
  - The function it is proved against.
  - The block structure of the captured lines, its empty/non-empty characterisation and idempotence.
- `Papers`: the CORE search record and the helpers of `research_analyzer.py` between the services.
  - The empty-query check of the search.
  - The choice of link and of the text to analyse.
  - The Gemini wrappers and their prompts.
- `Orchestrator`: `process_papers`.
  - The output lines, and the log of requests made to the services.
  - Loop methods proved against specification functions.
  - Lemmas about the no-papers and empty-query outcomes, skipped papers, collected excerpts, and the ideas request made exactly once or never.
- `Cli`: the command-line front end.
  - Python's `int()` on a typed line, with a round-trip lemma.
  - The re-asking loop of `get_user_int`.
  - The choice between command-line arguments and prompting, with the word-limit guard.
- `GapIdeas`: `generate_gaps_with_gemini` and `random_ideas`, in both copies.
  - The prompt built with `+=` over the papers.
  - The line cleaner.
  - First-occurrence de-duplication with a `seen` set, and the `[:count]` cut.
  - The missing-key and exception fallbacks.
  - The fallback sample from the five fixed ideas.
  - The copy in `api.py` differs only in its trim set, which is a parameter.
- `GeminiRoutes`: the remaining routes of `ai_random_ideas_api.py`.
  - The `Analysis:` / `Limitations:` line splitter of `analyze_paper_with_gemini`.
  - The `analyze_papers` route.
  - The summary splitter of `generate_ideas`.
  - `elaborate`.
  - Their missing-key results.
- `IdeaExtract`: the `generate_ideas` route of `api.py`.
  - The numbered-item regex `\d+\.\s(.+?)(?=\n\d+\.|\n*$)`, with dot matching newlines.
  - The bullet regex `[-*]\s(.+)`.
  - Both written as explicit scanners with the semantics of `re.findall`.
- `PaperRoutes`: the `analyze_papers` route of `api.py`.
- `ImageGen`: `app.py`.
  - The search for a base64 run of at least 100 characters from the base64 alphabet of section 4 of RFC 4648, plus its `=` pad.
  - The status/content-type decision table of `generate_image_with_huggingface`.
  - The check order of the index page.

Behaviours of the code worth noting:

- **Stop words.** The limitation extractor also checks the trigger line itself for a stop word. A line such as "Limitations and potential applications" is captured alone.
- **Idempotence.** The extractor is idempotent (`Limitations.ScopeIdempotent`). A non-empty excerpt, read back as lines, starts with a line that mentions "limitation" or "scope", and only its last line may mention a stop word (`Limitations.ScopeIsBlock`).
- **`elaborate_idea` failures.** In `research_analyzer.py` a failure returns `"Error elaborating idea: ..."`. The `elaborate` route of `ai_random_ideas_api.py` returns "AI elaboration unavailable.".
- **Exceptions can escape.** These escapes are modelled as `Failure` results:
  - `analyze_papers` in `api.py` does not catch the `ValueError` that the search raises for an empty topic;
  - `random.sample` raises for a negative `count`.

## Model

| member | source | states |
|---|---|---|
| Limitations.ExtractLimitationsScope | research_analyzer.py:95-111 | the capture-flag loop with its `break` returns exactly the specified excerpt: the captured lines joined by newlines and stripped |
| Limitations.CapturedIsBlock | research_analyzer.py:102-110 | the captured lines are one contiguous block of input lines. The block starts at the first trigger line, and no line before it triggers. It ends at, and includes, the first stop line from the trigger on, which may be the trigger line itself; it runs to the end when there is no stop line |
| Limitations.CaptureFromIsBlock | research_analyzer.py:106-110 | once capture is on, later trigger lines do not restart it: the kept lines are a prefix ending at the first stop line |
| Limitations.CapturedWhole | research_analyzer.py:102-110 | a block that opens with a trigger and has no stop line before its last line is captured whole |
| Limitations.StripKeepsClass | research_analyzer.py:104-109 | stripping a line changes neither whether it mentions a trigger word nor whether it mentions a stop word |
| Limitations.ScopeEmptyIffNoTrigger | research_analyzer.py:103-111 | the excerpt is "" exactly when no line mentions "limitation" or "scope" in any case; a non-empty excerpt mentions one itself |
| Limitations.StripBlock | research_analyzer.py:111 | the stripped, newline-joined capture read back as lines is again a capture block |
| Limitations.ScopeIsBlock | research_analyzer.py:101-111 | a non-empty excerpt read back as lines opens with a line mentioning "limitation" or "scope", has no stop line before its last line, and joins back to itself |
| Limitations.ScopeIdempotent | research_analyzer.py:101-111 | applying the extractor to its own output returns that output |
| Papers.SearchCorePapers | research_analyzer.py:43-46 | the search fails with "Search query cannot be empty" exactly when the query is empty; otherwise it returns what the CORE service gives for (query, limit, sort) |
| Papers.Link | research_analyzer.py:186 | the link is `url`, else `downloadUrl`, else `fullTextUrl`, each only when it is a non-empty string. It is truthy exactly when one of the three is |
| Papers.PaperText | research_analyzer.py:193-197 | the analysed text is a usable `fullText`. Otherwise it is the PDF text of a usable `downloadUrl`, and "" when neither field is usable |
| Papers.AnalyzeWithGemini | research_analyzer.py:83-94 | the analysis is Gemini's reply to the request, or "Error analyzing with Gemini: " and the exception message when the call raises |
| Papers.AnalysisRequest | research_analyzer.py:88 | the request sent to Gemini opens with the instructions and a blank line and ends with the paper text |
| Papers.IdeasPrompt | research_analyzer.py:116-122 | the ideas prompt ends with "Limitations and Scope:\n" and the collected limitations |
| Papers.GenerateNewIdeas | research_analyzer.py:112-131 | the ideas text is Gemini's reply to the ideas prompt, or "Error generating new ideas: " and the exception message when the call raises |
| Papers.ElaborateIdea | research_analyzer.py:132-149 | the elaboration is Gemini's reply to the elaboration prompt, or "Error elaborating idea: " and the exception message when the call raises |
| Papers.ElaboratePrompt | research_analyzer.py:136-140 | the elaboration prompt ends with "Idea:\n" and the idea text |
| Orchestrator.AnalyzePaper | research_analyzer.py:183-208 | one loop iteration appends the header, title and link lines, then either the analysis or the "Skipped" line. It yields the paper's excerpt ("" when skipped) and makes the PDF request only for a paper without usable full text |
| Orchestrator.AnalyzeVisited | research_analyzer.py:182-208 | the paper loop accumulates exactly the lines, non-empty excerpts and requests of the visited papers, in order |
| Orchestrator.AnalyzeAndSuggest | research_analyzer.py:178-219 | after a non-empty search come the found line and the paper lines, then the ideas or the "Could not extract" line. The requests are the loop's, plus the ideas request only when an excerpt was collected |
| Orchestrator.TranscriptCloses | research_analyzer.py:204-219 | after a non-empty search, the output closes with the "Suggested Research Ideas" heading and the ideas generated from the collected excerpts joined by blank lines when some visited paper yields an excerpt, and with the "Could not extract" line otherwise |
| Orchestrator.ProcessPapers | research_analyzer.py:162-224 | the returned text is the output lines joined by newlines, and the requests made are exactly the specified ones |
| Orchestrator.WalkCounts | research_analyzer.py:193-206 | the paper loop never requests ideas and analyses exactly the papers that have text |
| Orchestrator.WalkCollects | research_analyzer.py:204-206 | the excerpt list is the visited papers' excerpts with the empty ones dropped, in paper order |
| Orchestrator.WalkFetches | research_analyzer.py:193-197 | every PDF download is for a visited paper without usable full text, at its `downloadUrl` |
| Orchestrator.EmptyQueryOutcome | research_analyzer.py:221-224 | an empty query gives exactly "\nError processing papers: Search query cannot be empty" and makes no request |
| Orchestrator.NoPapersOutcome | research_analyzer.py:173-176 | no search results give exactly the no-papers line; nothing but the search is requested |
| Orchestrator.SomeExcerptIff | research_analyzer.py:204-211 | the collected list is non-empty exactly when some visited paper yields a non-empty excerpt |
| Orchestrator.RequestsSplit | research_analyzer.py:173-217 | the requests of a run are the search, the loop's requests and at most one ideas request |
| Orchestrator.IdeasRequestedOnceIff | research_analyzer.py:211-219 | idea generation is requested exactly once when some visited paper yields an excerpt, and never otherwise |
| Orchestrator.AnalysesBounded | research_analyzer.py:182-201 | at most `num_papers` papers are visited, a prefix of the search results in order, and exactly those with text are analysed |
| Cli.ParseIntSign | research_analyzer.py:30 | an accepted line is non-empty, and a negative value comes only from a leading '-' |
| Cli.ParseIntExamples | research_analyzer.py:30 | `int()` takes "+7", "-42" and "1_000" as 7, -42 and 1000, and rejects "", "-", "12a", "_1", "1_" and "1__0" |
| Cli.ParseIntToString | research_analyzer.py:30 | `int(str(n)) == n` for every integer |
| Cli.JudgeSpec | research_analyzer.py:26-39 | a blank line takes the default; any other line is accepted exactly when it parses as an integer in range, and then with that integer |
| Cli.TalkSpec | research_analyzer.py:25-39 | every line before the answer is rejected and printed its own complaint, in order; the answer is the value of the next line; without an answer every line was rejected |
| Cli.FirstAcceptedSpec | research_analyzer.py:23-39 | the value returned is the default or a value in range and comes from the first acceptable line; there is none exactly when no line is acceptable |
| Cli.ReadLine | research_analyzer.py:26-39 | one round of the loop accepts exactly the judged value. On rejection it prints "Invalid input...", or the between-message when there is a maximum, or the at-least message when there is not |
| Cli.GetUserInt | research_analyzer.py:23-39 | the value returned and the complaints printed are exactly the specified dialogue: one complaint per rejected line, then the first accepted value, or nothing when the input runs out |
| Cli.ResolveWordLimit | research_analyzer.py:257-267 | the command-line word limit is used only when it lies in (100, 250]. Otherwise it is asked for with default 250 and range 101..250, so any limit obtained lies in (100, 250] |
| Cli.ResolveCount | research_analyzer.py:249-256 | a command-line count is used unchecked; otherwise it is asked for with default 10 and minimum 1 |
| GapIdeas.LineIdeaOfPlain | ai_random_ideas_api.py:66-70 | a line that is not a "- " item and does not start with "paper" contributes itself with the trim set cut from both ends, then stripped |
| GapIdeas.BulletTrimmedOnlyByFirstCopy | api.py:196-201 | a "• word" line gives "word" with the first copy's trim set and stays "• word" with the mojibake set of the second copy |
| GapIdeas.UniqueSpec | ai_random_ideas_api.py:72-78 | the de-duplicated list has no repeated element and has exactly the elements of its input |
| GapIdeas.UniqueOfDistinct | ai_random_ideas_api.py:73-78 | a list without repetitions is left as it is |
| GapIdeas.UniquePrefix | ai_random_ideas_api.py:75-78 | de-duplication keeps first occurrences in order: the result for a prefix of the input is a prefix of the result |
| GapIdeas.GapsSpec | ai_random_ideas_api.py:64-79 | the ideas are distinct and non-empty, and each is contributed by a reply line. They are a prefix of the de-duplicated list, of length min(count, its length) for a non-negative count |
| GapIdeas.LineIdeaCases | ai_random_ideas_api.py:66-70 | a stripped line contributes exactly when it is not empty and does not start with "paper" in any case; a "- " item contributes its stripped remainder whatever the trim set |
| GapIdeas.ExtractIdeas | ai_random_ideas_api.py:64-70 | the line loop yields the contributions of the reply lines in order |
| GapIdeas.Dedup | ai_random_ideas_api.py:73-78 | the `seen`-set loop yields the first occurrences in order |
| GapIdeas.ParseGaps | ai_random_ideas_api.py:64-79 | the parser returns the specified ideas; the copy at api.py:194-210 is the same parser with the mojibake trim set |
| GapIdeas.AppendBlocks | ai_random_ideas_api.py:57-58 | the `+=` loop appends one "Paper i: title / Abstract: ..." block per paper, numbered from 1, in order |
| GapIdeas.BuildGapsPrompt | ai_random_ideas_api.py:53-59 | the prompt is the opening with the count, the paper blocks and the closing request for bullet points |
| GapIdeas.GapsPromptMentions | ai_random_ideas_api.py:53-59 | every paper appears in the prompt under its number, and the prompt opens with the count |
| GapIdeas.GenerateGaps | ai_random_ideas_api.py:46-82 | with no key or no papers the result is empty and no prompt is sent. Otherwise the prompt is sent, and an exception gives [] while a reply gives its parsed ideas |
| GapIdeas.FallbackDistinct | ai_random_ideas_api.py:156-162 | the five fallback ideas are pairwise distinct |
| GapIdeas.RandomIdeas | ai_random_ideas_api.py:143-164 | generated ideas are returned when there are any. Otherwise a non-negative count gives min(count, 5) distinct fallback ideas and a negative count raises; the copy at api.py:215-228 behaves the same with its own trim set |
| GeminiRoutes.AfterColon | ai_random_ideas_api.py:135 | `partition(":")[2]` is "" for a line without ':' |
| GeminiRoutes.AfterColonOf | ai_random_ideas_api.py:135 | what follows the first ':' is everything after it, later colons included |
| GeminiRoutes.AssessSpec | ai_random_ideas_api.py:131-138 | `analysis` is the stripped text after the first ':' of the last "analysis:" line, in any case, and "" without one. `lim_scope` is the same for the last other line mentioning "limitation" or "scope", so an analysis line never sets it |
| GeminiRoutes.AssessLine | ai_random_ideas_api.py:134-137 | an analysis line overwrites only `analysis`, a scope line only `lim_scope`, any other line neither |
| GeminiRoutes.SplitAssessment | ai_random_ideas_api.py:131-138 | the line loop computes exactly the specified assessment of the reply lines |
| GeminiRoutes.AnalyzePaperWithGemini | ai_random_ideas_api.py:116-141 | without a key the result is "AI analysis unavailable." with an empty `lim_scope`, and nothing is sent. With a key the paper's prompt is sent, and the reply is split, or the exception turns into the unavailable result |
| GeminiRoutes.FromHit | ai_random_ideas_api.py:103-110 | a fetched paper's title, abstract and url are the hit's entries, "" for a missing one, so none is ever absent; its keywords are the hit's topics |
| GeminiRoutes.AnalyzeTopicPapers | ai_random_ideas_api.py:172-183 | one entry per fetched paper, in order, each the paper's own title, url and keywords with its assessment |
| GeminiRoutes.EntriesWithoutKey | ai_random_ideas_api.py:174-182 | without a key every entry carries the unavailable analysis and an empty `lim_scope`, with its paper's title and url |
| GeminiRoutes.BlankSummary | ai_random_ideas_api.py:207 | a blank line's summary is empty |
| GeminiRoutes.BlankNotEmpty | ai_random_ideas_api.py:207 | a non-empty summary comes from a non-blank line |
| GeminiRoutes.SummaryLinesSpec | ai_random_ideas_api.py:207-208 | the blank-line filter changes nothing once empty summaries are dropped: the summaries are the non-empty summaries of all lines, in order |
| GeminiRoutes.SummariesSpec | ai_random_ideas_api.py:207-209 | the summaries are non-empty and keep the reply order. There are min(num_ideas, available) of them for a non-negative `num_ideas` |
| GeminiRoutes.SummariesKeepRepeats | ai_random_ideas_api.py:207-209 | unlike the gap parser, a repeated line gives a repeated summary |
| GeminiRoutes.GenerateIdeasRouteBounded | ai_random_ideas_api.py:187-212 | the route returns no more than `num_ideas` summaries and no empty one, and none at all without a key |
| GeminiRoutes.ElaborateRoutePromptCarries | ai_random_ideas_api.py:226-230 | the elaboration request opens with the topic and carries the idea text |
| GeminiRoutes.ElaborateRoute | ai_random_ideas_api.py:216-236 | without a key, or when the request raises, the result is "AI elaboration unavailable."; otherwise it is the reply text |
| PaperRoutes.RouteTitle | api.py:66 | a missing title becomes "Untitled"; any other value is kept |
| PaperRoutes.EntryForSpec | api.py:66-85 | an entry carries the link rule. A paper without text gets "Skipped: Full text not available for analysis" and an empty `lim_scope`. A paper with text gets its analysis and the same excerpt the command-line pipeline computes |
| PaperRoutes.AnalyzeEntry | api.py:66-85 | one loop iteration builds exactly the specified entry |
| PaperRoutes.AnalyzeAll | api.py:64-85 | the loop appends one entry per paper, the specified entry of that paper, in order |
| PaperRoutes.AnalyzePapersRoute | api.py:51-86 | an empty topic fails with the search's error; otherwise there is one entry per visited paper, in order |
| PaperRoutes.RouteBounded | api.py:63-65 | at most `num_papers` entries, for the first search results in search order |
| IdeaExtract.NumberedAt | api.py:99 | a numbered match starts after digits, a '.' and one whitespace character. Its item ends where the lookahead first holds and contains no earlier stop; there is no match exactly when that prefix is absent |
| IdeaExtract.ItemEnd | api.py:99 | the lazy item ends at the first position where "\n<digits>." follows or only newlines remain |
| IdeaExtract.NumberedFrom | api.py:99 | `findall` yields ordered, non-overlapping matches, each a match at some position |
| IdeaExtract.NumberedNoneIff | api.py:99-100 | the numbered search finds nothing exactly when the pattern matches nowhere |
| IdeaExtract.BulletAt | api.py:104 | a bullet match is "-" or "*", one whitespace character, then the rest of the line |
| IdeaExtract.BulletsFrom | api.py:104 | `findall` yields ordered, non-overlapping bullet matches |
| IdeaExtract.NumberedPreferred | api.py:99-106 | the numbered items are used whenever the numbered pattern matches anywhere, and the bullets only when it matches nowhere |
| IdeaExtract.NumberedItem | api.py:99-102 | each numbered item follows a digit, a '.' and a blank. It runs to the first following "\n<digits>." or to the trailing newlines |
| IdeaExtract.BulletItem | api.py:104-106 | each bullet item follows "-" or "*" and a blank and is the whole rest of its line, never crossing a newline |
| IdeaExtract.NumberedExample | api.py:99 | "1. A\n2. B" gives the items "A" and "B" |
| IdeaExtract.BulletExample | api.py:104 | "- a\n* b" gives the items "a" and "b" |
| IdeaExtract.IdeaSummaries | api.py:100-106 | one summary per item found, none dropped and no cap |
| IdeaExtract.StripAll | api.py:101-106 | the append loop gives one stripped summary per captured item, in order |
| IdeaExtract.SplitIdeas | api.py:98-106 | the append loops give exactly the stripped items, in order |
| IdeaExtract.GenerateIdeasRoute | api.py:88-107 | the route returns the summaries of the `generate_new_ideas` reply, not capped at `num_ideas` |
| ImageGen.RunEnd | app.py:18 | the run from a position is all base64-class characters and is ended by the text's end or a non-class character |
| ImageGen.MatchFrom | app.py:18 | the match starts at the first position whose run is at least 100 long |
| ImageGen.ExtractNoneIff | app.py:18-19 | there is no match exactly when the text has no run of 100 or more class characters |
| ImageGen.ExtractFound | app.py:18-19 | a match is a substring of at least 100 class characters, bounded on both sides by the text's ends or non-class characters, and leftmost |
| ImageGen.GenerateImage | app.py:21-60 | an image always comes with no error. A request exception gives "Image generation error: ..."; 503 and 404 give their messages; a 200 image answer gives its base64 bytes |
| ImageGen.JsonImageWins | app.py:33-40 | for a 200 JSON object, a base64 run in its rendering wins over its "error" entry, which is used only when there is none |
| ImageGen.Index | app.py:62-78 | a GET shows nothing. A POST shows exactly one of an image or an error: an empty topic first, then a missing key. An image implies a topic, a key and the generator's non-empty image |
| ImageGen.EmptyTopicFirst | app.py:67-69 | the empty-topic message does not depend on the key or the generator |
| ImageGen.UnknownWhenSilent | app.py:73-77 | a failure without error text is reported as "Unknown error occurred." |

## Left out

- Network access is not modelled.
  - The CORE requests of `search_core_papers`, `fetch_trending_papers_from_core` and `fetch_papers_for_topic` are left out: the search is a parameter, and the trending and topic papers are inputs.
  - Their HTTP error handling, which returns [], lives inside the parameter.
  - So does their early return of [] without a CORE key, which appears as an empty paper list.
- PDF download and PyPDF2 text extraction (`extract_text_from_pdf`) are a parameter that yields "" on failure.
- Base64 encoding of the image bytes is not modelled: `ImageGen.Response.encoded` is given.
- Gemini and the Hugging Face API are parameters. The `hasattr(response, "text")` fallback of the Gemini library is not modelled, so a reply always has its text.
- Flask routing, CORS, `render_template` and the JSON request bodies are not modelled, including `int(data.get(...))` on the request fields: the numbers are given as integers.
- Environment and dotenv loading are not modelled. Each key's presence is a `hasKey` flag.
- `print` output, the console prompts and the stdout capture in `api.py` are not modelled.
- `get_user_topic` and the topic re-prompt loop (research_analyzer.py:16-21, 241-246) are console I/O and are not modelled. The CLI's choice of topic is therefore not modelled.
- argparse's parsing of the command line is not modelled: arguments arrive as `Option<int>`.
- The `/analyze` route of `api.py` calls `process_papers`, which that file never imports, so it is not modelled.
- `display_idea_with_image` subscripts the string that `elaborate_idea` returns, so it is not modelled.
- The `elaborate` route of `api.py` is `elaborate_idea`, modelled as `Papers.ElaborateIdea`. Its `hasattr(elaborate_idea, "__call__")` fallback branch is not modelled because it is never taken.
- The `keywords` list of a topic paper is carried as an opaque sequence.
- Cli.ParseInt: the interpreter's limit on integer-string conversion is not modelled. Recent CPython releases raise `ValueError` from `int(s)` for a string of more than 4300 digits, and the limit is configurable, so `get_user_int` would print "Invalid input..." where the model accepts the line.
- Cli.ParseIntToString: for the same reason `str(n)` raises for an `n` of more than 4300 digits; the round trip is proved for every integer, however long.
- Unicode is not modelled: text is ASCII, `lower()`, `isspace()`, `\d` and `\s` act on ASCII only, and `'\n'` is the only line break `splitlines()` knows.
- The bullet character and the mojibake characters of the two trim sets are single characters.
- A JSON "error" entry that is not a string is not modelled: the model holds strings, `null` or an absent entry only.
- Randomness in `random.sample` is not modelled as a distribution. It is a nondeterministic choice of distinct fallback ideas.
- Cli.GetUserInt: running out of typed lines (`EOFError` from `input()`) is a `None` result rather than an exception.
- Orchestrator.ProcessPapers: an ideas request is logged by the arguments of `generate_new_ideas` rather than by its full prompt text. `Papers.IdeasPrompt` states how that prompt ends.
- Timeouts, retries and concurrency are not modelled; the code has none beyond library timeouts.
