/**
 * The `random_ideas` routes of both web services: a Gemini prompt built from the
 * titles and abstracts of trending papers, the parser that turns the reply into a
 * list of distinct gap ideas, and the fallback to a random sample of five fixed
 * ideas when nothing was generated. The two copies of the route differ only in the
 * set of characters trimmed from a reply line.
 */
module GapIdeas {
  import opened Wrappers
  import opened PyStr
  import opened Papers

  /** `"-•*1234567890. "`, the trim set of the first copy. */
  const BulletTrim: set<char> := {'-', '•', '*', '1', '2', '3', '4', '5', '6', '7', '8', '9', '0', '.', ' '}

  /** `"-â€¢*1234567890. "`, the trim set of the second copy: the bullet's UTF-8 bytes read as
      Windows-1252, so the bullet itself is not in it. */
  const MojibakeTrim: set<char> :=
    {'-', 'â', '€', '¢', '*', '1', '2', '3', '4', '5', '6', '7', '8', '9', '0', '.', ' '}

  const GeminiPro: string := "gemini-pro"

  /** What one reply line contributes: a "- " line its stripped remainder; another non-empty line
      not starting with "paper" (any case) the line with `trimSet` characters trimmed from both
      ends, then stripped; else nothing. */
  function LineIdea(line: string, trimSet: set<char>): Option<string> {
    var l := Strip(line);
    if StartsWith(l, "- ") then Some(Strip(l[2..]))
    else if l != "" && !StartsWith(Lower(l), "paper") then Some(Strip(Trim(l, trimSet)))
    else None
  }

  /** A line contributes exactly when it is not blank and does not start with "paper" in any case,
      once stripped; a "- " item contributes its stripped remainder whatever the trim set. */
  lemma LineIdeaCases(line: string, trimSet: set<char>, otherSet: set<char>)
    ensures LineIdea(line, trimSet).Some? <==> Strip(line) != "" && !StartsWith(Lower(Strip(line)), "paper")
    ensures StartsWith(Strip(line), "- ") ==>
              LineIdea(line, trimSet) == LineIdea(line, otherSet) == Some(Strip(Strip(line)[2..]))
  {
    var l := Strip(line);
    if StartsWith(l, "- ") {
      assert Lower(l)[0] == LowerChar(l[0]) == '-';
    }
  }

  predicate IsLetter(c: char) { 'A' <= c <= 'Z' || 'a' <= c <= 'z' }

  /** A line whose ends are not blank, that is not a "- " item and does not start with "paper"
      is trimmed by the set. */
  lemma LineIdeaOfPlain(l: string, trimSet: set<char>)
    requires l != "" && !IsSpace(l[0]) && !IsSpace(l[|l| - 1])
    requires l[0] != '-' && LowerChar(l[0]) != 'p'
    ensures LineIdea(l, trimSet) == Some(Strip(Trim(l, trimSet)))
  {
    StripPlain(l);
    assert !StartsWith(l, "- ");
    assert !StartsWith(Lower(l), "paper") by {
      assert Lower(l)[0] != "paper"[0];
    }
  }

  lemma StripPlain(l: string)
    requires l != "" && !IsSpace(l[0]) && !IsSpace(l[|l| - 1])
    ensures Strip(l) == l
  {
    LTrimUnique(l, Whitespace, 0);
    RTrimUnique(l, Whitespace, |l|);
  }

  /** Letters are trimmed by neither set, nor by `strip()`. */
  lemma LetterKept(c: char)
    requires IsLetter(c)
    ensures c !in BulletTrim && c !in MojibakeTrim && !IsSpace(c)
  {
  }

  lemma RTrimWord(w: string, cs: set<char>)
    requires w != "" && w[|w| - 1] !in cs
    ensures RTrim(w, cs) == w
  {
    RTrimUnique(w, cs, |w|);
  }

  lemma LTrimBullet(w: string)
    requires w != "" && IsLetter(w[0])
    ensures LTrim("• " + w, BulletTrim) == w
  {
    var l := "• " + w;
    LetterKept(w[0]);
    assert l[0] == '•' && l[1] == ' ' && l[2] == w[0] && l[2..] == w;
    LTrimUnique(l, BulletTrim, 2);
  }

  lemma TrimKeepsBullet(w: string)
    requires w != "" && IsLetter(w[|w| - 1])
    ensures Trim("• " + w, MojibakeTrim) == "• " + w
  {
    var l := "• " + w;
    LetterKept(w[|w| - 1]);
    assert l[0] == '•' && l[|l| - 1] == w[|w| - 1];
    LTrimUnique(l, MojibakeTrim, 0);
    RTrimWord(l, MojibakeTrim);
  }

  /** A "•" bullet before a word is trimmed by the first copy's set and kept by the second's. */
  lemma BulletTrimmedOnlyByFirstCopy(w: string)
    requires w != "" && IsLetter(w[0]) && IsLetter(w[|w| - 1])
    ensures LineIdea("• " + w, BulletTrim) == Some(w)
    ensures LineIdea("• " + w, MojibakeTrim) == Some("• " + w)
  {
    var l := "• " + w;
    LetterKept(w[0]);
    LetterKept(w[|w| - 1]);
    assert l[0] == '•' && l[|l| - 1] == w[|w| - 1];
    LineIdeaOfPlain(l, BulletTrim);
    LineIdeaOfPlain(l, MojibakeTrim);
    LTrimBullet(w);
    RTrimWord(w, BulletTrim);
    TrimKeepsBullet(w);
    StripPlain(w);
    StripPlain(l);
  }

  /** The contributions of the reply lines, in order (empty ones included). */
  function Candidates(lines: seq<string>, trimSet: set<char>): seq<string>
    decreases |lines|
  {
    if lines == [] then []
    else
      Candidates(lines[..|lines| - 1], trimSet)
      + match LineIdea(lines[|lines| - 1], trimSet) case None => [] case Some(x) => [x]
  }

  /** The first occurrence of each element, in order. */
  function Unique(xs: seq<string>): seq<string>
    decreases |xs|
  {
    if xs == [] then []
    else
      var u := Unique(xs[..|xs| - 1]);
      if xs[|xs| - 1] in u then u else u + [xs[|xs| - 1]]
  }

  predicate NoDuplicates(xs: seq<string>) {
    forall i, j :: 0 <= i < j < |xs| ==> xs[i] != xs[j]
  }

  /** De-duplication keeps no repeated element and loses none. */
  lemma {:induction false} UniqueSpec(xs: seq<string>)
    ensures NoDuplicates(Unique(xs))
    ensures forall e :: e in Unique(xs) <==> e in xs
    decreases |xs|
  {
    if xs != [] {
      var init := xs[..|xs| - 1];
      UniqueSpec(init);
      assert xs == init + [xs[|xs| - 1]];
    }
  }

  /** A list without repetitions is left as it is. */
  lemma {:induction false} UniqueOfDistinct(xs: seq<string>)
    requires NoDuplicates(xs)
    ensures Unique(xs) == xs
    decreases |xs|
  {
    if xs != [] {
      var init := xs[..|xs| - 1];
      assert NoDuplicates(init);
      UniqueOfDistinct(init);
      assert xs == init + [xs[|xs| - 1]];
    }
  }

  /** Reading more input only appends: the de-duplicated list of a prefix is a prefix of the
      de-duplicated list, so first occurrences keep their order. */
  lemma {:induction false} UniquePrefix(xs: seq<string>, k: nat)
    requires k <= |xs|
    ensures |Unique(xs[..k])| <= |Unique(xs)| && Unique(xs[..k]) == Unique(xs)[..|Unique(xs[..k])|]
    decreases |xs|
  {
    if k < |xs| {
      var init := xs[..|xs| - 1];
      assert xs[..k] == init[..k];
      UniquePrefix(init, k);
    } else {
      assert xs[..k] == xs;
    }
  }

  /** `generate_gaps_with_gemini` on a reply text: cleaned lines, empty ones dropped, duplicates
      removed keeping first occurrences, then `[:count]`. */
  function Gaps(text: string, trimSet: set<char>, count: int): seq<string> {
    PyPrefix(Unique(DropEmpty(Candidates(Split(text), trimSet))), count)
  }

  /** The ideas are non-empty, distinct, contributed by reply lines, and for a non-negative count
      there are as many as the count allows. */
  lemma GapsSpec(text: string, trimSet: set<char>, count: int)
    ensures var u := Unique(DropEmpty(Candidates(Split(text), trimSet)));
            var r := Gaps(text, trimSet, count);
            && NoDuplicates(r)
            && (forall e :: e in r ==> e != "" && e in Candidates(Split(text), trimSet))
            && r == u[..|r|]
            && (count >= 0 ==> |r| == Min(count, |u|))
  {
    var cs := Candidates(Split(text), trimSet);
    var u := Unique(DropEmpty(cs));
    var r := Gaps(text, trimSet, count);
    UniqueSpec(DropEmpty(cs));
    DropEmptyFacts(cs);
    DropEmptyIn(cs);
    forall e | e in r ensures e in u {
      var k :| 0 <= k < |r| && r[k] == e;
      assert u[k] == e;
    }
  }

  lemma {:induction false} DropEmptyIn(xs: seq<string>)
    ensures forall e :: e in DropEmpty(xs) ==> e in xs
    decreases |xs|
  {
    if xs != [] {
      DropEmptyIn(xs[..|xs| - 1]);
    }
  }

  /** A trending paper as `fetch_trending_papers_from_core` builds it: title and abstract,
      each from `hit.get(key, "")`. */
  datatype Trend = Trend(title: Field, abstractText: Field)

  /** How an f-string shows a field read with default "". */
  function Shown(f: Field): string {
    match f
    case Absent => ""
    case Null => "None"
    case Str(s) => s
  }

  const PromptOpening: string := "Given the following recent research papers, identify "
  const PromptAsk: string :=
    " new research gaps or ideas that have not been addressed. For each, provide a concise and specific research idea or gap:\n\n"
  const PromptClosing: string := "List the new research gaps or ideas as bullet points."

  /** The block for the paper numbered `idx` (from 1). */
  function PaperBlock(idx: nat, p: Trend): string {
    "Paper " + NatToString(idx) + ": " + Shown(p.title) + "\nAbstract: " + Shown(p.abstractText) + "\n\n"
  }

  /** The blocks of all papers, numbered from 1. */
  function Blocks(papers: seq<Trend>): (bs: seq<string>)
    ensures |bs| == |papers|
  {
    seq(|papers|, i requires 0 <= i < |papers| => PaperBlock(i + 1, papers[i]))
  }

  /** The strings one after another. */
  function Concat(bs: seq<string>): string
    decreases |bs|
  {
    if bs == [] then "" else Concat(bs[..|bs| - 1]) + bs[|bs| - 1]
  }

  function PaperBlocks(papers: seq<Trend>): string {
    Concat(Blocks(papers))
  }

  lemma ConcatSnoc(bs: seq<string>, idx: nat)
    requires idx < |bs|
    ensures Concat(bs[..idx + 1]) == Concat(bs[..idx]) + bs[idx]
  {
    assert bs[..idx + 1][..idx] == bs[..idx];
  }

  /** A word found in the middle part is found in the whole. */
  lemma ContainsMiddle(a: string, b: string, c: string, w: string)
    requires Contains(b, w)
    ensures Contains(a + b + c, w)
  {
    var at: nat :| at <= |b| && OccursAt(b, w, at);
    var s := a + b + c;
    assert s[|a| + at..|a| + at + |w|] == b[at..at + |w|];
    assert OccursAt(s, w, |a| + at);
  }

  /** Each string appears in the concatenation. */
  lemma {:induction false} ConcatIn(bs: seq<string>, k: nat)
    requires k < |bs|
    ensures Contains(Concat(bs), bs[k])
    decreases |bs|
  {
    var init := bs[..|bs| - 1];
    var last := bs[|bs| - 1];
    if k == |bs| - 1 {
      assert last[0..|last|] == last;
      assert OccursAt(last, last, 0);
      ContainsMiddle(Concat(init), last, "", last);
      assert Concat(init) + last + "" == Concat(bs);
    } else {
      ConcatIn(init, k);
      assert init[k] == bs[k];
      ContainsMiddle("", Concat(init), last, bs[k]);
      assert "" + Concat(init) + last == Concat(bs);
    }
  }

  /** The prompt's opening, which states the count. */
  function PromptHead(count: int): string {
    PromptOpening + IntToString(count) + PromptAsk
  }

  /** The prompt of `generate_gaps_with_gemini`. */
  function GapsPrompt(papers: seq<Trend>, count: int): string {
    PromptHead(count) + PaperBlocks(papers) + PromptClosing
  }

  /** The paper loop: one block per paper, appended in order. */
  method AppendBlocks(prefix: string, papers: seq<Trend>) returns (s: string)
    ensures s == prefix + PaperBlocks(papers)
  {
    ghost var bs := Blocks(papers);
    s := prefix;
    var idx := 0;
    while idx < |papers|
      invariant 0 <= idx <= |papers|
      invariant s == prefix + Concat(bs[..idx])
    {
      var block := PaperBlock(idx + 1, papers[idx]);
      AppendNext(prefix, bs, idx, block);
      s := s + block;
      idx := idx + 1;
    }
    assert bs[..idx] == bs;
  }

  lemma AppendNext(prefix: string, bs: seq<string>, idx: nat, block: string)
    requires idx < |bs| && block == bs[idx]
    ensures prefix + Concat(bs[..idx]) + block == prefix + Concat(bs[..idx + 1])
  {
    ConcatSnoc(bs, idx);
  }

  /** The prompt is built from its opening, the paper loop and its closing. */
  method BuildGapsPrompt(papers: seq<Trend>, count: int) returns (prompt: string)
    ensures prompt == GapsPrompt(papers, count)
  {
    prompt := AppendBlocks(PromptHead(count), papers);
    prompt := prompt + PromptClosing;
  }

  /** A word found in the middle part is found in the whole, which opens with the first part. */
  lemma Framed(a: string, b: string, c: string, w: string)
    requires Contains(b, w)
    ensures Contains(a + b + c, w) && StartsWith(a + b + c, a)
  {
    ContainsMiddle(a, b, c, w);
    assert (a + b + c)[..|a|] == a;
  }

  /** Every paper appears in the prompt under its number, and the prompt opens with the count. */
  lemma GapsPromptMentions(papers: seq<Trend>, count: int, k: nat)
    requires k < |papers|
    ensures Contains(GapsPrompt(papers, count), PaperBlock(k + 1, papers[k]))
    ensures StartsWith(GapsPrompt(papers, count), PromptHead(count))
  {
    ConcatIn(Blocks(papers), k);
    Framed(PromptHead(count), PaperBlocks(papers), PromptClosing, PaperBlock(k + 1, papers[k]));
  }

  /** The reply line cleaner, step by step. */
  method CleanLine(line: string, trimSet: set<char>) returns (idea: Option<string>)
    ensures idea == LineIdea(line, trimSet)
  {
    var l := Strip(line);
    if StartsWith(l, "- ") {
      idea := Some(Strip(l[2..]));
    } else if l != "" && !StartsWith(Lower(l), "paper") {
      idea := Some(Strip(Trim(l, trimSet)));
    } else {
      idea := None;
    }
  }

  /** The line loop of the parser: the candidate ideas of a reply, in order. */
  method ExtractIdeas(text: string, trimSet: set<char>) returns (ideas: seq<string>)
    ensures ideas == Candidates(Split(text), trimSet)
  {
    var lines := Split(text);
    ideas := [];
    var i := 0;
    while i < |lines|
      invariant 0 <= i <= |lines|
      invariant ideas == Candidates(lines[..i], trimSet)
    {
      assert lines[..i + 1][..i] == lines[..i];
      var idea := CleanLine(lines[i], trimSet);
      if idea.Some? {
        ideas := ideas + [idea.value];
      }
      i := i + 1;
    }
    assert lines[..i] == lines;
  }

  /** The `seen`-set loop: first occurrences, in order. */
  method Dedup(ideas: seq<string>) returns (unique: seq<string>)
    ensures unique == Unique(ideas)
  {
    var seen: set<string> := {};
    unique := [];
    var i := 0;
    while i < |ideas|
      invariant 0 <= i <= |ideas|
      invariant unique == Unique(ideas[..i])
      invariant forall x :: x in seen <==> x in unique
    {
      assert ideas[..i + 1][..i] == ideas[..i];
      var idea := ideas[i];
      if idea !in seen {
        unique := unique + [idea];
        seen := seen + {idea};
      }
      i := i + 1;
    }
    assert ideas[..i] == ideas;
  }

  /** The parser of `generate_gaps_with_gemini`. */
  method ParseGaps(text: string, trimSet: set<char>, count: int) returns (ideas: seq<string>)
    ensures ideas == Gaps(text, trimSet, count)
  {
    var candidates := ExtractIdeas(text, trimSet);
    var nonEmpty := DropEmpty(candidates);
    var unique := Dedup(nonEmpty);
    ideas := PyPrefix(unique, count);
  }

  /** What `generate_gaps_with_gemini` returns: nothing without a key or papers, nothing when
      the request raises, else the parsed reply. */
  function GapIdeasOf(hasKey: bool, papers: seq<Trend>, count: int, trimSet: set<char>,
                      gemini: (string, string) -> Reply): seq<string>
  {
    if !hasKey || papers == [] then []
    else match gemini(GeminiPro, GapsPrompt(papers, count))
      case Raised(_) => []
      case Answer(text) => Gaps(text, trimSet, count)
  }

  /** `generate_gaps_with_gemini`; `request` is the prompt sent, if any. */
  method GenerateGaps(hasKey: bool, papers: seq<Trend>, count: int, trimSet: set<char>,
                      gemini: (string, string) -> Reply) returns (ideas: seq<string>, request: Option<string>)
    ensures ideas == GapIdeasOf(hasKey, papers, count, trimSet, gemini)
    ensures request.None? <==> !hasKey || papers == []
    ensures request.Some? ==> request.value == GapsPrompt(papers, count)
    ensures request.None? ==> ideas == []
    ensures request.Some? && gemini(GeminiPro, request.value).Raised? ==> ideas == []
    ensures request.Some? && gemini(GeminiPro, request.value).Answer? ==>
              ideas == Gaps(gemini(GeminiPro, request.value).text, trimSet, count)
  {
    if !hasKey || papers == [] {
      return [], None;
    }
    var prompt := BuildGapsPrompt(papers, count);
    request := Some(prompt);
    match gemini(GeminiPro, prompt)
    case Raised(_) =>
      ideas := [];
    case Answer(text) =>
      ideas := ParseGaps(text, trimSet, count);
  }

  const FallbackIdeas: seq<string> := [
    "Explainable AI for medical imaging diagnosis",
    "Quantum algorithms for large-scale optimization",
    "Privacy-preserving federated learning in healthcare",
    "Bias detection in language models for legal documents",
    "Energy-efficient deep learning for edge devices"]

  const NegativeSampleMessage: string := "Sample larger than population or is negative"

  /** A possible result of `random.sample(population, k)`: `k` distinct positions of the population. */
  predicate IsSample(s: seq<string>, population: seq<string>, k: int) {
    && |s| == k
    && NoDuplicates(s)
    && forall x :: x in s ==> x in population
  }

  lemma FallbackDistinct()
    ensures NoDuplicates(FallbackIdeas)
  {
  }

  /** `random_ideas`: the generated ideas when there are any; else `min(count, 5)` of the fixed
      ideas, chosen freely; a negative sample size raises. */
  method RandomIdeas(count: int, hasKey: bool, papers: seq<Trend>, trimSet: set<char>,
                     gemini: (string, string) -> Reply) returns (r: Result<seq<string>>)
    ensures var generated := GapIdeasOf(hasKey, papers, count, trimSet, gemini);
            && (generated != [] ==> r == Success(generated))
            && (generated == [] && count < 0 ==> r == Failure(NegativeSampleMessage))
            && (generated == [] && count >= 0 ==> r.Success? && IsSample(r.value, FallbackIdeas, Min(count, 5)))
  {
    var ideas: seq<string> := [];
    if hasKey && papers != [] {
      var request;
      ideas, request := GenerateGaps(hasKey, papers, count, trimSet, gemini);
    }
    if ideas == [] {
      var k := Min(count, |FallbackIdeas|);
      if k < 0 {
        return Failure(NegativeSampleMessage);
      }
      FallbackDistinct();
      assert IsSample(FallbackIdeas[..k], FallbackIdeas, k);
      var pick :| IsSample(pick, FallbackIdeas, k);
      ideas := pick;
    }
    r := Success(ideas);
  }
}
