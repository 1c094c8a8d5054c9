/**
 * The idea splitter of the `generate_ideas` route of the analyzer web service: the
 * reply is searched for numbered items with `\d+\.\s(.+?)(?=\n\d+\.|\n*$)` (dot
 * matching newlines), and only when there is none for bullet items with
 * `[-*]\s(.+)`; every item found is stripped. Both searches are written out as
 * scanners over the text with the semantics of `re.findall`: try each position from
 * left to right, and after a match go on where it ended.
 */
module IdeaExtract {
  import opened Wrappers
  import opened PyStr
  import opened Papers

  /** The characters `text[start..end]` captured by a match. */
  datatype Span = Span(start: nat, end: nat)

  /** The end of the run of digits that starts at `p`. */
  function DigitsEnd(text: string, p: nat): (d: nat)
    requires p <= |text|
    ensures p <= d <= |text|
    ensures forall k :: p <= k < d ==> IsDigit(text[k])
    ensures d == |text| || !IsDigit(text[d])
    decreases |text| - p
  {
    if p < |text| && IsDigit(text[p]) then DigitsEnd(text, p + 1) else p
  }

  /** `\d+\.` matches at `p`. */
  predicate NumberAt(text: string, p: nat)
    requires p <= |text|
  {
    var d := DigitsEnd(text, p);
    p < d < |text| && text[d] == '.'
  }

  predicate AllNewlines(s: string) {
    forall k :: 0 <= k < |s| ==> s[k] == '\n'
  }

  /** The lookahead `(?=\n\d+\.|\n*$)` holds at `q`: only newlines are left, or a newline is
      followed by a number and a dot. */
  predicate ItemStop(text: string, q: nat)
    requires q <= |text|
  {
    AllNewlines(text[q..]) || (q < |text| && text[q] == '\n' && NumberAt(text, q + 1))
  }

  /** Where the lazy `(.+?)` that may end at `q` at the earliest does end: the first position from
      `q` on where the lookahead holds. */
  function ItemEnd(text: string, q: nat): (e: nat)
    requires q <= |text|
    ensures q <= e <= |text| && ItemStop(text, e)
    ensures forall k :: q <= k < e ==> !ItemStop(text, k)
    decreases |text| - q
  {
    if q == |text| then
      assert text[q..] == [];
      q
    else if ItemStop(text, q) then q
    else ItemEnd(text, q + 1)
  }

  /** The numbered item whose number starts at `p`, if the pattern matches there. */
  function NumberedAt(text: string, p: nat): (r: Option<Span>)
    requires p <= |text|
    ensures r.Some? ==> p + 2 <= r.value.start < r.value.end <= |text|
    ensures r.Some? ==> NumberAt(text, p) && text[r.value.start - 2] == '.' && IsSpace(text[r.value.start - 1])
    ensures r.Some? ==> DigitsEnd(text, p) == r.value.start - 2
    ensures r.Some? ==> ItemStop(text, r.value.end)
    ensures r.Some? ==> forall k :: r.value.start < k < r.value.end ==> !ItemStop(text, k)
    ensures r.None? <==> !(NumberAt(text, p) && DigitsEnd(text, p) + 2 < |text| && IsSpace(text[DigitsEnd(text, p) + 1]))
  {
    var d := DigitsEnd(text, p);
    if p < d && d + 2 < |text| && text[d] == '.' && IsSpace(text[d + 1]) then
      Some(Span(d + 2, ItemEnd(text, d + 3)))
    else None
  }

  /** Every span lies inside the text, after `p`, in increasing order without overlap. */
  ghost predicate Ordered(spans: seq<Span>, p: nat, n: nat) {
    && (forall i :: 0 <= i < |spans| ==> p < spans[i].start < spans[i].end <= n)
    && (forall i, j :: 0 <= i < j < |spans| ==> spans[i].end <= spans[j].start)
  }

  /** A span placed before spans that follow it keeps the order. */
  lemma OrderedCons(sp: Span, rest: seq<Span>, p: nat, n: nat)
    requires p < sp.start < sp.end <= n && Ordered(rest, sp.end, n)
    ensures Ordered([sp] + rest, p, n)
  {
    var r := [sp] + rest;
    forall i, j | 0 <= i < j < |r| ensures r[i].end <= r[j].start {
      if i == 0 {
        assert r[j] == rest[j - 1];
      } else {
        assert r[i] == rest[i - 1] && r[j] == rest[j - 1];
      }
    }
  }

  /** `re.findall` of the numbered pattern from position `p`. */
  function NumberedFrom(text: string, p: nat): (r: seq<Span>)
    requires p <= |text|
    ensures Ordered(r, p, |text|)
    ensures forall i :: 0 <= i < |r| ==> exists q :: p <= q < r[i].start && NumberedAt(text, q) == Some(r[i])
    decreases |text| - p
  {
    if p == |text| then []
    else match NumberedAt(text, p)
      case Some(sp) =>
        var rest := NumberedFrom(text, sp.end);
        OrderedCons(sp, rest, p, |text|);
        [sp] + rest
      case None => NumberedFrom(text, p + 1)
  }

  /** The numbered search finds nothing exactly when the pattern matches at no position. */
  lemma {:induction false} NumberedNoneIff(text: string, p: nat)
    requires p <= |text|
    ensures NumberedFrom(text, p) == [] <==> forall q :: p <= q < |text| ==> NumberedAt(text, q).None?
    decreases |text| - p
  {
    if p < |text| && NumberedAt(text, p).None? {
      NumberedNoneIff(text, p + 1);
    }
  }

  /** The end of the line that `q` is on. */
  function LineEnd(text: string, q: nat): (e: nat)
    requires q <= |text|
    ensures q <= e <= |text| && (e == |text| || text[e] == '\n')
    ensures forall k :: q <= k < e ==> text[k] != '\n'
    decreases |text| - q
  {
    if q == |text| || text[q] == '\n' then q else LineEnd(text, q + 1)
  }

  /** The bullet item whose marker is at `p`, if `[-*]\s(.+)` matches there. */
  function BulletAt(text: string, p: nat): (r: Option<Span>)
    requires p <= |text|
    ensures r.Some? ==> p + 2 == r.value.start < r.value.end <= |text|
    ensures r.Some? ==> (text[p] == '-' || text[p] == '*') && IsSpace(text[p + 1])
    ensures r.Some? ==> r.value.end == |text| || text[r.value.end] == '\n'
    ensures r.Some? ==> forall k :: r.value.start <= k < r.value.end ==> text[k] != '\n'
  {
    if p + 2 < |text| && (text[p] == '-' || text[p] == '*') && IsSpace(text[p + 1]) && text[p + 2] != '\n' then
      Some(Span(p + 2, LineEnd(text, p + 2)))
    else None
  }

  /** `re.findall` of the bullet pattern from position `p`. */
  function BulletsFrom(text: string, p: nat): (r: seq<Span>)
    requires p <= |text|
    ensures Ordered(r, p, |text|)
    ensures forall i :: 0 <= i < |r| ==> exists q :: p <= q < r[i].start && BulletAt(text, q) == Some(r[i])
    decreases |text| - p
  {
    if p == |text| then []
    else match BulletAt(text, p)
      case Some(sp) =>
        var rest := BulletsFrom(text, sp.end);
        OrderedCons(sp, rest, p, |text|);
        [sp] + rest
      case None => BulletsFrom(text, p + 1)
  }

  /** The spans the route reads: the numbered items, or the bullets when there are none. */
  function ItemSpans(text: string): (r: seq<Span>)
    ensures Ordered(r, 0, |text|)
  {
    var numbered := NumberedFrom(text, 0);
    if numbered != [] then numbered else BulletsFrom(text, 0)
  }

  /** Every span lies inside a text of length `n`. */
  predicate Inside(spans: seq<Span>, n: nat) {
    forall i :: 0 <= i < |spans| ==> spans[i].start <= spans[i].end <= n
  }

  /** What `re.findall` returns for the spans: the captured texts, in order. */
  function Captures(text: string, spans: seq<Span>): (r: seq<string>)
    requires Inside(spans, |text|)
    ensures |r| == |spans|
  {
    seq(|spans|, i requires 0 <= i < |spans| => text[spans[i].start..spans[i].end])
  }

  /** The summaries of the route, one per item found and none dropped: each capture, stripped. */
  function IdeaSummaries(text: string): (r: seq<string>)
    ensures |r| == |ItemSpans(text)|
  {
    var items := Captures(text, ItemSpans(text));
    seq(|items|, i requires 0 <= i < |items| => Strip(items[i]))
  }

  /** Numbered items win: the bullets are read only when the numbered pattern matches nowhere,
      and then every item is the rest of a line after a "-" or "*" marker and a blank. */
  lemma NumberedPreferred(text: string)
    ensures (exists q :: 0 <= q < |text| && NumberedAt(text, q).Some?) ==> ItemSpans(text) == NumberedFrom(text, 0)
    ensures (forall q :: 0 <= q < |text| ==> NumberedAt(text, q).None?) ==> ItemSpans(text) == BulletsFrom(text, 0)
  {
    NumberedNoneIff(text, 0);
  }

  /** A numbered item follows a number, a dot and one blank, and runs to the first following
      "\n<digits>." or to the newlines that end the text, whichever comes first. */
  ghost predicate ItemAfterNumber(text: string, sp: Span) {
    && 3 <= sp.start < sp.end <= |text|
    && text[sp.start - 2] == '.' && IsSpace(text[sp.start - 1]) && IsDigit(text[sp.start - 3])
    && ItemStop(text, sp.end)
    && forall k :: sp.start < k < sp.end ==> !ItemStop(text, k)
  }

  /** Every item of the numbered search has that shape. */
  lemma NumberedItem(text: string, i: nat)
    requires i < |NumberedFrom(text, 0)|
    ensures ItemAfterNumber(text, NumberedFrom(text, 0)[i])
  {
    var sp := NumberedFrom(text, 0)[i];
    var q :| 0 <= q < sp.start && NumberedAt(text, q) == Some(sp);
    NumberedAtItem(text, q, sp);
  }

  lemma NumberedAtItem(text: string, q: nat, sp: Span)
    requires q <= |text| && NumberedAt(text, q) == Some(sp)
    ensures ItemAfterNumber(text, sp)
  {
    var d := DigitsEnd(text, q);
    assert q < d && d == sp.start - 2;
    assert IsDigit(text[d - 1]);
  }

  /** A bullet item follows a "-" or "*" marker and one blank, and is the whole rest of its line. */
  ghost predicate RestOfLine(text: string, sp: Span) {
    && 2 <= sp.start < sp.end <= |text|
    && (text[sp.start - 2] == '-' || text[sp.start - 2] == '*') && IsSpace(text[sp.start - 1])
    && '\n' !in text[sp.start..sp.end]
    && (sp.end == |text| || text[sp.end] == '\n')
  }

  /** Every item of the bullet search has that shape: it never crosses a newline. */
  lemma BulletItem(text: string, i: nat)
    requires i < |BulletsFrom(text, 0)|
    ensures RestOfLine(text, BulletsFrom(text, 0)[i])
  {
    var sp := BulletsFrom(text, 0)[i];
    var q :| 0 <= q < sp.start && BulletAt(text, q) == Some(sp);
    BulletAtItem(text, q, sp);
  }

  lemma BulletAtItem(text: string, q: nat, sp: Span)
    requires q <= |text| && BulletAt(text, q) == Some(sp)
    ensures RestOfLine(text, sp)
  {
    assert forall k :: 0 <= k < sp.end - sp.start ==> text[sp.start..sp.end][k] == text[sp.start + k];
  }

  /** Two numbered lines give two items, each ending where the next number starts. */
  lemma NumberedExample()
    ensures NumberedFrom("1. A\n2. B", 0) == [Span(3, 4), Span(8, 9)]
  {
    var t := "1. A\n2. B";
    assert DigitsEnd(t, 0) == 1;
    assert ItemStop(t, 4);
    assert NumberedAt(t, 0) == Some(Span(3, 4));
    assert NumberedAt(t, 4) == None;
    assert DigitsEnd(t, 5) == 6;
    assert ItemStop(t, 9);
    assert NumberedAt(t, 5) == Some(Span(8, 9));
  }

  /** Two bullet lines give two items, each the rest of its line. */
  lemma BulletExample()
    ensures BulletsFrom("- a\n* b", 0) == [Span(2, 3), Span(6, 7)]
  {
    var t := "- a\n* b";
    assert BulletAt(t, 0) == Some(Span(2, 3));
    assert BulletAt(t, 3) == None;
    assert BulletAt(t, 4) == Some(Span(6, 7));
  }

  /** The loops of the route: one stripped summary appended per captured item, in order. */
  method StripAll(items: seq<string>) returns (ideas: seq<string>)
    ensures |ideas| == |items|
    ensures forall k :: 0 <= k < |items| ==> ideas[k] == Strip(items[k])
  {
    ideas := [];
    var i := 0;
    while i < |items|
      invariant 0 <= i <= |items|
      invariant |ideas| == i
      invariant forall k :: 0 <= k < i ==> ideas[k] == Strip(items[k])
    {
      ideas := ideas + [Strip(items[i])];
      i := i + 1;
    }
  }

  /** The route's splitting of a reply: the summaries of the items found. */
  method SplitIdeas(text: string) returns (ideas: seq<string>)
    ensures ideas == IdeaSummaries(text)
  {
    var items := Captures(text, ItemSpans(text));
    ideas := StripAll(items);
  }

  /** The `generate_ideas` route: the reply of `generate_new_ideas` split into summaries; the
      requested number of ideas does not cap the list. */
  method GenerateIdeasRoute(limitations: string, topic: string, numIdeas: int, wordLimit: int,
                            gemini: (string, string) -> Reply) returns (ideas: seq<string>)
    ensures ideas == IdeaSummaries(GenerateNewIdeas(limitations, topic, numIdeas, wordLimit, gemini))
  {
    var ideasText := GenerateNewIdeas(limitations, topic, numIdeas, wordLimit, gemini);
    ideas := SplitIdeas(ideasText);
  }
}
