/**
 * The limitation-section extractor of the research analyzer
 * (`extract_limitations_scope`): a line scanner that starts capturing at the first
 * line mentioning "limitation" or "scope" and stops after the first captured line
 * that mentions a stop word; the captured lines are joined with newlines and stripped.
 */
module Limitations {
  import opened PyStr

  predicate Mentions(line: string, word: string) {
    Contains(Lower(line), word)
  }

  /** A line that starts the capture. */
  predicate IsTrigger(line: string) {
    Mentions(line, "limitation") || Mentions(line, "scope")
  }

  /** A line that ends the capture (it is itself kept). */
  predicate IsStop(line: string) {
    || Mentions(line, "application")
    || Mentions(line, "potential")
    || Mentions(line, "relationship")
    || Mentions(line, "finding")
    || Mentions(line, "conclusion")
  }

  /** The lines kept once capturing is on: up to and including the first stop line. */
  function CaptureFrom(ls: seq<string>): seq<string>
  {
    if ls == [] then []
    else if IsStop(ls[0]) then [ls[0]]
    else [ls[0]] + CaptureFrom(ls[1..])
  }

  /** The lines the scanner appends: nothing before the first trigger line. */
  function Captured(ls: seq<string>): seq<string>
  {
    if ls == [] then []
    else if IsTrigger(ls[0]) then CaptureFrom(ls)
    else Captured(ls[1..])
  }

  /** The excerpt `extract_limitations_scope` returns. */
  function LimitationsScope(analysis: string): string
  {
    Strip(Join(Captured(Lines(analysis)), "\n"))
  }

  /** The scanner as written: a capture flag, an append, and a break at the stop line. */
  method ExtractLimitationsScope(analysis: string) returns (excerpt: string)
    ensures excerpt == LimitationsScope(analysis)
  {
    var all := Lines(analysis);
    var lines: seq<string> := [];
    var capture := false;
    var i := 0;
    while i < |all|
      invariant 0 <= i <= |all|
      invariant !capture ==> lines == [] && Captured(all) == Captured(all[i..])
      invariant capture ==> Captured(all) == lines + CaptureFrom(all[i..])
    {
      var line := all[i];
      assert all[i..] == [line] + all[i + 1..];
      if IsTrigger(line) {
        capture := true;
      }
      if capture {
        lines := lines + [line];
        if IsStop(line) {
          assert CaptureFrom(all[i..]) == [line];
          assert Captured(all) == lines;
          break;
        }
        assert CaptureFrom(all[i..]) == [line] + CaptureFrom(all[i + 1..]);
      }
      i := i + 1;
    }
    if i == |all| {
      assert all[i..] == [];
      assert Captured(all) == lines;
    }
    assert Captured(all) == lines;
    excerpt := Strip(Join(lines, "\n"));
  }

  /** The captured lines are one contiguous block `ls[i..j]`: `i` is the first trigger
      line, and the block ends at the first stop line from `i` on, or at the end. */
  lemma {:induction false} CapturedIsBlock(ls: seq<string>) returns (i: nat, j: nat)
    ensures i <= j <= |ls| && Captured(ls) == ls[i..j]
    ensures forall k :: 0 <= k < i ==> !IsTrigger(ls[k])
    ensures i < |ls| ==> IsTrigger(ls[i]) && i < j
    ensures i == |ls| ==> j == |ls|
    ensures forall k :: i <= k < j - 1 ==> !IsStop(ls[k])
    ensures j < |ls| ==> IsStop(ls[j - 1])
    decreases |ls|
  {
    if ls == [] {
      i, j := 0, 0;
    } else if IsTrigger(ls[0]) {
      i := 0;
      j := CaptureFromIsBlock(ls);
    } else {
      var i', j' := CapturedIsBlock(ls[1..]);
      i, j := i' + 1, j' + 1;
      assert ls[1..][i'..j'] == ls[i..j];
      forall k | 0 <= k < i ensures !IsTrigger(ls[k]) {
        if k > 0 { assert ls[k] == ls[1..][k - 1]; }
      }
    }
  }

  lemma {:induction false} CaptureFromIsBlock(ls: seq<string>) returns (j: nat)
    requires ls != []
    ensures 1 <= j <= |ls| && CaptureFrom(ls) == ls[..j]
    ensures forall k :: 0 <= k < j - 1 ==> !IsStop(ls[k])
    ensures j < |ls| ==> IsStop(ls[j - 1])
    decreases |ls|
  {
    if IsStop(ls[0]) || |ls| == 1 {
      j := 1;
    } else {
      var j' := CaptureFromIsBlock(ls[1..]);
      j := j' + 1;
      assert ls[..j] == [ls[0]] + ls[1..][..j'];
      forall k | 0 <= k < j - 1 ensures !IsStop(ls[k]) {
        if k > 0 { assert ls[k] == ls[1..][k - 1]; }
      }
    }
  }

  /** A block that starts with a trigger and has no stop line before its last line is
      captured whole. */
  lemma {:induction false} CapturedWhole(ls: seq<string>)
    requires ls != [] && IsTrigger(ls[0])
    requires forall k :: 0 <= k < |ls| - 1 ==> !IsStop(ls[k])
    ensures Captured(ls) == ls
  {
    var j := CaptureFromIsBlock(ls);
  }

  lemma TriggerNotBlank(line: string)
    requires IsTrigger(line)
    ensures !AllIn(line, Whitespace)
  {
    var w := if Mentions(line, "limitation") then "limitation" else "scope";
    var k: nat :| k <= |Lower(line)| && OccursAt(Lower(line), w, k);
    assert Lower(line)[k] == w[0];
    assert !IsSpace(line[k]);
  }

  lemma WindowKeepsWord(s: string, w: string, lo: nat, hi: nat)
    requires lo <= hi <= |s|
    requires forall i :: 0 <= i < lo ==> IsSpace(s[i])
    requires forall i :: hi <= i < |s| ==> IsSpace(s[i])
    requires |w| > 0 && !IsSpace(w[0]) && !IsSpace(w[|w| - 1])
    ensures Mentions(s[lo..hi], w) <==> Mentions(s, w)
  {
    if Mentions(s[lo..hi], w) { ContainsSlice(s, w, lo, hi); }
    if Mentions(s, w) { ContainsWindow(s, w, lo, hi); }
  }

  /** Cutting whitespace-only ends off a line changes neither whether it triggers nor
      whether it stops the capture. */
  lemma WindowKeepsClass(s: string, lo: nat, hi: nat)
    requires lo <= hi <= |s|
    requires forall i :: 0 <= i < lo ==> IsSpace(s[i])
    requires forall i :: hi <= i < |s| ==> IsSpace(s[i])
    ensures IsTrigger(s[lo..hi]) <==> IsTrigger(s)
    ensures IsStop(s[lo..hi]) <==> IsStop(s)
  {
    WindowKeepsWord(s, "limitation", lo, hi);
    WindowKeepsWord(s, "scope", lo, hi);
    WindowKeepsWord(s, "application", lo, hi);
    WindowKeepsWord(s, "potential", lo, hi);
    WindowKeepsWord(s, "relationship", lo, hi);
    WindowKeepsWord(s, "finding", lo, hi);
    WindowKeepsWord(s, "conclusion", lo, hi);
  }

  lemma LTrimKeepsClass(s: string)
    ensures IsTrigger(LTrim(s, Whitespace)) <==> IsTrigger(s)
    ensures IsStop(LTrim(s, Whitespace)) <==> IsStop(s)
  {
    var l := LTrim(s, Whitespace);
    LTrimSpec(s, Whitespace);
    assert l == s[|s| - |l|..|s|];
    WindowKeepsClass(s, |s| - |l|, |s|);
  }

  lemma RTrimKeepsClass(s: string)
    ensures IsTrigger(RTrim(s, Whitespace)) <==> IsTrigger(s)
    ensures IsStop(RTrim(s, Whitespace)) <==> IsStop(s)
  {
    var r := RTrim(s, Whitespace);
    RTrimSpec(s, Whitespace);
    assert r == s[0..|r|];
    WindowKeepsClass(s, 0, |r|);
  }

  lemma StripKeepsClass(s: string)
    ensures IsTrigger(Strip(s)) <==> IsTrigger(s)
    ensures IsStop(Strip(s)) <==> IsStop(s)
  {
    LTrimKeepsClass(s);
    RTrimKeepsClass(LTrim(s, Whitespace));
  }

  /** The excerpt is empty exactly when no line mentions "limitation" or "scope";
      otherwise it mentions one of them itself. */
  lemma ScopeEmptyIffNoTrigger(analysis: string)
    ensures LimitationsScope(analysis) == "" <==>
              forall k :: 0 <= k < |Lines(analysis)| ==> !IsTrigger(Lines(analysis)[k])
    ensures LimitationsScope(analysis) != "" ==> IsTrigger(LimitationsScope(analysis))
  {
    var ls := Lines(analysis);
    var i, j := CapturedIsBlock(ls);
    var c := Captured(ls);
    if i < |ls| {
      assert c[0] == ls[i];
      var joined := Join(c, "\n");
      JoinPrefix(c, "\n");
      assert joined[0..|c[0]|] == c[0];
      WindowKeepsClass(c[0], 0, |c[0]|);
      assert IsTrigger(joined[0..|c[0]|]);
      assert IsTrigger(joined) by {
        if Mentions(c[0], "limitation") { ContainsSlice(joined, "limitation", 0, |c[0]|); }
        else { ContainsSlice(joined, "scope", 0, |c[0]|); }
      }
      StripKeepsClass(joined);
      TriggerNotBlank(LimitationsScope(analysis));
    } else {
      assert c == [];
    }
  }

  /** What the scanner captures when a trigger exists: a non-empty run of lines, the
      first a trigger, none but the last a stop line, none holding a newline. */
  predicate IsCaptureBlock(ls: seq<string>) {
    && ls != []
    && IsTrigger(ls[0])
    && (forall k :: 0 <= k < |ls| - 1 ==> !IsStop(ls[k]))
    && (forall k :: 0 <= k < |ls| ==> '\n' !in ls[k])
  }

  lemma NoNewlineInSlice(s: string, lo: nat, hi: nat)
    requires lo <= hi <= |s| && '\n' !in s
    ensures '\n' !in s[lo..hi]
  {
  }

  /** Replacing the first line of a capture block by another trigger line without a
      newline, a stop line only if the first one was, keeps it a capture block. */
  lemma ReplaceHead(c: seq<string>, h: string)
    requires IsCaptureBlock(c) && IsTrigger(h) && '\n' !in h
    requires IsStop(h) ==> IsStop(c[0])
    ensures IsCaptureBlock([h] + c[1..])
  {
    var c1 := [h] + c[1..];
    assert forall k :: 1 <= k < |c1| ==> c1[k] == c[k];
  }

  /** Stripping leading whitespace off a capture block keeps it one. */
  lemma LTrimBlock(c: seq<string>) returns (c1: seq<string>)
    requires IsCaptureBlock(c)
    ensures IsCaptureBlock(c1) && |c1| == |c|
    ensures LTrim(Join(c, "\n"), Whitespace) == Join(c1, "\n")
  {
    TriggerNotBlank(c[0]);
    LTrimJoin(c);
    var h := LTrim(c[0], Whitespace);
    LTrimSpec(c[0], Whitespace);
    LTrimKeepsClass(c[0]);
    NoNewlineInSlice(c[0], |c[0]| - |h|, |c[0]|);
    ReplaceHead(c, h);
    c1 := [h] + c[1..];
  }

  /** Stripping trailing whitespace off a capture block keeps it one. */
  lemma RTrimBlock(c: seq<string>) returns (f: seq<string>)
    requires IsCaptureBlock(c)
    ensures IsCaptureBlock(f)
    ensures RTrim(Join(c, "\n"), Whitespace) == Join(f, "\n")
  {
    TriggerNotBlank(c[0]);
    var n := RTrimJoin(c);
    var last := RTrim(c[n - 1], Whitespace);
    RTrimSpec(c[n - 1], Whitespace);
    f := c[..n - 1] + [last];
    RTrimKeepsClass(c[n - 1]);
    assert last == c[n - 1][0..|last|];
    NoNewlineInSlice(c[n - 1], 0, |last|);
    forall k | 0 <= k < n - 1 ensures f[k] == c[k] { }
  }

  /** The excerpt, read back as lines, is a capture block. */
  lemma StripBlock(c: seq<string>) returns (f: seq<string>)
    requires IsCaptureBlock(c)
    ensures IsCaptureBlock(f)
    ensures Strip(Join(c, "\n")) == Join(f, "\n")
  {
    var c1 := LTrimBlock(c);
    f := RTrimBlock(c1);
  }

  /** A non-empty excerpt, read back as lines, is a capture block: its first line mentions
      "limitation" or "scope", no line before its last mentions a stop word, and joining the
      lines gives the excerpt again. */
  lemma ScopeIsBlock(analysis: string)
    ensures var t := LimitationsScope(analysis);
            t != "" ==> IsCaptureBlock(Lines(t)) && Join(Lines(t), "\n") == t
  {
    var ls := Lines(analysis);
    var i, j := CapturedIsBlock(ls);
    var c := Captured(ls);
    var t := LimitationsScope(analysis);
    if c == [] {
      assert t == "";
    } else {
      assert IsCaptureBlock(c) by {
        forall k | 0 <= k < |c| ensures c[k] == ls[i + k] { }
      }
      var f := StripBlock(c);
      assert t == Join(f, "\n");
      SplitJoin(f);
      JoinPrefix(f, "\n");
      TriggerNotBlank(f[0]);
      RTrimSpec(LTrim(Join(c, "\n"), Whitespace), Whitespace);
      assert |t| > 0 && t[|t| - 1] != '\n';
      assert Lines(t) == f;
    }
  }

  /** Applying the extractor to its own output returns that output. */
  lemma ScopeIdempotent(analysis: string)
    ensures LimitationsScope(LimitationsScope(analysis)) == LimitationsScope(analysis)
  {
    var t := LimitationsScope(analysis);
    if t == "" {
      assert Lines(t) == [];
    } else {
      ScopeIsBlock(analysis);
      CapturedWhole(Lines(t));
      StripIdempotent(Join(Captured(Lines(analysis)), "\n"));
    }
  }
}
