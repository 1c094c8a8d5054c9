/**
 * The parts of Python's `str` and list API that the analyzer uses, restricted to
 * ASCII semantics for case and whitespace: `isspace`, `lower`, `strip` with and
 * without a character set, `startswith`, `in`, `split("\n")`, `splitlines()`
 * (with '\n' as the only line break), `sep.join`, `s[:n]` and `str(int)`.
 */
module PyStr {
  import opened Wrappers

  /** The ASCII characters for which `str.isspace()` holds. */
  const Whitespace: set<char> :=
    {'\t', '\n', 11 as char, 12 as char, '\r', 28 as char, 29 as char, 30 as char, 31 as char, ' '}

  predicate IsSpace(c: char) { c in Whitespace }

  predicate IsDigit(c: char) { '0' <= c <= '9' }

  /** `str.lower()` on one character, ASCII letters only. */
  function LowerChar(c: char): (d: char)
    ensures IsSpace(d) <==> IsSpace(c)
    ensures IsDigit(d) <==> IsDigit(c)
  {
    if 'A' <= c <= 'Z' then (c as int + 32) as char else c
  }

  function Lower(s: string): (r: string)
    ensures |r| == |s|
    ensures forall i :: 0 <= i < |s| ==> r[i] == LowerChar(s[i])
  {
    seq(|s|, i requires 0 <= i < |s| => LowerChar(s[i]))
  }

  lemma LowerSlice(s: string, lo: nat, hi: nat)
    requires lo <= hi <= |s|
    ensures Lower(s[lo..hi]) == Lower(s)[lo..hi]
  {
  }

  predicate StartsWith(s: string, prefix: string) {
    |prefix| <= |s| && s[..|prefix|] == prefix
  }

  predicate EndsWith(s: string, suffix: string) {
    |suffix| <= |s| && s[|s| - |suffix|..] == suffix
  }

  lemma ConcatAffixes(a: string, b: string)
    ensures StartsWith(a + b, a) && EndsWith(a + b, b)
  {
    assert (a + b)[..|a|] == a;
    assert (a + b)[|a|..] == b;
  }

  predicate OccursAt(s: string, w: string, k: nat) {
    k + |w| <= |s| && s[k..k + |w|] == w
  }

  /** Python's `w in s`. */
  predicate Contains(s: string, w: string) {
    exists k: nat :: k <= |s| && OccursAt(s, w, k)
  }

  /** Every character of `s` is in `cs`. */
  predicate AllIn(s: string, cs: set<char>) {
    forall i :: 0 <= i < |s| ==> s[i] in cs
  }

  /** `s.lstrip(cs)`: the longest prefix of characters of `cs` is removed. */
  function LTrim(s: string, cs: set<char>): string
    decreases |s|
  {
    if |s| > 0 && s[0] in cs then LTrim(s[1..], cs) else s
  }

  /** `LTrim` removes a prefix of characters of `cs` and stops at the first other character. */
  lemma {:induction false} LTrimSpec(s: string, cs: set<char>)
    ensures var r := LTrim(s, cs);
            && |r| <= |s| && r == s[|s| - |r|..]
            && (forall i :: 0 <= i < |s| - |r| ==> s[i] in cs)
            && (r == [] || r[0] !in cs)
    decreases |s|
  {
    if |s| > 0 && s[0] in cs {
      LTrimSpec(s[1..], cs);
    }
  }

  /** `s.rstrip(cs)`: the longest suffix of characters of `cs` is removed. */
  function RTrim(s: string, cs: set<char>): string
    decreases |s|
  {
    if |s| > 0 && s[|s| - 1] in cs then RTrim(s[..|s| - 1], cs) else s
  }

  /** `RTrim` removes a suffix of characters of `cs` and stops at the last other character. */
  lemma {:induction false} RTrimSpec(s: string, cs: set<char>)
    ensures var r := RTrim(s, cs);
            && |r| <= |s| && r == s[..|r|]
            && (forall i :: |r| <= i < |s| ==> s[i] in cs)
            && (r == [] || r[|r| - 1] !in cs)
    decreases |s|
  {
    if |s| > 0 && s[|s| - 1] in cs {
      RTrimSpec(s[..|s| - 1], cs);
    }
  }

  /** `s.strip(cs)`. */
  function Trim(s: string, cs: set<char>): string {
    RTrim(LTrim(s, cs), cs)
  }

  /** `s.strip()`. */
  function Strip(s: string): string {
    Trim(s, Whitespace)
  }

  /** The characterisation of `LTrim` determines it. */
  lemma LTrimUnique(s: string, cs: set<char>, n: nat)
    requires n <= |s| && AllIn(s[..n], cs) && (n == |s| || s[n] !in cs)
    ensures LTrim(s, cs) == s[n..]
  {
    LTrimSpec(s, cs);
    var m := |s| - |LTrim(s, cs)|;
    assert forall i :: 0 <= i < n ==> s[..n][i] == s[i];
  }

  /** The characterisation of `RTrim` determines it. */
  lemma RTrimUnique(s: string, cs: set<char>, n: nat)
    requires n <= |s| && AllIn(s[n..], cs) && (n == 0 || s[n - 1] !in cs)
    ensures RTrim(s, cs) == s[..n]
  {
    RTrimSpec(s, cs);
    var m := |RTrim(s, cs)|;
    assert forall i :: n <= i < |s| ==> s[n..][i - n] == s[i];
  }

  lemma LTrimConcat(a: string, b: string, cs: set<char>)
    requires !AllIn(a, cs)
    ensures LTrim(a + b, cs) == LTrim(a, cs) + b
  {
    LTrimSpec(a, cs);
    var n := |a| - |LTrim(a, cs)|;
    assert n < |a|;
    assert (a + b)[..n] == a[..n];
    LTrimUnique(a + b, cs, n);
    assert (a + b)[n..] == a[n..] + b;
  }

  lemma RTrimConcatBlank(a: string, b: string, cs: set<char>)
    requires AllIn(b, cs)
    ensures RTrim(a + b, cs) == RTrim(a, cs)
  {
    RTrimSpec(a, cs);
    var n := |RTrim(a, cs)|;
    assert (a + b)[n..] == a[n..] + b;
    RTrimUnique(a + b, cs, n);
    assert (a + b)[..n] == a[..n];
  }

  lemma RTrimConcat(a: string, b: string, cs: set<char>)
    requires !AllIn(b, cs)
    ensures RTrim(a + b, cs) == a + RTrim(b, cs)
  {
    RTrimSpec(b, cs);
    var n := |a| + |RTrim(b, cs)|;
    assert (a + b)[n..] == b[|RTrim(b, cs)|..];
    assert |RTrim(b, cs)| > 0;
    assert (a + b)[n - 1] == b[|RTrim(b, cs)| - 1];
    RTrimUnique(a + b, cs, n);
    assert (a + b)[..n] == a + b[..|RTrim(b, cs)|];
  }

  /** `s.strip()` is idempotent. */
  lemma StripIdempotent(s: string)
    ensures Strip(Strip(s)) == Strip(s)
  {
    var t := Strip(s);
    var l := LTrim(s, Whitespace);
    LTrimSpec(s, Whitespace);
    RTrimSpec(l, Whitespace);
    LTrimUnique(t, Whitespace, 0);
    assert LTrim(t, Whitespace) == t;
    RTrimUnique(t, Whitespace, |t|);
  }

  /** A word found in a piece of `s` is found in `s`. */
  lemma ContainsSlice(s: string, w: string, lo: nat, hi: nat)
    requires lo <= hi <= |s| && Contains(Lower(s[lo..hi]), w)
    ensures Contains(Lower(s), w)
  {
    var t := Lower(s[lo..hi]);
    var k: nat :| k <= |t| && OccursAt(t, w, k);
    assert k + |w| <= hi - lo;
    LowerSlice(s, lo, hi);
    assert Lower(s)[lo + k..lo + k + |w|] == t[k..k + |w|];
    assert OccursAt(Lower(s), w, lo + k);
  }

  /** A word that neither starts nor ends with whitespace, found in `s`, lies inside
      the window that remains once whitespace-only ends are cut off. */
  lemma ContainsWindow(s: string, w: string, lo: nat, hi: nat)
    requires lo <= hi <= |s|
    requires forall i :: 0 <= i < lo ==> IsSpace(s[i])
    requires forall i :: hi <= i < |s| ==> IsSpace(s[i])
    requires |w| > 0 && !IsSpace(w[0]) && !IsSpace(w[|w| - 1])
    requires Contains(Lower(s), w)
    ensures Contains(Lower(s[lo..hi]), w)
  {
    var u := Lower(s);
    var k: nat :| k <= |u| && OccursAt(u, w, k);
    assert u[k..k + |w|][0] == u[k] == w[0];
    assert u[k..k + |w|][|w| - 1] == u[k + |w| - 1] == w[|w| - 1];
    assert !IsSpace(s[k]) && !IsSpace(s[k + |w| - 1]);
    LowerSlice(s, lo, hi);
    var t := Lower(s[lo..hi]);
    assert t[k - lo..k - lo + |w|] == u[k..k + |w|];
    assert OccursAt(t, w, k - lo);
  }

  /** `w in s.strip().lower()` exactly when `w in s.lower()`, for a word that neither
      starts nor ends with whitespace. */
  lemma StripKeepsWord(s: string, w: string)
    requires |w| > 0 && !IsSpace(w[0]) && !IsSpace(w[|w| - 1])
    ensures Contains(Lower(Strip(s)), w) <==> Contains(Lower(s), w)
  {
    var l := LTrim(s, Whitespace);
    var t := RTrim(l, Whitespace);
    LTrimSpec(s, Whitespace);
    RTrimSpec(l, Whitespace);
    var lo := |s| - |l|;
    var hi := lo + |t|;
    assert t == s[lo..hi];
    if Contains(Lower(t), w) {
      ContainsSlice(s, w, lo, hi);
    }
    if Contains(Lower(s), w) {
      forall i | hi <= i < |s| ensures IsSpace(s[i]) {
        assert s[i] == l[i - lo];
      }
      ContainsWindow(s, w, lo, hi);
    }
  }

  /** `s.split("\n")`: the pieces between newlines, always at least one. */
  function Split(s: string): (r: seq<string>)
    ensures |r| >= 1
    ensures forall k :: 0 <= k < |r| ==> '\n' !in r[k]
    decreases |s|
  {
    if s == [] then [""]
    else
      var rest := Split(s[1..]);
      if s[0] == '\n' then [""] + rest else [[s[0]] + rest[0]] + rest[1..]
  }

  /** `s.splitlines()` with '\n' as the only line break: no piece after a final newline. */
  function Lines(s: string): (r: seq<string>)
    ensures forall k :: 0 <= k < |r| ==> '\n' !in r[k]
  {
    if s == [] then []
    else if s[|s| - 1] == '\n' then Split(s[..|s| - 1])
    else Split(s)
  }

  /** `sep.join(ls)`. */
  function Join(ls: seq<string>, sep: string): string
    decreases |ls|
  {
    if |ls| == 0 then ""
    else if |ls| == 1 then ls[0]
    else Join(ls[..|ls| - 1], sep) + sep + ls[|ls| - 1]
  }

  lemma SplitNoNewline(s: string)
    requires '\n' !in s
    ensures Split(s) == [s]
    decreases |s|
  {
    if s != [] {
      assert '\n' !in s[1..];
      SplitNoNewline(s[1..]);
      assert [s[0]] + s[1..] == s;
    }
  }

  lemma {:induction false} SplitConcat(a: string, b: string)
    ensures Split(a + "\n" + b) == Split(a) + Split(b)
    decreases |a|
  {
    if a == [] {
      assert a + "\n" + b == "\n" + b;
      assert ("\n" + b)[1..] == b;
    } else {
      assert (a + "\n" + b)[1..] == a[1..] + "\n" + b;
      SplitConcat(a[1..], b);
    }
  }

  /** Splitting a newline-join gives back the pieces, as long as none holds a newline. */
  lemma {:induction false} SplitJoin(ls: seq<string>)
    requires |ls| >= 1
    requires forall k :: 0 <= k < |ls| ==> '\n' !in ls[k]
    ensures Split(Join(ls, "\n")) == ls
    decreases |ls|
  {
    if |ls| == 1 {
      SplitNoNewline(ls[0]);
    } else {
      var init := ls[..|ls| - 1];
      SplitJoin(init);
      SplitConcat(Join(init, "\n"), ls[|ls| - 1]);
      SplitNoNewline(ls[|ls| - 1]);
      assert init + [ls[|ls| - 1]] == ls;
    }
  }

  /** The join seen from its first piece. */
  lemma {:induction false} JoinCons(x: string, ls: seq<string>, sep: string)
    requires |ls| >= 1
    ensures Join([x] + ls, sep) == x + (sep + Join(ls, sep))
    decreases |ls|
  {
    var xs := [x] + ls;
    assert xs[..|xs| - 1] == [x] + ls[..|ls| - 1];
    assert xs[|xs| - 1] == ls[|ls| - 1];
    if |ls| > 1 {
      var init := ls[..|ls| - 1];
      JoinCons(x, init, sep);
      calc {
        Join(xs, sep);
        Join([x] + init, sep) + sep + ls[|ls| - 1];
        x + (sep + Join(init, sep)) + sep + ls[|ls| - 1];
        x + (sep + (Join(init, sep) + sep + ls[|ls| - 1]));
      }
    } else {
      assert [x] + ls[..0] == [x];
    }
  }

  /** A join starts with its first piece. */
  lemma JoinPrefix(ls: seq<string>, sep: string)
    requires |ls| >= 1
    ensures |ls[0]| <= |Join(ls, sep)| && Join(ls, sep)[..|ls[0]|] == ls[0]
  {
    if |ls| > 1 {
      JoinCons(ls[0], ls[1..], sep);
      assert [ls[0]] + ls[1..] == ls;
    }
  }

  /** Stripping leading whitespace from a newline-join only touches its first piece,
      when that piece is not blank. */
  lemma LTrimJoin(ls: seq<string>)
    requires |ls| >= 1 && !AllIn(ls[0], Whitespace)
    ensures LTrim(Join(ls, "\n"), Whitespace) == Join([LTrim(ls[0], Whitespace)] + ls[1..], "\n")
  {
    if |ls| > 1 {
      var head, rest := ls[0], ls[1..];
      assert [head] + rest == ls;
      JoinCons(head, rest, "\n");
      LTrimConcat(head, "\n" + Join(rest, "\n"), Whitespace);
      JoinCons(LTrim(head, Whitespace), rest, "\n");
    }
  }

  /** Stripping trailing whitespace from a newline-join drops the trailing blank pieces
      and trims the last piece that is not blank (the `n`-th). */
  lemma {:induction false} RTrimJoin(ls: seq<string>) returns (n: nat)
    requires |ls| >= 1 && !AllIn(ls[0], Whitespace)
    ensures 1 <= n <= |ls|
    ensures RTrim(Join(ls, "\n"), Whitespace) == Join(ls[..n - 1] + [RTrim(ls[n - 1], Whitespace)], "\n")
    decreases |ls|
  {
    if |ls| == 1 {
      n := 1;
      assert ls[..0] + [RTrim(ls[0], Whitespace)] == [RTrim(ls[0], Whitespace)];
    } else {
      var init := ls[..|ls| - 1];
      var last := ls[|ls| - 1];
      assert Join(ls, "\n") == Join(init, "\n") + ("\n" + last);
      if AllIn(last, Whitespace) {
        assert AllIn("\n" + last, Whitespace) by {
          forall i | 0 <= i < |"\n" + last| ensures ("\n" + last)[i] in Whitespace {
            if i > 0 { assert ("\n" + last)[i] == last[i - 1]; }
          }
        }
        RTrimConcatBlank(Join(init, "\n"), "\n" + last, Whitespace);
        n := RTrimJoin(init);
        assert init[..n - 1] == ls[..n - 1];
      } else {
        RTrimConcat(Join(init, "\n") + "\n", last, Whitespace);
        n := |ls|;
        var out := init + [RTrim(last, Whitespace)];
        assert ls[..n - 1] == init;
        assert out[..|out| - 1] == init;
      }
    }
  }

  /** `[x for x in xs if x]`: the non-empty strings, in order. */
  function DropEmpty(xs: seq<string>): seq<string>
    decreases |xs|
  {
    if xs == [] then []
    else DropEmpty(xs[..|xs| - 1]) + (if xs[|xs| - 1] == "" then [] else [xs[|xs| - 1]])
  }

  /** The filter keeps no empty string, and drops everything exactly when everything is empty. */
  lemma {:induction false} DropEmptyFacts(xs: seq<string>)
    ensures forall e :: e in DropEmpty(xs) ==> e != ""
    ensures DropEmpty(xs) == [] <==> forall k :: 0 <= k < |xs| ==> xs[k] == ""
    decreases |xs|
  {
    if xs != [] {
      var init := xs[..|xs| - 1];
      DropEmptyFacts(init);
      assert forall k :: 0 <= k < |init| ==> init[k] == xs[k];
    }
  }

  /** Python's `s[:n]`, where a negative `n` counts from the end. */
  function PyPrefix<T>(s: seq<T>, n: int): (r: seq<T>)
    ensures |r| <= |s| && r == s[..|r|]
    ensures n >= 0 ==> |r| == Min(n, |s|)
    ensures n < 0 ==> |r| == Max(|s| + n, 0)
  {
    if n >= 0 then (if n <= |s| then s[..n] else s)
    else if |s| + n >= 0 then s[..|s| + n] else []
  }

  function DigitChar(d: nat): (c: char)
    requires d < 10
    ensures IsDigit(c)
  {
    ('0' as int + d) as char
  }

  function DigitValue(c: char): (d: nat)
    requires IsDigit(c)
    ensures d < 10 && DigitChar(d) == c
  {
    c as int - '0' as int
  }

  /** `str(n)` for a natural number: decimal digits, no leading zero. */
  function NatToString(n: nat): (r: string)
    ensures |r| >= 1 && forall i :: 0 <= i < |r| ==> IsDigit(r[i])
    ensures r[0] == '0' ==> n == 0
    decreases n
  {
    if n < 10 then [DigitChar(n)] else NatToString(n / 10) + [DigitChar(n % 10)]
  }

  /** `str(i)` for an integer. */
  function IntToString(i: int): string {
    if i < 0 then "-" + NatToString(-i) else NatToString(i)
  }
}
