/**
 * The command-line front end of the research analyzer: `int()` on a typed line,
 * the prompt loop of `get_user_int` that re-asks until a line is empty (take the
 * default) or holds an integer in range, and the choice of the paper count, idea
 * count and word limit between command-line arguments and prompting. The lines
 * the user types are a sequence; running out of them is end of input, where
 * `input()` raises `EOFError`.
 */
module Cli {
  import opened Wrappers
  import opened PyStr

  /** Digits with single underscores between them, as `int()` accepts after the sign. */
  predicate IsDigitGroups(b: string)
    decreases |b|
  {
    && |b| > 0 && IsDigit(b[0])
    && (|b| == 1 || if b[1] == '_' then |b| > 2 && IsDigitGroups(b[2..]) else IsDigitGroups(b[1..]))
  }

  /** The decimal value of the digits of a string, other characters skipped. */
  function DigitsValue(b: string): nat
    decreases |b|
  {
    if b == [] then 0
    else if IsDigit(b[|b| - 1]) then DigitsValue(b[..|b| - 1]) * 10 + DigitValue(b[|b| - 1])
    else DigitsValue(b[..|b| - 1])
  }

  /** Whether the text starts with a sign character. */
  predicate Signed(s: string) {
    s != [] && (s[0] == '+' || s[0] == '-')
  }

  /** The text after an optional sign. */
  function Unsigned(s: string): string {
    if Signed(s) then s[1..] else s
  }

  /** Python's `int(s)` in base 10 on ASCII text without surrounding whitespace: an optional sign,
      then digit groups, whose underscores do not count; anything else raises `ValueError` (None). */
  function ParseInt(s: string): Option<int> {
    if IsDigitGroups(Unsigned(s)) then
      var v: int := DigitsValue(Unsigned(s));
      Some(if Signed(s) && s[0] == '-' then -v else v)
    else None
  }

  /** An accepted text is not empty, and a negative value comes only from a leading '-'. */
  lemma ParseIntSign(s: string)
    ensures ParseInt(s).Some? ==> s != ""
    ensures ParseInt(s).Some? && ParseInt(s).value < 0 ==> s[0] == '-'
  {
  }

  /** Single underscores between digits are ignored, a sign needs digits after it, and an
      underscore at either end or doubled makes the text no integer. */
  lemma ParseIntExamples()
    ensures ParseInt("+7") == Some(7) && ParseInt("-42") == Some(-42) && ParseInt("1_000") == Some(1000)
    ensures ParseInt("").None? && ParseInt("-").None? && ParseInt("12a").None?
    ensures ParseInt("_1").None? && ParseInt("1_").None? && ParseInt("1__0").None?
  {
    assert Unsigned("-42") == "42" && "42"[..1] == "4";
    assert Unsigned("1_000") == "1_000" && "1_000"[2..] == "000" && "000"[1..] == "00" && "00"[1..] == "0";
    assert "1_000"[..4] == "1_00" && "1_00"[..3] == "1_0" && "1_0"[..2] == "1_" && "1_"[..1] == "1";
    assert "12a"[1..] == "2a" && "2a"[1..] == "a";
    assert "1__0"[2..] == "_0";
  }

  lemma {:induction false} DigitsValueOfNat(n: nat)
    ensures DigitsValue(NatToString(n)) == n
    decreases n
  {
    if n >= 10 {
      DigitsValueOfNat(n / 10);
      var r := NatToString(n);
      assert r[..|r| - 1] == NatToString(n / 10);
    }
  }

  lemma {:induction false} DigitsAreGroups(ds: string)
    requires |ds| > 0 && forall i :: 0 <= i < |ds| ==> IsDigit(ds[i])
    ensures IsDigitGroups(ds)
    decreases |ds|
  {
    if |ds| > 1 {
      DigitsAreGroups(ds[1..]);
    }
  }

  lemma ParseDigits(ds: string)
    requires |ds| > 0 && forall i :: 0 <= i < |ds| ==> IsDigit(ds[i])
    ensures ParseInt(ds) == Some(DigitsValue(ds) as int)
  {
    DigitsAreGroups(ds);
    assert Unsigned(ds) == ds;
  }

  lemma ParseNegDigits(ds: string)
    requires |ds| > 0 && forall i :: 0 <= i < |ds| ==> IsDigit(ds[i])
    ensures ParseInt("-" + ds) == Some(-(DigitsValue(ds) as int))
  {
    DigitsAreGroups(ds);
    assert Unsigned("-" + ds) == ds;
  }

  /** `int(str(n)) == n`: reading back a printed integer gives it again. */
  lemma ParseIntToString(n: int)
    ensures ParseInt(IntToString(n)) == Some(n)
  {
    if n < 0 {
      ParseNegToString(n);
    } else {
      ParseNatToString(n);
    }
  }

  lemma ParseNatToString(n: int)
    requires n >= 0
    ensures ParseInt(IntToString(n)) == Some(n)
  {
    var ds := NatToString(n);
    assert IntToString(n) == ds;
    DigitsValueOfNat(n);
    ParseDigits(ds);
  }

  lemma ParseNegToString(n: int)
    requires n < 0
    ensures ParseInt(IntToString(n)) == Some(n)
  {
    var ds := NatToString(-n);
    assert IntToString(n) == "-" + ds;
    DigitsValueOfNat(-n);
    ParseNegDigits(ds);
  }

  /** What `get_user_int` makes of one typed line: a value it returns, or a reason to ask again. */
  datatype Verdict = Accept(value: int) | NotInteger | OutOfRange {
    predicate Rejected() { !Accept? }
  }

  const InvalidMessage: string := "Invalid input. Please enter a valid integer."

  const BetweenPrefix: string := "Please enter a number between "
  const AtLeastPrefix: string := "Please enter a number >= "

  function BetweenMessage(minValue: int, maxValue: int): string {
    BetweenPrefix + IntToString(minValue) + " and " + IntToString(maxValue)
  }

  function AtLeastMessage(minValue: int): string {
    AtLeastPrefix + IntToString(minValue)
  }

  predicate InRange(n: int, minValue: int, maxValue: Option<int>) {
    n >= minValue && (maxValue.None? || n <= maxValue.value)
  }

  function Judge(line: string, default: int, minValue: int, maxValue: Option<int>): Verdict {
    var val := Strip(line);
    if val == "" then Accept(default)
    else match ParseInt(val)
      case None => NotInteger
      case Some(num) => if InRange(num, minValue, maxValue) then Accept(num) else OutOfRange
  }

  /** The message printed for a rejected line. */
  function Complaint(v: Verdict, minValue: int, maxValue: Option<int>): string {
    match v
    case Accept(_) => ""
    case NotInteger => InvalidMessage
    case OutOfRange => if maxValue.Some? then BetweenMessage(minValue, maxValue.value) else AtLeastMessage(minValue)
  }

  /** A blank line takes the default; any other line is accepted exactly when it parses as an
      integer in range, and then with that integer. */
  lemma JudgeSpec(line: string, default: int, minValue: int, maxValue: Option<int>)
    ensures var v := Judge(line, default, minValue, maxValue);
            && (Strip(line) == "" ==> v == Accept(default))
            && (Strip(line) != "" ==>
                  (v.Accept? <==> ParseInt(Strip(line)).Some? && InRange(ParseInt(Strip(line)).value, minValue, maxValue)))
            && (v.Accept? && Strip(line) != "" ==> v.value == ParseInt(Strip(line)).value)
            && (v.Accept? ==> v.value == default || InRange(v.value, minValue, maxValue))
  {
  }

  /** What the prompt loop makes of the typed lines: the value it returns (None when the lines run
      out, where `input()` raises `EOFError`) and the complaints it prints, in order. */
  datatype Dialogue = Dialogue(answer: Option<int>, complaints: seq<string>)

  /** The dialogue for a sequence of verdicts: each rejection adds its complaint, the first
      acceptance ends it. */
  function Talk(vs: seq<Verdict>, minValue: int, maxValue: Option<int>): Dialogue
    decreases |vs|
  {
    if vs == [] then Dialogue(None, [])
    else if vs[0].Accept? then Dialogue(Some(vs[0].value), [])
    else
      var rest := Talk(vs[1..], minValue, maxValue);
      Dialogue(rest.answer, [Complaint(vs[0], minValue, maxValue)] + rest.complaints)
  }

  /** One complaint per verdict before the answer, each a rejection complained about with its own
      message; the answer is the next verdict's value; without an answer, every verdict was a
      rejection. */
  lemma {:induction false} TalkSpec(vs: seq<Verdict>, minValue: int, maxValue: Option<int>)
    ensures var d := Talk(vs, minValue, maxValue);
            && |d.complaints| <= |vs|
            && (d.answer.None? ==> |d.complaints| == |vs|)
            && (d.answer.Some? ==> |d.complaints| < |vs| && vs[|d.complaints|] == Accept(d.answer.value))
            && forall j :: 0 <= j < |d.complaints| ==>
                 vs[j].Rejected() && d.complaints[j] == Complaint(vs[j], minValue, maxValue)
    decreases |vs|
  {
    if vs != [] && vs[0].Rejected() {
      var tail := vs[1..];
      TalkSpec(tail, minValue, maxValue);
      var d := Talk(vs, minValue, maxValue);
      var r := Talk(tail, minValue, maxValue);
      forall j | 1 <= j < |d.complaints|
        ensures vs[j].Rejected() && d.complaints[j] == Complaint(vs[j], minValue, maxValue)
      {
        assert vs[j] == tail[j - 1] && d.complaints[j] == r.complaints[j - 1];
      }
      if d.answer.Some? {
        assert vs[|d.complaints|] == tail[|r.complaints|];
      }
    }
  }

  /** The dialogue from verdict `i` on, split into what the loop has printed so far and the rest. */
  ghost predicate TalkFrom(whole: Dialogue, vs: seq<Verdict>, i: nat, complaints: seq<string>, minValue: int, maxValue: Option<int>)
    requires i <= |vs|
  {
    var rest := Talk(vs[i..], minValue, maxValue);
    whole == Dialogue(rest.answer, complaints + rest.complaints)
  }

  /** A rejected verdict moves its complaint from the rest of the dialogue to what was printed. */
  lemma TalkReject(whole: Dialogue, vs: seq<Verdict>, i: nat, complaints: seq<string>, minValue: int, maxValue: Option<int>)
    requires i < |vs| && vs[i].Rejected() && TalkFrom(whole, vs, i, complaints, minValue, maxValue)
    ensures TalkFrom(whole, vs, i + 1, complaints + [Complaint(vs[i], minValue, maxValue)], minValue, maxValue)
  {
    assert vs[i..][0] == vs[i];
    assert vs[i..][1..] == vs[i + 1..];
    var rest := Talk(vs[i + 1..], minValue, maxValue);
    var c := Complaint(vs[i], minValue, maxValue);
    assert complaints + ([c] + rest.complaints) == (complaints + [c]) + rest.complaints;
  }

  /** An accepted verdict ends the dialogue with its value. */
  lemma TalkAccept(whole: Dialogue, vs: seq<Verdict>, i: nat, complaints: seq<string>, minValue: int, maxValue: Option<int>)
    requires i < |vs| && vs[i].Accept? && TalkFrom(whole, vs, i, complaints, minValue, maxValue)
    ensures whole == Dialogue(Some(vs[i].value), complaints)
  {
    assert vs[i..][0] == vs[i];
    assert complaints + [] == complaints;
  }

  /** When the verdicts run out, the dialogue has no answer. */
  lemma TalkEnd(whole: Dialogue, vs: seq<Verdict>, complaints: seq<string>, minValue: int, maxValue: Option<int>)
    requires TalkFrom(whole, vs, |vs|, complaints, minValue, maxValue)
    ensures whole == Dialogue(None, complaints)
  {
    assert vs[|vs|..] == [];
    assert complaints + [] == complaints;
  }

  /** The verdict on each typed line. */
  function Verdicts(inputs: seq<string>, default: int, minValue: int, maxValue: Option<int>): (vs: seq<Verdict>)
    ensures |vs| == |inputs|
  {
    seq(|inputs|, j requires 0 <= j < |inputs| => Judge(inputs[j], default, minValue, maxValue))
  }

  /** The dialogue of `get_user_int` on the typed lines. */
  function Converse(inputs: seq<string>, default: int, minValue: int, maxValue: Option<int>): Dialogue {
    Talk(Verdicts(inputs, default, minValue, maxValue), minValue, maxValue)
  }

  /** The value `get_user_int` returns for the typed lines. */
  function FirstAccepted(inputs: seq<string>, default: int, minValue: int, maxValue: Option<int>): Option<int> {
    Converse(inputs, default, minValue, maxValue).answer
  }

  /** The answer is the default or a value in range, it comes from the first acceptable line, and
      there is none exactly when no line is acceptable. */
  lemma FirstAcceptedSpec(inputs: seq<string>, default: int, minValue: int, maxValue: Option<int>)
    ensures var r := FirstAccepted(inputs, default, minValue, maxValue);
            && (r.Some? ==> r.value == default || InRange(r.value, minValue, maxValue))
            && (r.None? <==> forall j :: 0 <= j < |inputs| ==> Judge(inputs[j], default, minValue, maxValue).Rejected())
            && (r.Some? ==> exists k :: 0 <= k < |inputs| && Judge(inputs[k], default, minValue, maxValue) == Accept(r.value)
                             && forall j :: 0 <= j < k ==> Judge(inputs[j], default, minValue, maxValue).Rejected())
  {
    var vs := Verdicts(inputs, default, minValue, maxValue);
    TalkSpec(vs, minValue, maxValue);
    var d := Talk(vs, minValue, maxValue);
    var k := |d.complaints|;
    forall j | 0 <= j < k ensures Judge(inputs[j], default, minValue, maxValue).Rejected() {
      assert vs[j] == Judge(inputs[j], default, minValue, maxValue);
    }
    if d.answer.Some? {
      assert vs[k] == Judge(inputs[k], default, minValue, maxValue);
      JudgeSpec(inputs[k], default, minValue, maxValue);
    }
  }

  /** One round of the prompt loop: strip the typed line, take the default for an empty one,
      else parse it and check the range; on rejection, the message printed. */
  method ReadLine(line: string, default: int, minValue: int, maxValue: Option<int>)
    returns (accepted: Option<int>, complaint: string)
    ensures var v := Judge(line, default, minValue, maxValue);
            && (v.Accept? ==> accepted == Some(v.value))
            && (v.Rejected() ==> accepted.None? && complaint == Complaint(v, minValue, maxValue))
  {
    complaint := "";
    var val := Strip(line);
    if val == "" {
      return Some(default), complaint;
    }
    var num := ParseInt(val);
    if num.Some? && InRange(num.value, minValue, maxValue) {
      return Some(num.value), complaint;
    }
    accepted := None;
    if num.None? {
      complaint := InvalidMessage;
    } else if maxValue.Some? {
      complaint := BetweenMessage(minValue, maxValue.value);
    } else {
      complaint := AtLeastMessage(minValue);
    }
  }

  /** `get_user_int`: reads lines until one is accepted, printing a complaint for each line it
      rejects; returns None where `input()` would raise `EOFError`. */
  method GetUserInt(inputs: seq<string>, default: int, minValue: int, maxValue: Option<int>)
    returns (r: Option<int>, complaints: seq<string>)
    ensures Dialogue(r, complaints) == Converse(inputs, default, minValue, maxValue)
  {
    ghost var vs := Verdicts(inputs, default, minValue, maxValue);
    ghost var whole := Talk(vs, minValue, maxValue);
    complaints := [];
    var i := 0;
    assert vs[0..] == vs;
    assert [] + whole.complaints == whole.complaints;
    while i < |inputs|
      invariant 0 <= i <= |inputs|
      invariant TalkFrom(whole, vs, i, complaints, minValue, maxValue)
    {
      assert vs[i] == Judge(inputs[i], default, minValue, maxValue);
      var accepted, complaint := ReadLine(inputs[i], default, minValue, maxValue);
      if accepted.Some? {
        TalkAccept(whole, vs, i, complaints, minValue, maxValue);
        return accepted, complaints;
      }
      TalkReject(whole, vs, i, complaints, minValue, maxValue);
      complaints := complaints + [complaint];
      i := i + 1;
    }
    TalkEnd(whole, vs, complaints, minValue, maxValue);
    r := None;
  }

  const MinWordLimit: int := 100
  const MaxWordLimit: int := 250

  /** The command-line word limit is taken only when it lies in (100, 250]. */
  predicate WordLimitArgOk(arg: Option<int>) {
    arg.Some? && MinWordLimit < arg.value <= MaxWordLimit
  }

  /** The word limit of a run: the argument when it passes the guard, else asked for with default
      250 and range 101..250. */
  method ResolveWordLimit(arg: Option<int>, inputs: seq<string>) returns (wordLimit: Option<int>)
    ensures WordLimitArgOk(arg) ==> wordLimit == arg
    ensures !WordLimitArgOk(arg) ==> wordLimit == FirstAccepted(inputs, MaxWordLimit, MinWordLimit + 1, Some(MaxWordLimit))
    ensures wordLimit.Some? ==> MinWordLimit < wordLimit.value <= MaxWordLimit
  {
    if WordLimitArgOk(arg) {
      wordLimit := arg;
    } else {
      FirstAcceptedSpec(inputs, MaxWordLimit, MinWordLimit + 1, Some(MaxWordLimit));
      var complaints;
      wordLimit, complaints := GetUserInt(inputs, MaxWordLimit, MinWordLimit + 1, Some(MaxWordLimit));
    }
  }

  /** The paper or idea count of a run: the argument as given, unchecked, else asked for with
      default 10 and minimum 1. */
  method ResolveCount(arg: Option<int>, inputs: seq<string>) returns (count: Option<int>)
    ensures arg.Some? ==> count == arg
    ensures arg.None? ==> count == FirstAccepted(inputs, 10, 1, None)
    ensures arg.None? && count.Some? ==> count.value >= 1
  {
    if arg.Some? {
      count := arg;
    } else {
      FirstAcceptedSpec(inputs, 10, 1, None);
      var complaints;
      count, complaints := GetUserInt(inputs, 10, 1, None);
    }
  }
}
