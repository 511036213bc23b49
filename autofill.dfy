/**
 * The spoken-text field extractor of the back end (`parse_data`): it
 * lower-cases a transcript and fills a dictionary of form fields from a
 * fixed set of keyword patterns. Each regular expression it uses is written
 * out here as the scan it performs: a numeric pattern is a keyword, optional
 * white space and a greedy run of digits, found at its leftmost position; a
 * history flag is a negation word (matched as a raw substring) followed, on
 * the same line, by a phrase.
 */
module Autofill {
  import opened Wrappers
  import opened Strings
  import opened JsValues

  /** `\d`, restricted to the ASCII digits. */
  predicate IsDigit(c: char) { '0' <= c <= '9' }

  /** `\s` of a Python `str` pattern: the characters for which `str.isspace()` holds. */
  predicate IsPySpace(c: char) {
    || c == '\t' || c == '\n' || c == '\U{B}' || c == '\U{C}' || c == '\r'
    || ('\U{1C}' <= c <= '\U{1F}') || c == ' ' || c == '\U{85}' || c == '\U{A0}'
    || c == '\U{1680}' || ('\U{2000}' <= c <= '\U{200A}') || c == '\U{2028}'
    || c == '\U{2029}' || c == '\U{202F}' || c == '\U{205F}' || c == '\U{3000}'
  }

  /** A non-empty string of digits. */
  predicate IsDigits(s: string) { |s| > 0 && AllIn(s, IsDigit) }

  /** The shape `\d+\.?\d*`: digits first, then digits with at most one dot among them. */
  predicate IsDecimal(s: string) {
    && |s| > 0 && IsDigit(s[0])
    && (forall i :: 0 <= i < |s| ==> IsDigit(s[i]) || s[i] == '.')
    && (forall i, j :: 0 <= i < j < |s| && s[i] == '.' ==> s[j] != '.')
  }

  /** A captured group: its text and the position just after it. */
  datatype Capture = Capture(text: string, end: nat)

  /**
   * `c` is a capture of `\s*(\d+)` at `k`: white space from `k`, then the
   * whole run of digits that follows it.
   */
  predicate DigitsCapture(t: string, k: nat, c: Capture) {
    var s := c.end - |c.text|;
    && k <= s <= c.end <= |t| && c.text == t[s..c.end]
    && AllIn(t[k..s], IsPySpace) && IsDigits(c.text)
    && (c.end == |t| || !IsDigit(t[c.end]))
  }

  /**
   * `\s*(\d+)` matched at `k`: the white space is skipped greedily and the
   * group is the whole run of digits that follows; there is no match when no
   * digit follows the white space.
   */
  function DigitsAfterSpace(t: string, k: nat): (c: Option<Capture>)
    requires k <= |t|
    ensures c.Some? ==> DigitsCapture(t, k, c.value)
    ensures c.None? ==> var s := RunEnd(t, k, IsPySpace); s == |t| || !IsDigit(t[s])
  {
    var s := RunEnd(t, k, IsPySpace);
    var e := RunEnd(t, s, IsDigit);
    if s < e then Some(Capture(t[s..e], e)) else None
  }

  /**
   * `c` is a capture of `\s*(\d+\.?\d*)` at `k`: white space from `k`, then the
   * decimal, which is followed by neither a digit nor, when it has no dot, a dot.
   */
  predicate DecimalCapture(t: string, k: nat, c: Capture) {
    var s := c.end - |c.text|;
    && k <= s <= c.end <= |t| && c.text == t[s..c.end]
    && AllIn(t[k..s], IsPySpace) && IsDecimal(c.text)
    && (c.end == |t| || !IsDigit(t[c.end]))
    && ('.' !in c.text ==> c.end == |t| || t[c.end] != '.')
  }

  /**
   * `\s*(\d+\.?\d*)` matched at `k`: the digit run, then, when a dot follows
   * it, the dot and the digit run after the dot.
   */
  function DecimalAfterSpace(t: string, k: nat): (c: Option<Capture>)
    requires k <= |t|
    ensures c.Some? ==> DecimalCapture(t, k, c.value)
    ensures c.None? <==> DigitsAfterSpace(t, k).None?
  {
    match DigitsAfterSpace(t, k)
    case None => None
    case Some(d) =>
      if d.end < |t| && t[d.end] == '.' then
        var e := RunEnd(t, d.end + 1, IsDigit);
        DottedCapture(t, k, d, e);
        Some(Capture(t[d.end - |d.text|..e], e))
      else
        UndottedCapture(t, k, d);
        Some(d)
  }

  /** A digit run not followed by a dot is a decimal capture on its own. */
  lemma UndottedCapture(t: string, k: nat, d: Capture)
    requires DigitsCapture(t, k, d) && !(d.end < |t| && t[d.end] == '.')
    ensures DecimalCapture(t, k, d)
  {
  }

  /** A digit run, the dot after it and the digit run after the dot form a decimal capture. */
  lemma DottedCapture(t: string, k: nat, d: Capture, e: nat)
    requires DigitsCapture(t, k, d) && d.end < |t| && t[d.end] == '.'
    requires d.end + 1 <= e <= |t| && AllIn(t[d.end + 1..e], IsDigit) && (e == |t| || !IsDigit(t[e]))
    ensures DecimalCapture(t, k, Capture(t[d.end - |d.text|..e], e))
  {
    var s := d.end - |d.text|;
    assert AllIn(t[s..d.end], IsDigit);
    DottedDecimal(t, s, d.end, e);
  }

  /** Digits, a dot, and digits make a decimal. */
  lemma DottedDecimal(t: string, s: nat, dot: nat, e: nat)
    requires s < dot < e <= |t| && t[dot] == '.'
    requires AllIn(t[s..dot], IsDigit) && AllIn(t[dot + 1..e], IsDigit)
    ensures IsDecimal(t[s..e]) && '.' in t[s..e]
  {
    var g := t[s..e];
    assert g[dot - s] == '.';
    forall i | 0 <= i < |g| && i != dot - s
      ensures IsDigit(g[i])
    {
      if i < dot - s {
        assert g[i] == t[s..dot][i];
      } else {
        assert g[i] == t[dot + 1..e][i - (dot - s) - 1];
      }
    }
  }

  /** The alternatives of `(?:by|over|/)`. */
  const SeparatorWords: seq<string> := ["by", "over", "/"]

  /** `(?:by|over|/)` at `s`: the position just past the separator found there, if any. */
  function Separator(t: string, s: nat): (e: Option<nat>)
    ensures e.Some? ==> s < e.value <= |t|
  {
    if StartsAt(t, s, "by") then Some(s + 2)
    else if StartsAt(t, s, "over") then Some(s + 4)
    else if StartsAt(t, s, "/") then Some(s + 1)
    else None
  }

  /** A separator is found at `s` exactly when one of the alternatives starts there, and it ends where that alternative ends. */
  lemma SeparatorFound(t: string, s: nat)
    ensures Separator(t, s).Some? <==> exists n :: 0 <= n < |SeparatorWords| && StartsAt(t, s, SeparatorWords[n])
    ensures forall n :: 0 <= n < |SeparatorWords| && StartsAt(t, s, SeparatorWords[n]) ==>
      Separator(t, s) == Some(s + |SeparatorWords[n]|)
  {
    SeparatorCases(t, s);
  }

  /** A separator starts at `s` exactly when one of the three does; the first characters differ, so at most one does. */
  lemma SeparatorCases(t: string, s: nat)
    ensures (exists n :: 0 <= n < |SeparatorWords| && StartsAt(t, s, SeparatorWords[n]))
      <==> StartsAt(t, s, "by") || StartsAt(t, s, "over") || StartsAt(t, s, "/")
    ensures StartsAt(t, s, "by") ==> !StartsAt(t, s, "over") && !StartsAt(t, s, "/")
    ensures StartsAt(t, s, "over") ==> !StartsAt(t, s, "/")
  {
    assert SeparatorWords[0] == "by" && SeparatorWords[1] == "over" && SeparatorWords[2] == "/";
    if StartsAt(t, s, "by") {
      assert t[s..s + 2][0] == t[s] == 'b';
    }
    if StartsAt(t, s, "over") {
      assert t[s..s + 4][0] == t[s] == 'o';
    }
    if StartsAt(t, s, "/") {
      assert t[s..s + 1][0] == t[s] == '/';
    }
  }

  /** The patterns `parse_data` searches for, in the order it searches them. */
  datatype Pattern = Age | BloodPressure | BloodSugar | Temperature | Bmi | HeartRate

  /** The keyword alternatives of each pattern, in the order the regular expression tries them. */
  function Keywords(p: Pattern): seq<string> {
    match p
    case Age => ["age"]
    case BloodPressure => ["bp", "blood pressure"]
    case BloodSugar => ["blood sugar", "glucose", "bs"]
    case Temperature => ["temperature", "temp"]
    case Bmi => ["bmi"]
    case HeartRate => ["heart rate", "pulse"]
  }

  function GroupCount(p: Pattern): nat { if p == BloodPressure then 2 else 1 }

  /** What a captured group of pattern `p` looks like. */
  predicate IsNumeral(p: Pattern, s: string) {
    if p == Temperature || p == Bmi then IsDecimal(s) else IsDigits(s)
  }

  /** The part of pattern `p` after its keyword, matched at `k`: the captured groups. */
  function Tail(p: Pattern, t: string, k: nat): (g: Option<seq<string>>)
    requires k <= |t|
    ensures g.Some? ==> |g.value| == GroupCount(p) && forall n :: 0 <= n < |g.value| ==> IsNumeral(p, g.value[n])
  {
    match p
    case Temperature | Bmi =>
      (match DecimalAfterSpace(t, k)
       case None => None
       case Some(c) => Some([c.text]))
    case BloodPressure =>
      // `\s*(\d+)\s*(?:by|over|/)\s*(\d+)`
      (match DigitsAfterSpace(t, k)
       case None => None
       case Some(first) =>
         match Separator(t, RunEnd(t, first.end, IsPySpace))
         case None => None
         case Some(e) =>
           match DigitsAfterSpace(t, e)
           case None => None
           case Some(second) => Some([first.text, second.text]))
    case _ =>
      (match DigitsAfterSpace(t, k)
       case None => None
       case Some(c) => Some([c.text]))
  }

  /** The capture of `\s*(\d+)` at `k` is unique: it is the one `DigitsAfterSpace` finds. */
  lemma DigitsCaptureUnique(t: string, k: nat, c: Capture)
    requires k <= |t| && DigitsCapture(t, k, c)
    ensures DigitsAfterSpace(t, k) == Some(c)
  {
    var s := c.end - |c.text|;
    assert t[s] == c.text[0];
    RunEndUnique(t, k, s, IsPySpace);
    RunEndUnique(t, s, c.end, IsDigit);
  }

  /** A decimal with a dot at `q` has only digits on each side of it. */
  lemma DecimalDotSplit(x: string, q: nat)
    requires IsDecimal(x) && q < |x| && x[q] == '.'
    ensures AllIn(x[..q], IsDigit) && AllIn(x[q + 1..], IsDigit)
  {
    var before, after := x[..q], x[q + 1..];
    forall i | 0 <= i < |before|
      ensures IsDigit(before[i])
    {
      assert before[i] == x[i];
    }
    forall i | 0 <= i < |after|
      ensures IsDigit(after[i])
    {
      assert after[i] == x[q + 1 + i];
    }
  }

  /** The capture of `\s*(\d+\.?\d*)` at `k` is unique: it is the one `DecimalAfterSpace` finds. */
  lemma DecimalCaptureUnique(t: string, k: nat, c: Capture)
    requires k <= |t| && DecimalCapture(t, k, c)
    ensures DecimalAfterSpace(t, k) == Some(c)
  {
    if '.' in c.text {
      var q :| 0 <= q < |c.text| && c.text[q] == '.';
      DottedCaptureUnique(t, k, c, q);
    } else {
      UndottedCaptureUnique(t, k, c);
    }
  }

  lemma UndottedCaptureUnique(t: string, k: nat, c: Capture)
    requires k <= |t| && DecimalCapture(t, k, c) && '.' !in c.text
    ensures DecimalAfterSpace(t, k) == Some(c)
  {
    var s := c.end - |c.text|;
    assert t[s] == c.text[0];
    RunEndUnique(t, k, s, IsPySpace);
    assert AllIn(t[s..c.end], IsDigit) by {
      forall i | 0 <= i < |c.text|
        ensures IsDigit(c.text[i])
      {
        assert c.text[i] != '.';
      }
    }
    RunEndUnique(t, s, c.end, IsDigit);
    assert DigitsAfterSpace(t, k) == Some(c);
  }

  lemma DottedCaptureUnique(t: string, k: nat, c: Capture, q: nat)
    requires k <= |t| && DecimalCapture(t, k, c) && q < |c.text| && c.text[q] == '.'
    ensures DecimalAfterSpace(t, k) == Some(c)
  {
    var s := c.end - |c.text|;
    var x := c.text;
    assert t[s] == x[0];
    RunEndUnique(t, k, s, IsPySpace);
    DecimalDotSplit(x, q);
    assert t[s + q] == x[q] == '.';
    assert t[s..s + q] == x[..q];
    assert t[s + q + 1..c.end] == x[q + 1..];
    RunEndUnique(t, s, s + q, IsDigit);
    RunEndUnique(t, s + q + 1, c.end, IsDigit);
    DottedOutcome(t, k, s, s + q, c.end);
  }

  /** When the white space ends at `s`, the digits at `dot` and a dot follows with digits up to `e`, the decimal is `t[s..e]`. */
  lemma DottedOutcome(t: string, k: nat, s: nat, dot: nat, e: nat)
    requires k <= s < dot < e <= |t| && t[dot] == '.'
    requires RunEnd(t, k, IsPySpace) == s && RunEnd(t, s, IsDigit) == dot && RunEnd(t, dot + 1, IsDigit) == e
    ensures DecimalAfterSpace(t, k) == Some(Capture(t[s..e], e))
  {
    var d := Capture(t[s..dot], dot);
    assert DigitsAfterSpace(t, k) == Some(d);
    assert d.end - |d.text| == s && t[d.end] == '.';
  }

  /** Age, blood sugar and heart rate: the tail matches exactly when a digit capture exists, and captures it. */
  lemma TailOfDigitPattern(p: Pattern, t: string, k: nat)
    requires p == Age || p == BloodSugar || p == HeartRate
    requires k <= |t|
    ensures Tail(p, t, k).Some? <==> exists c :: DigitsCapture(t, k, c)
    ensures forall c :: DigitsCapture(t, k, c) ==> Tail(p, t, k) == Some([c.text])
  {
    forall c | DigitsCapture(t, k, c)
      ensures Tail(p, t, k) == Some([c.text])
    {
      DigitsCaptureUnique(t, k, c);
    }
    if Tail(p, t, k).Some? {
      assert DigitsCapture(t, k, DigitsAfterSpace(t, k).value);
    }
  }

  /** Temperature and BMI: the tail matches exactly when a decimal capture exists, and captures it. */
  lemma TailOfDecimalPattern(p: Pattern, t: string, k: nat)
    requires p == Temperature || p == Bmi
    requires k <= |t|
    ensures Tail(p, t, k).Some? <==> exists c :: DecimalCapture(t, k, c)
    ensures forall c :: DecimalCapture(t, k, c) ==> Tail(p, t, k) == Some([c.text])
  {
    forall c | DecimalCapture(t, k, c)
      ensures Tail(p, t, k) == Some([c.text])
    {
      DecimalCaptureUnique(t, k, c);
    }
    if Tail(p, t, k).Some? {
      assert DecimalCapture(t, k, DecimalAfterSpace(t, k).value);
    }
  }

  /**
   * `\s*(\d+)\s*(?:by|over|/)\s*(\d+)` at `k`: the first digit capture, white
   * space up to `m`, a separator at `m`, and the second digit capture after it.
   */
  predicate BloodPressureCaptures(t: string, k: nat, first: Capture, second: Capture) {
    && DigitsCapture(t, k, first)
    && exists m: nat, n :: && first.end <= m <= |t| && 0 <= n < |SeparatorWords|
                           && AllIn(t[first.end..m], IsPySpace) && StartsAt(t, m, SeparatorWords[n])
                           && DigitsCapture(t, m + |SeparatorWords[n]|, second)
  }

  /** Blood pressure: the tail matches exactly when both captures exist, and captures both. */
  lemma TailOfBloodPressure(t: string, k: nat)
    requires k <= |t|
    ensures Tail(BloodPressure, t, k).Some? <==> exists c1, c2 :: BloodPressureCaptures(t, k, c1, c2)
    ensures forall c1, c2 :: BloodPressureCaptures(t, k, c1, c2) ==> Tail(BloodPressure, t, k) == Some([c1.text, c2.text])
  {
    forall c1, c2 | BloodPressureCaptures(t, k, c1, c2)
      ensures Tail(BloodPressure, t, k) == Some([c1.text, c2.text])
    {
      CapturesGiveTail(t, k, c1, c2);
    }
    if Tail(BloodPressure, t, k).Some? {
      TailGivesCaptures(t, k);
    }
  }

  lemma CapturesGiveTail(t: string, k: nat, c1: Capture, c2: Capture)
    requires k <= |t| && BloodPressureCaptures(t, k, c1, c2)
    ensures Tail(BloodPressure, t, k) == Some([c1.text, c2.text])
  {
    var m: nat, n :| && c1.end <= m <= |t| && 0 <= n < |SeparatorWords|
                     && AllIn(t[c1.end..m], IsPySpace) && StartsAt(t, m, SeparatorWords[n])
                     && DigitsCapture(t, m + |SeparatorWords[n]|, c2);
    CapturesAroundSeparator(t, k, c1, m, n, c2);
  }

  lemma CapturesAroundSeparator(t: string, k: nat, c1: Capture, m: nat, n: nat, c2: Capture)
    requires k <= |t| && DigitsCapture(t, k, c1)
    requires c1.end <= m <= |t| && AllIn(t[c1.end..m], IsPySpace)
    requires 0 <= n < |SeparatorWords| && StartsAt(t, m, SeparatorWords[n])
    requires DigitsCapture(t, m + |SeparatorWords[n]|, c2)
    ensures Tail(BloodPressure, t, k) == Some([c1.text, c2.text])
  {
    var e := m + |SeparatorWords[n]|;
    SeparatorNotSpace(t, m, n);
    RunEndUnique(t, c1.end, m, IsPySpace);
    DigitsCaptureUnique(t, k, c1);
    DigitsCaptureUnique(t, e, c2);
    BloodPressureTailFrom(t, k, c1, e, c2);
  }

  /** A separator does not start with white space. */
  lemma SeparatorNotSpace(t: string, m: nat, n: nat)
    requires 0 <= n < |SeparatorWords| && StartsAt(t, m, SeparatorWords[n])
    ensures m < |t| && !IsPySpace(t[m]) && Separator(t, m) == Some(m + |SeparatorWords[n]|)
  {
    SeparatorFound(t, m);
    assert t[m] == SeparatorWords[n][0] by {
      assert t[m..m + |SeparatorWords[n]|][0] == t[m];
    }
  }

  /** The three steps of the blood-pressure tail, each with its outcome. */
  lemma BloodPressureTailFrom(t: string, k: nat, c1: Capture, e: nat, c2: Capture)
    requires k <= |t| && e <= |t|
    requires DigitsAfterSpace(t, k) == Some(c1)
    requires Separator(t, RunEnd(t, c1.end, IsPySpace)) == Some(e)
    requires DigitsAfterSpace(t, e) == Some(c2)
    ensures Tail(BloodPressure, t, k) == Some([c1.text, c2.text])
  {
  }

  lemma TailGivesCaptures(t: string, k: nat)
    requires k <= |t| && Tail(BloodPressure, t, k).Some?
    ensures exists c1, c2 :: BloodPressureCaptures(t, k, c1, c2)
  {
    var c1 := DigitsAfterSpace(t, k).value;
    var m := RunEnd(t, c1.end, IsPySpace);
    var e := Separator(t, m).value;
    SeparatorFound(t, m);
    var c2 := DigitsAfterSpace(t, e).value;
    var n :| 0 <= n < |SeparatorWords| && StartsAt(t, m, SeparatorWords[n]);
    CapturesFromParts(t, k, c1, m, n, c2);
  }

  lemma CapturesFromParts(t: string, k: nat, c1: Capture, m: nat, n: nat, c2: Capture)
    requires DigitsCapture(t, k, c1)
    requires c1.end <= m <= |t| && AllIn(t[c1.end..m], IsPySpace)
    requires 0 <= n < |SeparatorWords| && StartsAt(t, m, SeparatorWords[n])
    requires DigitsCapture(t, m + |SeparatorWords[n]|, c2)
    ensures BloodPressureCaptures(t, k, c1, c2)
  {
  }

  /** Keyword `kw` at `i` followed by the tail of `p`: the groups, or nothing when either part fails. */
  function AfterKeyword(p: Pattern, t: string, i: nat, kw: string): (g: Option<seq<string>>)
    ensures g.Some? ==> StartsAt(t, i, kw) && |g.value| == GroupCount(p)
    ensures g.Some? ==> forall n :: 0 <= n < |g.value| ==> IsNumeral(p, g.value[n])
  {
    if StartsAt(t, i, kw) then Tail(p, t, i + |kw|) else None
  }

  /** An alternation of keywords followed by a common tail, tried in order: what the first keyword that leads to a match gives. */
  function FirstAlternative(after: string -> Option<seq<string>>, kws: seq<string>): (g: Option<seq<string>>)
    ensures g.Some? ==> exists n :: 0 <= n < |kws| && g == after(kws[n])
    decreases |kws|
  {
    if kws == [] then None
    else if after(kws[0]).Some? then after(kws[0])
    else
      var g := FirstAlternative(after, kws[1..]);
      assert g.Some? ==> exists n :: 0 <= n < |kws[1..]| && g == after(kws[1..][n]);
      g
  }

  /**
   * The alternation matches exactly when some keyword leads to a match, and
   * it then gives what the first such keyword gives.
   */
  lemma {:induction false} FirstAlternativeIsFirst(after: string -> Option<seq<string>>, kws: seq<string>)
    ensures FirstAlternative(after, kws).Some? <==> exists n :: 0 <= n < |kws| && after(kws[n]).Some?
    ensures FirstAlternative(after, kws).Some? ==>
      exists n :: && 0 <= n < |kws| && FirstAlternative(after, kws) == after(kws[n])
                  && forall m :: 0 <= m < n ==> after(kws[m]).None?
    decreases |kws|
  {
    if kws != [] && after(kws[0]).None? {
      var rest := kws[1..];
      FirstAlternativeIsFirst(after, rest);
      assert forall n :: 0 <= n < |rest| ==> rest[n] == kws[n + 1];
      if FirstAlternative(after, rest).Some? {
        var n :| && 0 <= n < |rest| && FirstAlternative(after, rest) == after(rest[n])
                 && forall m :: 0 <= m < n ==> after(rest[m]).None?;
        assert forall m :: 0 <= m < n + 1 ==> after(kws[m]).None? by {
          forall m | 0 <= m < n + 1
            ensures after(kws[m]).None?
          {
            if m > 0 {
              assert kws[m] == rest[m - 1];
            }
          }
        }
      }
      if exists n :: 0 <= n < |kws| && after(kws[n]).Some? {
        var n :| 0 <= n < |kws| && after(kws[n]).Some?;
        assert rest[n - 1] == kws[n];
      }
    }
  }

  /** The groups of pattern `p` when it matches at position `i`: its keywords, tried in order, then its tail. */
  function MatchAt(p: Pattern, t: string, i: nat): (m: Option<seq<string>>)
    ensures m.Some? ==> |m.value| == GroupCount(p) && forall n :: 0 <= n < |m.value| ==> IsNumeral(p, m.value[n])
  {
    FirstAlternative((kw: string) => AfterKeyword(p, t, i, kw), Keywords(p))
  }

  /**
   * Pattern `p` matches at `i` exactly when one of its keywords starts there
   * and is followed by the tail, and it then captures what follows the first
   * such keyword.
   */
  lemma MatchAtFirstKeyword(p: Pattern, t: string, i: nat)
    ensures MatchAt(p, t, i).Some? <==> exists n :: 0 <= n < |Keywords(p)| && AfterKeyword(p, t, i, Keywords(p)[n]).Some?
    ensures MatchAt(p, t, i).Some? ==>
      exists n :: && 0 <= n < |Keywords(p)| && MatchAt(p, t, i) == AfterKeyword(p, t, i, Keywords(p)[n])
                  && forall k :: 0 <= k < n ==> AfterKeyword(p, t, i, Keywords(p)[k]).None?
  {
    var after := (kw: string) => AfterKeyword(p, t, i, kw);
    assert MatchAt(p, t, i) == FirstAlternative(after, Keywords(p));
    FirstAlternativeIsFirst(after, Keywords(p));
  }

  /** A match: where it starts and what it captured. */
  datatype Hit = Hit(start: nat, groups: seq<string>)

  /** The first position in `from..last` where `matchAt` gives a match. */
  function Leftmost(matchAt: nat -> Option<seq<string>>, from: nat, last: nat): (h: Option<Hit>)
    ensures h.Some? ==> && from <= h.value.start <= last
                        && matchAt(h.value.start) == Some(h.value.groups)
                        && forall j :: from <= j < h.value.start ==> matchAt(j).None?
    ensures h.None? ==> forall j :: from <= j <= last ==> matchAt(j).None?
    decreases last + 1 - from
  {
    if from > last then None
    else if matchAt(from).Some? then Some(Hit(from, matchAt(from).value))
    else Leftmost(matchAt, from + 1, last)
  }

  /** `re.search`: the leftmost position, from `from` on, where `p` matches. */
  function Search(p: Pattern, t: string, from: nat): (h: Option<Hit>)
    ensures h.Some? ==> && from <= h.value.start <= |t|
                        && MatchAt(p, t, h.value.start) == Some(h.value.groups)
                        && forall j :: from <= j < h.value.start ==> MatchAt(p, t, j).None?
    ensures h.None? ==> forall j :: from <= j <= |t| ==> MatchAt(p, t, j).None?
    ensures h.Some? ==> |h.value.groups| == GroupCount(p)
  {
    var matchAt := (j: nat) => MatchAt(p, t, j);
    assert forall j: nat :: matchAt(j) == MatchAt(p, t, j);
    Leftmost(matchAt, from, |t|)
  }

  /** Group `n` of the leftmost match of `p` in `t`, as the string value stored in the dictionary. */
  function Group(p: Pattern, t: string, n: nat): (v: Option<Value>)
    requires n < GroupCount(p)
    ensures v.Some? ==> v.value.Str? && IsNumeral(p, v.value.s)
  {
    match Search(p, t, 0)
    case None => None
    case Some(h) => Some(Str(h.groups[n]))
  }

  /** The alternatives of `NEG`. */
  const NegWords: seq<string> := ["no", "not", "never", "don't", "do not", "didn't", "without", "none"]
  const MentalHealthWords: seq<string> := ["mental health", "depression", "anxiety"]
  /** `pre[- ]?existing diabetes` */
  const PreExistingWords: seq<string> := ["pre-existing diabetes", "pre existing diabetes", "preexisting diabetes"]
  const GestationalWords: seq<string> := ["gestational diabetes"]
  const ComplicationWords: seq<string> := ["complication"]
  const PreviousWords: seq<string> := ["previous"]

  /** One of `ws` occurs at position `j`. */
  predicate WordAt(t: string, j: nat, ws: seq<string>) {
    exists n :: 0 <= n < |ws| && StartsAt(t, j, ws[n])
  }

  /** One of `ws` occurs ending just before position `e`. */
  predicate WordBefore(t: string, e: nat, ws: seq<string>) {
    exists n :: 0 <= n < |ws| && |ws[n]| <= e && StartsAt(t, e - |ws[n]|, ws[n])
  }

  /** No newline in `t[a..b]` (what `.*` may cross). */
  predicate NoNewline(t: string, a: nat, b: nat)
    requires a <= b <= |t|
  {
    forall k :: a <= k < b ==> t[k] != '\n'
  }

  /** `re.search("(w1|w2|...)", t)` succeeds. */
  ghost predicate Mentioned(t: string, ws: seq<string>) {
    exists j :: 0 <= j <= |t| && WordAt(t, j, ws)
  }

  /** `re.search("(lead).*(ws)", t)` succeeds: a lead word, then later on the same line one of `ws`. */
  ghost predicate FollowedOnLine(t: string, lead: seq<string>, ws: seq<string>) {
    exists e, j :: 0 <= e <= j <= |t| && WordBefore(t, e, lead) && NoNewline(t, e, j) && WordAt(t, j, ws)
  }

  /** A lead word ends at some `e <= j` with no newline between `e` and `j`. */
  ghost predicate Armed(t: string, lead: seq<string>, j: nat)
    requires j <= |t|
  {
    exists e :: 0 <= e <= j && WordBefore(t, e, lead) && NoNewline(t, e, j)
  }

  lemma ArmedAtStart(t: string, lead: seq<string>)
    ensures Armed(t, lead, 0) <==> WordBefore(t, 0, lead)
  {
    if WordBefore(t, 0, lead) {
      assert NoNewline(t, 0, 0);
    }
  }

  /** How `Armed` advances by one character. */
  lemma ArmedStep(t: string, lead: seq<string>, j: nat)
    requires j < |t|
    ensures Armed(t, lead, j + 1) <==> (Armed(t, lead, j) && t[j] != '\n') || WordBefore(t, j + 1, lead)
  {
    if Armed(t, lead, j + 1) && !WordBefore(t, j + 1, lead) {
      var e :| 0 <= e <= j + 1 && WordBefore(t, e, lead) && NoNewline(t, e, j + 1);
      assert e <= j && NoNewline(t, e, j);
    }
    if Armed(t, lead, j) && t[j] != '\n' {
      var e :| 0 <= e <= j && WordBefore(t, e, lead) && NoNewline(t, e, j);
      assert NoNewline(t, e, j + 1);
    }
    if WordBefore(t, j + 1, lead) {
      assert NoNewline(t, j + 1, j + 1);
    }
  }

  lemma FollowedWhenArmed(t: string, lead: seq<string>, ws: seq<string>, j: nat)
    requires j <= |t| && Armed(t, lead, j) && WordAt(t, j, ws)
    ensures FollowedOnLine(t, lead, ws)
  {
    var e :| 0 <= e <= j && WordBefore(t, e, lead) && NoNewline(t, e, j);
  }

  lemma FollowedOnlyWhenArmed(t: string, lead: seq<string>, ws: seq<string>)
    requires FollowedOnLine(t, lead, ws)
    ensures exists j :: 0 <= j <= |t| && Armed(t, lead, j) && WordAt(t, j, ws)
  {
    var e, j :| 0 <= e <= j <= |t| && WordBefore(t, e, lead) && NoNewline(t, e, j) && WordAt(t, j, ws);
    assert Armed(t, lead, j);
  }

  /**
   * The search for `(lead).*(ws)` as one left-to-right scan: `armed` records
   * whether a lead word has ended earlier on the current line.
   */
  method FindFollowedOnLine(t: string, lead: seq<string>, ws: seq<string>) returns (found: bool)
    ensures found == FollowedOnLine(t, lead, ws)
  {
    ArmedAtStart(t, lead);
    var armed := WordBefore(t, 0, lead);
    var j := 0;
    while j <= |t|
      invariant j <= |t| + 1
      invariant j <= |t| ==> (armed <==> Armed(t, lead, j))
      invariant forall k :: 0 <= k < j ==> !(Armed(t, lead, k) && WordAt(t, k, ws))
    {
      if armed && WordAt(t, j, ws) {
        FollowedWhenArmed(t, lead, ws, j);
        return true;
      }
      if j < |t| {
        ArmedStep(t, lead, j);
        armed := (armed && t[j] != '\n') || WordBefore(t, j + 1, lead);
      }
      j := j + 1;
    }
    if FollowedOnLine(t, lead, ws) {
      FollowedOnlyWhenArmed(t, lead, ws);
    }
    return false;
  }

  /** The search for `(w1|w2|...)` as a left-to-right scan. */
  method FindMention(t: string, ws: seq<string>) returns (found: bool)
    ensures found == Mentioned(t, ws)
  {
    var j := 0;
    while j <= |t|
      invariant j <= |t| + 1
      invariant forall k :: 0 <= k < j ==> !WordAt(t, k, ws)
    {
      if WordAt(t, j, ws) {
        return true;
      }
      j := j + 1;
    }
    return false;
  }

  /** The value of a history flag: 0 when negated, otherwise 1 when affirmed, otherwise absent. */
  function Flag(negated: bool, affirmed: bool): (v: Option<Value>)
    ensures v.Some? ==> v.value == Num(0) || v.value == Num(1)
    ensures v == Some(Num(0)) <==> negated
    ensures v == Some(Num(1)) <==> !negated && affirmed
  {
    if negated then Some(Num(0)) else if affirmed then Some(Num(1)) else None
  }

  /** The keys `parse_data` can produce, in the order it fills them. */
  const OutputKeys: seq<string> := [
    "age", "systolicBP", "diastolicBP", "bloodSugar", "Bodytemp", "bmi", "heartrate",
    "mentalHealthConcerns", "preExistingDiabetes", "gestationalDiabetes", "previousComplications"]

  ghost function MentalHealthRule(t: string): Option<Value> {
    Flag(FollowedOnLine(t, NegWords, MentalHealthWords), Mentioned(t, MentalHealthWords))
  }

  ghost function PreExistingRule(t: string): Option<Value> {
    Flag(FollowedOnLine(t, NegWords, PreExistingWords), Mentioned(t, PreExistingWords))
  }

  ghost function GestationalRule(t: string): Option<Value> {
    Flag(FollowedOnLine(t, NegWords, GestationalWords), Mentioned(t, GestationalWords))
  }

  /** A negation before "complication" gives 0; otherwise "previous" before it gives 1. */
  ghost function ComplicationsRule(t: string): Option<Value> {
    Flag(FollowedOnLine(t, NegWords, ComplicationWords), FollowedOnLine(t, PreviousWords, ComplicationWords))
  }

  /** What `parse_data` stores under `key` for the lower-cased text `t`, if anything. */
  ghost function FieldRule(key: string, t: string): Option<Value> {
    if key == "age" then Group(Age, t, 0)
    else if key == "systolicBP" then Group(BloodPressure, t, 0)
    else if key == "diastolicBP" then Group(BloodPressure, t, 1)
    else if key == "bloodSugar" then Group(BloodSugar, t, 0)
    else if key == "Bodytemp" then Group(Temperature, t, 0)
    else if key == "bmi" then Group(Bmi, t, 0)
    else if key == "heartrate" then Group(HeartRate, t, 0)
    else if key == "mentalHealthConcerns" then MentalHealthRule(t)
    else if key == "preExistingDiabetes" then PreExistingRule(t)
    else if key == "gestationalDiabetes" then GestationalRule(t)
    else if key == "previousComplications" then ComplicationsRule(t)
    else None
  }

  /** `d[key] = v` when there is a value to store. */
  function Put(d: Record, key: string, v: Option<Value>): Record {
    if v.Some? then d[key := v.value] else d
  }

  /** The dictionary `parse_data(text)` returns: each key's rule applied in the source's order. */
  ghost function Expected(text: string): Record {
    var t := Lower(text);
    var d := Put(map[], "age", Group(Age, t, 0));
    var d := Put(d, "systolicBP", Group(BloodPressure, t, 0));
    var d := Put(d, "diastolicBP", Group(BloodPressure, t, 1));
    var d := Put(d, "bloodSugar", Group(BloodSugar, t, 0));
    var d := Put(d, "Bodytemp", Group(Temperature, t, 0));
    var d := Put(d, "bmi", Group(Bmi, t, 0));
    var d := Put(d, "heartrate", Group(HeartRate, t, 0));
    var d := Put(d, "mentalHealthConcerns", MentalHealthRule(t));
    var d := Put(d, "preExistingDiabetes", PreExistingRule(t));
    var d := Put(d, "gestationalDiabetes", GestationalRule(t));
    Put(d, "previousComplications", ComplicationsRule(t))
  }

  /** `m = re.search(pattern, text)` followed by `if m: data[key] = m.group(1)`. */
  method StoreMatch(data: Record, key: string, p: Pattern, t: string) returns (data': Record)
    ensures data' == Put(data, key, Group(p, t, 0))
  {
    data' := data;
    var m := Search(p, t, 0);
    GroupOfSearch(p, t, m);
    if m.Some? {
      data' := data'[key := Str(m.value.groups[0])];
    }
  }

  lemma GroupOfSearch(p: Pattern, t: string, h: Option<Hit>)
    requires h == Search(p, t, 0)
    ensures Group(p, t, 0) == if h.Some? then Some(Str(h.value.groups[0])) else None
  {
  }

  /** The blood-pressure search: both groups are stored together, or neither. */
  method StoreBloodPressure(data: Record, t: string) returns (data': Record)
    ensures data' == Put(Put(data, "systolicBP", Group(BloodPressure, t, 0)), "diastolicBP", Group(BloodPressure, t, 1))
  {
    data' := data;
    var m := Search(BloodPressure, t, 0);
    if m.Some? {
      data' := data'["systolicBP" := Str(m.value.groups[0])];
      data' := data'["diastolicBP" := Str(m.value.groups[1])];
    }
  }

  /** `if negated: data[key] = 0 elif affirmed: data[key] = 1` */
  method StoreFlag(data: Record, key: string, negated: bool, affirmed: bool) returns (data': Record)
    ensures data' == Put(data, key, Flag(negated, affirmed))
  {
    data' := data;
    if negated {
      data' := data'[key := Num(0)];
    } else if affirmed {
      data' := data'[key := Num(1)];
    }
  }

  /** `parse_data`: fills the dictionary one pattern at a time. */
  method ParseData(text: string) returns (data: Record)
    ensures data == Expected(text)
  {
    var t := Lower(text);
    data := StoreMatch(map[], "age", Age, t);
    data := StoreBloodPressure(data, t);
    data := StoreMatch(data, "bloodSugar", BloodSugar, t);
    data := StoreMatch(data, "Bodytemp", Temperature, t);
    data := StoreMatch(data, "bmi", Bmi, t);
    data := StoreMatch(data, "heartrate", HeartRate, t);

    var negated := FindFollowedOnLine(t, NegWords, MentalHealthWords);
    var affirmed := FindMention(t, MentalHealthWords);
    data := StoreFlag(data, "mentalHealthConcerns", negated, affirmed);

    negated := FindFollowedOnLine(t, NegWords, PreExistingWords);
    affirmed := FindMention(t, PreExistingWords);
    data := StoreFlag(data, "preExistingDiabetes", negated, affirmed);

    negated := FindFollowedOnLine(t, NegWords, GestationalWords);
    affirmed := FindMention(t, GestationalWords);
    data := StoreFlag(data, "gestationalDiabetes", negated, affirmed);

    negated := FindFollowedOnLine(t, NegWords, ComplicationWords);
    affirmed := FindFollowedOnLine(t, PreviousWords, ComplicationWords);
    data := StoreFlag(data, "previousComplications", negated, affirmed);
  }

  /** At `key`, `d` holds `rule`'s value once `key` has been visited, and nothing otherwise. */
  predicate AgreesAt(d: Record, visited: bool, key: string, rule: Option<Value>) {
    && (key in d <==> visited && rule.Some?)
    && (key in d ==> d[key] == rule.value)
  }

  /** Storing the value for `k` keeps the agreement at `key`. */
  lemma AgreesPut(d: Record, visited: bool, k: string, v: Option<Value>, key: string, rule: Option<Value>)
    requires AgreesAt(d, visited, key, rule) && (k == key ==> v == rule)
    ensures AgreesAt(Put(d, k, v), visited || k == key, key, rule)
  {
  }

  lemma OutputKeyCases(key: string)
    ensures key in OutputKeys <==>
      || key == "age" || key == "systolicBP" || key == "diastolicBP" || key == "bloodSugar"
      || key == "Bodytemp" || key == "bmi" || key == "heartrate" || key == "mentalHealthConcerns"
      || key == "preExistingDiabetes" || key == "gestationalDiabetes" || key == "previousComplications"
  {
  }

  /** The rule table, key by key. */
  lemma FieldRuleTable(t: string)
    ensures FieldRule("age", t) == Group(Age, t, 0)
    ensures FieldRule("systolicBP", t) == Group(BloodPressure, t, 0)
    ensures FieldRule("diastolicBP", t) == Group(BloodPressure, t, 1)
    ensures FieldRule("bloodSugar", t) == Group(BloodSugar, t, 0)
    ensures FieldRule("Bodytemp", t) == Group(Temperature, t, 0)
    ensures FieldRule("bmi", t) == Group(Bmi, t, 0)
    ensures FieldRule("heartrate", t) == Group(HeartRate, t, 0)
    ensures FieldRule("mentalHealthConcerns", t) == MentalHealthRule(t)
    ensures FieldRule("preExistingDiabetes", t) == PreExistingRule(t)
    ensures FieldRule("gestationalDiabetes", t) == GestationalRule(t)
    ensures FieldRule("previousComplications", t) == ComplicationsRule(t)
  {
  }

  /**
   * Each key of the result holds exactly what that key's rule gives, and
   * no key outside the output keys appears.
   */
  lemma ExpectedField(text: string, key: string)
    ensures key in Expected(text) <==> key in OutputKeys && FieldRule(key, Lower(text)).Some?
    ensures key in Expected(text) ==> Expected(text)[key] == FieldRule(key, Lower(text)).value
  {
    ExpectedAgreesAt(text, key);
  }

  /** The eleven steps of `parse_data`, traced at one key. */
  lemma ExpectedAgreesAt(text: string, key: string)
    ensures AgreesAt(Expected(text), key in OutputKeys, key, FieldRule(key, Lower(text)))
  {
    var t := Lower(text);
    var d0: Record := map[];
    var d1 := Put(d0, "age", Group(Age, t, 0));
    var d2 := Put(d1, "systolicBP", Group(BloodPressure, t, 0));
    var d3 := Put(d2, "diastolicBP", Group(BloodPressure, t, 1));
    var d4 := Put(d3, "bloodSugar", Group(BloodSugar, t, 0));
    var d5 := Put(d4, "Bodytemp", Group(Temperature, t, 0));
    var d6 := Put(d5, "bmi", Group(Bmi, t, 0));
    var d7 := Put(d6, "heartrate", Group(HeartRate, t, 0));
    var d8 := Put(d7, "mentalHealthConcerns", MentalHealthRule(t));
    var d9 := Put(d8, "preExistingDiabetes", PreExistingRule(t));
    var d10 := Put(d9, "gestationalDiabetes", GestationalRule(t));
    var d11 := Put(d10, "previousComplications", ComplicationsRule(t));
    assert d11 == Expected(text);
    FieldRuleTable(t);
    var rule := FieldRule(key, t);
    AgreesPut(d0, false, "age", Group(Age, t, 0), key, rule);
    var v1 := "age" == key;
    AgreesPut(d1, v1, "systolicBP", Group(BloodPressure, t, 0), key, rule);
    var v2 := v1 || "systolicBP" == key;
    AgreesPut(d2, v2, "diastolicBP", Group(BloodPressure, t, 1), key, rule);
    var v3 := v2 || "diastolicBP" == key;
    AgreesPut(d3, v3, "bloodSugar", Group(BloodSugar, t, 0), key, rule);
    var v4 := v3 || "bloodSugar" == key;
    AgreesPut(d4, v4, "Bodytemp", Group(Temperature, t, 0), key, rule);
    var v5 := v4 || "Bodytemp" == key;
    AgreesPut(d5, v5, "bmi", Group(Bmi, t, 0), key, rule);
    var v6 := v5 || "bmi" == key;
    AgreesPut(d6, v6, "heartrate", Group(HeartRate, t, 0), key, rule);
    var v7 := v6 || "heartrate" == key;
    AgreesPut(d7, v7, "mentalHealthConcerns", MentalHealthRule(t), key, rule);
    var v8 := v7 || "mentalHealthConcerns" == key;
    AgreesPut(d8, v8, "preExistingDiabetes", PreExistingRule(t), key, rule);
    var v9 := v8 || "preExistingDiabetes" == key;
    AgreesPut(d9, v9, "gestationalDiabetes", GestationalRule(t), key, rule);
    var v10 := v9 || "gestationalDiabetes" == key;
    AgreesPut(d10, v10, "previousComplications", ComplicationsRule(t), key, rule);
    var v11 := v10 || "previousComplications" == key;
    OutputKeyCases(key);
  }

  /** Matching is case-insensitive: the text and its lower-case form give the same dictionary. */
  lemma CaseInsensitive(text: string)
    ensures Expected(Lower(text)) == Expected(text)
  {
    LowerIdempotent(text);
  }

  /** The two blood-pressure readings are stored together or not at all. */
  lemma BloodPressurePaired(text: string)
    ensures "systolicBP" in Expected(text) <==> "diastolicBP" in Expected(text)
  {
    ExpectedField(text, "systolicBP");
    ExpectedField(text, "diastolicBP");
    FieldRuleTable(Lower(text));
  }

  /**
   * A numeric field is present exactly when its pattern matches, and then
   * holds the group captured by the leftmost match: a digit string, or a
   * decimal for temperature and BMI.
   */
  lemma NumericField(text: string, key: string, p: Pattern, n: nat)
    requires || (key, p, n) == ("age", Age, 0)
             || (key, p, n) == ("systolicBP", BloodPressure, 0)
             || (key, p, n) == ("diastolicBP", BloodPressure, 1)
             || (key, p, n) == ("bloodSugar", BloodSugar, 0)
             || (key, p, n) == ("Bodytemp", Temperature, 0)
             || (key, p, n) == ("bmi", Bmi, 0)
             || (key, p, n) == ("heartrate", HeartRate, 0)
    ensures n < GroupCount(p)
    ensures key in Expected(text) <==> Search(p, Lower(text), 0).Some?
    ensures key in Expected(text) ==>
      && Expected(text)[key] == Str(Search(p, Lower(text), 0).value.groups[n])
      && IsNumeral(p, Expected(text)[key].s)
  {
    FieldRuleTable(Lower(text));
    ExpectedField(text, key);
    OutputKeyCases(key);
  }

  /** A phrase found after a lead word is, in particular, found. */
  lemma FollowedIsMentioned(t: string, lead: seq<string>, ws: seq<string>)
    requires FollowedOnLine(t, lead, ws)
    ensures Mentioned(t, ws)
  {
    var e, j :| 0 <= e <= j <= |t| && WordBefore(t, e, lead) && NoNewline(t, e, j) && WordAt(t, j, ws);
  }

  /**
   * A history flag: 0 exactly when a negation word precedes the phrase on the
   * same line (even if the phrase also appears un-negated), 1 exactly when
   * the phrase appears and no negation precedes it, absent otherwise.
   */
  lemma FlagOutcome(text: string, key: string, ws: seq<string>)
    requires key == "mentalHealthConcerns" ==> ws == MentalHealthWords
    requires key == "preExistingDiabetes" ==> ws == PreExistingWords
    requires key == "gestationalDiabetes" ==> ws == GestationalWords
    requires key == "mentalHealthConcerns" || key == "preExistingDiabetes" || key == "gestationalDiabetes"
    ensures Get(Expected(text), key) == Num(0) <==> FollowedOnLine(Lower(text), NegWords, ws)
    ensures Get(Expected(text), key) == Num(1) <==> !FollowedOnLine(Lower(text), NegWords, ws) && Mentioned(Lower(text), ws)
    ensures Get(Expected(text), key) == Undefined <==> !Mentioned(Lower(text), ws)
  {
    var t := Lower(text);
    FieldRuleTable(t);
    ExpectedField(text, key);
    OutputKeyCases(key);
    if FollowedOnLine(t, NegWords, ws) {
      FollowedIsMentioned(t, NegWords, ws);
    }
  }

  /**
   * `previousComplications`: 0 when a negation word precedes "complication"
   * on a line, otherwise 1 when "previous" does, otherwise absent.
   */
  lemma ComplicationsOutcome(text: string)
    ensures Get(Expected(text), "previousComplications") == Num(0)
      <==> FollowedOnLine(Lower(text), NegWords, ComplicationWords)
    ensures Get(Expected(text), "previousComplications") == Num(1)
      <==> !FollowedOnLine(Lower(text), NegWords, ComplicationWords) && FollowedOnLine(Lower(text), PreviousWords, ComplicationWords)
    ensures Get(Expected(text), "previousComplications") == Undefined
      <==> !FollowedOnLine(Lower(text), NegWords, ComplicationWords) && !FollowedOnLine(Lower(text), PreviousWords, ComplicationWords)
  {
    FieldRuleTable(Lower(text));
    ExpectedField(text, "previousComplications");
    OutputKeyCases("previousComplications");
  }

  /** Without a digit after it, no keyword alternative matches. */
  lemma NoDigitNoMatch(p: Pattern, t: string, i: nat)
    requires forall k :: 0 <= k < |t| ==> !IsDigit(t[k])
    ensures MatchAt(p, t, i).None?
  {
    forall n | 0 <= n < |Keywords(p)|
      ensures AfterKeyword(p, t, i, Keywords(p)[n]).None?
    {
      if StartsAt(t, i, Keywords(p)[n]) {
        NoDigitNoTail(p, t, i + |Keywords(p)[n]|);
      }
    }
  }

  lemma NoDigitNoTail(p: Pattern, t: string, k: nat)
    requires k <= |t| && forall j :: 0 <= j < |t| ==> !IsDigit(t[j])
    ensures Tail(p, t, k).None?
  {
  }

  /** A text with no digit yields no numeric field. */
  lemma NoDigitNoSearch(p: Pattern, t: string)
    requires forall k :: 0 <= k < |t| ==> !IsDigit(t[k])
    ensures Search(p, t, 0).None?
  {
    var h := Search(p, t, 0);
    if h.Some? {
      NoDigitNoMatch(p, t, h.value.start);
    }
  }

  /** No keyword of any numeric pattern occurs in `t`. */
  predicate NoKeyword(t: string) {
    forall p: Pattern, n :: 0 <= n < |Keywords(p)| ==> !Contains(t, Keywords(p)[n])
  }

  /** A pattern none of whose keywords occurs in the text finds no match. */
  lemma NoKeywordNoSearch(p: Pattern, t: string)
    requires forall n :: 0 <= n < |Keywords(p)| ==> !Contains(t, Keywords(p)[n])
    ensures Search(p, t, 0).None?
  {
    var h := Search(p, t, 0);
    if h.Some? {
      MatchAtFirstKeyword(p, t, h.value.start);
    }
  }

  /**
   * A text in which no keyword of any numeric pattern occurs, and none of
   * the history phrases nor "complication", yields the empty dictionary.
   */
  lemma NothingToFind(text: string)
    requires NoKeyword(Lower(text))
    requires !Mentioned(Lower(text), MentalHealthWords) && !Mentioned(Lower(text), PreExistingWords)
    requires !Mentioned(Lower(text), GestationalWords) && !Mentioned(Lower(text), ComplicationWords)
    ensures Expected(text) == map[]
  {
    var t := Lower(text);
    forall p: Pattern {
      NoKeywordNoSearch(p, t);
    }
    FieldRuleTable(t);
    if FollowedOnLine(t, NegWords, MentalHealthWords) { FollowedIsMentioned(t, NegWords, MentalHealthWords); }
    if FollowedOnLine(t, NegWords, PreExistingWords) { FollowedIsMentioned(t, NegWords, PreExistingWords); }
    if FollowedOnLine(t, NegWords, GestationalWords) { FollowedIsMentioned(t, NegWords, GestationalWords); }
    if FollowedOnLine(t, NegWords, ComplicationWords) { FollowedIsMentioned(t, NegWords, ComplicationWords); }
    if FollowedOnLine(t, PreviousWords, ComplicationWords) { FollowedIsMentioned(t, PreviousWords, ComplicationWords); }
    forall key | key in Expected(text)
      ensures false
    {
      ExpectedField(text, key);
    }
  }

  /** "BP 120 over 80" gives both readings. */
  lemma BloodPressureExample()
    ensures Get(Expected("BP 120 over 80"), "systolicBP") == Str("120")
    ensures Get(Expected("BP 120 over 80"), "diastolicBP") == Str("80")
  {
    var t := "bp 120 over 80";
    assert Lower("BP 120 over 80") == t;
    BloodPressureMatch(t);
    NumericField("BP 120 over 80", "systolicBP", BloodPressure, 0);
    NumericField("BP 120 over 80", "diastolicBP", BloodPressure, 1);
  }

  lemma BloodPressureMatch(t: string)
    requires t == "bp 120 over 80"
    ensures Search(BloodPressure, t, 0) == Some(Hit(0, ["120", "80"]))
  {
    assert DigitsAfterSpace(t, 2) == Some(Capture("120", 6)) by {
      assert t[2] == ' ' && t[3] == '1' && t[4] == '2' && t[5] == '0' && t[6] == ' ';
      assert RunEnd(t, 3, IsPySpace) == 3;
      assert RunEnd(t, 2, IsPySpace) == 3;
      assert RunEnd(t, 6, IsDigit) == 6;
      assert RunEnd(t, 5, IsDigit) == 6;
      assert RunEnd(t, 4, IsDigit) == 6;
      assert RunEnd(t, 3, IsDigit) == 6;
      assert t[3..6] == "120";
    }
    assert Separator(t, RunEnd(t, 6, IsPySpace)) == Some(11) by {
      assert t[6] == ' ' && t[7] == 'o' && t[8] == 'v' && t[9] == 'e' && t[10] == 'r';
      assert RunEnd(t, 7, IsPySpace) == 7;
      assert RunEnd(t, 6, IsPySpace) == 7;
      assert t[7..9][0] != "by"[0];
      assert t[7..11] == "over";
    }
    assert DigitsAfterSpace(t, 11) == Some(Capture("80", 14)) by {
      assert t[11] == ' ' && t[12] == '8' && t[13] == '0' && |t| == 14;
      assert RunEnd(t, 12, IsPySpace) == 12;
      assert RunEnd(t, 11, IsPySpace) == 12;
      assert RunEnd(t, 14, IsDigit) == 14;
      assert RunEnd(t, 13, IsDigit) == 14;
      assert RunEnd(t, 12, IsDigit) == 14;
      assert t[12..14] == "80";
    }
    assert Tail(BloodPressure, t, 2) == Some(["120", "80"]);
    assert t[0] == 'b' && t[1] == 'p';
    assert t[0..2] == "bp";
    assert MatchAt(BloodPressure, t, 0) == Some(["120", "80"]);
  }

  /** The keyword must be followed by white space and digits only: "age is 25" gives no age. */
  lemma AgeNeedsDigitsNext()
    ensures "age" !in Expected("age is 25")
  {
    var t := "age is 25";
    LowerOfLowercase(t);
    AgeNoMatch(t);
    NumericField(t, "age", Age, 0);
  }

  lemma AgeNoMatch(t: string)
    requires t == "age is 25"
    ensures Search(Age, t, 0).None?
  {
    assert t[3] == ' ' && t[4] == 'i';
    assert RunEnd(t, 4, IsPySpace) == 4;
    assert RunEnd(t, 3, IsPySpace) == 4;
    assert RunEnd(t, 4, IsDigit) == 4;
    assert DigitsAfterSpace(t, 3).None?;
    assert MatchAt(Age, t, 0).None?;
    forall i | 1 <= i <= |t|
      ensures MatchAt(Age, t, i).None?
    {
      assert !StartsAt(t, i, "age") by {
        if i + 3 <= |t| {
          assert t[i..i + 3][0] == t[i] != 'a';
        }
      }
    }
  }

  /**
   * Negation words are matched as raw substrings: the "no" inside
   * "diagnosed" negates the phrase that follows it.
   */
  lemma NegationInsideWord()
    ensures Get(Expected("diagnosed with gestational diabetes"), "gestationalDiabetes") == Num(0)
  {
    var t := "diagnosed with gestational diabetes";
    LowerOfLowercase(t);
    NegatedInsideWord(t);
    FlagOutcome(t, "gestationalDiabetes", GestationalWords);
  }

  lemma NegatedInsideWord(t: string)
    requires t == "diagnosed with gestational diabetes"
    ensures FollowedOnLine(t, NegWords, GestationalWords)
  {
    NoEndsAtSix(t);
    GestationalAtFifteen(t);
    assert NoNewline(t, 6, 15);
  }

  /** The "no" of "diagnosed" ends at position 6. */
  lemma NoEndsAtSix(t: string)
    requires t == "diagnosed with gestational diabetes"
    ensures WordBefore(t, 6, NegWords)
  {
    assert t[4] == 'n' && t[5] == 'o';
    assert t[4..6] == NegWords[0];
  }

  /** "gestational diabetes" starts at position 15. */
  lemma GestationalAtFifteen(t: string)
    requires t == "diagnosed with gestational diabetes"
    ensures WordAt(t, 15, GestationalWords)
  {
    assert t[15..35] == GestationalWords[0];
  }
}
