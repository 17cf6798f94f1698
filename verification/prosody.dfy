/** The prosodic symbol extractor of
    `tts-model-creater/create_prosodic_phoneme_sequence.py`: full-context
    labels in, a list of phonemes and prosody marks out. */
module Prosody {
  import opened Common

  predicate IsDigit(c: char) {
    '0' <= c <= '9'
  }

  /** The regular expressions the extractor searches a label with: the
      phoneme `\-(.*?)\+`, and the numeric features, a literal lead, a
      captured run of digits (or of digits and `-`), and a stop character. */
  datatype Regex =
    | Phoneme
    | Numeric(lead: string, signed: bool, stop: char)

  const E3: Regex := Numeric("!", false, '_')
  const A1: Regex := Numeric("/A:", true, '+')
  const A2: Regex := Numeric("+", false, '+')
  const A3: Regex := Numeric("+", false, '/')
  const F1: Regex := Numeric("/F:", false, '_')

  function Lead(re: Regex): string {
    match re
    case Phoneme => "-"
    case Numeric(lead, _, _) => lead
  }

  function Stop(re: Regex): char {
    match re
    case Phoneme => '+'
    case Numeric(_, _, stop) => stop
  }

  /** The characters the captured group may hold: `.` is anything but a
      newline, and the lazy `.*?` stops at the first `+`. */
  predicate InGroup(re: Regex, c: char) {
    match re
    case Phoneme => c != '+' && c != '\n'
    case Numeric(_, signed, _) => IsDigit(c) || (signed && c == '-')
  }

  /** The length of the longest prefix of `s` the group can take. */
  function Span(re: Regex, s: string): (n: nat)
    ensures n <= |s|
    ensures forall k :: 0 <= k < n ==> InGroup(re, s[k])
    ensures n < |s| ==> !InGroup(re, s[n])
  {
    if |s| == 0 || !InGroup(re, s[0]) then 0 else 1 + Span(re, s[1..])
  }

  /** The group the regular expression captures when it matches at `i`. */
  function MatchAt(re: Regex, s: string, i: nat): Option<string>
    requires i <= |s|
  {
    var lead := Lead(re);
    if |lead| <= |s| - i && s[i..i + |lead|] == lead then
      var j := i + |lead|;
      var n := Span(re, s[j..]);
      if (re.Phoneme? || 0 < n) && j + n < |s| && s[j + n] == Stop(re) then Some(s[j..j + n]) else None
    else None
  }

  /** `re` matches at `i` with group `g`, read off the text directly: the
      lead, then `g`, then the stop character. */
  predicate MatchesWith(re: Regex, s: string, i: nat, g: string) {
    i + |Lead(re)| + |g| < |s| &&
    s[i..i + |Lead(re)|] == Lead(re) &&
    s[i + |Lead(re)|..i + |Lead(re)| + |g|] == g &&
    s[i + |Lead(re)| + |g|] == Stop(re) &&
    (forall k :: 0 <= k < |g| ==> InGroup(re, g[k])) &&
    (re.Numeric? ==> 0 < |g|)
  }

  /** The scan finds exactly the matches the pattern describes; the group is
      unique because the stop character cannot be part of it. */
  lemma MatchAtMeans(re: Regex, s: string, i: nat, g: string)
    requires i <= |s| && !InGroup(re, Stop(re))
    ensures MatchAt(re, s, i) == Some(g) <==> MatchesWith(re, s, i, g)
  {
    var lead := Lead(re);
    var j := i + |lead|;
    if MatchesWith(re, s, i, g) {
      var n := Span(re, s[j..]);
      forall k | 0 <= k < |g| ensures InGroup(re, s[j..][k]) {
        assert s[j..][k] == s[j..j + |g|][k] == g[k];
      }
      assert s[j..][|g|] == Stop(re);
      assert n == |g|;
    }
  }

  /** `re.search`: the match at the leftmost position that has one. */
  function Search(re: Regex, s: string, from: nat): Option<string>
    requires from <= |s|
    decreases |s| - from
  {
    var m := MatchAt(re, s, from);
    if m.Some? || from == |s| then m else Search(re, s, from + 1)
  }

  /** The first position from `from` on where the pattern matches. */
  predicate FirstMatchAt(re: Regex, s: string, from: nat, i: nat)
    requires from <= i <= |s|
  {
    MatchAt(re, s, i).Some? && forall j :: from <= j < i ==> MatchAt(re, s, j).None?
  }

  /** The search returns the group of the leftmost match, and nothing only
      when there is no match anywhere. */
  lemma SearchLeftmost(re: Regex, s: string, from: nat)
    requires from <= |s|
    ensures Search(re, s, from).Some? ==>
      exists i :: from <= i <= |s| && FirstMatchAt(re, s, from, i) && MatchAt(re, s, i) == Search(re, s, from)
    ensures Search(re, s, from).None? <==> forall i :: from <= i <= |s| ==> MatchAt(re, s, i).None?
  {
    SearchFindsFirst(re, s, from);
    SearchNoneIff(re, s, from);
  }

  lemma {:induction false} SearchFindsFirst(re: Regex, s: string, from: nat)
    requires from <= |s|
    ensures Search(re, s, from).Some? ==>
      exists i :: from <= i <= |s| && FirstMatchAt(re, s, from, i) && MatchAt(re, s, i) == Search(re, s, from)
    decreases |s| - from
  {
    if MatchAt(re, s, from).Some? {
      assert FirstMatchAt(re, s, from, from);
    } else if from < |s| {
      SearchFindsFirst(re, s, from + 1);
      if Search(re, s, from).Some? {
        var i :| from + 1 <= i <= |s| && FirstMatchAt(re, s, from + 1, i) && MatchAt(re, s, i) == Search(re, s, from);
        assert FirstMatchAt(re, s, from, i);
      }
    }
  }

  lemma {:induction false} SearchNoneIff(re: Regex, s: string, from: nat)
    requires from <= |s|
    ensures Search(re, s, from).None? <==> forall i :: from <= i <= |s| ==> MatchAt(re, s, i).None?
    decreases |s| - from
  {
    if MatchAt(re, s, from).None? && from < |s| {
      SearchNoneIff(re, s, from + 1);
      if forall i :: from + 1 <= i <= |s| ==> MatchAt(re, s, i).None? {
        assert forall i :: from <= i <= |s| ==> MatchAt(re, s, i).None?;
      } else {
        var i :| from + 1 <= i <= |s| && MatchAt(re, s, i).Some?;
      }
    }
  }

  function DigitValue(c: char): nat
    requires IsDigit(c)
  {
    c as int - '0' as int
  }

  /** The value of a run of decimal digits. */
  function DigitsValue(ds: string): nat
    requires forall k :: 0 <= k < |ds| ==> IsDigit(ds[k])
  {
    if |ds| == 0 then 0
    else 10 * DigitsValue(ds[..|ds| - 1]) + DigitValue(ds[|ds| - 1])
  }

  predicate AllDigits(ds: string) {
    0 < |ds| && forall k :: 0 <= k < |ds| ==> IsDigit(ds[k])
  }

  /** Python's `int()` on a captured group: digits, optionally after one
      `-`; anything else raises. */
  function ParseInt(g: string): (r: Result<int>)
    ensures r.Failure? ==> r.error == InvalidIntLiteral
  {
    if AllDigits(g) then Success(DigitsValue(g))
    else if 0 < |g| && g[0] == '-' && AllDigits(g[1..]) then Success(0 - DigitsValue(g[1..]) as int)
    else Failure(InvalidIntLiteral)
  }

  /** The decimal text of `n`, as Python's `str()` writes it. */
  function Decimal(n: nat): (r: string)
    ensures AllDigits(r)
  {
    if n < 10 then ['0' + n as char] else Decimal(n / 10) + ['0' + (n % 10) as char]
  }

  lemma {:induction false} DecimalValue(n: nat)
    ensures DigitsValue(Decimal(n)) == n
  {
    var d := Decimal(n);
    if n >= 10 {
      DecimalValue(n / 10);
      assert d[..|d| - 1] == Decimal(n / 10);
    }
  }

  function IntLiteral(n: int): string {
    if n < 0 then "-" + Decimal(-n) else Decimal(n)
  }

  /** `int()` reads back the literal of every integer. */
  lemma ParseIntLiteral(n: int)
    ensures ParseInt(IntLiteral(n)) == Success(n)
  {
    if n < 0 {
      DecimalValue(-n);
      assert ("-" + Decimal(-n))[1..] == Decimal(-n);
    } else {
      DecimalValue(n);
    }
  }

  /** `int()` ignores leading zeros, as in a label field like `07`. */
  lemma {:induction false} ParseIntLeadingZero(ds: string)
    requires AllDigits(ds)
    ensures ParseInt("0" + ds) == ParseInt(ds)
  {
    LeadingZeroValue(ds);
  }

  lemma {:induction false} LeadingZeroValue(ds: string)
    requires forall k :: 0 <= k < |ds| ==> IsDigit(ds[k])
    ensures DigitsValue("0" + ds) == DigitsValue(ds)
    decreases |ds|
  {
    if 0 < |ds| {
      LeadingZeroValue(ds[..|ds| - 1]);
      assert ("0" + ds)[..|ds|] == "0" + ds[..|ds| - 1];
    }
  }

  /** `numeric_feature_by_regex`: the captured number, or -50 when the
      pattern does not occur. */
  function Feature(re: Regex, s: string): (r: Result<int>)
    requires re.Numeric?
    ensures Search(re, s, 0).None? ==> r == Success(-50)
    ensures Search(re, s, 0).Some? ==> r == ParseInt(Search(re, s, 0).value)
  {
    match Search(re, s, 0)
    case None => Success(-50)
    case Some(g) => ParseInt(g)
  }

  /** A group of digits alone always parses, so only `A1` can fail. */
  lemma UnsignedFeatureParses(re: Regex, s: string)
    requires re.Numeric? && !re.signed && !IsDigit(re.stop)
    ensures Feature(re, s).Success?
  {
    var m := Search(re, s, 0);
    if m.Some? {
      SearchFindsFirst(re, s, 0);
      var i :| 0 <= i <= |s| && FirstMatchAt(re, s, 0, i) && MatchAt(re, s, i) == m;
      MatchAtMeans(re, s, i, m.value);
      assert AllDigits(m.value);
    }
  }

  /** The phoneme field of a label: the text between its first `-` and the
      next `+`; `.group(1)` on a failed search raises. */
  function PhonemeOf(lab: string): Result<string> {
    match Search(Phoneme, lab, 0)
    case None => Failure(NoPhonemeMatch)
    case Some(p) => Success(p)
  }

  /** The accent mark after a phoneme, first matching rule wins: `#` at an
      accent phrase boundary, `]` at the accent nucleus, `[` at a rise. */
  function Accent(a1: int, a2: int, a3: int, f1: int, a2Next: int): seq<string> {
    if a3 == 1 && a2Next == 1 then ["#"]
    else if a1 == 0 && a2Next == a2 + 1 && a2 != f1 then ["]"]
    else if a2 == 1 && a2Next == 2 then ["["]
    else []
  }

  /** What label `n` adds to the output, or why it fails. */
  function LabelSymbols(labels: seq<string>, n: nat): Result<seq<string>>
    requires n < |labels|
  {
    var p3 :- PhonemeOf(labels[n]);
    if p3 == "sil" then
      if n == 0 then Success(["^"])
      else if n == |labels| - 1 then
        var e3 :- Feature(E3, labels[n]);
        Success(if e3 == 0 then [""] else if e3 == 1 then ["?"] else [])
      else Success([])
    else if p3 == "pau" then Success(["_"])
    else
      var a1 :- Feature(A1, labels[n]);
      var a2 :- Feature(A2, labels[n]);
      var a3 :- Feature(A3, labels[n]);
      var f1 :- Feature(F1, labels[n]);
      if n + 1 == |labels| then Failure(IndexOutOfRange)
      else
        var a2Next :- Feature(A2, labels[n + 1]);
        Success([p3] + Accent(a1, a2, a3, f1, a2Next))
  }

  /** Joins per-label results from `from` on; the first failure ends the
      run, as the exception ends the loop. */
  function Collect(rs: seq<Result<seq<string>>>, from: nat): Result<seq<string>>
    requires from <= |rs|
    decreases |rs| - from
  {
    if from == |rs| then Success([])
    else
      var here :- rs[from];
      var rest :- Collect(rs, from + 1);
      Success(here + rest)
  }

  /** The symbols so far followed by those still to come. */
  function Join(pp: seq<string>, rest: Result<seq<string>>): Result<seq<string>> {
    match rest
    case Success(v) => Success(pp + v)
    case Failure(e) => Failure(e)
  }

  /** One step of the run: the first result, then the rest. */
  lemma CollectStep(pp: seq<string>, rs: seq<Result<seq<string>>>, from: nat)
    requires from < |rs|
    ensures rs[from].Failure? ==> Join(pp, Collect(rs, from)) == Failure(rs[from].error)
    ensures rs[from].Success? ==>
      Join(pp, Collect(rs, from)) == Join(pp + rs[from].value, Collect(rs, from + 1))
  {
    if rs[from].Success? && Collect(rs, from + 1).Success? {
      assert pp + (rs[from].value + Collect(rs, from + 1).value) == pp + rs[from].value + Collect(rs, from + 1).value;
    }
  }

  /** The run succeeds exactly when every result does. */
  lemma {:induction false} CollectSucceeds(rs: seq<Result<seq<string>>>, from: nat)
    requires from <= |rs|
    ensures Collect(rs, from).Success? <==> forall n :: from <= n < |rs| ==> rs[n].Success?
    decreases |rs| - from
  {
    if from < |rs| {
      CollectSucceeds(rs, from + 1);
    }
  }

  /** A failing run reports the error of the first failing result. */
  lemma {:induction false} CollectFailsAtFirst(rs: seq<Result<seq<string>>>, from: nat, n: nat)
    requires from <= n < |rs| && rs[n].Failure?
    requires forall m :: from <= m < n ==> rs[m].Success?
    ensures Collect(rs, from) == Failure(rs[n].error)
    decreases n - from
  {
    if from < n {
      CollectFailsAtFirst(rs, from + 1, n);
    }
  }

  /** With at most `b` symbols per result, the run has at most `b` per
      result. */
  lemma {:induction false} CollectBound(rs: seq<Result<seq<string>>>, from: nat, b: nat)
    requires from <= |rs|
    requires forall n :: from <= n < |rs| && rs[n].Success? ==> |rs[n].value| <= b
    ensures Collect(rs, from).Success? ==> |Collect(rs, from).value| <= b * (|rs| - from)
    decreases |rs| - from
  {
    if from < |rs| {
      CollectBound(rs, from + 1, b);
    }
  }

  /** Every label adds at most two symbols. */
  lemma LabelAtMostTwo(labels: seq<string>, n: nat)
    requires n < |labels|
    ensures LabelSymbols(labels, n).Success? ==> |LabelSymbols(labels, n).value| <= 2
  {
  }

  function PerLabel(labels: seq<string>): (rs: seq<Result<seq<string>>>)
    ensures |rs| == |labels|
    ensures forall n :: 0 <= n < |labels| ==> rs[n] == LabelSymbols(labels, n)
  {
    seq(|labels|, n requires 0 <= n < |labels| => LabelSymbols(labels, n))
  }

  /** The output of the whole list. */
  function Symbols(labels: seq<string>): Result<seq<string>> {
    Collect(PerLabel(labels), 0)
  }

  /** The output has at most two symbols per label. */
  lemma SymbolsAtMostTwice(labels: seq<string>)
    ensures Symbols(labels).Success? ==> |Symbols(labels).value| <= 2 * |labels|
  {
    var rs := PerLabel(labels);
    forall n | 0 <= n < |rs| && rs[n].Success? ensures |rs[n].value| <= 2 {
      LabelAtMostTwo(labels, n);
    }
    CollectBound(rs, 0, 2);
  }

  /** `pp_symbols`. The flag selects a lower-cased copy of an unvoiced
      vowel that is never used, so it does not affect the result. */
  method PpSymbols(labels: seq<string>, dropUnvoicedVowels: bool) returns (r: Result<seq<string>>)
    ensures r == Symbols(labels)
    ensures r.Success? ==> |r.value| <= 2 * |labels|
  {
    SymbolsAtMostTwice(labels);
    r := CollectLoop(PerLabel(labels));
  }

  /** The source's loop over the labels, given each label's outcome:
      symbols are appended in order, and the first failure is raised. */
  method CollectLoop(rs: seq<Result<seq<string>>>) returns (r: Result<seq<string>>)
    ensures r == Collect(rs, 0)
  {
    var pp: seq<string> := [];
    var n := 0;
    JoinEmpty(Collect(rs, 0));
    while n < |rs|
      invariant 0 <= n <= |rs|
      invariant Collect(rs, 0) == Join(pp, Collect(rs, n))
    {
      var here := rs[n];
      CollectStep(pp, rs, n);
      if here.Failure? {
        return Failure(here.error);
      }
      pp := pp + here.value;
      n := n + 1;
    }
    assert pp + [] == pp;
    r := Success(pp);
  }

  lemma JoinEmpty(v: Result<seq<string>>)
    ensures Join([], v) == v
  {
    if v.Success? {
      assert [] + v.value == v.value;
    }
  }

  // The per-label rules.

  lemma FirstSilence(labels: seq<string>)
    requires 0 < |labels| && PhonemeOf(labels[0]) == Success("sil")
    ensures LabelSymbols(labels, 0) == Success(["^"])
  {
  }

  /** A closing silence marks a statement (`""`) or a question (`?`) from
      its `E3` field, and adds nothing for any other value. */
  lemma LastSilence(labels: seq<string>, n: nat)
    requires 0 < n == |labels| - 1 && PhonemeOf(labels[n]) == Success("sil")
    ensures LabelSymbols(labels, n).Success?
    ensures var v := LabelSymbols(labels, n).value;
      var e3 := Feature(E3, labels[n]).value;
      (e3 == 0 <==> v == [""]) && (e3 == 1 <==> v == ["?"]) && (e3 != 0 && e3 != 1 <==> v == [])
  {
    UnsignedFeatureParses(E3, labels[n]);
  }

  lemma InnerSilence(labels: seq<string>, n: nat)
    requires 0 < n < |labels| - 1 && PhonemeOf(labels[n]) == Success("sil")
    ensures LabelSymbols(labels, n) == Success([])
  {
  }

  lemma Pause(labels: seq<string>, n: nat)
    requires n < |labels| && PhonemeOf(labels[n]) == Success("pau")
    ensures LabelSymbols(labels, n) == Success(["_"])
  {
  }

  /** Any other label emits its phoneme and then at most one accent mark. */
  lemma OtherLabel(labels: seq<string>, n: nat)
    requires n < |labels| && PhonemeOf(labels[n]).Success?
    requires PhonemeOf(labels[n]).value != "sil" && PhonemeOf(labels[n]).value != "pau"
    ensures LabelSymbols(labels, n).Success? ==>
      var v := LabelSymbols(labels, n).value;
      1 <= |v| <= 2 && v[0] == PhonemeOf(labels[n]).value &&
      (|v| == 2 ==> v[1] == "#" || v[1] == "]" || v[1] == "[")
  {
  }

  /** The accent marks in their order of precedence. */
  lemma AccentPriority(a1: int, a2: int, a3: int, f1: int, a2Next: int)
    ensures Accent(a1, a2, a3, f1, a2Next) == ["#"] <==> a3 == 1 && a2Next == 1
    ensures Accent(a1, a2, a3, f1, a2Next) == ["]"] <==>
      !(a3 == 1 && a2Next == 1) && a1 == 0 && a2Next == a2 + 1 && a2 != f1
    ensures Accent(a1, a2, a3, f1, a2Next) == ["["] <==>
      !(a3 == 1 && a2Next == 1) && !(a1 == 0 && a2Next == a2 + 1 && a2 != f1) && a2 == 1 && a2Next == 2
  {
  }

  /** A last label that is neither silence nor pause reads one label past
      the end; only a malformed `A1` field fails first. */
  lemma LastOtherFails(labels: seq<string>)
    requires 0 < |labels|
    requires PhonemeOf(labels[|labels| - 1]).Success?
    requires PhonemeOf(labels[|labels| - 1]).value != "sil" && PhonemeOf(labels[|labels| - 1]).value != "pau"
    ensures LabelSymbols(labels, |labels| - 1).Failure?
    ensures Feature(A1, labels[|labels| - 1]).Success? ==>
      LabelSymbols(labels, |labels| - 1) == Failure(IndexOutOfRange)
  {
    var s := labels[|labels| - 1];
    UnsignedFeatureParses(A2, s);
    UnsignedFeatureParses(A3, s);
    UnsignedFeatureParses(F1, s);
  }

  /** The whole run succeeds exactly when every label does, and a failing
      run reports the error of the first failing label. */
  lemma SymbolsFailAtFirst(labels: seq<string>, n: nat)
    requires n < |labels| && LabelSymbols(labels, n).Failure?
    requires forall m :: 0 <= m < n ==> LabelSymbols(labels, m).Success?
    ensures Symbols(labels) == Failure(LabelSymbols(labels, n).error)
  {
    CollectFailsAtFirst(PerLabel(labels), 0, n);
  }

  lemma SymbolsSucceed(labels: seq<string>)
    ensures Symbols(labels).Success? <==> forall n :: 0 <= n < |labels| ==> LabelSymbols(labels, n).Success?
  {
    CollectSucceeds(PerLabel(labels), 0);
  }

  /** So a label list that does not end in a silence or a pause fails. */
  lemma UnterminatedFails(labels: seq<string>)
    requires 0 < |labels|
    requires PhonemeOf(labels[|labels| - 1]).Success?
    requires PhonemeOf(labels[|labels| - 1]).value != "sil" && PhonemeOf(labels[|labels| - 1]).value != "pau"
    ensures Symbols(labels).Failure?
  {
    LastOtherFails(labels);
    SymbolsSucceed(labels);
  }
}
