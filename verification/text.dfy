/** Global find-and-replace and trimming: the two string operations every
    sanitizer stage is built from.

    `s.replace(/pat/g, rep)` in JavaScript and `s.replace(pat, rep)` or
    `re.sub(pat, rep, s)` in Python all scan left to right, replace the
    leftmost match, and resume after it, so matches never overlap. The
    patterns used are literal strings, the same literals matched ignoring
    ASCII case, and one literal with an optional literal tail
    (`<\?(php)?`). None of the replacement strings contains a `$` group
    reference or a backslash escape that the regular-expression engine
    would interpret. */
module Text {
  import opened Common

  /** ASCII lower-casing. For a pattern made of ASCII characters, the case
      folding of a JavaScript `/i` expression without the `u` flag equates
      exactly the characters this function equates. */
  function Lower(c: char): char {
    if 'A' <= c <= 'Z' then (c as int + 32) as char else c
  }

  predicate IsLetter(c: char) {
    'A' <= c <= 'Z' || 'a' <= c <= 'z'
  }

  /** Input character `a` matches pattern character `b`. */
  predicate SameChar(a: char, b: char, fold: bool) {
    if fold then Lower(a) == Lower(b) else a == b
  }

  /** `s` begins with `lit`, ignoring ASCII case when `fold`. */
  predicate StartsWith(s: string, lit: string, fold: bool)
    decreases |lit|
  {
    |lit| == 0 || (0 < |s| && SameChar(s[0], lit[0], fold) && StartsWith(s[1..], lit[1..], fold))
  }

  /** The recursive definition agrees with the position-wise one. */
  lemma {:induction false} StartsWithAt(s: string, lit: string, fold: bool)
    decreases |lit|
    ensures StartsWith(s, lit, fold) <==>
      |lit| <= |s| && forall i :: 0 <= i < |lit| ==> SameChar(s[i], lit[i], fold)
  {
    if 0 < |lit| && 0 < |s| {
      StartsWithAt(s[1..], lit[1..], fold);
      if StartsWith(s, lit, fold) {
        forall i | 0 <= i < |lit| ensures SameChar(s[i], lit[i], fold) {
          if 0 < i {
            assert s[1..][i - 1] == s[i] && lit[1..][i - 1] == lit[i];
          }
        }
      }
      if |lit| <= |s| && forall i :: 0 <= i < |lit| ==> SameChar(s[i], lit[i], fold) {
        forall i | 0 <= i < |lit| - 1 ensures SameChar(s[1..][i], lit[1..][i], fold) {
          assert SameChar(s[i + 1], lit[i + 1], fold);
        }
      }
    }
  }

  /** The shapes of pattern the sanitizers use. */
  datatype Pattern =
    | Literal(text: string, fold: bool)                  // `/abc/g`, `/abc/gi`, `str.replace`
    | OptionalTail(head: string, tail: string, fold: bool) // `/head(tail)?/gi`, greedy

  /** The length of the match of `p` at the start of `s`, if any. The
      optional tail is taken whenever it is there. An empty literal is
      treated as never matching; no stage uses one. */
  function MatchLength(p: Pattern, s: string): (r: Option<nat>)
    ensures r.Some? ==> 0 < r.value <= |s|
  {
    match p
    case Literal(t, fold) =>
      if 0 < |t| && StartsWith(s, t, fold) then (StartsWithAt(s, t, fold); Some(|t|)) else None
    case OptionalTail(h, t, fold) =>
      if 0 < |h| && StartsWith(s, h + t, fold) then (StartsWithAt(s, h + t, fold); Some(|h + t|))
      else if 0 < |h| && StartsWith(s, h, fold) then (StartsWithAt(s, h, fold); Some(|h|))
      else None
  }

  /** Replace every leftmost, non-overlapping match of `p` in `s` by `rep`. */
  function ReplaceAll(s: string, p: Pattern, rep: string): string
    decreases |s|
  {
    if |s| == 0 then []
    else match MatchLength(p, s)
      case Some(k) => rep + ReplaceAll(s[k..], p, rep)
      case None => [s[0]] + ReplaceAll(s[1..], p, rep)
  }

  /** One `.replace(…)` of a chain. */
  datatype Rule = Rule(pattern: Pattern, rep: string)

  /** A chain of `.replace(…)` calls, first rule first. */
  function ApplyRules(rules: seq<Rule>, s: string): string
    decreases |rules|
  {
    if |rules| == 0 then s else ApplyRules(rules[1..], ReplaceAll(s, rules[0].pattern, rules[0].rep))
  }

  /** Where `p` matches nowhere in `s`, replacing leaves `s` as it is. */
  lemma {:induction false} NoMatchUnchanged(s: string, p: Pattern, rep: string)
    requires forall i :: 0 <= i < |s| ==> MatchLength(p, s[i..]).None?
    ensures ReplaceAll(s, p, rep) == s
    decreases |s|
  {
    if 0 < |s| {
      assert s[0..] == s;
      forall i | 0 <= i < |s[1..]| ensures MatchLength(p, s[1..][i..]).None? {
        assert s[1..][i..] == s[i + 1..];
      }
      NoMatchUnchanged(s[1..], p, rep);
    }
  }

  /** A match of a pattern containing the non-letter `c` needs `c` in the
      input. */
  predicate Needs(p: Pattern, c: char) {
    !IsLetter(c) &&
    match p
    case Literal(t, _) => c in t
    case OptionalTail(h, _, _) => c in h
  }

  /** The rule cannot bring `c` into a string that lacks it. */
  predicate Keeps(r: Rule, c: char) {
    c !in r.rep || Needs(r.pattern, c)
  }

  lemma FoldedNonLetter(a: char, c: char, fold: bool)
    requires !IsLetter(c) && SameChar(a, c, fold)
    ensures a == c
  {
  }

  lemma {:induction false} StartsWithHas(s: string, lit: string, fold: bool, c: char)
    requires StartsWith(s, lit, fold) && c in lit && !IsLetter(c)
    ensures c in s
    decreases |lit|
  {
    if lit[0] == c {
      FoldedNonLetter(s[0], c, fold);
    } else {
      StartsWithHas(s[1..], lit[1..], fold, c);
    }
  }

  lemma MatchHas(p: Pattern, s: string, c: char)
    requires MatchLength(p, s).Some? && Needs(p, c)
    ensures c in s
  {
    match p
    case Literal(t, fold) =>
      StartsWithHas(s, t, fold, c);
    case OptionalTail(h, t, fold) =>
      if StartsWith(s, h + t, fold) {
        StartsWithHas(s, h + t, fold, c);
      } else {
        StartsWithHas(s, h, fold, c);
      }
  }

  /** A rule that keeps `c` out keeps it out of every string without it. */
  lemma {:induction false} ReplaceKeepsAbsent(s: string, r: Rule, c: char)
    requires c !in s && Keeps(r, c)
    ensures c !in ReplaceAll(s, r.pattern, r.rep)
    decreases |s|
  {
    if 0 < |s| {
      match MatchLength(r.pattern, s)
      case Some(k) =>
        if c in r.rep {
          MatchHas(r.pattern, s, c);
        }
        ReplaceKeepsAbsent(s[k..], r, c);
      case None =>
        ReplaceKeepsAbsent(s[1..], r, c);
    }
  }

  /** A chain of rules that each keep `c` out keeps it out. */
  lemma {:induction false} RulesKeepAbsent(rules: seq<Rule>, s: string, c: char)
    requires c !in s
    requires forall j :: 0 <= j < |rules| ==> Keeps(rules[j], c)
    ensures c !in ApplyRules(rules, s)
    decreases |rules|
  {
    if 0 < |rules| {
      ReplaceKeepsAbsent(s, rules[0], c);
      RulesKeepAbsent(rules[1..], ReplaceAll(s, rules[0].pattern, rules[0].rep), c);
    }
  }

  /** Replacing every `c` by a string without `c` removes `c`. */
  lemma {:induction false} ReplaceRemoves(s: string, c: char, rep: string)
    requires c !in rep
    ensures c !in ReplaceAll(s, Literal([c], false), rep)
    decreases |s|
  {
    if 0 < |s| {
      match MatchLength(Literal([c], false), s)
      case Some(k) =>
        ReplaceRemoves(s[k..], c, rep);
      case None =>
        StartsWithAt(s, [c], false);
        ReplaceRemoves(s[1..], c, rep);
    }
  }

  /** A rule that removes `c`, followed only by rules that keep it out,
      leaves no `c` whatever the input. */
  lemma {:induction false} RulesRemove(rules: seq<Rule>, s: string, c: char, k: nat)
    requires k < |rules| && rules[k].pattern == Literal([c], false) && c !in rules[k].rep
    requires forall j :: k < j < |rules| ==> Keeps(rules[j], c)
    ensures c !in ApplyRules(rules, s)
    decreases |rules|
  {
    var next := ReplaceAll(s, rules[0].pattern, rules[0].rep);
    if k == 0 {
      ReplaceRemoves(s, c, rules[0].rep);
      RulesKeepAbsent(rules[1..], next, c);
    } else {
      RulesRemove(rules[1..], next, c, k - 1);
    }
  }

  /** Running one chain of rules after another is running the two chains
      joined. */
  lemma {:induction false} ApplyRulesAppend(a: seq<Rule>, b: seq<Rule>, s: string)
    ensures ApplyRules(a + b, s) == ApplyRules(b, ApplyRules(a, s))
    decreases |a|
  {
    if 0 < |a| {
      assert (a + b)[0] == a[0] && (a + b)[1..] == a[1..] + b;
      ApplyRulesAppend(a[1..], b, ReplaceAll(s, a[0].pattern, a[0].rep));
    } else {
      assert a + b == b;
    }
  }

  /** A single rule as a chain. */
  lemma ApplyOneRule(r: Rule, s: string)
    ensures ApplyRules([r], s) == ReplaceAll(s, r.pattern, r.rep)
  {
    assert [r][1..] == [];
  }

  /** Where every rule needs a character the string lacks (`cs[j]` for rule
      `j`), the chain changes nothing. */
  lemma {:induction false} RulesIdle(rules: seq<Rule>, s: string, cs: seq<char>)
    requires |cs| == |rules|
    requires forall j :: 0 <= j < |rules| ==> Needs(rules[j].pattern, cs[j]) && cs[j] !in s
    ensures ApplyRules(rules, s) == s
    decreases |rules|
  {
    if 0 < |rules| {
      NeedsAbsentIdle(s, rules[0], cs[0]);
      RulesIdle(rules[1..], s, cs[1..]);
    }
  }

  /** A pattern that needs a character the string lacks changes nothing. */
  lemma NeedsAbsentIdle(s: string, r: Rule, c: char)
    requires Needs(r.pattern, c) && c !in s
    ensures ReplaceAll(s, r.pattern, r.rep) == s
  {
    forall i | 0 <= i < |s| ensures MatchLength(r.pattern, s[i..]).None? {
      if MatchLength(r.pattern, s[i..]).Some? {
        MatchHas(r.pattern, s[i..], c);
      }
    }
    NoMatchUnchanged(s, r.pattern, r.rep);
  }

  /** The part of the pattern every match begins with. */
  function Head(p: Pattern): string {
    match p
    case Literal(t, _) => t
    case OptionalTail(h, _, _) => h
  }

  /** Every character a match of the pattern can consist of. */
  function PatternText(p: Pattern): string {
    match p
    case Literal(t, _) => t
    case OptionalTail(h, t, _) => h + t
  }

  predicate LettersOnly(s: string) {
    forall i :: 0 <= i < |s| ==> IsLetter(s[i])
  }

  /** A pattern longer than the string matches nowhere in it. */
  lemma LongPatternIdle(s: string, r: Rule)
    requires |s| < |Head(r.pattern)|
    ensures ReplaceAll(s, r.pattern, r.rep) == s
  {
    forall i | 0 <= i < |s| ensures MatchLength(r.pattern, s[i..]).None? {
      var h := Head(r.pattern);
      StartsWithAt(s[i..], h, r.pattern.fold);
      if r.pattern.OptionalTail? {
        StartsWithAt(s[i..], h + r.pattern.tail, r.pattern.fold);
      }
    }
    NoMatchUnchanged(s, r.pattern, r.rep);
  }

  /** A pattern that starts or ends with a character other than a letter
      matches nowhere in a word. */
  predicate EdgeNotLetter(p: Pattern) {
    0 < |Head(p)| && (!IsLetter(Head(p)[0]) || !IsLetter(Head(p)[|Head(p)| - 1]))
  }

  lemma EdgeNotLetterIdle(s: string, r: Rule)
    requires LettersOnly(s) && EdgeNotLetter(r.pattern)
    ensures ReplaceAll(s, r.pattern, r.rep) == s
  {
    var h, fold := Head(r.pattern), r.pattern.fold;
    forall i | 0 <= i < |s| ensures MatchLength(r.pattern, s[i..]).None? {
      var t := s[i..];
      StartsWithAt(t, h, fold);
      if r.pattern.OptionalTail? {
        StartsWithAt(t, h + r.pattern.tail, fold);
        assert (h + r.pattern.tail)[0] == h[0] && (h + r.pattern.tail)[|h| - 1] == h[|h| - 1];
      }
      if |h| <= |t| {
        assert IsLetter(t[0]) && IsLetter(t[|h| - 1]);
        LetterNotSame(t[0], h[0], fold);
        LetterNotSame(t[|h| - 1], h[|h| - 1], fold);
      }
    }
    NoMatchUnchanged(s, r.pattern, r.rep);
  }

  lemma LetterNotSame(a: char, b: char, fold: bool)
    requires IsLetter(a)
    ensures !IsLetter(b) ==> !SameChar(a, b, fold)
  {
  }

  /** A word passes through a chain whose every rule either is longer than
      the word or starts or ends with a character other than a letter. */
  lemma {:induction false} RulesIdleOnWord(rules: seq<Rule>, s: string)
    requires LettersOnly(s)
    requires forall j :: 0 <= j < |rules| ==>
      |s| < |Head(rules[j].pattern)| || EdgeNotLetter(rules[j].pattern)
    ensures ApplyRules(rules, s) == s
    decreases |rules|
  {
    if 0 < |rules| {
      if |s| < |Head(rules[0].pattern)| {
        LongPatternIdle(s, rules[0]);
      } else {
        EdgeNotLetterIdle(s, rules[0]);
      }
      RulesIdleOnWord(rules[1..], s);
    }
  }

  /** A match never covers a non-letter that its pattern does not contain. */
  lemma {:induction false} StartsWithCovers(s: string, lit: string, fold: bool, i: nat)
    requires StartsWith(s, lit, fold) && i < |lit| && i < |s| && !IsLetter(s[i])
    ensures s[i] in lit
  {
    StartsWithAt(s, lit, fold);
    assert SameChar(s[i], lit[i], fold);
  }

  lemma MatchCovers(p: Pattern, s: string, i: nat)
    requires MatchLength(p, s).Some? && i < MatchLength(p, s).value && i < |s| && !IsLetter(s[i])
    ensures s[i] in PatternText(p)
  {
    match p
    case Literal(t, fold) =>
      StartsWithCovers(s, t, fold, i);
    case OptionalTail(h, t, fold) =>
      if StartsWith(s, h + t, fold) {
        StartsWithCovers(s, h + t, fold, i);
      } else {
        StartsWithCovers(s, h, fold, i);
      }
  }

  /** A non-letter that the pattern does not contain survives the
      replacement. */
  lemma {:induction false} ReplaceKeepsPresent(s: string, r: Rule, c: char)
    requires c in s && !IsLetter(c) && c !in PatternText(r.pattern)
    ensures c in ReplaceAll(s, r.pattern, r.rep)
    decreases |s|
  {
    var i :| 0 <= i < |s| && s[i] == c;
    match MatchLength(r.pattern, s)
    case Some(k) =>
      if i < k {
        MatchCovers(r.pattern, s, i);
      }
      assert s[k..][i - k] == c;
      ReplaceKeepsPresent(s[k..], r, c);
    case None =>
      if 0 < i {
        assert s[1..][i - 1] == c;
        ReplaceKeepsPresent(s[1..], r, c);
      }
  }

  /** A non-letter that no pattern of the chain contains survives it. */
  lemma {:induction false} RulesKeepPresent(rules: seq<Rule>, s: string, c: char)
    requires c in s && !IsLetter(c)
    requires forall j :: 0 <= j < |rules| ==> c !in PatternText(rules[j].pattern)
    ensures c in ApplyRules(rules, s)
    decreases |rules|
  {
    if 0 < |rules| {
      ReplaceKeepsPresent(s, rules[0], c);
      RulesKeepPresent(rules[1..], ReplaceAll(s, rules[0].pattern, rules[0].rep), c);
    }
  }

  /** Every character of `s` replaced by its image under `f`. */
  function MapChars(s: string, f: char -> string): string
    decreases |s|
  {
    if |s| == 0 then [] else f(s[0]) + MapChars(s[1..], f)
  }

  lemma {:induction false} MapCharsAppend(a: string, b: string, f: char -> string)
    ensures MapChars(a + b, f) == MapChars(a, f) + MapChars(b, f)
    decreases |a|
  {
    if 0 < |a| {
      assert (a + b)[0] == a[0] && (a + b)[1..] == a[1..] + b;
      MapCharsAppend(a[1..], b, f);
      var x, y, z := f(a[0]), MapChars(a[1..], f), MapChars(b, f);
      calc {
        MapChars(a + b, f);
        x + MapChars(a[1..] + b, f);
        x + (y + z);
        (x + y) + z;
      }
    } else {
      assert a + b == b;
    }
  }

  lemma {:induction false} MapCharsCompose(s: string, f: char -> string, g: char -> string)
    ensures MapChars(MapChars(s, f), g) == MapChars(s, x => MapChars(f(x), g))
    decreases |s|
  {
    if 0 < |s| {
      MapCharsAppend(f(s[0]), MapChars(s[1..], f), g);
      MapCharsCompose(s[1..], f, g);
    }
  }

  lemma {:induction false} MapCharsPointwise(s: string, f: char -> string, g: char -> string)
    requires forall x :: f(x) == g(x)
    ensures MapChars(s, f) == MapChars(s, g)
    decreases |s|
  {
    if 0 < |s| {
      MapCharsPointwise(s[1..], f, g);
    }
  }

  /** `c` becomes `rep`; every other character stays. */
  function Substitute(c: char, rep: string): char -> string {
    x => if x == c then rep else [x]
  }

  /** Replacing a single character everywhere is a character-by-character
      substitution. */
  lemma {:induction false} SingleCharReplace(s: string, c: char, rep: string)
    ensures ReplaceAll(s, Literal([c], false), rep) == MapChars(s, Substitute(c, rep))
    decreases |s|
  {
    if 0 < |s| {
      StartsWithAt(s, [c], false);
      SingleCharReplace(s[1..], c, rep);
    }
  }

  /** A backslash put in front of each character of `cs`. */
  function Escape(cs: seq<char>): char -> string {
    x => if x in cs then ['\\', x] else [x]
  }

  /** The chain `.replace(c1, "\\c1").replace(c2, "\\c2")…`. */
  function EscapeRules(cs: seq<char>): (rules: seq<Rule>)
    ensures |rules| == |cs|
    ensures forall i :: 0 <= i < |cs| ==> rules[i] == Rule(Literal([cs[i]], false), ['\\', cs[i]])
  {
    seq(|cs|, i requires 0 <= i < |cs| => Rule(Literal([cs[i]], false), ['\\', cs[i]]))
  }

  /** Escaping distinct characters one after another, none of them a
      backslash, puts exactly one backslash in front of every occurrence of
      each and changes nothing else. */
  lemma {:induction false} EscapeRulesAreEscape(cs: seq<char>, s: string)
    requires '\\' !in cs
    requires forall i, j :: 0 <= i < j < |cs| ==> cs[i] != cs[j]
    ensures ApplyRules(EscapeRules(cs), s) == MapChars(s, Escape(cs))
    decreases |cs|
  {
    if |cs| == 0 {
      MapCharsPointwise(s, Escape(cs), x => [x]);
      MapCharsIdentity(s);
    } else {
      var c, rest := cs[0], cs[1..];
      assert EscapeRules(cs)[1..] == EscapeRules(rest);
      var once := ReplaceAll(s, Literal([c], false), ['\\', c]);
      EscapeRulesAreEscape(rest, once);
      SingleCharReplace(s, c, ['\\', c]);
      MapCharsCompose(s, Substitute(c, ['\\', c]), Escape(rest));
      forall x ensures MapChars(Substitute(c, ['\\', c])(x), Escape(rest)) == Escape(cs)(x) {
        if x == c {
          assert forall j :: 0 <= j < |rest| ==> rest[j] == cs[j + 1];
          assert MapChars(['\\', c], Escape(rest)) == Escape(rest)('\\') + MapChars([c], Escape(rest));
        } else {
          assert x in cs <==> x in rest;
          assert MapChars([x], Escape(rest)) == Escape(rest)(x) + MapChars([], Escape(rest));
        }
      }
      MapCharsPointwise(s, x => MapChars(Substitute(c, ['\\', c])(x), Escape(rest)), Escape(cs));
    }
  }

  lemma {:induction false} MapCharsIdentity(s: string)
    ensures MapChars(s, x => [x]) == s
    decreases |s|
  {
    if 0 < |s| {
      MapCharsIdentity(s[1..]);
    }
  }

  /** No two consecutive dots. */
  predicate NoDoubleDot(s: string) {
    forall i :: 0 <= i < |s| - 1 ==> !(s[i] == '.' && s[i + 1] == '.')
  }

  /** Removing every `..`, left to right, leaves no `..` behind: a dot that
      survives is followed in the input by a character other than a dot,
      and that character survives too. */
  lemma {:induction false} DotsRemoved(s: string)
    ensures NoDoubleDot(ReplaceAll(s, Literal("..", false), ""))
    ensures 0 < |s| && s[0] != '.' ==>
      0 < |ReplaceAll(s, Literal("..", false), "")| && ReplaceAll(s, Literal("..", false), "")[0] == s[0]
    decreases |s|
  {
    if 0 < |s| {
      StartsWithAt(s, "..", false);
      match MatchLength(Literal("..", false), s)
      case Some(k) =>
        DotsRemoved(s[k..]);
      case None =>
        DotsRemoved(s[1..]);
        var tail := ReplaceAll(s[1..], Literal("..", false), "");
        assert ReplaceAll(s, Literal("..", false), "") == [s[0]] + tail;
        if s[0] == '.' && 1 < |s| {
          assert s[1] != '.';
        }
    }
  }

  /** A pattern that needs `..` finds nothing where there is none. */
  lemma NoDotsNoMatch(s: string, p: Pattern)
    requires NoDoubleDot(s)
    requires p.Literal? && !p.fold && 2 <= |p.text| && p.text[0] == '.' && p.text[1] == '.'
    ensures forall i :: 0 <= i < |s| ==> MatchLength(p, s[i..]).None?
  {
    forall i | 0 <= i < |s| ensures MatchLength(p, s[i..]).None? {
      StartsWithAt(s[i..], p.text, false);
      if i + 1 < |s| {
        assert s[i..][0] == s[i] && s[i..][1] == s[i + 1];
      }
    }
  }

  // Whitespace and trimming

  /** `String.prototype.trim`: WhiteSpace and LineTerminator of
      ECMAScript (section 12.2 and 12.3 of ECMA-262). */
  predicate JsSpace(c: char) {
    c == '\t' || c == '\n' || c == '\U{000B}' || c == '\U{000C}' || c == '\r' || c == ' ' ||
    c == '\U{00A0}' || c == '\U{1680}' || ('\U{2000}' <= c <= '\U{200A}') ||
    c == '\U{2028}' || c == '\U{2029}' || c == '\U{202F}' || c == '\U{205F}' ||
    c == '\U{3000}' || c == '\U{FEFF}'
  }

  /** Python's `str.strip()` with no argument: the characters for which
      `str.isspace()` holds. Unlike `JsSpace` it includes the separators
      U+001C to U+001F and U+0085 and excludes U+FEFF. */
  predicate PySpace(c: char) {
    ('\t' <= c <= '\r') || ('\U{001C}' <= c <= ' ') || c == '\U{0085}' ||
    c == '\U{00A0}' || c == '\U{1680}' || ('\U{2000}' <= c <= '\U{200A}') ||
    c == '\U{2028}' || c == '\U{2029}' || c == '\U{202F}' || c == '\U{205F}' ||
    c == '\U{3000}'
  }

  predicate AllSpace(s: string, ws: char -> bool) {
    forall i :: 0 <= i < |s| ==> ws(s[i])
  }

  /** The index of the first character of `s` at or after `i` that is not
      white space, or `|s|`. */
  function FirstKept(s: string, ws: char -> bool, i: nat): (k: nat)
    requires i <= |s|
    decreases |s| - i
    ensures i <= k <= |s|
    ensures forall j :: i <= j < k ==> ws(s[j])
    ensures k < |s| ==> !ws(s[k])
  {
    if i == |s| || !ws(s[i]) then i else FirstKept(s, ws, i + 1)
  }

  /** The index just past the last character of `s` before `j` and at or
      after `lo` that is not white space, or `lo`. */
  function LastKeptEnd(s: string, ws: char -> bool, lo: nat, j: nat): (k: nat)
    requires lo <= j <= |s|
    decreases j - lo
    ensures lo <= k <= j
    ensures forall m :: k <= m < j ==> ws(s[m])
    ensures lo < k ==> !ws(s[k - 1])
  {
    if j == lo || !ws(s[j - 1]) then j else LastKeptEnd(s, ws, lo, j - 1)
  }

  /** `r` is `s` with white space cut from both ends: a slice of `s`
      preceded and followed only by white space, and empty or starting and
      ending with a character that is not. */
  predicate TrimmedFrom(s: string, r: string, ws: char -> bool) {
    exists i :: 0 <= i && i + |r| <= |s| && TrimmedAt(s, r, ws, i)
  }

  predicate TrimmedAt(s: string, r: string, ws: char -> bool, i: nat)
    requires i + |r| <= |s|
  {
    && s[i..i + |r|] == r
    && AllSpace(s[..i], ws)
    && AllSpace(s[i + |r|..], ws)
    && (0 < |r| ==> !ws(r[0]) && !ws(r[|r| - 1]))
  }

  /** `trim()` / `strip()` for the white-space class `ws`. */
  function Trim(s: string, ws: char -> bool): (r: string)
    ensures TrimmedFrom(s, r, ws)
  {
    var i := FirstKept(s, ws, 0);
    var j := LastKeptEnd(s, ws, i, |s|);
    var r := s[i..j];
    assert TrimmedAt(s, r, ws, i);
    r
  }

  /** There is only one way to trim a string: any `r` that is `s` with white
      space cut from both ends is `Trim(s, ws)`. */
  lemma TrimUnique(s: string, r1: string, r2: string, ws: char -> bool)
    requires TrimmedFrom(s, r1, ws) && TrimmedFrom(s, r2, ws)
    ensures r1 == r2
  {
    var i1 :| 0 <= i1 && i1 + |r1| <= |s| && TrimmedAt(s, r1, ws, i1);
    var i2 :| 0 <= i2 && i2 + |r2| <= |s| && TrimmedAt(s, r2, ws, i2);
    TrimmedBounds(s, r1, ws, i1);
    TrimmedBounds(s, r2, ws, i2);
  }

  /** What `TrimmedAt` says, position by position. */
  lemma TrimmedBounds(s: string, r: string, ws: char -> bool, i: nat)
    requires i + |r| <= |s| && TrimmedAt(s, r, ws, i)
    ensures forall j :: 0 <= j < i ==> ws(s[j])
    ensures forall j :: i + |r| <= j < |s| ==> ws(s[j])
    ensures 0 < |r| ==> !ws(s[i]) && !ws(s[i + |r| - 1])
    ensures |r| == 0 ==> forall j :: 0 <= j < |s| ==> ws(s[j])
    ensures r == s[i..i + |r|]
  {
    forall j | 0 <= j < i ensures ws(s[j]) {
      assert s[..i][j] == s[j];
    }
    forall j | i + |r| <= j < |s| ensures ws(s[j]) {
      assert s[i + |r|..][j - i - |r|] == s[j];
    }
    if 0 < |r| {
      assert r[0] == s[i] && r[|r| - 1] == s[i + |r| - 1];
    }
  }

  /** A string that neither starts nor ends with white space is its own
      trim. */
  lemma TrimNoEdgeSpace(s: string, ws: char -> bool)
    requires 0 < |s| ==> !ws(s[0]) && !ws(s[|s| - 1])
    ensures Trim(s, ws) == s
  {
    assert s[0..0 + |s|] == s && s[..0] == [] && s[|s|..] == [];
    assert TrimmedAt(s, s, ws, 0);
    TrimUnique(s, Trim(s, ws), s, ws);
  }

  /** Trimming twice is trimming once. */
  lemma TrimIdempotent(s: string, ws: char -> bool)
    ensures Trim(Trim(s, ws), ws) == Trim(s, ws)
  {
    var r := Trim(s, ws);
    assert r[0..0 + |r|] == r && r[..0] == [] && r[|r|..] == [];
    assert TrimmedAt(r, r, ws, 0);
    TrimUnique(r, Trim(r, ws), r, ws);
  }
}
