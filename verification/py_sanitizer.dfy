/** The Python sanitizer of `sanitizer/my_sanitizer.py`: the same thirteen
    handlers as the TypeScript chain, but built once per `Sanitizer` object,
    in a fixed order, and each handler remembers whether it has ever changed
    the text. A handler that has is skipped on every later call. */
module PySanitizer {
  import opened Text
  import opened Pipeline
  import opened SanitizerRules

  /** The same pattern with case folding turned off. */
  function CaseSensitive(p: Pattern): (r: Pattern)
    ensures PatternText(r) == PatternText(p) && !r.fold
    ensures forall c :: Needs(r, c) <==> Needs(p, c)
  {
    match p
    case Literal(t, _) => Literal(t, false)
    case OptionalTail(h, t, _) => OptionalTail(h, t, false)
  }

  /** A Python handler runs its first pattern through `re.sub` with
      IGNORECASE and the rest through the case-sensitive `str.replace`. */
  function FoldFirstOnly(rules: seq<Rule>): (r: seq<Rule>)
    ensures |r| == |rules|
    ensures 0 < |r| ==> r[0] == rules[0]
    ensures forall j :: 0 <= j < |r| ==>
      PatternText(r[j].pattern) == PatternText(rules[j].pattern) && r[j].rep == rules[j].rep
    ensures forall j :: 0 < j < |r| ==> !r[j].pattern.fold
    ensures forall j, c :: 0 <= j < |r| ==> (Keeps(r[j], c) <==> Keeps(rules[j], c))
  {
    seq(|rules|, j requires 0 <= j < |rules| =>
      if j == 0 then rules[0] else Rule(CaseSensitive(rules[j].pattern), rules[j].rep))
  }

  /** The XSS handler, which unlike the TypeScript one matches the `=`. */
  const PyXssRules: seq<Rule> := [
    Rule(Fold("<script"), "&lt;script"),
    Rule(Lit("</script>"), "&lt;/script&gt;"),
    Rule(Lit("onerror="), "onerror&#61;"),
    Rule(Lit("onload="), "onload&#61;"),
    Rule(Lit("javascript:"), "javascript&#58;")]

  /** The traversal handler: two `re.sub` calls, then the same two
      removals again with `str.replace`. */
  const PyTraversalRules: seq<Rule> := TraversalRules + TraversalRules

  /** What each Python handler does to the text when it runs. */
  function PyPass(st: Stage): Pass {
    match st
    case TrimStage => Trimming(PySpace)
    case JsStage => Rewriting(FoldFirstOnly(JsRules))
    case PythonStage => Rewriting(FoldFirstOnly(PythonRules))
    case VbStage => Rewriting(FoldFirstOnly(VbRules))
    case LuaStage => Rewriting(FoldFirstOnly(LuaRules))
    case XssStage => Rewriting(PyXssRules)
    case TraversalStage => Rewriting(PyTraversalRules)
    case _ => StagePass(st)
  }

  /** The chain the constructor links. */
  const PyChain: seq<Stage> := [
    TrimStage, OsStage, SqlStage, HtmlStage, PhpStage, JsStage, PythonStage,
    VbStage, RubyStage, LuaStage, XssStage, TemplateStage, TraversalStage]

  predicate Distinct(c: seq<Stage>) {
    forall i, j :: 0 <= i < j < |c| ==> c[i] != c[j]
  }

  /** The position of each handler in the chain. */
  function PyRank(st: Stage): nat {
    match st
    case TrimStage => 0
    case OsStage => 1
    case SqlStage => 2
    case HtmlStage => 3
    case PhpStage => 4
    case JsStage => 5
    case PythonStage => 6
    case VbStage => 7
    case RubyStage => 8
    case LuaStage => 9
    case XssStage => 10
    case TemplateStage => 11
    case TraversalStage => 12
  }

  lemma PyChainDistinct()
    ensures Distinct(PyChain)
  {
    assert forall i :: 0 <= i < |PyChain| ==> PyRank(PyChain[i]) == i;
  }

  /** One handler's `handle`: a processed handler passes the text on
      untouched; otherwise it rewrites, and marks itself processed exactly
      when the rewrite changed something. */
  function Step(f: Stage -> Pass, st: Stage, done: set<Stage>, s: string): (r: (string, set<Stage>))
    ensures st in done ==> r == (s, done)
    ensures st !in done ==> r.0 == RunPass(f(st), s)
    ensures done <= r.1 && r.1 - done <= {st}
    ensures st in r.1 <==> st in done || r.0 != s
  {
    if st in done then (s, done)
    else
      var t := RunPass(f(st), s);
      (t, if t != s then done + {st} else done)
  }

  /** The text and the processed handlers after the chain from `chain[0]` on. */
  function HandleFrom(f: Stage -> Pass, chain: seq<Stage>, done: set<Stage>, s: string): (r: (string, set<Stage>))
    decreases |chain|
  {
    if |chain| == 0 then (s, done)
    else
      var t := Step(f, chain[0], done, s);
      HandleFrom(f, chain[1..], t.1, t.0)
  }

  lemma {:induction false} WithoutIgnores(c: seq<Stage>, drop: set<Stage>, x: Stage)
    requires x !in c
    ensures Without(c, drop + {x}) == Without(c, drop)
    decreases |c|
  {
    if 0 < |c| {
      WithoutIgnores(c[1..], drop, x);
    }
  }

  lemma {:induction false} WithoutNothing(c: seq<Stage>)
    ensures Without(c, {}) == c
    decreases |c|
  {
    if 0 < |c| {
      WithoutNothing(c[1..]);
      assert c == [c[0]] + c[1..];
    }
  }

  /** Running the chain is the same as running, in order, the handlers not
      yet processed; only handlers of the chain become processed. */
  lemma {:induction false} HandleFromRuns(f: Stage -> Pass, chain: seq<Stage>, done: set<Stage>, s: string)
    requires Distinct(chain)
    ensures HandleFrom(f, chain, done, s).0 == Run(Passes(Without(chain, done), f), s)
    ensures done <= HandleFrom(f, chain, done, s).1
    ensures forall st :: st in HandleFrom(f, chain, done, s).1 ==> st in done || st in chain
    decreases |chain|
  {
    if 0 < |chain| {
      var st := chain[0];
      var t := Step(f, st, done, s);
      assert Distinct(chain[1..]);
      HandleFromRuns(f, chain[1..], t.1, t.0);
      if st !in done {
        assert st !in chain[1..];
        if t.1 != done {
          assert t.1 == done + {st};
          WithoutIgnores(chain[1..], done, st);
        }
        var rest := Without(chain[1..], done);
        assert Without(chain, done) == [st] + rest;
        PassesAppend([st], rest, f);
        assert Passes([st], f) == [f(st)];
      }
    }
  }

  /** The text that reaches handler `i` is what the first handler hands on,
      run through the handlers between it and `i` that are still active. */
  lemma PrefixRuns(f: Stage -> Pass, chain: seq<Stage>, done: set<Stage>, s: string, i: nat)
    requires Distinct(chain) && 0 < i < |chain|
    ensures Run(Passes(Without(chain[..i], done), f), s) ==
      Run(Passes(Without(chain[1..][..i - 1], Step(f, chain[0], done, s).1), f), Step(f, chain[0], done, s).0)
  {
    var st := chain[0];
    var t := Step(f, st, done, s);
    assert chain[1..][..i - 1] == chain[1..i];
    assert chain[..i] == [st] + chain[1..i];
    if st !in done {
      assert st !in chain[1..i];
      if t.1 != done {
        WithoutIgnores(chain[1..i], done, st);
      }
      var rest := Without(chain[1..i], done);
      assert Without(chain[..i], done) == [st] + rest;
      PassesAppend([st], rest, f);
      assert Passes([st], f) == [f(st)];
    } else {
      assert Without(chain[..i], done) == Without(chain[1..i], done);
    }
  }

  /** The handler at position `i` ends up processed exactly when it already
      was, or when it changed the text that reached it. */
  lemma {:induction false} HandleFromMarks(f: Stage -> Pass, chain: seq<Stage>, done: set<Stage>, s: string, i: nat)
    requires Distinct(chain) && i < |chain|
    ensures chain[i] in HandleFrom(f, chain, done, s).1 <==>
      chain[i] in done ||
      RunPass(f(chain[i]), Run(Passes(Without(chain[..i], done), f), s)) != Run(Passes(Without(chain[..i], done), f), s)
    decreases |chain|
  {
    var st := chain[0];
    var t := Step(f, st, done, s);
    assert Distinct(chain[1..]);
    HandleFromRuns(f, chain[1..], t.1, t.0);
    if i == 0 {
      assert chain[..0] == [];
      if st !in done {
        assert st !in chain[1..];
      }
    } else {
      HandleFromMarks(f, chain[1..], t.1, t.0, i - 1);
      PrefixRuns(f, chain, done, s, i);
      assert chain[1..][i - 1] == chain[i];
      assert chain[i] != st;
    }
  }

  /** The object: its text and the handlers that have fired. */
  datatype Sanitizer = Sanitizer(data: string, processed: set<Stage>)

  function New(data: string): (r: Sanitizer)
    ensures r.data == data && r.processed == {}
  {
    Sanitizer(data, {})
  }

  /** `sanitize`: runs the chain on the stored text and stores the result. */
  function Sanitize(z: Sanitizer): (r: (Sanitizer, string))
    ensures r.0.data == r.1
    ensures r.1 == Run(Passes(Without(PyChain, z.processed), PyPass), z.data)
    ensures z.processed <= r.0.processed
  {
    PyChainDistinct();
    HandleFromRuns(PyPass, PyChain, z.processed, z.data);
    var t := HandleFrom(PyPass, PyChain, z.processed, z.data);
    (Sanitizer(t.0, t.1), t.0)
  }

  /** Which handlers a call marks: handler `i` is processed afterwards
      exactly when it was before, or when it changed the text it received. */
  lemma SanitizeMarks(z: Sanitizer, i: nat)
    requires i < |PyChain|
    ensures PyChain[i] in Sanitize(z).0.processed <==>
      PyChain[i] in z.processed ||
      RunPass(PyPass(PyChain[i]), Run(Passes(Without(PyChain[..i], z.processed), PyPass), z.data))
        != Run(Passes(Without(PyChain[..i], z.processed), PyPass), z.data)
  {
    PyChainDistinct();
    HandleFromMarks(PyPass, PyChain, z.processed, z.data, i);
  }

  /** On a fresh object every handler runs. */
  lemma FirstCallRunsAll(d: string)
    ensures Sanitize(New(d)).1 == Run(Passes(PyChain, PyPass), d)
  {
    WithoutNothing(PyChain);
  }

  /** The `str.replace` removals after the two `re.sub` calls never find
      anything: the text has no `..` left. */
  lemma {:induction false} TraversalRepeatIdle(s: string)
    ensures ApplyRules(PyTraversalRules, s) == ApplyRules(TraversalRules, s)
  {
    var t := ApplyRules(TraversalRules, s);
    ApplyRulesAppend(TraversalRules, TraversalRules, s);
    TraversalLeavesNoDots(s);
    NoDotsNoMatch(t, Lit("../"));
    NoMatchUnchanged(t, Lit("../"), "");
    NoDotsNoMatch(t, Lit(".."));
    NoMatchUnchanged(t, Lit(".."), "");
    ApplyOneRule(TraversalRules[0], t);
    ApplyOneRule(TraversalRules[1], t);
    ApplyRulesAppend([TraversalRules[0]], [TraversalRules[1]], t);
    assert TraversalRules == [TraversalRules[0]] + [TraversalRules[1]];
  }

  lemma {:induction false} WithoutKeepsLast(c: seq<Stage>, drop: set<Stage>)
    requires 0 < |c| && c[|c| - 1] !in drop
    ensures Without(c, drop) == Without(c[..|c| - 1], drop) + [c[|c| - 1]]
    decreases |c|
  {
    if |c| > 1 {
      WithoutKeepsLast(c[1..], drop);
      assert c[1..][..|c| - 2] == c[1..|c| - 1];
      assert c[..|c| - 1][1..] == c[1..|c| - 1];
    } else {
      assert c[..0] == [];
    }
  }

  lemma TraversalPass(st: Stage)
    requires st == TraversalStage
    ensures PyPass(st) == Rewriting(PyTraversalRules)
  {
  }

  /** Whatever ran before, a chain that ends in the traversal handler
      leaves no `..`. */
  lemma LastTraversalNoDots(c: seq<Stage>, drop: set<Stage>, s: string)
    requires 0 < |c| && c[|c| - 1] == TraversalStage && TraversalStage !in drop
    ensures NoDoubleDot(Run(Passes(Without(c, drop), PyPass), s))
  {
    var st := c[|c| - 1];
    WithoutKeepsLast(c, drop);
    var pre := Passes(Without(c[..|c| - 1], drop), PyPass);
    PassesAppend(Without(c[..|c| - 1], drop), [st], PyPass);
    assert Passes([st], PyPass) == [PyPass(st)];
    var x := Run(pre, s);
    RunAppend(pre, [PyPass(st)], s);
    RunOne(PyPass(st), x);
    TraversalPass(st);
    TraversalRepeatIdle(x);
    TraversalLeavesNoDots(x);
  }

  /** As long as the traversal handler has not fired before, a call leaves
      no `..` in the text. */
  lemma SanitizeLeavesNoDots(z: Sanitizer)
    requires TraversalStage !in z.processed
    ensures NoDoubleDot(Sanitize(z).1)
  {
    var c := PyChain;
    assert c[|c| - 1] == TraversalStage;
    LastTraversalNoDots(c, z.processed, z.data);
  }

  // Which handlers can bring `<` or `>` back: none of those after the HTML
  // handler.

  lemma FoldFirstKeeps(rules: seq<Rule>, c: char)
    requires forall j :: 0 <= j < |rules| ==> Keeps(rules[j], c)
    ensures PassKeeps(Rewriting(FoldFirstOnly(rules)), c)
  {
  }

  predicate KeepsAngles(p: Pass) {
    PassKeeps(p, '<') && PassKeeps(p, '>')
  }

  lemma PyPhpKeepsAngles(st: Stage)
    requires st == PhpStage
    ensures KeepsAngles(PyPass(st))
  {
    PhpKeepsAngles();
  }

  lemma PyJsKeepsAngles(st: Stage)
    requires st == JsStage
    ensures KeepsAngles(PyPass(st))
  {
    JsRulesKeepLt();
    JsRulesKeepGt();
    FoldFirstKeeps(JsRules, '<');
    FoldFirstKeeps(JsRules, '>');
  }

  lemma PythonRulesKeepAngles()
    ensures forall j :: 0 <= j < |PythonRules| ==> Keeps(PythonRules[j], '<') && Keeps(PythonRules[j], '>')
  {
  }

  lemma PyPythonKeepsAngles(st: Stage)
    requires st == PythonStage
    ensures KeepsAngles(PyPass(st))
  {
    PythonRulesKeepAngles();
    FoldFirstKeeps(PythonRules, '<');
    FoldFirstKeeps(PythonRules, '>');
  }

  lemma VbRulesKeepLt()
    ensures forall j :: 0 <= j < |VbRules| ==> Keeps(VbRules[j], '<')
  {
  }

  lemma VbRulesKeepGt()
    ensures forall j :: 0 <= j < |VbRules| ==> Keeps(VbRules[j], '>')
  {
  }

  lemma PyVbKeepsAngles(st: Stage)
    requires st == VbStage
    ensures KeepsAngles(PyPass(st))
  {
    VbRulesKeepLt();
    VbRulesKeepGt();
    FoldFirstKeeps(VbRules, '<');
    FoldFirstKeeps(VbRules, '>');
  }

  lemma PyRubyKeepsAngles(st: Stage)
    requires st == RubyStage
    ensures KeepsAngles(PyPass(st))
  {
    RubyKeepsAngles();
  }

  lemma PyLuaKeepsAngles(st: Stage)
    requires st == LuaStage
    ensures KeepsAngles(PyPass(st))
  {
    LuaRulesKeepLt();
    LuaRulesKeepGt();
    FoldFirstKeeps(LuaRules, '<');
    FoldFirstKeeps(LuaRules, '>');
  }

  lemma PyXssRulesKeepLt()
    ensures forall j :: 0 <= j < |PyXssRules| ==> Keeps(PyXssRules[j], '<')
  {
  }

  lemma PyXssRulesKeepGt()
    ensures forall j :: 0 <= j < |PyXssRules| ==> Keeps(PyXssRules[j], '>')
  {
  }

  lemma PyXssKeepsAngles(st: Stage)
    requires st == XssStage
    ensures KeepsAngles(PyPass(st))
  {
    PyXssRulesKeepLt();
    PyXssRulesKeepGt();
  }

  lemma PyTemplateKeepsAngles(st: Stage)
    requires st == TemplateStage
    ensures KeepsAngles(PyPass(st))
  {
    TemplateKeepsAngles();
  }

  lemma PyTraversalKeepsAngles(st: Stage)
    requires st == TraversalStage
    ensures KeepsAngles(PyPass(st))
  {
    TraversalPass(st);
    assert forall j :: 0 <= j < |PyTraversalRules| ==> PyTraversalRules[j].rep == "";
  }

  /** Every handler after the HTML one keeps angle brackets out. */
  lemma LateKeepsAngles(st: Stage)
    requires PyRank(st) > PyRank(HtmlStage)
    ensures KeepsAngles(PyPass(st))
  {
    if st == PhpStage {
      PyPhpKeepsAngles(st);
    } else if st == JsStage {
      PyJsKeepsAngles(st);
    } else if st == PythonStage {
      PyPythonKeepsAngles(st);
    } else if st == VbStage {
      PyVbKeepsAngles(st);
    } else if st == RubyStage {
      PyRubyKeepsAngles(st);
    } else if st == LuaStage {
      PyLuaKeepsAngles(st);
    } else if st == XssStage {
      PyXssKeepsAngles(st);
    } else if st == TemplateStage {
      PyTemplateKeepsAngles(st);
    } else {
      PyTraversalKeepsAngles(st);
    }
  }

  lemma {:induction false} WithoutAppend(a: seq<Stage>, b: seq<Stage>, drop: set<Stage>)
    ensures Without(a + b, drop) == Without(a, drop) + Without(b, drop)
    decreases |a|
  {
    if 0 < |a| {
      WithoutAppend(a[1..], b, drop);
      assert (a + b)[1..] == a[1..] + b;
    } else {
      assert a + b == b;
    }
  }

  lemma WithoutSplit(c: seq<Stage>, drop: set<Stage>, i: nat)
    requires i < |c| && c[i] !in drop
    ensures Without(c, drop) == Without(c[..i], drop) + [c[i]] + Without(c[i + 1..], drop)
  {
    assert c == c[..i] + ([c[i]] + c[i + 1..]);
    WithoutAppend(c[..i], [c[i]] + c[i + 1..], drop);
    WithoutAppend([c[i]], c[i + 1..], drop);
    assert Without([c[i]], drop) == [c[i]];
  }

  lemma PostKeepAngles(post: seq<Stage>)
    requires forall st :: st in post ==> PyRank(st) > PyRank(HtmlStage)
    ensures forall k :: 0 <= k < |Passes(post, PyPass)| ==> KeepsAngles(Passes(post, PyPass)[k])
  {
    forall k | 0 <= k < |post| ensures KeepsAngles(PyPass(post[k])) {
      LateKeepsAngles(post[k]);
    }
  }

  /** As long as the HTML handler has not fired before, a call returns no
      angle brackets. */
  lemma SanitizeNoAngles(z: Sanitizer)
    requires HtmlStage !in z.processed
    ensures '<' !in Sanitize(z).1 && '>' !in Sanitize(z).1
  {
    var c := PyChain;
    assert c[3] == HtmlStage;
    assert forall k :: 4 <= k < |c| ==> PyRank(c[k]) > PyRank(HtmlStage);
    NoAnglesAfter(c, 3, z.processed, z.data);
  }

  lemma NoAnglesAfter(c: seq<Stage>, i: nat, drop: set<Stage>, s: string)
    requires i < |c| && c[i] == HtmlStage && HtmlStage !in drop
    requires forall k :: i < k < |c| ==> PyRank(c[k]) > PyRank(HtmlStage)
    ensures '<' !in Run(Passes(Without(c, drop), PyPass), s)
    ensures '>' !in Run(Passes(Without(c, drop), PyPass), s)
  {
    WithoutSplit(c, drop, i);
    var post := Without(c[i + 1..], drop);
    LateAfter(c, i, drop);
    PostKeepAngles(post);
    PassesSplit(Without(c[..i], drop), c[i], post);
    HtmlThenKeeps(Passes(Without(c[..i], drop), PyPass), c[i], Passes(post, PyPass), s);
  }

  lemma LateAfter(c: seq<Stage>, i: nat, drop: set<Stage>)
    requires i < |c| && forall k :: i < k < |c| ==> PyRank(c[k]) > PyRank(HtmlStage)
    ensures forall st :: st in Without(c[i + 1..], drop) ==> PyRank(st) > PyRank(HtmlStage)
  {
    forall st | st in Without(c[i + 1..], drop) ensures PyRank(st) > PyRank(HtmlStage) {
      var k :| 0 <= k < |c[i + 1..]| && c[i + 1..][k] == st;
      assert c[i + 1 + k] == st;
    }
  }

  lemma HtmlThenKeeps(pre: seq<Pass>, st: Stage, post: seq<Pass>, s: string)
    requires st == HtmlStage
    requires forall k :: 0 <= k < |post| ==> KeepsAngles(post[k])
    ensures '<' !in Run(pre + [PyPass(st)] + post, s)
    ensures '>' !in Run(pre + [PyPass(st)] + post, s)
  {
    HtmlPass(st);
    HtmlPassRemoves(Run(pre, s), '<');
    HtmlPassRemoves(Run(pre, s), '>');
    RunAfterRemoval(pre, PyPass(st), post, s, '<');
    RunAfterRemoval(pre, PyPass(st), post, s, '>');
  }

  lemma PassesSplit(pre: seq<Stage>, st: Stage, post: seq<Stage>)
    ensures Passes(pre + [st] + post, PyPass) == Passes(pre, PyPass) + [PyPass(st)] + Passes(post, PyPass)
  {
    PassesAppend(pre + [st], post, PyPass);
    PassesAppend(pre, [st], PyPass);
    assert Passes([st], PyPass) == [PyPass(st)];
  }

  lemma HtmlPass(st: Stage)
    requires st == HtmlStage
    ensures PyPass(st) == StagePass(st)
  {
  }
}
