/** The rewrite stages of `sanitizer/my-Sanitizer.ts`, which the methods of
    `my-Sanitizer.ts` repeat rule for rule, and the chain that runs them.
    Each stage is a chain of global replaces (see `Text`); `TrimSanitizer`
    is `String.prototype.trim`. Logging is left out: it never changes the
    data. */
module SanitizerRules {
  import opened Text
  import opened Pipeline
  import opened Common

  function Lit(t: string): Pattern { Literal(t, false) }
  function Fold(t: string): Pattern { Literal(t, true) }

  /** `HTMLSanitizer` and `escapeHTML`. */
  const HtmlRules: seq<Rule> := [
    Rule(Lit("&"), "&amp;"),
    Rule(Lit("<"), "&lt;"),
    Rule(Lit(">"), "&gt;"),
    Rule(Lit("\""), "&quot;"),
    Rule(Lit("'"), "&#039;"),
    Rule(Lit("`"), "&#x60;"),
    Rule(Lit("/"), "&#x2F;"),
    Rule(Lit("="), "&#x3D;")]

  /** `SQLSanitizer` and `preventSQLInjection`. */
  const SqlRules: seq<Rule> := [
    Rule(Lit("'"), "''"),
    Rule(Lit(";"), "\\;"),
    Rule(Lit("--"), "\\--"),
    Rule(Lit("\\"), "\\\\"),
    Rule(Lit("\0"), "\\x00"),
    Rule(Lit("\U{001A}"), "\\x1a"),
    Rule(Lit("\""), "\\\""),
    Rule(Lit("%"), "\\%")]

  /** `PHPSanitizer` and `preventPHPInjection`: `<?` with an optional
      `php`, ignoring case, then a case-sensitive `?>`. */
  const PhpRules: seq<Rule> := [
    Rule(OptionalTail("<?", "php", true), "&lt;?php"),
    Rule(Lit("?>"), "?&gt;")]

  /** `JSSanitizer` and `preventJSInjection`; every pattern ignores case. */
  const JsRules: seq<Rule> := [
    Rule(Fold("<script"), "&lt;script"),
    Rule(Fold("</script>"), "&lt;/script&gt;"),
    Rule(Fold("javascript:"), "javascript&#58;"),
    Rule(Fold("eval("), "eval&#40;"),
    Rule(Fold("new Function"), "new&#32;Function"),
    Rule(Fold("alert("), "alert&#40;"),
    Rule(Fold("console."), "console&#46;")]

  /** `PythonSanitizer` and `preventPythonInjection`. */
  const PythonRules: seq<Rule> := [
    Rule(Fold("import "), "import&#32;"),
    Rule(Fold("exec("), "exec&#40;"),
    Rule(Fold("eval("), "eval&#40;"),
    Rule(Fold("os."), "os&#46;"),
    Rule(Fold("sys."), "sys&#46;"),
    Rule(Fold("subprocess."), "subprocess&#46;")]

  /** `VBSanitizer` and `preventVBInjection`. */
  const VbRules: seq<Rule> := [
    Rule(Fold("CreateObject"), "Create&#79;bject"),
    Rule(Fold("GetObject"), "Get&#79;bject"),
    Rule(Fold("Execute"), "Exec&#117;te"),
    Rule(Fold("Eval"), "Ev&#97;l"),
    Rule(Fold("WScript.Shell"), "WScript&#46;Shell")]

  /** The characters `OSSanitizer` and `preventOSInjection` escape, in
      the order they are escaped. */
  const OsChars: seq<char> := "&|;`$><*?!~"

  /** `OSSanitizer`: each of `OsChars` gets a backslash in front. */
  const OsRules: seq<Rule> := EscapeRules(OsChars)

  /** `RubySanitizer`; every pattern is case-sensitive. */
  const RubyRules: seq<Rule> := [
    Rule(Lit("`"), "\\`"),
    Rule(Lit("$"), "\\$"),
    Rule(Lit("%x("), "%x\\("),
    Rule(Lit("system("), "system\\("),
    Rule(Lit("exec("), "exec\\("),
    Rule(Lit("open("), "open\\(")]

  /** `LuaSanitizer`. */
  const LuaRules: seq<Rule> := [
    Rule(Fold("os.execute"), "os&#46;execute"),
    Rule(Fold("io.popen"), "io&#46;popen"),
    Rule(Fold("loadstring"), "loadstring&#40;"),
    Rule(Fold("dofile"), "dofile&#40;"),
    Rule(Fold("loadfile"), "loadfile&#40;")]

  /** `TemplateInjectionSanitizer`. */
  const TemplateRules: seq<Rule> := [
    Rule(Lit("{{"), "{&#123;"),
    Rule(Lit("}}"), "}&#125;")]

  /** `XSSSanitizer`. */
  const XssRules: seq<Rule> := [
    Rule(Fold("<script"), "&lt;script"),
    Rule(Fold("</script>"), "&lt;/script&gt;"),
    Rule(Fold("onerror"), "onerror&#61;"),
    Rule(Fold("onload"), "onload&#61;"),
    Rule(Fold("javascript:"), "javascript&#58;")]

  /** `DirectoryTraversalSanitizer`: every `../`, then every `..`, removed. */
  const TraversalRules: seq<Rule> := [
    Rule(Lit("../"), ""),
    Rule(Lit(".."), "")]

  /** The stage classes. */
  datatype Stage =
    | TrimStage | HtmlStage | SqlStage | PhpStage | JsStage | PythonStage | VbStage
    | OsStage | RubyStage | LuaStage | XssStage | TemplateStage | TraversalStage

  /** The replace chain of a stage; trimming is not one. */
  function Rules(st: Stage): seq<Rule> {
    match st
    case TrimStage => []
    case HtmlStage => HtmlRules
    case SqlStage => SqlRules
    case PhpStage => PhpRules
    case JsStage => JsRules
    case PythonStage => PythonRules
    case VbStage => VbRules
    case OsStage => OsRules
    case RubyStage => RubyRules
    case LuaStage => LuaRules
    case XssStage => XssRules
    case TemplateStage => TemplateRules
    case TraversalStage => TraversalRules
  }

  /** What the `handle` override of a stage does to the data before it
      calls `super.handle`: `TrimSanitizer` calls `String.prototype.trim`,
      every other stage runs its replace chain. */
  function StagePass(st: Stage): Pass {
    if st == TrimStage then Trimming(JsSpace) else Rewriting(Rules(st))
  }

  /** `handle` of the first stage of a chain: each stage rewrites, then
      `AbstractSanitizerHandler.handle` passes the result to the next
      stage, and the last stage (no next handler) returns it. */
  function Handle(chain: seq<Stage>, s: string): string {
    Run(Passes(chain, StagePass), s)
  }

  /** Handing over composes: the first part of a chain hands its result to
      the rest. */
  lemma HandleAppend(a: seq<Stage>, b: seq<Stage>, s: string)
    ensures Handle(a + b, s) == Handle(b, Handle(a, s))
  {
    PassesAppend(a, b, StagePass);
    RunAppend(Passes(a, StagePass), Passes(b, StagePass), s);
  }

  /** A chain of one stage is that stage. */
  lemma HandleOne(st: Stage, s: string)
    ensures Handle([st], s) == RunPass(StagePass(st), s)
  {
    assert Passes([st], StagePass) == [StagePass(st)];
    RunOne(StagePass(st), s);
  }

  /** The stages of `c` not in `drop`, in their order. */
  function Without(c: seq<Stage>, drop: set<Stage>): (r: seq<Stage>)
    ensures forall st :: st in r <==> st in c && st !in drop
    decreases |c|
  {
    if |c| == 0 then []
    else if c[0] in drop then Without(c[1..], drop)
    else [c[0]] + Without(c[1..], drop)
  }

  /** The characters HTML escaping removes. */
  const Specials: seq<char> := "<>\"'`/="

  /** The HTML stage leaves none of `< > " ' ` / =` in its output: each is
      replaced by an entity, and no later entity contains one. */
  lemma HtmlRemovesSpecials(s: string)
    ensures forall c :: c in Specials ==> c !in ApplyRules(HtmlRules, s)
  {
    HtmlRemovesLt(s);
    HtmlRemovesGt(s);
    HtmlRemovesQuot(s);
    HtmlRemovesApos(s);
    HtmlRemovesGrave(s);
    HtmlRemovesSlash(s);
    HtmlRemovesEquals(s);
  }

  // One lemma per character: the solver handles each on its own.
  lemma HtmlRemovesLt(s: string)
    ensures '<' !in ApplyRules(HtmlRules, s)
  {
    RulesRemove(HtmlRules, s, '<', 1);
  }

  lemma HtmlRemovesGt(s: string)
    ensures '>' !in ApplyRules(HtmlRules, s)
  {
    RulesRemove(HtmlRules, s, '>', 2);
  }

  lemma HtmlRemovesQuot(s: string)
    ensures '"' !in ApplyRules(HtmlRules, s)
  {
    RulesRemove(HtmlRules, s, '"', 3);
  }

  lemma HtmlRemovesApos(s: string)
    ensures '\'' !in ApplyRules(HtmlRules, s)
  {
    RulesRemove(HtmlRules, s, '\'', 4);
  }

  lemma HtmlRemovesGrave(s: string)
    ensures '`' !in ApplyRules(HtmlRules, s)
  {
    RulesRemove(HtmlRules, s, '`', 5);
  }

  lemma HtmlRemovesSlash(s: string)
    ensures '/' !in ApplyRules(HtmlRules, s)
  {
    RulesRemove(HtmlRules, s, '/', 6);
  }

  lemma HtmlRemovesEquals(s: string)
    ensures '=' !in ApplyRules(HtmlRules, s)
  {
    RulesRemove(HtmlRules, s, '=', 7);
  }

  lemma HtmlPassRemoves(s: string, c: char)
    requires c in Specials
    ensures c !in RunPass(StagePass(HtmlStage), s)
  {
    assert Rules(HtmlStage) == HtmlRules;
    HtmlRemovesSpecials(s);
  }

  /** A chain with the HTML stage, followed only by stages that cannot
      bring `c` back, returns no `c` when `c` is one HTML escaping removes. */
  lemma HandleAfterHtml(pre: seq<Stage>, post: seq<Stage>, s: string, c: char)
    requires c in Specials
    requires forall k :: 0 <= k < |post| ==> PassKeeps(StagePass(post[k]), c)
    ensures c !in Handle(pre + [HtmlStage] + post, s)
  {
    PassesAppend(pre + [HtmlStage], post, StagePass);
    PassesAppend(pre, [HtmlStage], StagePass);
    var html := StagePass(HtmlStage);
    assert Passes([HtmlStage], StagePass) == [html];
    HtmlPassRemoves(Run(Passes(pre, StagePass), s), c);
    RunAfterRemoval(Passes(pre, StagePass), html, Passes(post, StagePass), s, c);
  }

  /** The OS stage puts one backslash in front of every `& | ; ` $ > < * ?
      ! ~` and changes nothing else. */
  lemma OsIsEscape(s: string)
    ensures ApplyRules(OsRules, s) == MapChars(s, Escape(OsChars))
  {
    EscapeRulesAreEscape(OsChars, s);
  }

  /** The backslash rule runs after `;` is escaped, so a `;` comes out of
      the SQL stage with two backslashes in front. */
  lemma SqlDoublesSemicolonEscape()
    ensures ApplyRules(SqlRules, ";") == "\\\\;"
  {
    var r := SqlRules;
    assert r == r[..4] + r[4..];
    ApplyRulesAppend(r[..4], r[4..], ";");
    SqlFirstFourOnSemicolon();
    SqlTailIdle("\\\\;");
  }

  /** The last four SQL rules each need a character the string lacks. */
  lemma SqlTailIdle(s: string)
    requires '\0' !in s && '\U{001A}' !in s && '"' !in s && '%' !in s
    ensures ApplyRules(SqlRules[4..], s) == s
  {
    RulesIdle(SqlRules[4..], s, "\0\U{001A}\"%");
  }

  /** The quote, semicolon, comment and backslash rules, in turn, on `;`. */
  lemma SqlFirstFourOnSemicolon()
    ensures ApplyRules(SqlRules[..4], ";") == "\\\\;"
  {
    var s1 := "\\;";
    var r := SqlRules[..4];
    assert r == [r[0]] + [r[1]] + [r[2]] + [r[3]];
    ApplyRulesAppend([r[0]] + [r[1]] + [r[2]], [r[3]], ";");
    ApplyRulesAppend([r[0]] + [r[1]], [r[2]], ";");
    ApplyRulesAppend([r[0]], [r[1]], ";");
    ApplyOneRule(r[0], ";");
    NeedsAbsentIdle(";", r[0], '\'');
    ApplyOneRule(r[1], ";");
    assert ReplaceAll(";", Lit(";"), "\\;") == s1 by {
      StartsWithAt(";", ";", false);
    }
    ApplyOneRule(r[2], s1);
    NeedsAbsentIdle(s1, r[2], '-');
    ApplyOneRule(r[3], s1);
    assert ReplaceAll(s1, Lit("\\"), "\\\\") == "\\\\;" by {
      StartsWithAt(s1, "\\", false);
      StartsWithAt(s1[1..], "\\", false);
      assert s1[1..][1..] == [];
    }
  }

  /** The directory-traversal stage leaves no `..` behind. */
  lemma TraversalLeavesNoDots(s: string)
    ensures NoDoubleDot(ApplyRules(TraversalRules, s))
  {
    DotsRemoved(ReplaceAll(s, Lit("../"), ""));
  }

  // Which stages can bring `<` or `>` back: none of those after the HTML
  // stage in `my-Sanitizer.ts`.
  lemma SqlKeepsAngles()
    ensures PassKeeps(StagePass(SqlStage), '<') && PassKeeps(StagePass(SqlStage), '>')
  {
    assert Rules(SqlStage) == SqlRules;
  }

  lemma PhpKeepsAngles()
    ensures PassKeeps(StagePass(PhpStage), '<') && PassKeeps(StagePass(PhpStage), '>')
  {
    assert Rules(PhpStage) == PhpRules;
  }

  lemma JsKeepsLt()
    ensures PassKeeps(StagePass(JsStage), '<')
  {
    assert Rules(JsStage) == JsRules;
    JsRulesKeepLt();
  }

  lemma JsRulesKeepLt()
    ensures forall j :: 0 <= j < |JsRules| ==> Keeps(JsRules[j], '<')
  {
  }

  lemma JsKeepsGt()
    ensures PassKeeps(StagePass(JsStage), '>')
  {
    assert Rules(JsStage) == JsRules;
    JsRulesKeepGt();
  }

  lemma JsRulesKeepGt()
    ensures forall j :: 0 <= j < |JsRules| ==> Keeps(JsRules[j], '>')
  {
  }

  lemma PythonKeepsLt()
    ensures PassKeeps(StagePass(PythonStage), '<')
  {
    assert Rules(PythonStage) == PythonRules;
  }

  lemma PythonKeepsGt()
    ensures PassKeeps(StagePass(PythonStage), '>')
  {
    assert Rules(PythonStage) == PythonRules;
  }

  lemma VbKeepsLt()
    ensures PassKeeps(StagePass(VbStage), '<')
  {
    VbRepsPlain('<');
  }

  lemma VbKeepsGt()
    ensures PassKeeps(StagePass(VbStage), '>')
  {
    VbRepsPlain('>');
  }

  /** No replacement of the VBScript stage holds an angle bracket. */
  lemma VbRepsPlain(c: char)
    requires c == '<' || c == '>'
    ensures forall j :: 0 <= j < |VbRules| ==> c !in VbRules[j].rep
  {
    forall j | 0 <= j < |VbRules|
      ensures c !in VbRules[j].rep
    {
      var rep := VbRules[j].rep;
      assert forall k :: 0 <= k < |rep| ==> rep[k] != c;
    }
  }

  lemma OsKeepsAngles()
    ensures PassKeeps(StagePass(OsStage), '<') && PassKeeps(StagePass(OsStage), '>')
  {
    assert Rules(OsStage) == OsRules;
  }

  /** A word of at most four letters: every pattern of the stages below is
      longer or starts or ends with a character other than a letter. */
  predicate ShortWord(s: string) { LettersOnly(s) && |s| <= 4 }

  lemma TrimKeepsWord(s: string)
    requires LettersOnly(s)
    ensures RunPass(StagePass(TrimStage), s) == s
  {
    if 0 < |s| {
      assert IsLetter(s[0]) && IsLetter(s[|s| - 1]);
    }
    TrimNoEdgeSpace(s, JsSpace);
  }

  lemma HtmlKeepsShortWord(s: string)
    requires ShortWord(s)
    ensures RunPass(StagePass(HtmlStage), s) == s
  {
    assert Rules(HtmlStage) == HtmlRules;
    HtmlRulesSkipShortWord(s);
  }

  lemma HtmlRulesSkipShortWord(s: string)
    requires ShortWord(s)
    ensures ApplyRules(HtmlRules, s) == s
  {
    RulesIdleOnWord(HtmlRules, s);
  }

  lemma SqlKeepsShortWord(s: string)
    requires ShortWord(s)
    ensures RunPass(StagePass(SqlStage), s) == s
  {
    assert Rules(SqlStage) == SqlRules;
    SqlRulesSkipShortWord(s);
  }

  lemma SqlRulesSkipShortWord(s: string)
    requires ShortWord(s)
    ensures ApplyRules(SqlRules, s) == s
  {
    RulesIdleOnWord(SqlRules, s);
  }

  lemma PhpKeepsShortWord(s: string)
    requires ShortWord(s)
    ensures RunPass(StagePass(PhpStage), s) == s
  {
    assert Rules(PhpStage) == PhpRules;
    RulesIdleOnWord(PhpRules, s);
  }

  lemma JsKeepsShortWord(s: string)
    requires ShortWord(s)
    ensures RunPass(StagePass(JsStage), s) == s
  {
    assert Rules(JsStage) == JsRules;
    RulesIdleOnWord(JsRules, s);
  }

  lemma PythonKeepsShortWord(s: string)
    requires ShortWord(s)
    ensures RunPass(StagePass(PythonStage), s) == s
  {
    assert Rules(PythonStage) == PythonRules;
    RulesIdleOnWord(PythonRules, s);
  }

  lemma OsKeepsShortWord(s: string)
    requires ShortWord(s)
    ensures RunPass(StagePass(OsStage), s) == s
  {
    assert Rules(OsStage) == OsRules;
    RulesIdleOnWord(OsRules, s);
  }

  lemma XssKeepsShortWord(s: string)
    requires ShortWord(s)
    ensures RunPass(StagePass(XssStage), s) == s
  {
    assert Rules(XssStage) == XssRules;
    RulesIdleOnWord(XssRules, s);
  }

  lemma TemplateKeepsShortWord(s: string)
    requires ShortWord(s)
    ensures RunPass(StagePass(TemplateStage), s) == s
  {
    assert Rules(TemplateStage) == TemplateRules;
    RulesIdleOnWord(TemplateRules, s);
  }

  lemma TraversalKeepsShortWord(s: string)
    requires ShortWord(s)
    ensures RunPass(StagePass(TraversalStage), s) == s
  {
    assert Rules(TraversalStage) == TraversalRules;
    RulesIdleOnWord(TraversalRules, s);
  }

  /** `VBSanitizer` rewrites the word `Eval`, bringing in the digit of its
      character reference. */
  lemma VbRewritesEval()
    ensures '7' in RunPass(StagePass(VbStage), "Eval")
  {
    var r := VbRules;
    assert Rules(VbStage) == r;
    assert r == r[..3] + [r[3]] + [r[4]];
    ApplyRulesAppend(r[..3] + [r[3]], [r[4]], "Eval");
    ApplyRulesAppend(r[..3], [r[3]], "Eval");
    VbLongRulesIdle();
    ApplyOneRule(r[3], "Eval");
    EvalRuleRewrites();
    ApplyOneRule(r[4], "Ev&#97;l");
    VbLastRuleKeepsSeven();
  }

  lemma VbLongRulesIdle()
    ensures ApplyRules(VbRules[..3], "Eval") == "Eval"
  {
    RulesIdleOnWord(VbRules[..3], "Eval");
  }

  lemma EvalRuleRewrites()
    ensures ReplaceAll("Eval", VbRules[3].pattern, VbRules[3].rep) == "Ev&#97;l"
  {
    StartsWithAt("Eval", "Eval", true);
    assert MatchLength(Fold("Eval"), "Eval") == Some(4);
    assert "Eval"[4..] == [];
  }

  lemma VbLastRuleKeepsSeven()
    ensures '7' in ReplaceAll("Ev&#97;l", VbRules[4].pattern, VbRules[4].rep)
  {
    assert "Ev&#97;l"[5] == '7';
    ReplaceKeepsPresent("Ev&#97;l", VbRules[4], '7');
  }

  // No pattern of the stages after `VBSanitizer` contains the digit 7.
  lemma RubyRetainsSeven()
    ensures PassRetains(StagePass(RubyStage), '7')
  {
    assert Rules(RubyStage) == RubyRules;
  }

  lemma LuaRetainsSeven()
    ensures PassRetains(StagePass(LuaStage), '7')
  {
    assert Rules(LuaStage) == LuaRules;
    LuaPatternsLackSeven();
  }

  lemma LuaPatternsLackSeven()
    ensures forall j :: 0 <= j < |LuaRules| ==> '7' !in PatternText(LuaRules[j].pattern)
  {
  }

  lemma XssRetainsSeven()
    ensures PassRetains(StagePass(XssStage), '7')
  {
    assert Rules(XssStage) == XssRules;
    XssPatternsLackSeven();
  }

  lemma XssPatternsLackSeven()
    ensures forall j :: 0 <= j < |XssRules| ==> '7' !in PatternText(XssRules[j].pattern)
  {
  }

  lemma TemplateRetainsSeven()
    ensures PassRetains(StagePass(TemplateStage), '7')
  {
    assert Rules(TemplateStage) == TemplateRules;
  }

  lemma TraversalRetainsSeven()
    ensures PassRetains(StagePass(TraversalStage), '7')
  {
    assert Rules(TraversalStage) == TraversalRules;
  }

  // The remaining stages after `HTMLSanitizer` in the chain sanitizer:
  // none of them brings `<` or `>` back either.
  lemma RubyKeepsAngles()
    ensures PassKeeps(StagePass(RubyStage), '<') && PassKeeps(StagePass(RubyStage), '>')
  {
    assert Rules(RubyStage) == RubyRules;
  }

  lemma LuaKeepsAngles()
    ensures PassKeeps(StagePass(LuaStage), '<') && PassKeeps(StagePass(LuaStage), '>')
  {
    assert Rules(LuaStage) == LuaRules;
    LuaRulesKeepLt();
    LuaRulesKeepGt();
  }

  lemma LuaRulesKeepLt()
    ensures forall j :: 0 <= j < |LuaRules| ==> Keeps(LuaRules[j], '<')
  {
  }

  lemma LuaRulesKeepGt()
    ensures forall j :: 0 <= j < |LuaRules| ==> Keeps(LuaRules[j], '>')
  {
  }

  lemma XssKeepsLt()
    ensures PassKeeps(StagePass(XssStage), '<')
  {
    assert Rules(XssStage) == XssRules;
    XssRulesKeepLt();
  }

  lemma XssRulesKeepLt()
    ensures forall j :: 0 <= j < |XssRules| ==> Keeps(XssRules[j], '<')
  {
  }

  lemma XssKeepsGt()
    ensures PassKeeps(StagePass(XssStage), '>')
  {
    assert Rules(XssStage) == XssRules;
    XssRulesKeepGt();
  }

  lemma XssRulesKeepGt()
    ensures forall j :: 0 <= j < |XssRules| ==> Keeps(XssRules[j], '>')
  {
  }

  lemma TemplateKeepsAngles()
    ensures PassKeeps(StagePass(TemplateStage), '<') && PassKeeps(StagePass(TemplateStage), '>')
  {
    assert Rules(TemplateStage) == TemplateRules;
  }

  lemma TraversalKeepsAngles()
    ensures PassKeeps(StagePass(TraversalStage), '<') && PassKeeps(StagePass(TraversalStage), '>')
  {
    assert Rules(TraversalStage) == TraversalRules;
  }
}
