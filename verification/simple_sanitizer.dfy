/** The `Sanitizer` class of `my-Sanitizer.ts`: it holds one string, and
    `sanitize` trims it, escapes HTML, then runs the SQL, PHP, JS, Python,
    VB and OS rewrites over it in that order, stores the result and
    returns it. */
module SimpleSanitizer {
  import opened Pipeline
  import opened SanitizerRules

  /** The stages after HTML escaping, in the order `sanitize` runs them. */
  const AfterHtml: seq<Stage> := [SqlStage, PhpStage, JsStage, PythonStage, VbStage, OsStage]

  const Steps: seq<Stage> := [TrimStage] + [HtmlStage] + AfterHtml

  datatype Sanitizer = Sanitizer(data: string)

  /** `sanitize`: the new state, whose data is the returned string, and
      that string holds no raw `<` or `>`. */
  function Sanitize(z: Sanitizer): (r: (Sanitizer, string))
    ensures r.0.data == r.1
    ensures '<' !in r.1 && '>' !in r.1
  {
    var out := Handle(Steps, z.data);
    NoLt(z.data);
    NoGt(z.data);
    (Sanitizer(out), out)
  }

  /** No stage after HTML escaping writes a `<` without matching one. */
  lemma AfterHtmlKeepsLt()
    ensures forall k :: 0 <= k < |AfterHtml| ==> PassKeeps(StagePass(AfterHtml[k]), '<')
  {
    SqlKeepsAngles();
    PhpKeepsAngles();
    JsKeepsLt();
    PythonKeepsLt();
    VbKeepsLt();
    OsKeepsAngles();
  }

  lemma AfterHtmlKeepsGt()
    ensures forall k :: 0 <= k < |AfterHtml| ==> PassKeeps(StagePass(AfterHtml[k]), '>')
  {
    SqlKeepsAngles();
    PhpKeepsAngles();
    JsKeepsGt();
    PythonKeepsGt();
    VbKeepsGt();
    OsKeepsAngles();
  }

  /** Whatever the input, the pipeline's output holds no `<`: the HTML
      escaping removes every one, and no later rewrite brings one back
      (the OS stage escapes `<` only where one is already present). */
  lemma NoLt(s: string)
    ensures '<' !in Handle(Steps, s)
  {
    AfterHtmlKeepsLt();
    HandleAfterHtml([TrimStage], AfterHtml, s, '<');
  }

  lemma NoGt(s: string)
    ensures '>' !in Handle(Steps, s)
  {
    AfterHtmlKeepsGt();
    HandleAfterHtml([TrimStage], AfterHtml, s, '>');
  }
}
