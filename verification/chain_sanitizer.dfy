/** The `Sanitizer` class of `sanitizer/my-Sanitizer.ts`: thirteen handler
    objects, linked into a chain of responsibility by `setNext` at the
    start of every `sanitize` call according to the requested variation;
    the first handler's `handle` runs the chain over the stored data, which
    is replaced by the result. */
module ChainSanitizer {
  import opened Text
  import opened Pipeline
  import opened SanitizerRules

  /** `SanitizerVariation`. */
  datatype Variation = Default | NoSql | NoXss | NoMinor

  /** The order of the `default` case. */
  const DefaultChain: seq<Stage> := [
    TrimStage, SqlStage, OsStage, HtmlStage, PhpStage, JsStage, PythonStage,
    VbStage, RubyStage, LuaStage, XssStage, TemplateStage, TraversalStage]

  /** The handler order each `case` of `sanitize` links up. */
  function Chain(v: Variation): seq<Stage> {
    match v
    case Default => DefaultChain
    case NoSql => [
      TrimStage, OsStage, HtmlStage, PhpStage, JsStage, PythonStage,
      VbStage, RubyStage, LuaStage, XssStage, TemplateStage, TraversalStage]
    case NoXss => [
      TrimStage, SqlStage, OsStage, HtmlStage, PhpStage, JsStage, PythonStage,
      VbStage, RubyStage, LuaStage, TemplateStage, TraversalStage]
    case NoMinor => [
      TrimStage, SqlStage, OsStage, HtmlStage, PhpStage, JsStage, PythonStage,
      XssStage, TemplateStage, TraversalStage]
  }

  /** The stages a variation leaves out, by its name. */
  function Omitted(v: Variation): set<Stage> {
    match v
    case Default => {}
    case NoSql => {SqlStage}
    case NoXss => {XssStage}
    case NoMinor => {VbStage, RubyStage, LuaStage}
  }

  /** The position of a stage in the default order. */
  function Rank(st: Stage): nat {
    match st
    case TrimStage => 0
    case SqlStage => 1
    case OsStage => 2
    case HtmlStage => 3
    case PhpStage => 4
    case JsStage => 5
    case PythonStage => 6
    case VbStage => 7
    case RubyStage => 8
    case LuaStage => 9
    case XssStage => 10
    case TemplateStage => 11
    case TraversalStage => 12
  }

  /** In the default order, so free of repeats. */
  predicate Ordered(c: seq<Stage>) {
    forall i, j :: 0 <= i < j < |c| ==> Rank(c[i]) < Rank(c[j])
  }

  lemma {:induction false} WithoutOrdered(c: seq<Stage>, drop: set<Stage>)
    requires Ordered(c)
    ensures Ordered(Without(c, drop))
    decreases |c|
  {
    if 0 < |c| {
      WithoutOrdered(c[1..], drop);
      var rest := Without(c[1..], drop);
      forall i | 0 <= i < |rest| ensures Rank(c[0]) < Rank(rest[i]) {
        assert rest[i] in c[1..];
        var j :| 0 <= j < |c[1..]| && c[1..][j] == rest[i];
        assert c[j + 1] == rest[i];
      }
    }
  }

  lemma RankInjective(a: Stage, b: Stage)
    ensures Rank(a) == Rank(b) ==> a == b
  {
  }

  /** Two ordered chains with the same stages are the same chain. */
  lemma {:induction false} OrderedUnique(a: seq<Stage>, b: seq<Stage>)
    requires Ordered(a) && Ordered(b)
    requires forall st :: st in a <==> st in b
    ensures a == b
    decreases |a|
  {
    assert 0 < |a| ==> a[0] in b;
    assert 0 < |b| ==> b[0] in a;
    if 0 < |a| && 0 < |b| {
      HeadsAlike(a, b);
      TailsAlike(a, b);
      OrderedTail(a);
      OrderedTail(b);
      OrderedUnique(a[1..], b[1..]);
      assert a == [a[0]] + a[1..] && b == [b[0]] + b[1..];
    }
  }

  lemma OrderedTail(a: seq<Stage>)
    requires Ordered(a) && 0 < |a|
    ensures Ordered(a[1..])
  {
    forall i, j | 0 <= i < j < |a| - 1 ensures Rank(a[1..][i]) < Rank(a[1..][j]) {
      assert a[1..][i] == a[i + 1] && a[1..][j] == a[j + 1];
    }
  }

  /** Two ordered chains with the same stages start with the same stage:
      the one of least rank. */
  lemma HeadsAlike(a: seq<Stage>, b: seq<Stage>)
    requires Ordered(a) && Ordered(b) && 0 < |a| && 0 < |b|
    requires forall st :: st in a <==> st in b
    ensures a[0] == b[0]
  {
    assert a[0] in b && b[0] in a;
    var i :| 0 <= i < |b| && b[i] == a[0];
    var j :| 0 <= j < |a| && a[j] == b[0];
    assert Rank(a[0]) <= Rank(a[j]) && Rank(b[0]) <= Rank(b[i]);
    RankInjective(a[0], b[0]);
  }

  /** Two ordered chains with the same stages and the same first stage
      have the same stages after it. */
  lemma TailsAlike(a: seq<Stage>, b: seq<Stage>)
    requires Ordered(a) && Ordered(b) && 0 < |a| && 0 < |b| && a[0] == b[0]
    requires forall st :: st in a <==> st in b
    ensures forall st :: st in a[1..] <==> st in b[1..]
  {
    forall st ensures st in a[1..] <==> st in b[1..] {
      if st in a[1..] {
        var k :| 0 <= k < |a[1..]| && a[1..][k] == st;
        assert Rank(a[0]) < Rank(st);
      }
      if st in b[1..] {
        var k :| 0 <= k < |b[1..]| && b[1..][k] == st;
        assert Rank(b[0]) < Rank(st);
      }
      assert st in a <==> st == a[0] || st in a[1..] by { assert a == [a[0]] + a[1..]; }
      assert st in b <==> st == b[0] || st in b[1..] by { assert b == [b[0]] + b[1..]; }
    }
  }

  lemma DefaultOrdered()
    ensures Ordered(DefaultChain)
  {
  }

  /** Each variation's chain is in the default order and holds exactly the
      stages its name does not leave out. */
  lemma ChainShape(v: Variation)
    ensures Ordered(Chain(v))
    ensures forall st :: st in Chain(v) <==> st !in Omitted(v)
  {
    match v
    case Default => DefaultShape();
    case NoSql => NoSqlShape();
    case NoXss => NoXssShape();
    case NoMinor => NoMinorShape();
  }

  lemma DefaultShape()
    ensures Ordered(Chain(Default)) && forall st :: st in Chain(Default)
  {
    forall st ensures st in Chain(Default) {
      assert DefaultChain[Rank(st)] == st;
    }
  }

  lemma NoSqlShape()
    ensures Ordered(Chain(NoSql)) && forall st :: st in Chain(NoSql) <==> st != SqlStage
  {
    var c := Chain(NoSql);
    forall st | st != SqlStage ensures st in c {
      assert c[if Rank(st) == 0 then 0 else Rank(st) - 1] == st;
    }
  }

  lemma NoXssShape()
    ensures Ordered(Chain(NoXss)) && forall st :: st in Chain(NoXss) <==> st != XssStage
  {
    var c := Chain(NoXss);
    forall st | st != XssStage ensures st in c {
      assert c[if Rank(st) < 10 then Rank(st) else Rank(st) - 1] == st;
    }
  }

  lemma NoMinorShape()
    ensures Ordered(Chain(NoMinor))
    ensures forall st :: st in Chain(NoMinor) <==> st != VbStage && st != RubyStage && st != LuaStage
  {
    var c := Chain(NoMinor);
    forall st | st != VbStage && st != RubyStage && st != LuaStage ensures st in c {
      assert c[if Rank(st) < 7 then Rank(st) else Rank(st) - 3] == st;
    }
  }

  /** An ordered chain holding exactly the stages of an ordered `base` not
      in `drop` is `base` without them. */
  lemma OrderedFilter(c: seq<Stage>, base: seq<Stage>, drop: set<Stage>)
    requires Ordered(c) && Ordered(base)
    requires forall st :: st in c <==> st in base && st !in drop
    ensures c == Without(base, drop)
  {
    WithoutOrdered(base, drop);
    OrderedUnique(c, Without(base, drop));
  }

  /** Each variation runs the default chain without the stages its name
      leaves out. */
  lemma ChainOmits(v: Variation)
    ensures Chain(v) == Without(DefaultChain, Omitted(v))
  {
    ChainShape(v);
    DefaultShape();
    OrderedFilter(Chain(v), DefaultChain, Omitted(v));
  }

  /** Each handler's `nextHandler`; a handler absent from the map has none
      (`null`). */
  type Links = map<Stage, Stage>

  /** The `setNext` calls of one `case`: each stage of the chain gets the
      stage after it as its next handler; every other link stays. */
  function Link(links: Links, chain: seq<Stage>): Links
    decreases |chain|
  {
    if |chain| < 2 then links else Link(links[chain[0] := chain[1]], chain[1..])
  }

  /** The handlers `handle` reaches from `from` by following next
      handlers, at most `fuel` hand-overs deep. */
  function Follow(links: Links, from: Stage, fuel: nat): seq<Stage>
    decreases fuel
  {
    if fuel == 0 || from !in links then [from]
    else [from] + Follow(links, links[from], fuel - 1)
  }

  /** Linking leaves the link of a stage that is not linked alone. */
  lemma {:induction false} LinkElsewhere(links: Links, chain: seq<Stage>, st: Stage)
    requires forall i :: 0 <= i < |chain| - 1 ==> chain[i] != st
    ensures st in Link(links, chain) <==> st in links
    ensures st in links ==> Link(links, chain)[st] == links[st]
    decreases |chain|
  {
    if 2 <= |chain| {
      LinkElsewhere(links[chain[0] := chain[1]], chain[1..], st);
    }
  }

  /** After linking a chain free of repeats, each of its stages but the
      last hands over to the stage after it. */
  lemma {:induction false} LinkSets(links: Links, chain: seq<Stage>)
    requires forall i, j :: 0 <= i < j < |chain| ==> chain[i] != chain[j]
    ensures forall i :: 0 <= i < |chain| - 1 ==>
      chain[i] in Link(links, chain) && Link(links, chain)[chain[i]] == chain[i + 1]
    decreases |chain|
  {
    if 2 <= |chain| {
      var rest := chain[1..];
      LinkSets(links[chain[0] := chain[1]], rest);
      LinkElsewhere(links[chain[0] := chain[1]], rest, chain[0]);
      forall i | 1 <= i < |chain| - 1
        ensures chain[i] in Link(links, chain) && Link(links, chain)[chain[i]] == chain[i + 1]
      {
        assert rest[i - 1] == chain[i] && rest[i] == chain[i + 1];
      }
    }
  }

  /** Following links that retrace a chain walks the rest of it. */
  lemma {:induction false} FollowWalks(links: Links, chain: seq<Stage>, i: nat, fuel: nat)
    requires i < |chain|
    requires forall k :: 0 <= k < |chain| - 1 ==> chain[k] in links && links[chain[k]] == chain[k + 1]
    requires chain[|chain| - 1] !in links
    requires |chain| - 1 - i <= fuel
    ensures Follow(links, chain[i], fuel) == chain[i..]
    decreases |chain| - i
  {
    if i < |chain| - 1 {
      FollowWalks(links, chain, i + 1, fuel - 1);
      assert chain[i..] == [chain[i]] + chain[i + 1..];
    }
  }

  /** The `setNext` calls of a `case` make `handle` run exactly that
      case's chain, whatever links earlier calls left behind, as long as
      the last handler never had a next one. */
  lemma ChainLinked(links: Links, v: Variation)
    requires TraversalStage !in links
    ensures Follow(Link(links, Chain(v)), TrimStage, |DefaultChain| - 1) == Chain(v)
    ensures TraversalStage !in Link(links, Chain(v))
  {
    ChainShape(v);
    ChainEnds(v);
    OrderedLinked(links, Chain(v), |DefaultChain| - 1);
  }

  /** Linking an ordered chain whose last stage has no next handler makes
      following from its first stage walk it exactly. */
  lemma OrderedLinked(links: Links, c: seq<Stage>, fuel: nat)
    requires Ordered(c) && 0 < |c| && c[|c| - 1] !in links && |c| - 1 <= fuel
    ensures Follow(Link(links, c), c[0], fuel) == c
    ensures c[|c| - 1] !in Link(links, c)
  {
    forall i, j | 0 <= i < j < |c| ensures c[i] != c[j] {
      assert Rank(c[i]) < Rank(c[j]);
    }
    LinkSets(links, c);
    forall i | 0 <= i < |c| - 1 ensures c[i] != c[|c| - 1] {
      assert Rank(c[i]) < Rank(c[|c| - 1]);
    }
    LinkElsewhere(links, c, c[|c| - 1]);
    FollowWalks(Link(links, c), c, 0, fuel);
  }

  lemma ChainEnds(v: Variation)
    ensures 0 < |Chain(v)| <= |DefaultChain|
    ensures Chain(v)[0] == TrimStage && Chain(v)[|Chain(v)| - 1] == TraversalStage
  {
  }

  /** The object: its data and the handlers' links. */
  datatype Sanitizer = Sanitizer(data: string, next: Links)

  /** The last handler is never given a next one. */
  predicate Valid(z: Sanitizer) {
    TraversalStage !in z.next
  }

  /** The constructor: no handler is linked yet. */
  function New(data: string): (z: Sanitizer)
    ensures Valid(z) && z.data == data
  {
    Sanitizer(data, map[])
  }

  /** `sanitize` as evidently intended, with each `case` linking its own
      chain: the data passes through exactly the variation's stages, and is
      replaced by the result. The code does this for every variation but
      `NoMinor` (see `SanitizeAsWritten`). */
  function Sanitize(z: Sanitizer, v: Variation): (r: (Sanitizer, string))
    requires Valid(z)
    ensures Valid(r.0) && r.0.data == r.1
    ensures r.1 == Handle(Chain(v), z.data)
  {
    var links := Link(z.next, Chain(v));
    ChainLinked(z.next, v);
    var out := Handle(Follow(links, TrimStage, |DefaultChain| - 1), z.data);
    (Sanitizer(out, links), out)
  }

  /** The `setNext` calls `sanitize` makes as written: the `NoMinor` case
      has no `break`, so the `default` case's calls run after its own and
      relink every handler of the default chain. */
  function LinkAsWritten(links: Links, v: Variation): Links {
    if v == NoMinor then Link(Link(links, Chain(NoMinor)), Chain(Default))
    else Link(links, Chain(v))
  }

  lemma LinkedAsWritten(links: Links, v: Variation)
    requires TraversalStage !in links
    ensures Follow(LinkAsWritten(links, v), TrimStage, |DefaultChain| - 1) ==
      if v == NoMinor then DefaultChain else Chain(v)
    ensures TraversalStage !in LinkAsWritten(links, v)
  {
    ChainLinked(links, v);
    if v == NoMinor {
      ChainLinked(Link(links, Chain(NoMinor)), Default);
    }
  }

  /** `sanitize` as written. */
  function SanitizeAsWritten(z: Sanitizer, v: Variation): (r: (Sanitizer, string))
    requires Valid(z)
    ensures Valid(r.0) && r.0.data == r.1
    ensures v == NoMinor ==> r.1 == Handle(DefaultChain, z.data)
    ensures v != NoMinor ==> r == Sanitize(z, v)
  {
    var links := LinkAsWritten(z.next, v);
    LinkedAsWritten(z.next, v);
    var out := Handle(Follow(links, TrimStage, |DefaultChain| - 1), z.data);
    (Sanitizer(out, links), out)
  }

  /** Every variation ends with the directory-traversal stage, so no
      result holds `..`. */
  lemma SanitizeLeavesNoDots(z: Sanitizer, v: Variation)
    requires Valid(z)
    ensures NoDoubleDot(Sanitize(z, v).1)
  {
    var c := Chain(v);
    ChainEnds(v);
    var pre := c[..|c| - 1];
    assert c == pre + [TraversalStage];
    HandleAppend(pre, [TraversalStage], z.data);
    LastPassTraversal(Handle(pre, z.data));
  }

  lemma LastPassTraversal(s: string)
    ensures NoDoubleDot(Handle([TraversalStage], s))
  {
    HandleOne(TraversalStage, s);
    assert Rules(TraversalStage) == TraversalRules;
    TraversalLeavesNoDots(s);
  }

  /** The stages after HTML escaping in the default order cannot bring a
      `<` or `>` back. */
  lemma LateStageKeepsLt(st: Stage)
    requires Rank(st) > Rank(HtmlStage)
    ensures PassKeeps(StagePass(st), '<')
  {
    match st
    case PhpStage => PhpKeepsAngles();
    case JsStage => JsKeepsLt();
    case PythonStage => PythonKeepsLt();
    case VbStage => VbKeepsLt();
    case RubyStage => RubyKeepsAngles();
    case LuaStage => LuaKeepsAngles();
    case XssStage => XssKeepsLt();
    case TemplateStage => TemplateKeepsAngles();
    case TraversalStage => TraversalKeepsAngles();
  }

  lemma LateStageKeepsGt(st: Stage)
    requires Rank(st) > Rank(HtmlStage)
    ensures PassKeeps(StagePass(st), '>')
  {
    match st
    case PhpStage => PhpKeepsAngles();
    case JsStage => JsKeepsGt();
    case PythonStage => PythonKeepsGt();
    case VbStage => VbKeepsGt();
    case RubyStage => RubyKeepsAngles();
    case LuaStage => LuaKeepsAngles();
    case XssStage => XssKeepsGt();
    case TemplateStage => TemplateKeepsAngles();
    case TraversalStage => TraversalKeepsAngles();
  }

  /** In an ordered chain with the HTML stage, `c` is the part before it,
      the HTML stage, and stages that come after it in the default order. */
  lemma SplitAtHtml(c: seq<Stage>) returns (pre: seq<Stage>, post: seq<Stage>)
    requires Ordered(c) && HtmlStage in c
    ensures c == pre + [HtmlStage] + post
    ensures forall k :: 0 <= k < |post| ==> Rank(post[k]) > Rank(HtmlStage)
  {
    var i :| 0 <= i < |c| && c[i] == HtmlStage;
    pre, post := c[..i], c[i + 1..];
    assert c == pre + [HtmlStage] + post;
    forall k | 0 <= k < |post| ensures Rank(post[k]) > Rank(HtmlStage) {
      assert post[k] == c[i + 1 + k];
    }
  }

  /** No variation returns a raw `<` or `>`: HTML escaping removes them and
      no stage after it brings one back. */
  lemma SanitizeNoAngles(z: Sanitizer, v: Variation)
    requires Valid(z)
    ensures '<' !in Sanitize(z, v).1 && '>' !in Sanitize(z, v).1
  {
    ChainShape(v);
    var pre, post := SplitAtHtml(Chain(v));
    forall k | 0 <= k < |post|
      ensures PassKeeps(StagePass(post[k]), '<') && PassKeeps(StagePass(post[k]), '>')
    {
      LateStageKeepsLt(post[k]);
      LateStageKeepsGt(post[k]);
    }
    HandleAfterHtml(pre, post, z.data, '<');
    HandleAfterHtml(pre, post, z.data, '>');
  }

  /** The stages of `NoMinor` up to the Python stage, and after it. */
  const Front: seq<Stage> := [TrimStage, SqlStage, OsStage, HtmlStage, PhpStage, JsStage, PythonStage]
  const Back: seq<Stage> := [XssStage, TemplateStage, TraversalStage]
  const Minor: seq<Stage> := [RubyStage, LuaStage]

  /** The stages a word of up to four letters passes unchanged: all but
      the VB, Ruby and Lua rewrites. */
  predicate SkipsShortWords(st: Stage) {
    st != VbStage && st != RubyStage && st != LuaStage
  }

  lemma StageSkipsShortWord(st: Stage, s: string)
    requires ShortWord(s) && SkipsShortWords(st)
    ensures RunPass(StagePass(st), s) == s
  {
    if Rank(st) < 4 {
      EarlyStageSkipsShortWord(st, s);
    } else {
      LateStageSkipsShortWord(st, s);
    }
  }

  lemma EarlyStageSkipsShortWord(st: Stage, s: string)
    requires ShortWord(s) && Rank(st) < 4
    ensures RunPass(StagePass(st), s) == s
  {
    match st
    case TrimStage => TrimKeepsWord(s);
    case SqlStage => SqlKeepsShortWord(s);
    case OsStage => OsKeepsShortWord(s);
    case HtmlStage => HtmlKeepsShortWord(s);
  }

  lemma LateStageSkipsShortWord(st: Stage, s: string)
    requires ShortWord(s) && SkipsShortWords(st) && 4 <= Rank(st)
    ensures RunPass(StagePass(st), s) == s
  {
    match st
    case PhpStage => PhpKeepsShortWord(s);
    case JsStage => JsKeepsShortWord(s);
    case PythonStage => PythonKeepsShortWord(s);
    case XssStage => XssKeepsShortWord(s);
    case TemplateStage => TemplateKeepsShortWord(s);
    case TraversalStage => TraversalKeepsShortWord(s);
  }

  /** A chain of such stages returns a word of up to four letters as it
      is. */
  lemma ChainSkipsShortWord(chain: seq<Stage>, s: string)
    requires ShortWord(s)
    requires forall k :: 0 <= k < |chain| ==> SkipsShortWords(chain[k])
    ensures Handle(chain, s) == s
  {
    forall k | 0 <= k < |chain| ensures RunPass(Passes(chain, StagePass)[k], s) == s {
      StageSkipsShortWord(chain[k], s);
    }
    RunIdle(Passes(chain, StagePass), s);
  }

  /** No stage after `VBSanitizer` takes the digit 7 out. */
  lemma AfterVbKeepsSeven(s: string)
    requires '7' in s
    ensures '7' in Handle(Minor + Back, s)
  {
    RubyRetainsSeven();
    LuaRetainsSeven();
    XssRetainsSeven();
    TemplateRetainsSeven();
    TraversalRetainsSeven();
    RunKeepsPresent(Passes(Minor + Back, StagePass), s, '7');
  }

  /** As written, `NoMinor` still runs the VB rewrite: on `Eval` it
      returns text with a character reference in it, where the chain its
      name promises returns `Eval` untouched. */
  lemma NoMinorAsWrittenRewritesEval(z: Sanitizer)
    requires Valid(z) && z.data == "Eval"
    ensures '7' in SanitizeAsWritten(z, NoMinor).1
    ensures Sanitize(z, NoMinor).1 == "Eval"
    ensures SanitizeAsWritten(z, NoMinor).1 != Sanitize(z, NoMinor).1
  {
    var w := z.data;
    var asWritten, intended := SanitizeAsWritten(z, NoMinor).1, Sanitize(z, NoMinor).1;
    AsWrittenOnEval(w);
    IntendedOnEval(w);
    assert '7' in asWritten && intended == w;
    assert '7' !in w;
  }

  lemma AsWrittenOnEval(w: string)
    requires w == "Eval"
    ensures '7' in Handle(DefaultChain, w)
    ensures ShortWord(w) && '7' !in w
  {
    assert ShortWord(w);
    ChainSkipsShortWord(Front, w);
    assert DefaultChain == Front + [VbStage] + (Minor + Back);
    HandleAppend(Front + [VbStage], Minor + Back, w);
    HandleAppend(Front, [VbStage], w);
    HandleOne(VbStage, w);
    VbRewritesEval();
    AfterVbKeepsSeven(Handle([VbStage], w));
  }

  lemma IntendedOnEval(w: string)
    requires ShortWord(w)
    ensures Handle(Chain(NoMinor), w) == w
  {
    ChainShape(NoMinor);
    ChainSkipsShortWord(Chain(NoMinor), w);
  }

  /** Each variation, as intended, runs the default chain without the
      stages its name leaves out; `NoMinor` skips the VB, Ruby and Lua
      stages. */
  lemma SanitizeOmits(z: Sanitizer, v: Variation)
    requires Valid(z)
    ensures Sanitize(z, v).1 == Handle(Without(DefaultChain, Omitted(v)), z.data)
  {
    ChainOmits(v);
  }
}
