/** A sanitizer is a fixed sequence of passes, each trimming the string or
    running a chain of global replaces over it; every stage hands its
    result to the next. */
module Pipeline {
  import opened Text

  /** One pass: trimming with a class of white space, or a chain of
      replace rules. */
  datatype Pass = Trimming(ws: char -> bool) | Rewriting(rules: seq<Rule>)

  function RunPass(p: Pass, s: string): string {
    match p
    case Trimming(ws) => Trim(s, ws)
    case Rewriting(rules) => ApplyRules(rules, s)
  }

  /** The passes in order, each on the output of the one before. */
  function Run(passes: seq<Pass>, s: string): string
    decreases |passes|
  {
    if |passes| == 0 then s else Run(passes[1..], RunPass(passes[0], s))
  }

  /** Running composes: the first passes hand their result to the rest. */
  lemma {:induction false} RunAppend(a: seq<Pass>, b: seq<Pass>, s: string)
    ensures Run(a + b, s) == Run(b, Run(a, s))
    decreases |a|
  {
    if 0 < |a| {
      assert (a + b)[0] == a[0] && (a + b)[1..] == a[1..] + b;
      RunAppend(a[1..], b, RunPass(a[0], s));
    } else {
      assert a + b == b;
    }
  }

  lemma RunOne(p: Pass, s: string)
    ensures Run([p], s) == RunPass(p, s)
  {
    assert [p][1..] == [];
  }

  /** Passes that each leave `s` alone leave it alone together. */
  lemma {:induction false} RunIdle(passes: seq<Pass>, s: string)
    requires forall k :: 0 <= k < |passes| ==> RunPass(passes[k], s) == s
    ensures Run(passes, s) == s
    decreases |passes|
  {
    if 0 < |passes| {
      RunIdle(passes[1..], s);
    }
  }

  /** Trimming cannot bring in a character. */
  lemma TrimKeepsAbsent(s: string, ws: char -> bool, c: char)
    requires c !in s
    ensures c !in Trim(s, ws)
  {
    var r := Trim(s, ws);
    var i :| 0 <= i && i + |r| <= |s| && TrimmedAt(s, r, ws, i);
    assert r == s[i..i + |r|];
  }

  /** The pass cannot bring `c` into a string that lacks it. */
  predicate PassKeeps(p: Pass, c: char) {
    p.Rewriting? ==> forall j :: 0 <= j < |p.rules| ==> Keeps(p.rules[j], c)
  }

  /** Passes that each keep `c` out keep it out. */
  lemma {:induction false} RunKeepsAbsent(passes: seq<Pass>, s: string, c: char)
    requires c !in s
    requires forall k :: 0 <= k < |passes| ==> PassKeeps(passes[k], c)
    ensures c !in Run(passes, s)
    decreases |passes|
  {
    if 0 < |passes| {
      if passes[0].Trimming? {
        TrimKeepsAbsent(s, passes[0].ws, c);
      } else {
        RulesKeepAbsent(passes[0].rules, s, c);
      }
      RunKeepsAbsent(passes[1..], RunPass(passes[0], s), c);
    }
  }

  /** The pass rewrites, and none of its patterns contains `c`, a character
      other than a letter: no match can take `c` away. */
  predicate PassRetains(p: Pass, c: char) {
    p.Rewriting? && !IsLetter(c) &&
    forall j :: 0 <= j < |p.rules| ==> c !in PatternText(p.rules[j].pattern)
  }

  /** Passes that each retain `c` pass it through. */
  lemma {:induction false} RunKeepsPresent(passes: seq<Pass>, s: string, c: char)
    requires c in s
    requires forall k :: 0 <= k < |passes| ==> PassRetains(passes[k], c)
    ensures c in Run(passes, s)
    decreases |passes|
  {
    if 0 < |passes| {
      RulesKeepPresent(passes[0].rules, s, c);
      RunKeepsPresent(passes[1..], RunPass(passes[0], s), c);
    }
  }

  /** The pass of each element of a chain, in order. */
  function Passes<T>(chain: seq<T>, f: T -> Pass): (r: seq<Pass>)
    ensures |r| == |chain|
    ensures forall k :: 0 <= k < |chain| ==> r[k] == f(chain[k])
  {
    seq(|chain|, k requires 0 <= k < |chain| => f(chain[k]))
  }

  lemma PassesAppend<T>(a: seq<T>, b: seq<T>, f: T -> Pass)
    ensures Passes(a + b, f) == Passes(a, f) + Passes(b, f)
  {
  }

  /** A pass that removes `c`, followed only by passes that keep `c` out:
      the whole run returns no `c`. */
  lemma RunAfterRemoval(pre: seq<Pass>, p: Pass, post: seq<Pass>, s: string, c: char)
    requires c !in RunPass(p, Run(pre, s))
    requires forall k :: 0 <= k < |post| ==> PassKeeps(post[k], c)
    ensures c !in Run(pre + [p] + post, s)
  {
    RunAppend(pre, [p] + post, s);
    assert pre + [p] + post == pre + ([p] + post);
    RunAppend([p], post, Run(pre, s));
    assert Run([p], Run(pre, s)) == RunPass(p, Run(pre, s)) by {
      assert [p][1..] == [];
    }
    RunKeepsAbsent(post, RunPass(p, Run(pre, s)), c);
  }
}
