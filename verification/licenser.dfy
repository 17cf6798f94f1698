/** The Creative Commons license chooser of `licenser/licens-selector.ts`: a
    table of yes/no questions keyed by name, whose leaves are the licenses,
    walked one button click at a time. */
module Licenser {
  import opened Common
  import Text

  /** One entry of the table: its heading and where each answer leads
      (`null` on a leaf). */
  datatype Question = Question(text: string, yes: Option<string>, no: Option<string>)

  const Start: string := "start"

  /** The heading of a leaf names the license it recommends. */
  const Recommended: string := "推奨ライセンス: "

  function Leaf(license: string): Question {
    Question(Recommended + license, None, None)
  }

  const Questions: map<string, Question> := map[
    "start" := Question("あなたの作品を商用利用してもよいですか？", Some("modify"), Some("noCommercial")),
    "modify" := Question("あなたの作品を改変してもよいですか？", Some("CC BY"), Some("shareAlike")),
    "noCommercial" := Question("あなたの作品を改変してもよいですか？", Some("CC BY-NC"), Some("CC BY-NC-ND")),
    "shareAlike" := Question("あなたの作品を改変してもよいですか？", Some("CC BY-SA"), Some("CC BY-ND")),
    "CC BY" := Leaf("CC BY"),
    "CC BY-SA" := Leaf("CC BY-SA"),
    "CC BY-ND" := Leaf("CC BY-ND"),
    "CC BY-NC" := Leaf("CC BY-NC"),
    "CC BY-NC-SA" := Leaf("CC BY-NC-SA"),
    "CC BY-NC-ND" := Leaf("CC BY-NC-ND")]

  const QuestionKeys: set<string> := {"start", "modify", "noCommercial", "shareAlike"}
  const Licenses: set<string> := {"CC BY", "CC BY-SA", "CC BY-ND", "CC BY-NC", "CC BY-NC-SA", "CC BY-NC-ND"}

  /** JavaScript truthiness of a `string | null` branch. */
  predicate Truthy(o: Option<string>) {
    o.Some? && 0 < |o.value|
  }

  predicate IsLeaf(key: string)
    requires key in Questions
  {
    !Truthy(Questions[key].yes) && !Truthy(Questions[key].no)
  }

  /** The table splits into four questions with both answers and six
      leaves with neither. */
  lemma TableShape()
    ensures Questions.Keys == QuestionKeys + Licenses && QuestionKeys !! Licenses
    ensures forall k :: k in QuestionKeys ==> Questions[k].yes.Some? && Questions[k].no.Some?
    ensures forall k :: k in Licenses ==> Questions[k].yes.None? && Questions[k].no.None?
  {
  }

  /** Every answer leads to an entry of the table. */
  lemma TargetsAreKeys()
    ensures forall k :: k in Questions && Questions[k].yes.Some? ==> Questions[k].yes.value in Questions
    ensures forall k :: k in Questions && Questions[k].no.Some? ==> Questions[k].no.value in Questions
  {
    TableShape();
  }

  /** A leaf's heading is the recommendation of its own license. */
  lemma LeafHeadings()
    ensures forall k :: k in Licenses ==> Questions[k].text == Recommended + k
  {
  }

  /** A click on the yes (`true`) or no button: follow the branch when it
      is set, otherwise stay. */
  function Click(key: string, answer: bool): (r: string)
    requires key in Questions
    ensures r in Questions
    ensures var b := if answer then Questions[key].yes else Questions[key].no;
      if Truthy(b) then r == b.value else r == key
  {
    TargetsAreKeys();
    var branch := if answer then Questions[key].yes else Questions[key].no;
    if Truthy(branch) then branch.value else key
  }

  /** The key shown after a sequence of clicks from `key`. */
  function Walk(key: string, answers: seq<bool>): (r: string)
    requires key in Questions
    ensures r in Questions
    decreases |answers|
  {
    if |answers| == 0 then key else Walk(Click(key, answers[0]), answers[1..])
  }

  /** Clicks on a leaf change nothing. */
  lemma {:induction false} LeafStays(key: string, answers: seq<bool>)
    requires key in Questions && IsLeaf(key)
    ensures Walk(key, answers) == key
    decreases |answers|
  {
    if 0 < |answers| {
      LeafStays(key, answers[1..]);
    }
  }

  lemma {:induction false} WalkAppend(key: string, a: seq<bool>, b: seq<bool>)
    requires key in Questions
    ensures Walk(key, a + b) == Walk(Walk(key, a), b)
    decreases |a|
  {
    if 0 < |a| {
      assert (a + b)[1..] == a[1..] + b;
      WalkAppend(Click(key, a[0]), a[1..], b);
    } else {
      assert a + b == b;
    }
  }

  lemma WalkSteps(key: string, a: bool, b: bool, c: bool)
    requires key in Questions
    ensures Walk(key, [a, b, c]) == Click(Click(Click(key, a), b), c)
  {
    var k1 := Click(key, a);
    var k2 := Click(k1, b);
    assert [a, b, c][1..] == [b, c];
    assert Walk(key, [a, b, c]) == Walk(k1, [b, c]);
    assert [b, c][1..] == [c];
    assert Walk(k1, [b, c]) == Walk(k2, [c]);
    assert [c][1..] == [];
    assert Walk(k2, [c]) == Walk(Click(k2, c), []);
  }

  /** Where one click can lead, level by level. */
  lemma ClickLevels(key: string, answer: bool)
    requires key in Questions
    ensures key == Start ==> Click(key, answer) in {"modify", "noCommercial"}
    ensures key == "modify" ==> Click(key, answer) in {"CC BY", "shareAlike"}
    ensures key in {"noCommercial", "shareAlike"} ==> Click(key, answer) in Licenses
    ensures key in Licenses ==> Click(key, answer) == key
  {
    TableShape();
  }

  /** Three answers from the start reach a license, whatever they are. */
  lemma ThreeAnswersDecide(a: bool, b: bool, c: bool)
    ensures Walk(Start, [a, b, c]) in Licenses
    ensures IsLeaf(Walk(Start, [a, b, c]))
  {
    TableShape();
    WalkSteps(Start, a, b, c);
    var k1 := Click(Start, a);
    ClickLevels(Start, a);
    var k2 := Click(k1, b);
    ClickLevels(k1, b);
    ClickLevels(k2, c);
  }

  /** From the start every sequence of answers has reached a license after
      at most three, and later answers change nothing. */
  lemma DecidedWithinThree(answers: seq<bool>)
    requires 3 <= |answers|
    ensures Walk(Start, answers) in Licenses
    ensures Walk(Start, answers) == Walk(Start, answers[..3])
  {
    assert answers[..3] == [answers[0], answers[1], answers[2]];
    ThreeAnswersDecide(answers[0], answers[1], answers[2]);
    WalkPastLicense(Start, answers, 3);
  }

  /** Once a walk has reached a license, the remaining answers change
      nothing. */
  lemma WalkPastLicense(key: string, answers: seq<bool>, n: nat)
    requires key in Questions && n <= |answers|
    requires Walk(key, answers[..n]) in Licenses
    ensures Walk(key, answers) == Walk(key, answers[..n])
  {
    assert answers == answers[..n] + answers[n..];
    WalkAppend(key, answers[..n], answers[n..]);
    TableShape();
    LeafStays(Walk(key, answers[..n]), answers[n..]);
  }

  /** The entries a walk from the start can show. */
  const Reachable: set<string> := Questions.Keys - {"CC BY-NC-SA"}

  lemma ClickStaysReachable(key: string, answer: bool)
    requires key in Reachable
    ensures Click(key, answer) in Reachable
  {
    TableShape();
  }

  /** No answer leads to CC BY-NC-SA, so the table's entry for it is never
      shown. */
  lemma {:induction false} NonCommercialShareAlikeUnreachable(key: string, answers: seq<bool>)
    requires key in Reachable
    ensures Walk(key, answers) != "CC BY-NC-SA"
    decreases |answers|
  {
    if 0 < |answers| {
      ClickStaysReachable(key, answers[0]);
      NonCommercialShareAlikeUnreachable(Click(key, answers[0]), answers[1..]);
    }
  }

  /** The slug of the legal-code address: the key in lower case with every
      space replaced by `-`. */
  function Slug(key: string): (r: string)
    ensures |r| == |key|
    ensures forall i :: 0 <= i < |key| ==> r[i] == if key[i] == ' ' then '-' else Text.Lower(key[i])
  {
    if |key| == 0 then [] else [if key[0] == ' ' then '-' else Text.Lower(key[0])] + Slug(key[1..])
  }

  lemma SlugExample()
    ensures Slug("CC BY-NC") == "cc-by-nc"
  {
  }

  /** Every key of the table is ASCII text, on which lowering only the
      capitals `A`–`Z` is all that `toLowerCase` does. */
  lemma KeysAreAscii()
    ensures forall key :: key in Questions ==> forall i :: 0 <= i < |key| ==> key[i] < 128 as char
  {
  }

  /** What `displayQuestion` shows. */
  datatype Display = Display(text: string, showYes: bool, showNo: bool, link: Option<string>)

  function LegalCode(key: string): string {
    "https://creativecommons.jp/licenses/" + Slug(key) + "/4.0/legalcode.ja"
  }

  function Show(key: string): (d: Display)
    requires key in Questions
    ensures d.text == Questions[key].text
    ensures d.link.Some? <==> !d.showYes && !d.showNo
  {
    var q := Questions[key];
    Display(q.text, Truthy(q.yes), Truthy(q.no),
      if !Truthy(q.yes) && !Truthy(q.no) then Some(LegalCode(key)) else None)
  }

  /** The slug has no space and no capital letter. */
  lemma SlugClean(key: string)
    ensures forall i :: 0 <= i < |Slug(key)| ==> Slug(key)[i] != ' ' && !('A' <= Slug(key)[i] <= 'Z')
  {
  }

  /** Exactly the leaves link to their legal code. */
  lemma LeavesLink(key: string)
    requires key in Questions
    ensures Show(key).link.Some? <==> key in Licenses
    ensures key in Licenses ==> Show(key).link == Some(LegalCode(key))
  {
    TableShape();
  }
}
