/** English pluralisation and singularisation as ordered first-match tables of
    rewrite rules. Every rule but the last plural one carries the
    case-insensitive flag: a word's letters are compared by their ASCII
    lower-case form against the lower-case rule texts, and the text a group
    captures keeps the word's own case. */
module Inflect {
  import opened Values
  import opened Str

  /** A character class: `[abc]` or `[^abc]`. */
  datatype CharClass = AnyOf(cs: string) | NoneOf(cs: string)

  predicate InClass(k: CharClass, c: char) {
    match k
    case AnyOf(cs) => Lower(c) in cs
    case NoneOf(cs) => Lower(c) !in cs
  }

  /** The first capture group of a pattern: literal text, or one character of a
      class. */
  datatype Group = Text(t: string) | Class(k: CharClass)

  function GroupLength(g: Group): nat {
    match g
    case Text(t) => |t|
    case Class(_) => 1
  }

  /** s, read backwards from its j-th last character, agrees with w read
      backwards from `off` characters before its end: s occurs in w ending
      `off` characters before the end of w, compared from the end and without
      regard to case. */
  predicate Agree(w: string, s: string, off: nat, j: nat)
    requires off + |s| <= |w| && j <= |s|
    decreases |s| - j
  {
    j == |s| || (Lower(w[|w| - off - 1 - j]) == s[|s| - 1 - j] && Agree(w, s, off, j + 1))
  }

  predicate EndsWith(w: string, s: string) {
    |s| <= |w| && Agree(w, s, 0, 0)
  }

  /** The characters of w at positions i .. |s| - 1 are those of s, without
      regard to case. */
  predicate AgreeFrom(w: string, s: string, i: nat)
    requires i <= |s| <= |w|
    decreases |s| - i
  {
    i == |s| || (Lower(w[i]) == s[i] && AgreeFrom(w, s, i + 1))
  }

  predicate StartsWith(w: string, s: string) {
    |s| <= |w| && AgreeFrom(w, s, 0)
  }

  /** One alternative of a suffix rule, matching `group` followed by the text
      `rest` at the end of the word: the match is replaced by the text the group
      captured followed by `add`. With `echo`, the first letter of the match,
      captured again by a second group, is copied back between the two, in
      the word's own case. */
  datatype Alt = Alt(group: Group, rest: string, add: string, echo: bool := false)

  /** A rule of the table.
      - Ends: a `...$` pattern; the first alternative that matches is used
        (`whole` for a pattern also anchored with `^`).
      - Prefix: a `^(group)rest` pattern with no end anchor.
      - Ix: the unanchored `(matr|vert|ind)ix|ex$`, which replaces every match. */
  datatype Rule =
    | Ends(alts: seq<Alt>, whole: bool)
    | Prefix(group: string, rest: string, add: string)
    | Ix

  function MatchLength(a: Alt): nat { GroupLength(a.group) + |a.rest| }

  predicate AltMatches(a: Alt, w: string, whole: bool) {
    MatchLength(a) <= |w| && EndsWith(w, a.rest)
    && (match a.group
        case Text(t) => Agree(w, t, |a.rest|, 0)
        case Class(k) => InClass(k, w[|w| - |a.rest| - 1]))
    && (whole ==> MatchLength(a) == |w|)
  }

  /** The first alternative that matches, by index. */
  function FirstAlt(alts: seq<Alt>, w: string, whole: bool): (r: Option<nat>)
    ensures r.Some? ==> r.value < |alts| && AltMatches(alts[r.value], w, whole)
    ensures r.Some? ==> forall j :: 0 <= j < r.value ==> !AltMatches(alts[j], w, whole)
    ensures r.None? <==> forall j :: 0 <= j < |alts| ==> !AltMatches(alts[j], w, whole)
  {
    if alts == [] then None
    else if AltMatches(alts[0], w, whole) then Some(0)
    else match FirstAlt(alts[1..], w, whole)
      case None => None
      case Some(k) => Some(k + 1)
  }

  /** `(matr|vert|ind)ix|ex$` matches somewhere in w. */
  predicate IxMatches(w: string) {
    w != [] &&
    (StartsWith(w, "matrix") || StartsWith(w, "vertix") || StartsWith(w, "indix")
     || (|w| == 2 && StartsWith(w, "ex")) || IxMatches(w[1..]))
  }

  /** preg_replace with `(matr|vert|ind)ix|ex$` and `$1ices`: every match, left
      to right, is replaced by the captured stem and `ices`; the `ex$`
      alternative captures nothing. */
  function IxReplace(w: string): string
  {
    if w == [] then []
    else if StartsWith(w, "matrix") then w[..4] + "ices" + IxReplace(w[6..])
    else if StartsWith(w, "vertix") then w[..4] + "ices" + IxReplace(w[6..])
    else if StartsWith(w, "indix") then w[..3] + "ices" + IxReplace(w[5..])
    else if |w| == 2 && StartsWith(w, "ex") then "ices"
    else [w[0]] + IxReplace(w[1..])
  }

  /** Every match of the pattern contains an `x`, in either case. */
  lemma {:induction false} NoXNoIx(w: string)
    requires forall i :: 0 <= i < |w| ==> Lower(w[i]) != 'x'
    ensures !IxMatches(w)
  {
    if w != [] {
      NoXNoIx(w[1..]);
    }
  }

  /** Where the pattern does not match, the replacement leaves the word alone. */
  lemma {:induction false} IxReplaceNoMatch(w: string)
    requires !IxMatches(w)
    ensures IxReplace(w) == w
  {
    if w != [] {
      IxReplaceNoMatch(w[1..]);
    }
  }

  predicate Matches(r: Rule, w: string) {
    match r
    case Ends(alts, whole) => FirstAlt(alts, w, whole).Some?
    case Prefix(group, rest, _) => StartsWith(w, group + rest)
    case Ix => IxMatches(w)
  }

  function Apply(r: Rule, w: string): string
    requires Matches(r, w)
  {
    match r
    case Ends(alts, whole) =>
      var a := alts[FirstAlt(alts, w, whole).value];
      w[..|w| - |a.rest|] + (if a.echo && MatchLength(a) > 0 then [w[|w| - MatchLength(a)]] else []) + a.add
    case Prefix(group, rest, add) => w[..|group|] + add + w[|group + rest|..]
    case Ix => IxReplace(w)
  }

  /** The rewrite loop over an ordered list of rules: the first rule that
      matches is applied and its result returned; a word no rule matches comes
      back unchanged. */
  function Rewrite(rules: seq<Rule>, w: string): string
  {
    if rules == [] then w
    else if Matches(rules[0], w) then Apply(rules[0], w)
    else Rewrite(rules[1..], w)
  }

  /** None of the rules matches w. */
  predicate NoneMatch(rules: seq<Rule>, w: string) {
    forall i :: 0 <= i < |rules| ==> !Matches(rules[i], w)
  }

  lemma NoneMatchConcat(a: seq<Rule>, b: seq<Rule>, w: string)
    requires NoneMatch(a, w) && NoneMatch(b, w)
    ensures NoneMatch(a + b, w)
  {
    forall i | 0 <= i < |a + b| ensures !Matches((a + b)[i], w) {
      if i < |a| {
        assert (a + b)[i] == a[i];
      } else {
        assert (a + b)[i] == b[i - |a|];
      }
    }
  }

  /** Five rules none of which matches. */
  lemma NoneOfFive(r0: Rule, r1: Rule, r2: Rule, r3: Rule, r4: Rule, w: string)
    requires !Matches(r0, w) && !Matches(r1, w) && !Matches(r2, w)
    requires !Matches(r3, w) && !Matches(r4, w)
    ensures NoneMatch([r0, r1, r2, r3, r4], w)
  {
  }

  /** Rules that do not match are passed over. */
  lemma {:induction false} RewriteSkips(rules: seq<Rule>, k: nat, w: string)
    requires k <= |rules| && NoneMatch(rules[..k], w)
    ensures Rewrite(rules, w) == Rewrite(rules[k..], w)
    decreases k
  {
    if k > 0 {
      assert rules[..k][0] == rules[0];
      assert rules[1..][..k - 1] == rules[..k][1..];
      RewriteSkips(rules[1..], k - 1, w);
      assert rules[1..][k - 1..] == rules[k..];
    }
  }

  /** Rewrite applies exactly the first matching rule: rule k when none of the
      k rules before it matches. */
  lemma RewriteFirstMatch(rules: seq<Rule>, k: nat, w: string)
    requires k < |rules| && NoneMatch(rules[..k], w) && Matches(rules[k], w)
    ensures Rewrite(rules, w) == Apply(rules[k], w)
  {
    RewriteSkips(rules, k, w);
    assert rules[k..][0] == rules[k];
  }

  /** With no matching rule the word is returned as it is. */
  lemma RewriteNoMatch(rules: seq<Rule>, w: string)
    requires NoneMatch(rules, w)
    ensures Rewrite(rules, w) == w
  {
    assert rules[..|rules|] == rules;
    RewriteSkips(rules, |rules|, w);
  }


  /** An alternative that keeps the whole match and appends `add`. */
  function Keep(g: string, add: string): Alt { Alt(Text(g), "", add) }

  const Plural0: Rule := Ends([Keep("quiz", "zes")], false) // (quiz)$
  const Plural1: Rule := Ends([Keep("ox", "en")], true) // ^(ox)$
  const Plural2: Rule := Ends([Alt(Class(AnyOf("m|l")), "ouse", "ice")], false) // ([m|l])ouse$
  const Plural3: Rule := Ix // (matr|vert|ind)ix|ex$
  const Plural4: Rule := Ends([Keep("x", "es"), Keep("ch", "es"), Keep("ss", "es"), Keep("sh", "es")], false)
  const Plural5: Rule := Ends([Alt(Class(NoneOf("aeiouy")), "y", "ies"), Alt(Text("qu"), "y", "ies")], false)
  const Plural6: Rule := Ends([Keep("hive", "s")], false)
  const Plural7: Rule := Ends([Alt(Class(NoneOf("f")), "fe", "ves"), Alt(Class(AnyOf("lr")), "f", "ves")], false)
  const Plural8: Rule := Ends([Alt(Text(""), "sis", "ses")], false)
  const Plural9: Rule := Ends([Alt(Class(AnyOf("ti")), "um", "a")], false)
  const Plural10: Rule := Ends([Alt(Text("p"), "erson", "eople")], false)
  const Plural11: Rule := Ends([Alt(Text("m"), "an", "en")], false)
  const Plural12: Rule := Ends([Alt(Text("c"), "hild", "hildren")], false)
  const Plural13: Rule := Ends([Alt(Text("buffal"), "o", "oes"), Alt(Text("tomat"), "o", "oes")], false)
  const Plural14: Rule := Ends([Alt(Text("bu"), "s", "ses"), Alt(Text("campu"), "s", "ses")], false)
  const Plural15: Rule := Ends([Keep("alias", "es"), Keep("status", "es"), Keep("virus", "es")], false)
  const Plural16: Rule := Ends([Alt(Text("octop"), "us", "i"), Alt(Text("vir"), "us", "i")], false)
  const Plural17: Rule := Ends([Alt(Text("ax"), "is", "es"), Alt(Text("cri"), "is", "es"), Alt(Text("test"), "is", "es")], false)
  const Plural18: Rule := Ends([Alt(Text(""), "s", "s")], false)
  const Plural19: Rule := Ends([Alt(Text(""), "", "s")], false)


  /** The plural rules in order: the first five, the next thirteen, and the
      last two, `s$` and `$`. */
  const PluralFirst: seq<Rule> := [Plural0, Plural1, Plural2, Plural3, Plural4]
  const PluralMiddle: seq<Rule> :=
    [Plural5, Plural6, Plural7, Plural8, Plural9, Plural10, Plural11, Plural12, Plural13,
     Plural14, Plural15, Plural16, Plural17]
  const PluralRules: seq<Rule> := PluralFirst + PluralMiddle + [Plural18, Plural19]

  /** Inflect::pluralize: the word rewritten by the first plural rule that
      matches it. */
  function Pluralize(w: string): (r: string)
    ensures forall k :: 0 <= k < |PluralRules| && NoneMatch(PluralRules[..k], w) && Matches(PluralRules[k], w) ==>
      r == Apply(PluralRules[k], w)
  {
    assert forall k :: 0 <= k < |PluralRules| && NoneMatch(PluralRules[..k], w) && Matches(PluralRules[k], w) ==>
      Rewrite(PluralRules, w) == Apply(PluralRules[k], w) by {
      forall k | 0 <= k < |PluralRules| && NoneMatch(PluralRules[..k], w) && Matches(PluralRules[k], w) {
        RewriteFirstMatch(PluralRules, k, w);
      }
    }
    Rewrite(PluralRules, w)
  }

  lemma PluralPositions()
    ensures |PluralRules| == 20 && PluralRules[..5] == PluralFirst
    ensures PluralRules[0] == Plural0 && PluralRules[5] == Plural5
    ensures PluralRules[18] == Plural18 && PluralRules[19] == Plural19
  {
    assert (PluralFirst + PluralMiddle)[..5] == PluralFirst;
  }

  /** The last character of the word decides that the alternative fails. */
  predicate LastRejects(a: Alt, c: char) {
    if |a.rest| > 0 then a.rest[|a.rest| - 1] != Lower(c)
    else match a.group
      case Text(t) => |t| > 0 && t[|t| - 1] != Lower(c)
      case Class(k) => !InClass(k, c)
  }

  /** A suffix rule all of whose alternatives are rejected by the last letter of
      the word does not match it. */
  lemma {:induction false} LastLetterMisses(r: Rule, w: string)
    requires r.Ends? && |w| > 0
    requires forall a :: a in r.alts ==> LastRejects(a, w[|w| - 1])
    ensures !Matches(r, w)
  {
    forall j | 0 <= j < |r.alts| ensures !AltMatches(r.alts[j], w, r.whole) {
      assert r.alts[j] in r.alts;
    }
  }

  predicate Consonant(c: char) {
    c != 'a' && c != 'e' && c != 'i' && c != 'o' && c != 'u' && c != 'y'
  }

  /** No rule among the first five catches a word ending in `y` that the
      `ix|ex` rule does not. */
  lemma PluralFirstMissesY(w: string)
    requires |w| >= 1 && Lower(w[|w| - 1]) == 'y' && !IxMatches(w)
    ensures NoneMatch(PluralFirst, w)
  {
    YMissesPlural01(w);
    YMissesPlural24(w);
    NoneOfFive(Plural0, Plural1, Plural2, Plural3, Plural4, w);
  }

  lemma YMissesPlural01(w: string)
    requires |w| >= 1 && Lower(w[|w| - 1]) == 'y'
    ensures !Matches(Plural0, w) && !Matches(Plural1, w)
  {
    LastLetterMisses(Plural0, w);
    LastLetterMisses(Plural1, w);
  }

  lemma YMissesPlural24(w: string)
    requires |w| >= 1 && Lower(w[|w| - 1]) == 'y'
    ensures !Matches(Plural2, w) && !Matches(Plural4, w)
  {
    LastLetterMisses(Plural2, w);
    LastLetterMisses(Plural4, w);
  }

  /** A word ending in a consonant and `y`, in either case, takes `ies` in
      place of the `y`. */
  lemma PluralizeConsonantY(w: string)
    requires |w| >= 2 && Lower(w[|w| - 1]) == 'y' && Consonant(Lower(w[|w| - 2])) && !IxMatches(w)
    ensures Pluralize(w) == w[..|w| - 1] + "ies"
  {
    PluralFirstMissesY(w);
    PluralPositions();
    ConsonantYMatches(w);
    RewriteFirstMatch(PluralRules, 5, w);
  }

  lemma ConsonantYMatches(w: string)
    requires |w| >= 2 && Lower(w[|w| - 1]) == 'y' && Consonant(Lower(w[|w| - 2]))
    ensures Matches(Plural5, w) && Apply(Plural5, w) == w[..|w| - 1] + "ies"
  {
    assert Lower(w[|w| - 2]) !in "aeiouy";
    assert EndsWith(w, "y");
    assert AltMatches(Plural5.alts[0], w, false);
  }

  lemma PluralizeCategory()
    ensures Pluralize("category") == "categories"
  {
    NoXNoIx("category");
    PluralizeConsonantY("category");
  }

  /** A word ending in `quiz` takes `zes`. */
  lemma PluralizeQuiz(w: string)
    requires EndsWith(w, "quiz")
    ensures Pluralize(w) == w + "zes"
  {
    assert AltMatches(Plural0.alts[0], w, false);
    PluralPositions();
    RewriteFirstMatch(PluralRules, 0, w);
  }

  /** A word no earlier rule catches gets an `s` appended: the last rule
      matches every word. */
  lemma PluralizeFallback(w: string)
    requires NoneMatch(PluralRules[..19], w)
    ensures Pluralize(w) == w + "s"
  {
    PluralPositions();
    assert AltMatches(Plural19.alts[0], w, false);
    RewriteFirstMatch(PluralRules, 19, w);
  }

  lemma FinalS(w: string)
    requires |w| > 0 && Lower(w[|w| - 1]) == 's'
    ensures Matches(Plural18, w) && Apply(Plural18, w) == w[..|w| - 1] + "s"
  {
    assert EndsWith(w, "s");
    assert AltMatches(Plural18.alts[0], w, false);
  }

  /** A word ending in `s` that no earlier rule catches keeps its form, but
      for a final `S`, which becomes `s`. */
  lemma PluralizeEndsInS(w: string)
    requires |w| > 0 && Lower(w[|w| - 1]) == 's'
    requires NoneMatch(PluralRules[..18], w)
    ensures Pluralize(w) == w[..|w| - 1] + "s"
    ensures w[|w| - 1] == 's' ==> Pluralize(w) == w
  {
    PluralPositions();
    FinalS(w);
    RewriteFirstMatch(PluralRules, 18, w);
  }


  const Singular0: Rule := Ends([Alt(Text("quiz"), "zes", "")], false) // (quiz)zes$
  const Singular1: Rule := Ends([Alt(Text("matr"), "ices", "ix")], false) // (matr)ices$
  const Singular2: Rule := Ends([Alt(Text("vert"), "ices", "ex"), Alt(Text("ind"), "ices", "ex")], false) // (vert|ind)ices$
  const Singular3: Rule := Prefix("ox", "en", "") // ^(ox)en
  const Singular4: Rule := Ends([Alt(Text("alias"), "es", ""), Alt(Text("status"), "es", ""), Alt(Text("virus"), "es", "")], false)
  const Singular5: Rule := Ends([Alt(Text("octop"), "i", "us"), Alt(Text("vir"), "i", "us")], false)
  const Singular6: Rule := Ends([Alt(Text("cris"), "es", "is"), Alt(Text("ax"), "es", "is"), Alt(Text("test"), "es", "is")], false)
  const Singular7: Rule := Ends([Alt(Text("shoe"), "s", "")], false)
  const Singular8: Rule := Ends([Alt(Text("o"), "es", "")], false)
  const Singular9: Rule := Ends([Alt(Text("bus"), "es", "")], false)
  const Singular10: Rule := Ends([Alt(Class(AnyOf("m|l")), "ice", "ouse")], false) // ([m|l])ice$
  const Singular11: Rule := Ends([Alt(Text("x"), "es", ""), Alt(Text("ch"), "es", ""), Alt(Text("ss"), "es", ""), Alt(Text("sh"), "es", "")], false)
  const Singular12: Rule := Ends([Alt(Text("m"), "ovies", "ovie")], false)
  const Singular13: Rule := Ends([Alt(Text("s"), "eries", "eries")], false)
  const Singular14: Rule := Ends([Alt(Class(NoneOf("aeiouy")), "ies", "y"), Alt(Text("qu"), "ies", "y")], false) // ([^aeiouy]|qu)ies$
  const Singular15: Rule := Ends([Alt(Class(AnyOf("lr")), "ves", "f")], false)
  const Singular16: Rule := Ends([Alt(Text("tive"), "s", "")], false)
  const Singular17: Rule := Ends([Alt(Text("hive"), "s", "")], false)
  const Singular18: Rule := Ends([Alt(Class(NoneOf("f")), "ves", "fe")], false)
  const Singular19: Rule := Ends([Alt(Text("analy"), "ses", "sis")], true) // (^analy)ses$
  const Singular21: Rule := Ends([Alt(Class(AnyOf("ti")), "a", "um")], false)
  const Singular22: Rule := Ends([Alt(Text("n"), "ews", "ews")], false)
  const Singular23: Rule := Ends([Alt(Text(""), "s", "")], false) // s$

  /** The other alternatives of the rule
      `((a)naly|(b)a|(d)iagno|(p)arenthe|(p)rogno|(s)ynop|(t)he)ses$`, whose
      replacement `$1$2sis` keeps the first group and appends `sis`. */
  const ThesisAlts: seq<Alt> := [
    Alt(Text("ba"), "ses", "sis"), Alt(Text("diagno"), "ses", "sis"),
    Alt(Text("parenthe"), "ses", "sis"), Alt(Text("progno"), "ses", "sis"),
    Alt(Text("synop"), "ses", "sis"), Alt(Text("the"), "ses", "sis")
  ]

  /** That rule as written: for `analy` the second group captured the `a`,
      so the replacement inserts that letter again before `sis`. */
  const Singular20AsWritten: Rule := Ends([Alt(Text("analy"), "ses", "sis", true)] + ThesisAlts, false)

  /** That rule as intended: `...analyses` becomes `...analysis`. */
  const Singular20: Rule := Ends([Alt(Text("analy"), "ses", "sis")] + ThesisAlts, false)


  /** The singular rules before the `analyses` rule, in groups of five. */
  const SingularFirst: seq<Rule> := [Singular0, Singular1, Singular2, Singular3, Singular4]
  const SingularSecond: seq<Rule> := [Singular5, Singular6, Singular7, Singular8, Singular9]
  const SingularThird: seq<Rule> := [Singular10, Singular11, Singular12, Singular13, Singular14]
  const SingularFourth: seq<Rule> := [Singular15, Singular16, Singular17, Singular18, Singular19]
  const SingularEarly: seq<Rule> := SingularFirst + SingularSecond + SingularThird + SingularFourth

  /** The singular rules, with the given rule in position 20. */
  function SingularRulesWith(r20: Rule): seq<Rule> {
    SingularEarly + [r20, Singular21, Singular22, Singular23]
  }

  /** Rewriting by a rule table is the first matching rule's rewriting, and
      the word itself when no rule matches. */
  lemma RewriteSpec(rules: seq<Rule>, w: string)
    ensures NoneMatch(rules, w) ==> Rewrite(rules, w) == w
    ensures forall k :: 0 <= k < |rules| && NoneMatch(rules[..k], w) && Matches(rules[k], w) ==>
      Rewrite(rules, w) == Apply(rules[k], w)
  {
    if NoneMatch(rules, w) {
      RewriteNoMatch(rules, w);
    }
    forall k | 0 <= k < |rules| && NoneMatch(rules[..k], w) && Matches(rules[k], w) {
      RewriteFirstMatch(rules, k, w);
    }
  }

  /** Inflect::singularize, as the source writes it: the word rewritten by
      the first singular rule that matches it, or the word itself. */
  function SingularizeAsWritten(w: string): (r: string)
    ensures NoneMatch(SingularRulesWith(Singular20AsWritten), w) ==> r == w
    ensures var rules := SingularRulesWith(Singular20AsWritten);
      forall k :: 0 <= k < |rules| && NoneMatch(rules[..k], w) && Matches(rules[k], w) ==> r == Apply(rules[k], w)
  {
    RewriteSpec(SingularRulesWith(Singular20AsWritten), w);
    Rewrite(SingularRulesWith(Singular20AsWritten), w)
  }

  /** Inflect::singularize, with `...analyses` corrected. */
  function Singularize(w: string): (r: string)
    ensures NoneMatch(SingularRulesWith(Singular20), w) ==> r == w
    ensures var rules := SingularRulesWith(Singular20);
      forall k :: 0 <= k < |rules| && NoneMatch(rules[..k], w) && Matches(rules[k], w) ==> r == Apply(rules[k], w)
  {
    RewriteSpec(SingularRulesWith(Singular20), w);
    Rewrite(SingularRulesWith(Singular20), w)
  }

  lemma SingularPositions(r20: Rule)
    ensures |SingularEarly| == 20 && |SingularRulesWith(r20)| == 24
    ensures SingularRulesWith(r20)[..20] == SingularEarly && SingularRulesWith(r20)[20] == r20
    ensures SingularRulesWith(r20)[0] == Singular0 && SingularRulesWith(r20)[23] == Singular23
  {
    var rs := SingularRulesWith(r20);
    assert rs[0] == SingularEarly[0] == SingularFirst[0];
  }

  /** `analyses` at the end of a word: the rule as intended gives `analysis`,
      the rule as written repeats the `a` of `analy`, in its own case. */
  lemma AnalysesRule(w: string)
    requires EndsWith(w, "analyses")
    ensures Matches(Singular20, w) && Apply(Singular20, w) == w[..|w| - 3] + "sis"
    ensures Matches(Singular20AsWritten, w) && Apply(Singular20AsWritten, w) == w[..|w| - 3] + [w[|w| - 8]] + "sis"
  {
    assert AltMatches(Singular20.alts[0], w, false);
    assert AltMatches(Singular20AsWritten.alts[0], w, false);
  }

  /** Any word ending in `analyses` that no earlier rule catches loses its
      `ses` for `sis` under the corrected rule. */
  lemma SingularizeAnalyses(w: string)
    requires EndsWith(w, "analyses") && NoneMatch(SingularEarly, w)
    ensures Singularize(w) == w[..|w| - 3] + "sis"
  {
    SingularPositions(Singular20);
    AnalysesRule(w);
    RewriteFirstMatch(SingularRulesWith(Singular20), 20, w);
  }

  /** The same word under the rule as written gains a stray copy of the `a`
      of `analy`, in the case the word has there. */
  lemma SingularizeAnalysesAsWritten(w: string)
    requires EndsWith(w, "analyses") && NoneMatch(SingularEarly, w)
    ensures SingularizeAsWritten(w) == w[..|w| - 3] + [w[|w| - 8]] + "sis"
    ensures Lower(w[|w| - 8]) == 'a'
  {
    SingularPositions(Singular20AsWritten);
    AnalysesRule(w);
    RewriteFirstMatch(SingularRulesWith(Singular20AsWritten), 20, w);
  }

  /** `psychoanalyses` passes over the first five singular rules. */
  lemma PsychoanalysesMissesFirst()
    ensures NoneMatch(SingularFirst, "psychoanalyses")
  {
    var w := "psychoanalyses";
    assert !Matches(Singular0, w) && !Matches(Singular1, w) && !Matches(Singular2, w);
    assert !Matches(Singular3, w) && !Matches(Singular4, w);
    NoneOfFive(Singular0, Singular1, Singular2, Singular3, Singular4, w);
  }

  /** ... and the next five. */
  lemma PsychoanalysesMissesSecond()
    ensures NoneMatch(SingularSecond, "psychoanalyses")
  {
    var w := "psychoanalyses";
    assert !Matches(Singular5, w) && !Matches(Singular6, w) && !Matches(Singular7, w);
    assert !Matches(Singular8, w) && !Matches(Singular9, w);
    NoneOfFive(Singular5, Singular6, Singular7, Singular8, Singular9, w);
  }

  /** ... and the next five. */
  lemma PsychoanalysesMissesThird()
    ensures NoneMatch(SingularThird, "psychoanalyses")
  {
    var w := "psychoanalyses";
    assert !Matches(Singular10, w) && !Matches(Singular11, w) && !Matches(Singular12, w);
    assert !Matches(Singular13, w) && !Matches(Singular14, w);
    NoneOfFive(Singular10, Singular11, Singular12, Singular13, Singular14, w);
  }

  /** ... and the five before the `analyses` rule. */
  lemma PsychoanalysesMissesFourth()
    ensures NoneMatch(SingularFourth, "psychoanalyses")
  {
    var w := "psychoanalyses";
    assert !Matches(Singular15, w) && !Matches(Singular16, w) && !Matches(Singular17, w);
    assert !Matches(Singular18, w) && !Matches(Singular19, w);
    NoneOfFive(Singular15, Singular16, Singular17, Singular18, Singular19, w);
  }

  /** `psychoanalyses` passes over the twenty rules before the `analyses`
      rule, and ends in `analyses`. */
  lemma PsychoanalysesReachesRule20()
    ensures NoneMatch(SingularEarly, "psychoanalyses") && EndsWith("psychoanalyses", "analyses")
  {
    var w := "psychoanalyses";
    PsychoanalysesMissesFirst();
    PsychoanalysesMissesSecond();
    PsychoanalysesMissesThird();
    PsychoanalysesMissesFourth();
    NoneMatchConcat(SingularFirst, SingularSecond, w);
    NoneMatchConcat(SingularFirst + SingularSecond, SingularThird, w);
    NoneMatchConcat(SingularFirst + SingularSecond + SingularThird, SingularFourth, w);
  }

  /** How the two replacements spell out on `psychoanalyses`. */
  lemma PsychoanalysesSpelled(w: string)
    requires w == "psychoanalyses"
    ensures w[..|w| - 3] + "sis" == "psychoanalysis"
    ensures w[..|w| - 3] + [w[|w| - 8]] + "sis" == "psychoanalyasis"
  {
    assert w[..|w| - 3] == "psychoanaly";
  }

  /** The rule as written turns `psychoanalyses` into `psychoanalyasis`. */
  lemma PsychoanalysesAsWritten()
    ensures SingularizeAsWritten("psychoanalyses") == "psychoanalyasis"
  {
    var w := "psychoanalyses";
    PsychoanalysesReachesRule20();
    SingularizeAnalysesAsWritten(w);
    PsychoanalysesSpelled(w);
  }

  /** The corrected rule turns `psychoanalyses` into `psychoanalysis`. */
  lemma PsychoanalysesCorrected()
    ensures Singularize("psychoanalyses") == "psychoanalysis"
  {
    var w := "psychoanalyses";
    PsychoanalysesReachesRule20();
    SingularizeAnalyses(w);
    PsychoanalysesSpelled(w);
  }

  /** The two variants of the `analyses` rule have the same pattern; only
      their replacements differ. */
  lemma Rule20SamePattern(w: string)
    ensures Matches(Singular20, w) <==> Matches(Singular20AsWritten, w)
  {
    var a, b := Singular20.alts, Singular20AsWritten.alts;
    assert |a| == |b|;
    forall j | 0 <= j < |a|
      ensures AltMatches(a[j], w, false) <==> AltMatches(b[j], w, false)
    {
      assert a[j].group == b[j].group && a[j].rest == b[j].rest;
    }
  }

  /** The two tables agree on every rule but the replacement of rule 20, so
      a word that passes over a prefix of one passes over that prefix of the
      other. */
  lemma SameMisses(w: string, k: nat)
    requires k <= 24 && NoneMatch(SingularRulesWith(Singular20)[..k], w)
    ensures NoneMatch(SingularRulesWith(Singular20AsWritten)[..k], w)
  {
    var a, b := SingularRulesWith(Singular20), SingularRulesWith(Singular20AsWritten);
    Rule20SamePattern(w);
    forall i | 0 <= i < k
      ensures !Matches(b[..k][i], w)
    {
      assert a[..k][i] == a[i] && b[..k][i] == b[i];
      assert !Matches(a[i], w);
      if i < 20 {
        assert a[i] == SingularEarly[i] == b[i];
      } else if i > 20 {
        assert a[i] == b[i];
      }
    }
  }

  /** The plural of a word ending in `quiz` turns back into the word, under
      either variant of the `analyses` rule. */
  lemma QuizRoundTrip(w: string)
    requires EndsWith(w, "quiz")
    ensures Singularize(Pluralize(w)) == w
    ensures SingularizeAsWritten(Pluralize(w)) == w
  {
    PluralizeQuiz(w);
    var p := w + "zes";
    assert AltMatches(Singular0.alts[0], p, false);
    assert p[..|p| - 3] == w;
    SingularPositions(Singular20);
    RewriteFirstMatch(SingularRulesWith(Singular20), 0, p);
    SingularPositions(Singular20AsWritten);
    RewriteFirstMatch(SingularRulesWith(Singular20AsWritten), 0, p);
  }

  /** A word ending in `s` that no earlier singular rule catches loses the
      `s`, under either variant of the `analyses` rule. */
  lemma SingularizeFallback(w: string)
    requires |w| > 0 && Lower(w[|w| - 1]) == 's'
    requires NoneMatch(SingularRulesWith(Singular20)[..23], w)
    ensures Singularize(w) == w[..|w| - 1]
    ensures SingularizeAsWritten(w) == w[..|w| - 1]
  {
    assert EndsWith(w, "s");
    assert AltMatches(Singular23.alts[0], w, false);
    SingularPositions(Singular20);
    RewriteFirstMatch(SingularRulesWith(Singular20), 23, w);
    SameMisses(w, 23);
    SingularPositions(Singular20AsWritten);
    RewriteFirstMatch(SingularRulesWith(Singular20AsWritten), 23, w);
  }

  /** A word no singular rule matches is returned as it is, under either
      variant of the `analyses` rule. */
  lemma SingularizeNoMatch(w: string)
    requires NoneMatch(SingularRulesWith(Singular20), w)
    ensures Singularize(w) == w
    ensures SingularizeAsWritten(w) == w
  {
    RewriteNoMatch(SingularRulesWith(Singular20), w);
    assert SingularRulesWith(Singular20)[..24] == SingularRulesWith(Singular20);
    SameMisses(w, 24);
    assert SingularRulesWith(Singular20AsWritten)[..24] == SingularRulesWith(Singular20AsWritten);
    RewriteNoMatch(SingularRulesWith(Singular20AsWritten), w);
  }

  lemma YMissesFirst(w: string)
    requires |w| > 0 && Lower(w[|w| - 1]) == 'y' && !StartsWith(w, "oxen")
    ensures NoneMatch(SingularFirst, w)
  {
    LastLetterMisses(Singular0, w);
    LastLetterMisses(Singular1, w);
    LastLetterMisses(Singular2, w);
    assert "ox" + "en" == "oxen";
    LastLetterMisses(Singular4, w);
  }

  lemma YMissesSecond(w: string)
    requires |w| > 0 && Lower(w[|w| - 1]) == 'y'
    ensures NoneMatch(SingularSecond, w)
  {
    LastLetterMisses(Singular5, w);
    LastLetterMisses(Singular6, w);
    LastLetterMisses(Singular7, w);
    LastLetterMisses(Singular8, w);
    LastLetterMisses(Singular9, w);
  }

  lemma YMissesThird(w: string)
    requires |w| > 0 && Lower(w[|w| - 1]) == 'y'
    ensures NoneMatch(SingularThird, w)
  {
    LastLetterMisses(Singular10, w);
    LastLetterMisses(Singular11, w);
    LastLetterMisses(Singular12, w);
    LastLetterMisses(Singular13, w);
    LastLetterMisses(Singular14, w);
  }

  lemma YMissesFourth(w: string)
    requires |w| > 0 && Lower(w[|w| - 1]) == 'y'
    ensures NoneMatch(SingularFourth, w)
  {
    LastLetterMisses(Singular15, w);
    LastLetterMisses(Singular16, w);
    LastLetterMisses(Singular17, w);
    LastLetterMisses(Singular18, w);
    LastLetterMisses(Singular19, w);
  }

  lemma YMissesLast(w: string)
    requires |w| > 0 && Lower(w[|w| - 1]) == 'y'
    ensures NoneMatch([Singular20, Singular21, Singular22, Singular23], w)
  {
    LastLetterMisses(Singular20, w);
    LastLetterMisses(Singular21, w);
    LastLetterMisses(Singular22, w);
    LastLetterMisses(Singular23, w);
  }

  /** A word ending in `y` is caught by no singular rule of either table
      (none of them ends in `y`), unless it begins with `oxen`. */
  lemma SingularMissesY(w: string)
    requires |w| > 0 && Lower(w[|w| - 1]) == 'y' && !StartsWith(w, "oxen")
    ensures NoneMatch(SingularRulesWith(Singular20), w)
    ensures NoneMatch(SingularRulesWith(Singular20AsWritten), w)
  {
    YMissesFirst(w);
    YMissesSecond(w);
    YMissesThird(w);
    YMissesFourth(w);
    YMissesLast(w);
    NoneMatchConcat(SingularFirst, SingularSecond, w);
    NoneMatchConcat(SingularFirst + SingularSecond, SingularThird, w);
    NoneMatchConcat(SingularFirst + SingularSecond + SingularThird, SingularFourth, w);
    NoneMatchConcat(SingularEarly, [Singular20, Singular21, Singular22, Singular23], w);
    assert SingularRulesWith(Singular20)[..24] == SingularRulesWith(Singular20);
    SameMisses(w, 24);
    assert SingularRulesWith(Singular20AsWritten)[..24] == SingularRulesWith(Singular20AsWritten);
  }

  /** A word ending in `y` keeps its form, under either variant of the
      `analyses` rule. */
  lemma SingularizeEndsInY(w: string)
    requires |w| > 0 && Lower(w[|w| - 1]) == 'y' && !StartsWith(w, "oxen")
    ensures Singularize(w) == w
    ensures SingularizeAsWritten(w) == w
  {
    SingularMissesY(w);
    SingularizeNoMatch(w);
  }
}
