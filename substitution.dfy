/**
 * Capture substitution into a `to` template, as `computed_to` performs it:
 * every `$&` is replaced by the matched text, then every `$n`, for n from
 * the number of groups down to 1, by the text of group n. Each step is a
 * replace-all over the string produced by the previous one.
 */
module Substitution {
  import opened Wrappers
  import opened Text
  import opened Rack

  const WholePlaceholder := "$&"

  /** The placeholder `"$#{k}"` for group `k`. */
  function Placeholder(k: nat): (p: string)
    ensures |p| >= 2 && p[0] == '$'
    ensures forall i :: 1 <= i < |p| ==> IsDigit(p[i])
  {
    "$" + Decimal(k)
  }

  /** The `downto` loop: substitute groups `n`, `n - 1`, ..., 1 in that order. */
  function SubstituteDown(s: string, groups: seq<Option<string>>, n: nat): (r: string)
    requires n <= |groups|
    ensures '$' !in s ==> r == s
    decreases n
  {
    if n == 0 then s
    else
      var next := ReplaceAll(s, Placeholder(n), ToS(groups[n - 1]));
      assert '$' !in s ==> next == s by {
        if '$' !in s {
          ReplaceAllWithoutDollar(s, Placeholder(n), ToS(groups[n - 1]));
        }
      }
      SubstituteDown(next, groups, n - 1)
  }

  /** The string `computed_to` builds from template `to` and match `m`; a template without `$` comes out unchanged. */
  function Substituted(to: string, m: MatchData): (r: string)
    ensures '$' !in to ==> r == to
  {
    var whole := ReplaceAll(to, WholePlaceholder, m.whole);
    assert '$' !in to ==> whole == to by {
      if '$' !in to {
        ReplaceAllWithoutDollar(to, WholePlaceholder, m.whole);
      }
    }
    SubstituteDown(whole, m.groups, |m.groups|)
  }

  // ---------------------------------------------------------------------
  // Templates as token sequences, and what substitution makes of them.
  // ---------------------------------------------------------------------

  /** A piece of a template: literal text, `$&`, or `$k`. */
  datatype Token = Lit(text: string) | WholeMatch | Group(index: nat)

  function TokenText(t: Token): string {
    match t
    case Lit(s) => s
    case WholeMatch => WholePlaceholder
    case Group(k) => Placeholder(k)
  }

  /** The template text the tokens spell. */
  function Template(toks: seq<Token>): string {
    if toks == [] then [] else TokenText(toks[0]) + Template(toks[1..])
  }

  predicate ValidToken(t: Token, m: MatchData) {
    t.Group? ==> 1 <= t.index <= |m.groups|
  }

  predicate AllValid(toks: seq<Token>, m: MatchData) {
    forall i :: 0 <= i < |toks| ==> ValidToken(toks[i], m)
  }

  /** What a token stands for: its literal text, the matched text, or its group's text. */
  function Value(t: Token, m: MatchData): string
    requires ValidToken(t, m)
  {
    match t
    case Lit(s) => s
    case WholeMatch => m.whole
    case Group(k) => GroupText(m, k)
  }

  /** The intended result: every placeholder replaced by what it stands for. */
  function Expected(toks: seq<Token>, m: MatchData): string
    requires AllValid(toks, m)
  {
    if toks == [] then [] else Value(toks[0], m) + Expected(toks[1..], m)
  }

  /** A text that cannot extend a placeholder `$k` into a longer one: it is empty or starts with a non-digit. */
  predicate NoLeadingDigit(s: string) {
    s == [] || !IsDigit(s[0])
  }

  /**
   * The conditions under which sequential replacement yields `Expected`:
   * every group token names an existing group, no inserted or literal text
   * contains `$`, and whatever the tokens after a group placeholder stand
   * for (possibly nothing) does not start with a digit (so `$1` followed
   * by `0` is never read as `$10`).
   */
  predicate Resolvable(toks: seq<Token>, m: MatchData) {
    && AllValid(toks, m)
    && (forall i :: 0 <= i < |toks| ==> '$' !in Value(toks[i], m))
    && (forall i :: 0 <= i < |toks| && toks[i].Group? ==> NoLeadingDigit(Expected(toks[i + 1..], m)))
  }

  // The string after the `$&` pass (`wholeDone`) and after the passes for
  // groups above `n`.
  function StagePiece(t: Token, m: MatchData, wholeDone: bool, n: nat): string
    requires ValidToken(t, m)
  {
    match t
    case Lit(s) => s
    case WholeMatch => if wholeDone then m.whole else WholePlaceholder
    case Group(k) => if k > n then GroupText(m, k) else Placeholder(k)
  }

  function Stage(toks: seq<Token>, m: MatchData, wholeDone: bool, n: nat): string
    requires AllValid(toks, m)
  {
    if toks == [] then [] else StagePiece(toks[0], m, wholeDone, n) + Stage(toks[1..], m, wholeDone, n)
  }

  lemma AllValidTail(toks: seq<Token>, m: MatchData)
    requires toks != [] && AllValid(toks, m)
    ensures AllValid(toks[1..], m)
  {
    forall i | 0 <= i < |toks| - 1 ensures ValidToken(toks[1..][i], m) {
      assert toks[1..][i] == toks[i + 1];
    }
  }

  lemma ResolvableTail(toks: seq<Token>, m: MatchData)
    requires toks != [] && Resolvable(toks, m)
    ensures Resolvable(toks[1..], m)
  {
    var t := toks[1..];
    AllValidTail(toks, m);
    forall i | 0 <= i < |t| ensures '$' !in Value(t[i], m) {
      assert t[i] == toks[i + 1];
    }
    forall i | 0 <= i < |t| && t[i].Group? ensures NoLeadingDigit(Expected(t[i + 1..], m)) {
      assert t[i] == toks[i + 1] && t[i + 1..] == toks[i + 2..];
    }
  }

  /** A resolvable template extended at the front by one more token. */
  lemma ResolvableCons(t: Token, rest: seq<Token>, m: MatchData)
    requires ValidToken(t, m) && '$' !in Value(t, m) && Resolvable(rest, m)
    requires t.Group? ==> NoLeadingDigit(Expected(rest, m))
    ensures Resolvable([t] + rest, m)
    ensures Expected([t] + rest, m) == Value(t, m) + Expected(rest, m)
  {
    var toks := [t] + rest;
    assert toks[1..] == rest;
    forall i | 0 <= i < |toks| ensures ValidToken(toks[i], m) && '$' !in Value(toks[i], m) {
      if i > 0 {
        assert toks[i] == rest[i - 1];
      }
    }
    forall i | 0 <= i < |toks| && toks[i].Group? ensures NoLeadingDigit(Expected(toks[i + 1..], m)) {
      if i > 0 {
        assert toks[i] == rest[i - 1] && toks[i + 1..] == rest[i..];
      }
    }
  }

  /**
   * At any stage, the text of the tokens starts as what they stand for
   * starts, or with the `$` of a placeholder not yet replaced.
   */
  lemma {:induction false} StageNoLeadingDigit(toks: seq<Token>, m: MatchData, wholeDone: bool, n: nat)
    requires AllValid(toks, m) && NoLeadingDigit(Expected(toks, m))
    ensures NoLeadingDigit(Stage(toks, m, wholeDone, n))
    decreases |toks|
  {
    if toks != [] {
      var p, v := StagePiece(toks[0], m, wholeDone, n), Value(toks[0], m);
      AllValidTail(toks, m);
      assert p == v || (p != [] && p[0] == '$');
      if p == [] {
        StageNoLeadingDigit(toks[1..], m, wholeDone, n);
      } else {
        assert Stage(toks, m, wholeDone, n)[0] == p[0];
        if p == v {
          assert Expected(toks, m)[0] == v[0];
        }
      }
    }
  }

  /** No occurrence of a `$`-pattern starts at a character other than `$`. */
  lemma NoStartAtOtherChar(s: string, i: nat, pat: string)
    requires i < |s| && pat != [] && s[i] != pat[0]
    ensures !StartsAt(s, i, pat)
  {
    if i + |pat| <= |s| {
      assert s[i..i + |pat|][0] == s[i];
    }
  }

  /** No occurrence of a `$`-pattern starts inside a piece with no `$` at all. */
  lemma NoStartInPlainText(p: string, rest: string, pat: string)
    requires pat != [] && pat[0] == '$' && '$' !in p
    ensures forall i :: 0 <= i < |p| ==> !StartsAt(p + rest, i, pat)
  {
    forall i | 0 <= i < |p| ensures !StartsAt(p + rest, i, pat) {
      assert (p + rest)[i] == p[i];
      NoStartAtOtherChar(p + rest, i, pat);
    }
  }

  /** A `$`-pattern never occurs in a text without `$`, so replacing it changes nothing. */
  lemma ReplaceAllWithoutDollar(s: string, pat: string, rep: string)
    requires pat != [] && pat[0] == '$' && '$' !in s
    ensures ReplaceAll(s, pat, rep) == s
  {
    NoStartInPlainText(s, [], pat);
    assert s + [] == s;
    ReplaceAllAbsent(s, pat, rep);
  }

  /** Inside a placeholder only its first character, `$`, can start an occurrence. */
  lemma NoStartInPlaceholder(k: nat, rest: string, pat: string)
    requires pat != [] && pat[0] == '$' && !StartsAt(Placeholder(k) + rest, 0, pat)
    ensures forall i :: 0 <= i < |Placeholder(k)| ==> !StartsAt(Placeholder(k) + rest, i, pat)
  {
    var p := Placeholder(k);
    forall i | 1 <= i < |p| ensures !StartsAt(p + rest, i, pat) {
      assert (p + rest)[i] == p[i];
      NoStartAtOtherChar(p + rest, i, pat);
    }
  }

  /** `$&` never occurs at a group placeholder: its second character is a digit. */
  lemma WholeMissesPlaceholder(k: nat, rest: string)
    ensures !StartsAt(Placeholder(k) + rest, 0, WholePlaceholder)
  {
    var s := Placeholder(k) + rest;
    assert s[..2][1] == Placeholder(k)[1];
  }

  /**
   * `$n` does not occur at a placeholder `$k` with `k < n` when the next
   * character is not a digit: equally long decimals differ, and a longer
   * one would need a digit where the placeholder ends.
   */
  lemma GroupMissesLowerPlaceholder(k: nat, n: nat, rest: string)
    requires k < n
    requires rest == [] || !IsDigit(rest[0])
    ensures !StartsAt(Placeholder(k) + rest, 0, Placeholder(n))
  {
    var s := Placeholder(k) + rest;
    var pk, pn := Placeholder(k), Placeholder(n);
    DecimalLengthMonotone(k, n);
    if |s| >= |pn| {
      if |pk| == |pn| {
        assert s[..|pn|] == pk;
        assert pk != pn by {
          if pk == pn {
            assert Decimal(k) == pk[1..] == pn[1..] == Decimal(n);
            DecimalInjective(k, n);
          }
        }
      } else {
        assert s[..|pn|][|pk|] == rest[0];
        assert IsDigit(pn[|pk|]);
      }
    }
  }

  /** The `$&` pass turns the template into the stage where only `$&` is resolved. */
  lemma {:induction false} WholePass(toks: seq<Token>, m: MatchData)
    requires Resolvable(toks, m)
    ensures ReplaceAll(Stage(toks, m, false, |m.groups|), WholePlaceholder, m.whole)
         == Stage(toks, m, true, |m.groups|)
    decreases |toks|
  {
    var n := |m.groups|;
    if toks != [] {
      ResolvableTail(toks, m);
      WholePass(toks[1..], m);
      var p := StagePiece(toks[0], m, false, n);
      var rest := Stage(toks[1..], m, false, n);
      assert Stage(toks, m, false, n) == p + rest;
      match toks[0]
      case WholeMatch =>
        ReplaceAllHit(WholePlaceholder, rest, m.whole);
      case Lit(s) =>
        assert '$' !in Value(toks[0], m);
        NoStartInPlainText(p, rest, WholePlaceholder);
        ReplaceAllSkip(p, rest, WholePlaceholder, m.whole);
      case Group(k) =>
        WholeMissesPlaceholder(k, rest);
        NoStartInPlaceholder(k, rest, WholePlaceholder);
        ReplaceAllSkip(p, rest, WholePlaceholder, m.whole);
    } else {
      assert Stage(toks, m, false, n) == [];
    }
  }

  /** The pass for group `n` resolves exactly the placeholders `$n`. */
  lemma {:induction false} GroupPass(toks: seq<Token>, m: MatchData, n: nat)
    requires Resolvable(toks, m) && 1 <= n <= |m.groups|
    ensures ReplaceAll(Stage(toks, m, true, n), Placeholder(n), GroupText(m, n))
         == Stage(toks, m, true, n - 1)
    decreases |toks|
  {
    var pat, rep := Placeholder(n), GroupText(m, n);
    if toks != [] {
      ResolvableTail(toks, m);
      GroupPass(toks[1..], m, n);
      var p := StagePiece(toks[0], m, true, n);
      var rest := Stage(toks[1..], m, true, n);
      assert Stage(toks, m, true, n) == p + rest;
      if toks[0] == Group(n) {
        ReplaceAllHit(pat, rest, rep);
      } else if toks[0].Group? && toks[0].index < n {
        var k := toks[0].index;
        assert NoLeadingDigit(Expected(toks[1..], m));
        StageNoLeadingDigit(toks[1..], m, true, n);
        GroupMissesLowerPlaceholder(k, n, rest);
        NoStartInPlaceholder(k, rest, pat);
        ReplaceAllSkip(p, rest, pat, rep);
      } else {
        assert '$' !in Value(toks[0], m);
        NoStartInPlainText(p, rest, pat);
        ReplaceAllSkip(p, rest, pat, rep);
      }
    } else {
      assert Stage(toks, m, true, n) == [];
    }
  }

  lemma {:induction false} GroupPasses(toks: seq<Token>, m: MatchData, n: nat)
    requires Resolvable(toks, m) && n <= |m.groups|
    ensures SubstituteDown(Stage(toks, m, true, n), m.groups, n) == Stage(toks, m, true, 0)
    decreases n
  {
    if n > 0 {
      GroupPass(toks, m, n);
      GroupPasses(toks, m, n - 1);
    }
  }

  lemma {:induction false} TemplateIsFirstStage(toks: seq<Token>, m: MatchData)
    requires AllValid(toks, m)
    ensures Template(toks) == Stage(toks, m, false, |m.groups|)
    decreases |toks|
  {
    if toks != [] {
      AllValidTail(toks, m);
      TemplateIsFirstStage(toks[1..], m);
    }
  }

  lemma {:induction false} LastStageIsExpected(toks: seq<Token>, m: MatchData)
    requires AllValid(toks, m)
    ensures Stage(toks, m, true, 0) == Expected(toks, m)
    decreases |toks|
  {
    if toks != [] {
      AllValidTail(toks, m);
      LastStageIsExpected(toks[1..], m);
    }
  }

  /**
   * Sequential substitution, highest group first, resolves every placeholder
   * of a resolvable template to what it stands for; in particular `$10` is
   * consumed whole before `$1` is considered.
   */
  lemma SubstitutionResolvesPlaceholders(toks: seq<Token>, m: MatchData)
    requires Resolvable(toks, m)
    ensures Substituted(Template(toks), m) == Expected(toks, m)
  {
    TemplateIsFirstStage(toks, m);
    WholePass(toks, m);
    GroupPasses(toks, m, |m.groups|);
    LastStageIsExpected(toks, m);
  }

  /**
   * Replacement is not one simultaneous pass: text that group 2 puts in
   * place is searched again by the pass for group 1.
   */
  lemma InsertedTextIsSubstitutedAgain()
    ensures Substituted("$2", MatchData("y$1", [Some("y"), Some("$1")])) == "y"
  {
    var m := MatchData("y$1", [Some("y"), Some("$1")]);
    assert Placeholder(1) == "$1" && Placeholder(2) == "$2";
    assert "$2"[0..2][1] == '2' != WholePlaceholder[1];
    assert !StartsAt("$2", 0, WholePlaceholder) && !StartsAt("$2", 1, WholePlaceholder);
    ReplaceAllAbsent("$2", WholePlaceholder, m.whole);
    ReplaceAllHit("$2", [], "$1");
    ReplaceAllHit("$1", [], "y");
    assert "$2" + [] == "$2" && "$1" + [] == "$1" && "y" + [] == "y";
  }

  /** `%r{/person_(\d+)(.*)}` on `/person_1`: the second group captures the empty text. */
  const PersonMatch := MatchData("/person_1", [Some("1"), Some("")])

  /** `/people/$1$2` as tokens. */
  const PeopleTokens := [Lit("/people/"), Group(1), Group(2)]

  lemma PeopleTokensText()
    ensures Template(PeopleTokens) == "/people/" + ("$1" + ("$2" + ""))
  {
    var toks := PeopleTokens;
    assert Placeholder(1) == "$1" && Placeholder(2) == "$2";
    assert toks[1..][1..][1..] == [];
  }

  lemma PeopleTokensResolved()
    ensures Resolvable(PeopleTokens, PersonMatch)
    ensures Expected(PeopleTokens, PersonMatch) == "/people/" + ("1" + ("" + ""))
  {
    var m := PersonMatch;
    var t2: seq<Token> := [Group(2)];
    var t1 := [Group(1)] + t2;
    var t0 := [Lit("/people/")] + t1;
    assert Value(Group(1), m) == "1" && Value(Group(2), m) == "";
    ResolvableCons(Group(2), [], m);
    assert [Group(2)] + [] == t2;
    ResolvableCons(Group(1), t2, m);
    ResolvableCons(Lit("/people/"), t1, m);
    assert t0 == PeopleTokens;
  }

  lemma PeopleTextJoined()
    ensures "/people/" + ("$1" + ("$2" + "")) == "/people/$1$2"
    ensures "/people/" + ("1" + ("" + "")) == "/people/1"
  {
  }

  /**
   * A group placeholder may be followed by a group that captured nothing:
   * `/people/$1$2` on `/person_1` becomes `/people/1`.
   */
  lemma EmptyCaptureAfterGroup()
    ensures Substituted("/people/$1$2", PersonMatch) == "/people/1"
  {
    PeopleTokensText();
    PeopleTokensResolved();
    PeopleTextJoined();
    SubstitutionResolvesPlaceholders(PeopleTokens, PersonMatch);
  }

  /** The template `$n$(n-1)...$1` as tokens. */
  function Countdown(n: nat): (c: seq<Token>)
    ensures |c| == n
  {
    if n == 0 then [] else [Group(n)] + Countdown(n - 1)
  }

  lemma {:induction false} CountdownAt(n: nat)
    ensures forall i :: 0 <= i < n ==> Countdown(n)[i] == Group(n - i)
  {
    if n > 0 {
      CountdownAt(n - 1);
      assert Countdown(n)[1..] == Countdown(n - 1);
    }
  }

  lemma {:induction false} CountdownDrop(n: nat, i: nat)
    requires i <= n
    ensures Countdown(n)[i..] == Countdown(n - i)
    decreases i
  {
    if i > 0 {
      CountdownAt(n);
      assert Countdown(n)[1..] == Countdown(n - 1);
      CountdownDrop(n - 1, i - 1);
      assert Countdown(n)[i..] == Countdown(n)[1..][i - 1..];
    }
  }

  lemma {:induction false} CountdownNoLeadingDigit(n: nat, m: MatchData)
    requires n <= |m.groups|
    requires forall k :: 1 <= k <= |m.groups| ==> NoLeadingDigit(GroupText(m, k))
    ensures AllValid(Countdown(n), m) && NoLeadingDigit(Expected(Countdown(n), m))
    decreases n
  {
    CountdownAt(n);
    if n > 0 {
      CountdownExpectedStep(n, m);
      CountdownNoLeadingDigit(n - 1, m);
      if GroupText(m, n) != [] {
        assert Expected(Countdown(n), m)[0] == GroupText(m, n)[0];
      }
    }
  }

  /** Whenever no group text contains `$` or starts with a digit (empty groups included), the countdown template is resolvable. */
  lemma CountdownResolvable(n: nat, m: MatchData)
    requires n <= |m.groups|
    requires forall k :: 1 <= k <= |m.groups| ==> NoLeadingDigit(GroupText(m, k)) && '$' !in GroupText(m, k)
    ensures Resolvable(Countdown(n), m)
  {
    CountdownAt(n);
    forall i | 0 <= i < n && Countdown(n)[i].Group? ensures AllValid(Countdown(n)[i + 1..], m) && NoLeadingDigit(Expected(Countdown(n)[i + 1..], m)) {
      CountdownDrop(n, i + 1);
      CountdownNoLeadingDigit(n - (i + 1), m);
    }
  }

  lemma CountdownTemplateStep(n: nat)
    requires 0 < n
    ensures Template(Countdown(n)) == Placeholder(n) + Template(Countdown(n - 1))
  {
    assert Countdown(n)[1..] == Countdown(n - 1);
  }

  lemma CountdownExpectedStep(n: nat, m: MatchData)
    requires 0 < n <= |m.groups|
    ensures AllValid(Countdown(n), m) && AllValid(Countdown(n - 1), m)
    ensures Expected(Countdown(n), m) == GroupText(m, n) + Expected(Countdown(n - 1), m)
  {
    CountdownAt(n);
    CountdownAt(n - 1);
    assert Countdown(n)[1..] == Countdown(n - 1);
  }

  /** Ten one-letter groups, `a` to `j`. */
  const TenLetters := MatchData("abcdefghij", [Some("a"), Some("b"), Some("c"), Some("d"), Some("e"),
                                              Some("f"), Some("g"), Some("h"), Some("i"), Some("j")])

  // The lemmas below take the group count as a parameter `n` rather than as
  // a literal, so that the verifier unfolds `Countdown` one step at a time,
  // and they keep the pieces of each string apart until the last step.

  lemma SmallPlaceholders()
    ensures Placeholder(1) == "$1" && Placeholder(2) == "$2" && Placeholder(3) == "$3"
    ensures Placeholder(4) == "$4" && Placeholder(5) == "$5" && Placeholder(6) == "$6"
    ensures Placeholder(7) == "$7" && Placeholder(8) == "$8" && Placeholder(9) == "$9"
  {
  }

  lemma PlaceholderTen()
    ensures Placeholder(10) == "$10"
  {
    assert Decimal(10) == "10";
  }

  lemma TemplateTenPieces(n: nat)
    requires n == 10
    ensures Template(Countdown(n)) == "$10" + ("$9" + ("$8" + ("$7" + ("$6" + ("$5" + ("$4" + ("$3" + ("$2" + ("$1" + "")))))))))
  {
    SmallPlaceholders();
    PlaceholderTen();
    CountdownTemplateStep(n);
    CountdownTemplateStep(n - 1);
    CountdownTemplateStep(n - 2);
    CountdownTemplateStep(n - 3);
    CountdownTemplateStep(n - 4);
    CountdownTemplateStep(n - 5);
    CountdownTemplateStep(n - 6);
    CountdownTemplateStep(n - 7);
    CountdownTemplateStep(n - 8);
    CountdownTemplateStep(n - 9);
    assert Countdown(n - 10) == [];
  }

  lemma TemplateTenJoined()
    ensures "$10" + ("$9" + ("$8" + ("$7" + ("$6" + ("$5" + ("$4" + ("$3" + ("$2" + ("$1" + ""))))))))) == "$10$9$8$7$6$5$4$3$2$1"
  {
  }

  lemma TemplateTen(n: nat)
    requires n == 10
    ensures Template(Countdown(n)) == "$10$9$8$7$6$5$4$3$2$1"
  {
    TemplateTenPieces(n);
    TemplateTenJoined();
  }

  lemma ExpectedTenPieces(n: nat, m: MatchData)
    requires n == 10 && m == TenLetters
    ensures AllValid(Countdown(n), m)
    ensures Expected(Countdown(n), m) == "j" + ("i" + ("h" + ("g" + ("f" + ("e" + ("d" + ("c" + ("b" + ("a" + "")))))))))
  {
    CountdownExpectedStep(n, m);
    CountdownExpectedStep(n - 1, m);
    CountdownExpectedStep(n - 2, m);
    CountdownExpectedStep(n - 3, m);
    CountdownExpectedStep(n - 4, m);
    CountdownExpectedStep(n - 5, m);
    CountdownExpectedStep(n - 6, m);
    CountdownExpectedStep(n - 7, m);
    CountdownExpectedStep(n - 8, m);
    CountdownExpectedStep(n - 9, m);
    assert Countdown(n - 10) == [];
  }

  lemma ExpectedTenJoined()
    ensures "j" + ("i" + ("h" + ("g" + ("f" + ("e" + ("d" + ("c" + ("b" + ("a" + ""))))))))) == "jihgfedcba"
  {
  }

  lemma ExpectedTen(n: nat, m: MatchData)
    requires n == 10 && m == TenLetters
    ensures AllValid(Countdown(n), m)
    ensures Expected(Countdown(n), m) == "jihgfedcba"
  {
    ExpectedTenPieces(n, m);
    ExpectedTenJoined();
  }

  lemma TenGroupsResolved(n: nat, m: MatchData)
    requires n == 10 && m == TenLetters
    ensures Resolvable(Countdown(n), m)
    ensures Substituted(Template(Countdown(n)), m) == Expected(Countdown(n), m)
  {
    CountdownResolvable(n, m);
    SubstitutionResolvesPlaceholders(Countdown(n), m);
  }

  /** Ten groups: `$10` is resolved as group 10, not as group 1 followed by `0`. */
  lemma TenGroupsReversed()
    ensures Substituted("$10$9$8$7$6$5$4$3$2$1", TenLetters) == "jihgfedcba"
  {
    var n, m := 10, TenLetters;
    TemplateTen(n);
    ExpectedTen(n, m);
    TenGroupsResolved(n, m);
  }
}
