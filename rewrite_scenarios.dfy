/**
 * Requests worked through the final rule engine end to end: the rule
 * matches the rebuilt path, its template is filled in from the match, and
 * the rewrite splits the result back into PATH_INFO and QUERY_STRING.
 * The regular expression is left abstract: only the match it reports for
 * the one subject that matters is fixed.
 */
module RewriteScenarios {
  import opened Wrappers
  import opened Text
  import opened Rack
  import opened Substitution
  import opened RewriteRule

  /** A request for `/john?show_bio=1`. */
  const JohnRequest: Vars := map[PathInfo := "/john", QueryString := "show_bio=1", RequestUri := "/john?show_bio=1"]

  lemma JohnRequestPath()
    ensures IsRackEnv(JohnRequest) && BuildPath(JohnRequest) == "/john?show_bio=1"
  {
  }

  /** What `%r{/(\w+)\?show_bio=(\d)}` finds in `/john?show_bio=1`. */
  const BioMatch := MatchData("/john?show_bio=1", [Some("john"), Some("1")])

  /** `/$1?bio=$2` as tokens. */
  const BioTokens := [Lit("/"), Group(1), Lit("?bio="), Group(2)]

  lemma BioTokensText()
    ensures Substitution.Template(BioTokens) == "/$1?bio=$2"
  {
    var toks := BioTokens;
    assert Placeholder(1) == "$1" && Placeholder(2) == "$2";
    assert toks[1..][1..][1..][1..] == [];
    assert Substitution.Template(toks) == "/" + ("$1" + ("?bio=" + ("$2" + "")));
  }

  lemma BioTokensResolved()
    ensures Resolvable(BioTokens, BioMatch)
    ensures Expected(BioTokens, BioMatch) == "/" + ("john" + ("?bio=" + ("1" + "")))
  {
    var m := BioMatch;
    var t3: seq<Token> := [Group(2)];
    var t2 := [Lit("?bio=")] + t3;
    var t1 := [Group(1)] + t2;
    var t0 := [Lit("/")] + t1;
    assert Value(Group(1), m) == "john" && Value(Group(2), m) == "1";
    ResolvableCons(Group(2), [], m);
    assert [Group(2)] + [] == t3;
    ResolvableCons(Lit("?bio="), t3, m);
    ResolvableCons(Group(1), t2, m);
    ResolvableCons(Lit("/"), t1, m);
    assert t0 == BioTokens;
  }

  lemma BioTextJoined()
    ensures "/" + ("john" + ("?bio=" + ("1" + ""))) == "/john?bio=1"
  {
  }

  lemma BioTemplateFilledIn()
    ensures Substituted("/$1?bio=$2", BioMatch) == "/john?bio=1"
  {
    BioTokensText();
    BioTokensResolved();
    BioTextJoined();
    SubstitutionResolvesPlaceholders(BioTokens, BioMatch);
  }

  lemma BioTargetSplit()
    ensures RewrittenPath("/john?bio=1") == "/john" && RewrittenQuery("/john?bio=1") == "bio=1"
  {
    var t := "/john?bio=1";
    assert t[..5] == "/john";
    IndexOfAt(t, '?', 5);
    RewrittenPathAt(t, 5);
    RewrittenQueryAt(t, 5);
  }

  /**
   * A rewrite that changes the query string: the regular expression sees
   * the query through the rebuilt path, and the target's query becomes the
   * new QUERY_STRING.
   */
  lemma RewriteChangesQueryString(r: Regex, host: Host)
    requires r.search("/john?show_bio=1") == Some(BioMatch)
    ensures IsRackEnv(JohnRequest)
    ensures Matches(Rule(Kind.Rewrite, Re(r), Template("/$1?bio=$2"), None), JohnRequest)
    ensures var out := Applied(Rule(Kind.Rewrite, Re(r), Template("/$1?bio=$2"), None), JohnRequest, host);
      && out.Continue?
      && out.vars[PathInfo] == "/john"
      && out.vars[QueryString] == "bio=1"
      && out.vars[RequestUri] == "/john?bio=1"
  {
    var rule := Rule(Kind.Rewrite, Re(r), Template("/$1?bio=$2"), None);
    JohnRequestPath();
    BioTemplateFilledIn();
    assert Interpretation(rule, JohnRequest) == "/john?bio=1";
    BioTargetSplit();
    RewrittenFields(JohnRequest, "/john?bio=1");
  }
}
