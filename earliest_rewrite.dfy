/**
 * The earliest engine, in one file: rules are `[kind, from, to]` triples,
 * found by exact comparison of `from` with PATH_INFO; a 301 rule answers
 * at once and a rewrite rule hands the application an environment whose
 * PATH_INFO is replaced.
 */
module EarliestRewrite {
  import opened Wrappers
  import opened Rack
  import opened Search

  datatype Kind = Rewrite | Moved301

  /** The triple `[kind, from, to]`. */
  datatype Rule = Rule(kind: Kind, from: string, to: string)

  type App = Vars -> Response

  /** The ordered triples that `rewrite` and `'301'` append to. */
  class RuleSet {
    var rules: seq<Rule>

    constructor ()
      ensures rules == []
    {
      rules := [];
    }

    method Rewrite(from: string, to: string)
      modifies this
      ensures rules == old(rules) + [Rule(Kind.Rewrite, from, to)]
    {
      rules := rules + [Rule(Kind.Rewrite, from, to)];
    }

    /** The DSL method named `'301'`. */
    method Moved301(from: string, to: string)
      modifies this
      ensures rules == old(rules) + [Rule(Kind.Moved301, from, to)]
    {
      rules := rules + [Rule(Kind.Moved301, from, to)];
    }
  }

  /** `rule[1] == env['PATH_INFO']`: a String never equals nil. */
  predicate Selects(rule: Rule, vars: Vars) {
    PathOf(vars) == Some(rule.from)
  }

  /** `find_rule`: the first triple, in insertion order, whose `from` equals PATH_INFO. */
  function FindRule(rules: seq<Rule>, vars: Vars): (r: Option<nat>)
    ensures r.Some? ==> r.value < |rules| && PathInfo in vars && rules[r.value].from == vars[PathInfo]
    ensures r.Some? ==> forall j :: 0 <= j < r.value ==> !(PathInfo in vars && rules[j].from == vars[PathInfo])
    ensures r.None? <==> forall j :: 0 <= j < |rules| ==> !(PathInfo in vars && rules[j].from == vars[PathInfo])
  {
    FirstIndex(rules, (rule: Rule) => Selects(rule, vars))
  }

  /** `apply`: a 301 response, or the application's answer to the environment merged with the new PATH_INFO. */
  function Apply(rule: Rule, vars: Vars, app: App): (r: Response)
    ensures rule.kind.Moved301? ==> r.status == 301 && r.headers == map["Location" := rule.to] && r.body == ["Redirecting..."]
    ensures rule.kind.Rewrite? ==> exists merged: Vars ::
      && r == app(merged)
      && merged.Keys == vars.Keys + {PathInfo} && merged[PathInfo] == rule.to
      && forall k :: k in vars && k != PathInfo ==> merged[k] == vars[k]
  {
    match rule.kind
    case Moved301 => Response(301, map["Location" := rule.to], ["Redirecting..."])
    case Rewrite => app(vars[PathInfo := rule.to])
  }

  /** `call`: the first matching triple's `apply`, or the application's answer to the unchanged environment. */
  function Call(rules: seq<Rule>, app: App, vars: Vars): (r: Response)
    ensures FindRule(rules, vars).None? ==> r == app(vars)
    ensures FindRule(rules, vars).Some? ==> r == Apply(rules[FindRule(rules, vars).value], vars, app)
  {
    match FindRule(rules, vars)
    case Some(i) => Apply(rules[i], vars, app)
    case None => app(vars)
  }

  /** With no matching triple the application sees the environment unchanged. */
  lemma NoMatchPassesThrough(rules: seq<Rule>, app: App, vars: Vars)
    requires forall j :: 0 <= j < |rules| ==> !(PathInfo in vars && rules[j].from == vars[PathInfo])
    ensures Call(rules, app, vars) == app(vars)
  {
  }

  /**
   * A matching 301 triple answers with its Location, and the answer is the
   * same whatever the application: the application is never called.
   */
  lemma RedirectNeverCallsApp(rules: seq<Rule>, app: App, other: App, vars: Vars, i: nat)
    requires i < |rules| && rules[i].kind == Moved301 && PathInfo in vars && rules[i].from == vars[PathInfo]
    requires forall j :: 0 <= j < i ==> rules[j].from != vars[PathInfo]
    ensures Call(rules, app, vars) == Call(rules, other, vars)
    ensures Call(rules, app, vars) == Response(301, map["Location" := rules[i].to], ["Redirecting..."])
  {
    assert FindRule(rules, vars) == Some(i);
  }

  /**
   * A matching rewrite triple calls the application with an environment
   * that differs from the request's only in PATH_INFO.
   */
  lemma RewriteCallsAppWithNewPath(rules: seq<Rule>, app: App, vars: Vars, i: nat)
    requires i < |rules| && rules[i].kind == Rewrite && PathInfo in vars && rules[i].from == vars[PathInfo]
    requires forall j :: 0 <= j < i ==> rules[j].from != vars[PathInfo]
    ensures exists merged: Vars ::
      && Call(rules, app, vars) == app(merged)
      && merged.Keys == vars.Keys && merged[PathInfo] == rules[i].to
      && forall k :: k in vars && k != PathInfo ==> merged[k] == vars[k]
  {
    assert FindRule(rules, vars) == Some(i);
    var merged := vars[PathInfo := rules[i].to];
    assert Call(rules, app, vars) == app(merged);
  }

  /** Once a triple matches, the triples after it are never consulted. */
  lemma FirstMatchWins(rules: seq<Rule>, more: seq<Rule>, app: App, vars: Vars)
    requires FindRule(rules, vars).Some?
    ensures Call(rules + more, app, vars) == Call(rules, app, vars)
  {
    FirstIndexIgnoresSuffix(rules, more, (rule: Rule) => Selects(rule, vars));
  }
}
