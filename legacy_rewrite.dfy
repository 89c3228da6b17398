/** The middleware of the earlier engine: the first rule matching PATH_INFO decides the request. */
module LegacyRewrite {
  import opened Wrappers
  import opened Rack
  import opened Search
  import opened LegacyRule

  /** The wrapped Rack application. */
  type App = Vars -> Response

  /** `find_first_matching_rule`: the first rule, in order, that matches `path`. */
  function FirstMatchingRule(rules: seq<Rule>, path: string): (r: Option<nat>)
    ensures r.None? <==> forall i :: 0 <= i < |rules| ==> !Matches(rules[i], path)
    ensures r.Some? ==> r.value < |rules| && Matches(rules[r.value], path)
    ensures r.Some? ==> forall j :: 0 <= j < r.value ==> !Matches(rules[j], path)
  {
    FirstIndex(rules, (rule: Rule) => Matches(rule, path))
  }

  /** The first rule matching PATH_INFO; `matches?(nil)` is false for every rule, so none is found without PATH_INFO. */
  function Selected(rules: seq<Rule>, vars: Vars): (r: Option<nat>)
    ensures PathInfo !in vars ==> r.None?
    ensures PathInfo in vars ==> r == FirstMatchingRule(rules, vars[PathInfo])
  {
    match PathOf(vars)
    case Some(path) => FirstMatchingRule(rules, path)
    case None => None
  }

  /**
   * `call`: the `apply!` outcome of the first rule that matches PATH_INFO,
   * or the application's response to the unchanged environment.
   */
  function Call(rules: seq<Rule>, app: App, vars: Vars): (r: Outcome)
    ensures PathInfo !in vars ==> r == Respond(app(vars))
    ensures PathInfo in vars && (forall i :: 0 <= i < |rules| ==> !Matches(rules[i], vars[PathInfo])) ==> r == Respond(app(vars))
  {
    match Selected(rules, vars)
    case Some(i) => Applied(rules[i], vars)
    case None => Respond(app(vars))
  }

  /** When rule `i` is the first to match PATH_INFO, `call` is that rule's `apply!`. */
  lemma CallAppliesFirstMatch(rules: seq<Rule>, app: App, vars: Vars, i: nat)
    requires IsRackEnv(vars) && i < |rules| && Matches(rules[i], vars[PathInfo])
    requires forall j :: 0 <= j < i ==> !Matches(rules[j], vars[PathInfo])
    ensures Call(rules, app, vars) == Applied(rules[i], vars)
  {
    var k := FirstMatchingRule(rules, vars[PathInfo]);
    assert k.Some?;
    assert !(k.value < i) && !(i < k.value);
  }

  /** Once a rule matches, the rules after it are never consulted. */
  lemma LaterRulesNeverConsulted(rules: seq<Rule>, more: seq<Rule>, app: App, vars: Vars)
    requires IsRackEnv(vars)
    requires exists i :: 0 <= i < |rules| && Matches(rules[i], vars[PathInfo])
    ensures Call(rules + more, app, vars) == Call(rules, app, vars)
  {
    FirstIndexIgnoresSuffix(rules, more, (rule: Rule) => Matches(rule, vars[PathInfo]));
  }

  /** With no rule block the rule set is empty, and every request goes to the application unchanged. */
  lemma NoRulesPassThrough(app: App, vars: Vars)
    ensures Call([], app, vars) == Respond(app(vars))
  {
  }

  /** Rule selection reads PATH_INFO only: changing the query string selects the same rule. */
  lemma QueryStringPlaysNoPart(rules: seq<Rule>, vars: Vars, query: string)
    ensures Selected(rules, vars[QueryString := query]) == Selected(rules, vars)
  {
  }
}
