/**
 * The earlier rule engine: three DSL calls, matching on PATH_INFO alone,
 * `$n` substitution only (a nil capture makes `gsub!` raise), and a
 * rewrite that sets PATH_INFO and REQUEST_URI to the same target.
 */
module LegacyRule {
  import opened Wrappers
  import opened Text
  import opened Rack
  import opened Substitution

  datatype Kind = Rewrite | R301 | R302 | OtherKind(name: string)

  datatype Rule = Rule(kind: Kind, from: Pattern, to: string)

  /** The ordered rules that `rewrite`, `r301` and `r302` append to. */
  class RuleSet {
    var rules: seq<Rule>

    constructor ()
      ensures rules == []
    {
      rules := [];
    }

    method Rewrite(from: Pattern, to: string)
      modifies this
      ensures rules == old(rules) + [Rule(Kind.Rewrite, from, to)]
    {
      rules := rules + [Rule(Kind.Rewrite, from, to)];
    }

    method R301(from: Pattern, to: string)
      modifies this
      ensures rules == old(rules) + [Rule(Kind.R301, from, to)]
    {
      rules := rules + [Rule(Kind.R301, from, to)];
    }

    method R302(from: Pattern, to: string)
      modifies this
      ensures rules == old(rules) + [Rule(Kind.R302, from, to)]
    {
      rules := rules + [Rule(Kind.R302, from, to)];
    }
  }

  /** `matches?(path)`: a search for a Regexp, equality for a String, false otherwise. */
  predicate Matches(rule: Rule, path: string)
    ensures rule.from.Re? ==> (Matches(rule, path) <==> rule.from.regex.search(path).Some?)
    ensures rule.from.Str? ==> (Matches(rule, path) <==> path == rule.from.text)
    ensures rule.from.OtherPattern? ==> !Matches(rule, path)
  {
    match rule.from
    case Re(r) => r.search(path).Some?
    case Str(s) => path == s
    case OtherPattern => false
  }

  /** A String `from` matches only the identical path. */
  lemma StringFromIsExact(rule: Rule)
    requires rule.from == Str("/features")
    ensures Matches(rule, "/features")
    ensures !Matches(rule, "/features.xml") && !Matches(rule, "/my_features")
  {
  }

  predicate AllParticipated(groups: seq<Option<string>>) {
    forall i :: 0 <= i < |groups| ==> groups[i].Some?
  }

  /** What `interpret_to(path)` yields: the substituted template, `to` itself, or the TypeError of a nil capture. */
  function Interpretation(rule: Rule, path: string): (r: Result<string, Error>)
    ensures r.Failure? <==>
      rule.from.Re? && rule.from.regex.search(path).Some? && !AllParticipated(rule.from.regex.search(path).value.groups)
    ensures r.Failure? ==> r.error == TypeError
    ensures '$' !in rule.to ==> r.Success? ==> r.value == rule.to
  {
    if rule.from.Re? && rule.from.regex.search(path).Some? then
      var m := rule.from.regex.search(path).value;
      if AllParticipated(m.groups) then Success(SubstituteDown(rule.to, m.groups, |m.groups|))
      else Failure(TypeError)
    else Success(rule.to)
  }

  /**
   * `interpret_to`: for a matching Regexp, `$n` is replaced for n from the
   * group count down to 1; `gsub!` raises as soon as it is handed a nil
   * capture.
   */
  method InterpretTo(rule: Rule, path: string) returns (r: Result<string, Error>)
    ensures r == Interpretation(rule, path)
    ensures r.Failure? <==>
      rule.from.Re? && rule.from.regex.search(path).Some? && !AllParticipated(rule.from.regex.search(path).value.groups)
    ensures !(rule.from.Re? && rule.from.regex.search(path).Some?) ==> r == Success(rule.to)
  {
    if rule.from.Re? {
      var found := rule.from.regex.search(path);
      if found.Some? {
        var m := found.value;
        var computed := rule.to;
        var num: nat := |m.groups|;
        while num >= 1
          invariant num <= |m.groups|
          invariant forall i :: num <= i < |m.groups| ==> m.groups[i].Some?
          invariant SubstituteDown(computed, m.groups, num) == SubstituteDown(rule.to, m.groups, |m.groups|)
        {
          if m.groups[num - 1].None? {
            return Failure(TypeError);
          }
          computed := ReplaceAll(computed, Placeholder(num), m.groups[num - 1].value);
          num := num - 1;
        }
        return Success(computed);
      }
    }
    return Success(rule.to);
  }

  /**
   * Without `$&` in the template and with every group present, the earlier
   * substitution and the final one (which handles `$&` first) agree.
   */
  lemma AgreesWithFinalSubstitution(to: string, m: MatchData)
    requires AllParticipated(m.groups)
    requires forall i :: 0 <= i < |to| ==> !StartsAt(to, i, WholePlaceholder)
    ensures SubstituteDown(to, m.groups, |m.groups|) == Substituted(to, m)
  {
    ReplaceAllAbsent(to, WholePlaceholder, m.whole);
  }

  /** What `apply!` does to the environment `vars` and what it returns. */
  function Applied(rule: Rule, vars: Vars): (r: Outcome)
    requires IsRackEnv(vars)
    ensures Interpretation(rule, vars[PathInfo]).Failure? ==> r == Raise(TypeError)
    ensures rule.kind.Rewrite? && Interpretation(rule, vars[PathInfo]).Success? ==>
      var t := Interpretation(rule, vars[PathInfo]).value;
      && r.Continue?
      && r.vars.Keys == vars.Keys + {RequestUri}
      && r.vars[PathInfo] == t && r.vars[RequestUri] == t
      && forall k :: k in vars && k != PathInfo && k != RequestUri ==> r.vars[k] == vars[k]
    ensures (rule.kind.R301? || rule.kind.R302?) && Interpretation(rule, vars[PathInfo]).Success? ==>
      r.Respond? && r.response.status == (if rule.kind.R301? then 301 else 302)
      && r.response.headers == map["Location" := Interpretation(rule, vars[PathInfo]).value]
      && r.response.body == ["Redirecting..."]
    ensures rule.kind.OtherKind? && Interpretation(rule, vars[PathInfo]).Success? ==> r == Raise(NameError("rule"))
  {
    match Interpretation(rule, vars[PathInfo])
    case Failure(e) => Raise(e)
    case Success(t) =>
      match rule.kind
      case R301 => Respond(Response(301, map["Location" := t], ["Redirecting..."]))
      case R302 => Respond(Response(302, map["Location" := t], ["Redirecting..."]))
      case Rewrite => Continue(vars[RequestUri := t][PathInfo := t])
      // The message interpolates `rule.rule_type`, and `rule` is undefined there.
      case OtherKind(_) => Raise(NameError("rule"))
  }

  /** `apply!`: `env` is changed only by a rewrite, which then returns true. */
  method Apply(rule: Rule, env: Env) returns (outcome: Outcome)
    requires IsRackEnv(env.vars)
    modifies env
    ensures outcome == Applied(rule, old(env.vars))
    ensures env.vars == if outcome.Continue? then outcome.vars else old(env.vars)
  {
    var interpreted := InterpretTo(rule, env.vars[PathInfo]);
    if interpreted.Failure? {
      return Raise(interpreted.error);
    }
    var t := interpreted.value;
    match rule.kind
    case R301 =>
      outcome := Respond(Response(301, map["Location" := t], ["Redirecting..."]));
    case R302 =>
      outcome := Respond(Response(302, map["Location" := t], ["Redirecting..."]));
    case Rewrite =>
      env.vars := env.vars[RequestUri := t];
      env.vars := env.vars[PathInfo := t];
      outcome := Continue(env.vars);
    case OtherKind(_) =>
      outcome := Raise(NameError("rule"));
  }
}
