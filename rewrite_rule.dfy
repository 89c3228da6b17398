/**
 * The rule engine of Rack::Rewrite in its final form: a RuleSet built by
 * five DSL calls, and Rules that match a request (a guard, then the path
 * rebuilt from PATH_INFO and QUERY_STRING against a String or a Regexp)
 * and apply to it (a redirect, an in-place rewrite of the environment, or
 * a file response).
 */
module RewriteRule {
  import opened Wrappers
  import opened Text
  import opened Rack
  import opened Substitution

  datatype Kind = Rewrite | R301 | R302 | SendFile | XSendFile | OtherKind(name: string)

  /** A Proc `to` is called with the MatchData (or nil) of a Regexp `from`, and otherwise with `from` itself. */
  datatype ProcArgument = MatchResult(result: Option<MatchData>) | FromValue(from: Pattern)

  /** The `to` of a rule: a template string or a Proc computing the target. */
  datatype Target = Template(text: string) | Proc(call: (ProcArgument, Vars) -> string)

  /** The `:if` option: a Proc called with the environment, which may veto the rule. */
  type Guard = Vars -> bool

  datatype Rule = Rule(kind: Kind, from: Pattern, to: Target, guard: Option<Guard>)

  /** One trailing argument of a DSL call: an options Hash (with its `:if` entry, nil if absent), or anything else. */
  datatype Argument = OptionsHash(ifOption: Option<Guard>) | OtherArgument

  /** `options = args.last.is_a?(Hash) ? args.last : {}`, then `options[:if]`. */
  function GuardOption(args: seq<Argument>): (g: Option<Guard>)
    ensures (args == [] || !args[|args| - 1].OptionsHash?) ==> g.None?
    ensures args != [] && args[|args| - 1].OptionsHash? ==> g == args[|args| - 1].ifOption
  {
    if args != [] && args[|args| - 1].OptionsHash? then args[|args| - 1].ifOption else None
  }

  /** The ordered rules that the DSL calls append to. */
  class RuleSet {
    var rules: seq<Rule>

    constructor ()
      ensures rules == []
    {
      rules := [];
    }

    method Rewrite(from: Pattern, to: Target, args: seq<Argument>)
      modifies this
      ensures rules == old(rules) + [Rule(Kind.Rewrite, from, to, GuardOption(args))]
    {
      rules := rules + [Rule(Kind.Rewrite, from, to, GuardOption(args))];
    }

    method R301(from: Pattern, to: Target, args: seq<Argument>)
      modifies this
      ensures rules == old(rules) + [Rule(Kind.R301, from, to, GuardOption(args))]
    {
      rules := rules + [Rule(Kind.R301, from, to, GuardOption(args))];
    }

    method R302(from: Pattern, to: Target, args: seq<Argument>)
      modifies this
      ensures rules == old(rules) + [Rule(Kind.R302, from, to, GuardOption(args))]
    {
      rules := rules + [Rule(Kind.R302, from, to, GuardOption(args))];
    }

    method SendFile(from: Pattern, to: Target, args: seq<Argument>)
      modifies this
      ensures rules == old(rules) + [Rule(Kind.SendFile, from, to, GuardOption(args))]
    {
      rules := rules + [Rule(Kind.SendFile, from, to, GuardOption(args))];
    }

    method XSendFile(from: Pattern, to: Target, args: seq<Argument>)
      modifies this
      ensures rules == old(rules) + [Rule(Kind.XSendFile, from, to, GuardOption(args))]
    {
      rules := rules + [Rule(Kind.XSendFile, from, to, GuardOption(args))];
    }
  }

  /** The URL without domain: PATH_INFO, followed by `?` and QUERY_STRING when that is present and not empty. */
  function BuildPath(vars: Vars): (p: string)
    requires IsRackEnv(vars)
    ensures |vars[PathInfo]| <= |p| && p[..|vars[PathInfo]|] == vars[PathInfo]
    ensures p == vars[PathInfo] <==> QueryString !in vars || vars[QueryString] == ""
    ensures p != vars[PathInfo] ==> p[|vars[PathInfo]|] == '?' && p[|vars[PathInfo]| + 1..] == vars[QueryString]
  {
    var path := vars[PathInfo];
    if QueryString !in vars || vars[QueryString] == "" then path else path + "?" + vars[QueryString]
  }

  predicate GuardAllows(rule: Rule, vars: Vars) {
    rule.guard.None? || rule.guard.value(vars)
  }

  /** `matches?`: the guard first, then the `from` pattern against the rebuilt path. */
  predicate Matches(rule: Rule, vars: Vars)
    requires IsRackEnv(vars)
    ensures Matches(rule, vars) ==> GuardAllows(rule, vars)
    ensures rule.from.Str? ==> (Matches(rule, vars) <==> GuardAllows(rule, vars) && BuildPath(vars) == rule.from.text)
    ensures rule.from.Re? ==> (Matches(rule, vars) <==> GuardAllows(rule, vars) && rule.from.regex.search(BuildPath(vars)).Some?)
    ensures rule.from.OtherPattern? ==> !Matches(rule, vars)
  {
    if !GuardAllows(rule, vars) then false
    else match rule.from
      case Re(r) => r.search(BuildPath(vars)).Some?
      case Str(s) => BuildPath(vars) == s
      case OtherPattern => false
  }

  /**
   * A String `from` without `?` never matches a request that carries a
   * non-empty query string: the rebuilt path then contains `?`.
   */
  lemma QueryStringDefeatsStringRule(rule: Rule, vars: Vars)
    requires IsRackEnv(vars) && rule.from.Str? && '?' !in rule.from.text
    requires QueryString in vars && vars[QueryString] != ""
    ensures !Matches(rule, vars)
  {
    var p := BuildPath(vars);
    assert p[|vars[PathInfo]|] == '?';
  }

  /** What `interpret_to_proc` hands the Proc: the match (or nil) of a Regexp `from`, and otherwise `from` itself. */
  function ProcArgumentFor(rule: Rule, path: string): (a: ProcArgument)
    ensures a.MatchResult? <==> rule.from.Re?
    ensures a.MatchResult? ==> a.result == rule.from.regex.search(path)
    ensures a.FromValue? ==> a.from == rule.from
  {
    if rule.from.Re? then MatchResult(rule.from.regex.search(path)) else FromValue(rule.from)
  }

  /** `compute_to?`: the `from` is a Regexp and it matches the path. */
  predicate ComputesTo(rule: Rule, path: string)
    ensures ComputesTo(rule, path) <==> ProcArgumentFor(rule, path).MatchResult? && ProcArgumentFor(rule, path).result.Some?
    ensures rule.from.Str? ==> !ComputesTo(rule, path)
  {
    rule.from.Re? && rule.from.regex.search(path).Some?
  }

  /** A rule that matched with a Regexp `from` always computes its template from the match. */
  lemma MatchedRegexComputes(rule: Rule, vars: Vars)
    requires IsRackEnv(vars) && rule.from.Re? && Matches(rule, vars)
    ensures ComputesTo(rule, BuildPath(vars))
  {
  }

  /** The target `interpret_to` yields for a request. */
  function Interpretation(rule: Rule, vars: Vars): (t: string)
    requires IsRackEnv(vars)
    ensures rule.to.Proc? ==> t == rule.to.call(ProcArgumentFor(rule, BuildPath(vars)), vars)
    ensures rule.to.Template? && !ComputesTo(rule, BuildPath(vars)) ==> t == rule.to.text
    ensures rule.to.Template? && '$' !in rule.to.text ==> t == rule.to.text
    ensures rule.to.Template? && ComputesTo(rule, BuildPath(vars)) ==>
      t == Substituted(rule.to.text, rule.from.regex.search(BuildPath(vars)).value)
  {
    var path := BuildPath(vars);
    match rule.to
    case Proc(f) => f(ProcArgumentFor(rule, path), vars)
    case Template(to) => if ComputesTo(rule, path) then Substituted(to, rule.from.regex.search(path).value) else to
  }

  /** `computed_to`: `$&` first, then `$n` for n from the group count down to 1. */
  method ComputedTo(to: string, m: MatchData) returns (r: string)
    ensures r == Substituted(to, m)
  {
    r := ReplaceAll(to, WholePlaceholder, m.whole);
    var num: nat := |m.groups|;
    while num >= 1
      invariant num <= |m.groups|
      invariant SubstituteDown(r, m.groups, num) == Substituted(to, m)
    {
      r := ReplaceAll(r, Placeholder(num), GroupText(m, num));
      num := num - 1;
    }
  }

  /** `interpret_to`: a Proc decides the target; otherwise the template, substituted when the Regexp matched. */
  method InterpretTo(rule: Rule, vars: Vars) returns (t: string)
    requires IsRackEnv(vars)
    ensures t == Interpretation(rule, vars)
    ensures rule.to.Proc? ==> t == rule.to.call(ProcArgumentFor(rule, BuildPath(vars)), vars)
    ensures rule.to.Template? && !ComputesTo(rule, BuildPath(vars)) ==> t == rule.to.text
    ensures rule.to.Template? && '$' !in rule.to.text ==> t == rule.to.text
  {
    var path := BuildPath(vars);
    match rule.to
    case Proc(f) =>
      t := f(ProcArgumentFor(rule, path), vars);
    case Template(to) =>
      if ComputesTo(rule, path) {
        var m := rule.from.regex.search(path).value;
        t := ComputedTo(to, m);
      } else {
        t := to;
      }
  }

  /** The new PATH_INFO of a rewrite to `t`: everything before the first `?`, as `t[0..q_index-1]` slices it. */
  function RewrittenPath(t: string): (p: string)
    ensures |p| <= |t| && p == t[..|p|]
    ensures '?' !in t ==> p == t
  {
    match IndexOf(t, '?')
    case Some(q) => RangeSlice(t, 0, q as int - 1)
    case None => t
  }

  /** The new QUERY_STRING of a rewrite to `t`: everything after the first `?`, or empty. */
  function RewrittenQuery(t: string): (q: string)
    ensures |q| <= |t| && q == t[|t| - |q|..]
    ensures '?' !in t ==> q == ""
    ensures '?' in t ==> |q| < |t|
  {
    match IndexOf(t, '?')
    case Some(q) => RangeSlice(t, q + 1, |t| - 1)
    case None => ""
  }

  /**
   * The environment after a rewrite to `t`: REQUEST_URI is `t`, and `t` is
   * split at its first `?` into PATH_INFO and QUERY_STRING; nothing else
   * changes. A `?` at index 0 leaves PATH_INFO equal to all of `t`.
   */
  function RewrittenVars(vars: Vars, t: string): (r: Vars)
    ensures r.Keys == vars.Keys + {RequestUri, PathInfo, QueryString}
    ensures forall k :: k in vars && k != RequestUri && k != PathInfo && k != QueryString ==> r[k] == vars[k]
    ensures r[RequestUri] == t
    ensures '?' !in t ==> r[PathInfo] == t && r[QueryString] == ""
    ensures '?' in t && t[0] != '?' ==>
      '?' !in r[PathInfo] && r[PathInfo] != "" && r[PathInfo] + "?" + r[QueryString] == t
    ensures t != [] && t[0] == '?' ==> r[PathInfo] == t && r[QueryString] == t[1..]
  {
    RewrittenSplit(t);
    vars[RequestUri := t][PathInfo := RewrittenPath(t)][QueryString := RewrittenQuery(t)]
  }

  lemma RewrittenSplit(t: string)
    ensures '?' !in t ==> RewrittenPath(t) == t && RewrittenQuery(t) == ""
    ensures '?' in t && t[0] != '?' ==>
      '?' !in RewrittenPath(t) && RewrittenPath(t) != "" && RewrittenPath(t) + "?" + RewrittenQuery(t) == t
    ensures t != [] && t[0] == '?' ==> RewrittenPath(t) == t && RewrittenQuery(t) == t[1..]
  {
    var q := IndexOf(t, '?');
    if q.Some? {
      RewrittenQueryAt(t, q.value);
      if q.value > 0 {
        RewrittenPathAt(t, q.value);
        SplitAround(t, q.value);
      }
    }
  }

  /**
   * After a rewrite the rebuilt path is the target itself, unless the
   * target starts with `?` or its first `?` is its last character.
   */
  lemma RewriteThenBuildPath(vars: Vars, t: string)
    requires IndexOf(t, '?').None? || 0 < IndexOf(t, '?').value < |t| - 1
    ensures BuildPath(RewrittenVars(vars, t)) == t
  {
    RewrittenFields(vars, t);
    if IndexOf(t, '?').Some? {
      SplitAtFirstQuestionMark(t);
    }
  }

  lemma RewrittenFields(vars: Vars, t: string)
    ensures IsRackEnv(RewrittenVars(vars, t)) && QueryString in RewrittenVars(vars, t)
    ensures RewrittenVars(vars, t)[PathInfo] == RewrittenPath(t)
    ensures RewrittenVars(vars, t)[QueryString] == RewrittenQuery(t)
  {
  }

  lemma SplitAtFirstQuestionMark(t: string)
    requires IndexOf(t, '?').Some? && 0 < IndexOf(t, '?').value < |t| - 1
    ensures RewrittenQuery(t) != ""
    ensures RewrittenPath(t) + "?" + RewrittenQuery(t) == t
  {
    var q := IndexOf(t, '?').value;
    RewrittenPathAt(t, q);
    RewrittenQueryAt(t, q);
    SplitAround(t, q);
  }

  lemma RewrittenPathAt(t: string, q: nat)
    requires IndexOf(t, '?') == Some(q) && 0 < q
    ensures RewrittenPath(t) == t[..q]
  {
  }

  lemma RewrittenQueryAt(t: string, q: nat)
    requires IndexOf(t, '?') == Some(q)
    ensures RewrittenQuery(t) == t[q + 1..]
  {
  }

  /**
   * Conversely, rewriting to the rebuilt path of an environment whose
   * PATH_INFO holds no `?` (and is not empty when a query is present)
   * gives back its PATH_INFO and QUERY_STRING.
   */
  lemma BuildPathThenRewrite(vars: Vars)
    requires IsRackEnv(vars) && '?' !in vars[PathInfo]
    requires QueryString in vars && vars[QueryString] != "" ==> vars[PathInfo] != ""
    ensures RewrittenVars(vars, BuildPath(vars))[PathInfo] == vars[PathInfo]
    ensures RewrittenVars(vars, BuildPath(vars))[QueryString]
         == if QueryString in vars then vars[QueryString] else ""
  {
    var p, path := BuildPath(vars), vars[PathInfo];
    if QueryString in vars && vars[QueryString] != "" {
      assert p == path + "?" + vars[QueryString];
      assert p[|path|] == '?';
      assert IndexOf(p, '?') == Some(|path|) by {
        assert p[..|path|] == path;
      }
      assert p[|path| + 1..] == vars[QueryString];
    }
  }

  /** `redirect_message`: the body of a redirect to `location`. */
  function RedirectMessage(location: string): (msg: string)
    ensures |msg| == 2 * |location| + 30
    ensures msg[24..24 + |location|] == location
    ensures msg[26 + |location|..26 + 2 * |location|] == location
    ensures msg[..24] == "Redirecting to <a href=\"" && msg[24 + |location|..26 + |location|] == "\">"
    ensures msg[26 + 2 * |location|..] == "</a>"
  {
    "Redirecting to <a href=\"" + location + "\">" + location + "</a>"
  }

  /**
   * The file system and MIME table, known only through these queries:
   * `File.size`, `File.read` (nil when the file cannot be read) and
   * `Rack::Mime.mime_type(File.extname(path))`.
   */
  datatype Host = Host(size: string -> Option<nat>, read: string -> Option<string>, contentType: string -> string)

  function Redirect(status: int, location: string, host: Host): (r: Response)
    ensures r.status == status && r.headers.Keys == {"Location", "Content-Type"}
    ensures r.headers["Location"] == location && r.headers["Content-Type"] == host.contentType(location)
    ensures r.body == [RedirectMessage(location)]
  {
    Response(status, map["Location" := location, "Content-Type" := host.contentType(location)], [RedirectMessage(location)])
  }

  /** What `apply!` does to a request environment `vars`, and what it returns. */
  function Applied(rule: Rule, vars: Vars, host: Host): (r: Outcome)
    requires IsRackEnv(vars)
    ensures rule.kind.Rewrite? ==> r == Continue(RewrittenVars(vars, Interpretation(rule, vars)))
    ensures rule.kind.R301? || rule.kind.R302? ==> r.Respond? && "Location" in r.response.headers && r.response.headers["Location"] == Interpretation(rule, vars)
    ensures rule.kind.R301? ==> r.Respond? && r.response.status == 301
    ensures rule.kind.R302? ==> r.Respond? && r.response.status == 302
    ensures rule.kind.R301? ==> r == Respond(Redirect(301, Interpretation(rule, vars), host))
    ensures rule.kind.R302? ==> r == Respond(Redirect(302, Interpretation(rule, vars), host))
    ensures rule.kind.SendFile? ==>
      var t := Interpretation(rule, vars);
      if host.size(t).Some? && host.read(t).Some? then
        && r.Respond? && r.response.status == 200
        && r.response.headers.Keys == {"Content-Length", "Content-Type"}
        && r.response.headers["Content-Length"] == Decimal(host.size(t).value)
        && r.response.headers["Content-Type"] == host.contentType(t)
        && r.response.body == [host.read(t).value]
      else r == Raise(FileError(t))
    ensures rule.kind.XSendFile? ==>
      var t := Interpretation(rule, vars);
      if host.size(t).Some? then
        && r.Respond? && r.response.status == 200
        && r.response.headers.Keys == {"X-Sendfile", "Content-Length", "Content-Type"}
        && r.response.headers["X-Sendfile"] == t
        && r.response.headers["Content-Length"] == Decimal(host.size(t).value)
        && r.response.headers["Content-Type"] == host.contentType(t)
        && r.response.body == []
      else r == Raise(FileError(t))
    ensures rule.kind.OtherKind? ==> r == Raise(Unsupported(rule.kind.name))
    ensures r.Continue? ==> rule.kind.Rewrite?
  {
    var t := Interpretation(rule, vars);
    match rule.kind
    case R301 => Respond(Redirect(301, t, host))
    case R302 => Respond(Redirect(302, t, host))
    case Rewrite => Continue(RewrittenVars(vars, t))
    case SendFile =>
      if host.size(t).Some? && host.read(t).Some? then
        Respond(Response(200, map["Content-Length" := Decimal(host.size(t).value), "Content-Type" := host.contentType(t)],
                         [host.read(t).value]))
      else Raise(FileError(t))
    case XSendFile =>
      if host.size(t).Some? then
        Respond(Response(200, map["X-Sendfile" := t, "Content-Length" := Decimal(host.size(t).value),
                                  "Content-Type" := host.contentType(t)], []))
      else Raise(FileError(t))
    case OtherKind(name) => Raise(Unsupported(name))
  }

  /** The `:rewrite` branch of `apply!`: REQUEST_URI, then PATH_INFO and QUERY_STRING, assigned in place. */
  method RewriteEnv(env: Env, t: string)
    modifies env
    ensures env.vars == RewrittenVars(old(env.vars), t)
  {
    ghost var before := env.vars;
    env.vars := env.vars[RequestUri := t];
    var q := IndexOf(t, '?');
    if q.Some? {
      env.vars := env.vars[PathInfo := RangeSlice(t, 0, q.value as int - 1)];
      env.vars := env.vars[QueryString := RangeSlice(t, q.value + 1, |t| - 1)];
    } else {
      env.vars := env.vars[PathInfo := t];
      env.vars := env.vars[QueryString := ""];
    }
    assert env.vars == before[RequestUri := t][PathInfo := RewrittenPath(t)][QueryString := RewrittenQuery(t)];
  }

  /**
   * `apply!`: returns a response, or rewrites `env` in place and returns
   * true (`Continue`), or raises; `env` changes only in the middle case.
   */
  method Apply(rule: Rule, env: Env, host: Host) returns (outcome: Outcome)
    requires IsRackEnv(env.vars)
    modifies env
    ensures outcome == Applied(rule, old(env.vars), host)
    ensures env.vars == if outcome.Continue? then outcome.vars else old(env.vars)
  {
    var t := InterpretTo(rule, env.vars);
    match rule.kind
    case R301 =>
      outcome := Respond(Redirect(301, t, host));
    case R302 =>
      outcome := Respond(Redirect(302, t, host));
    case Rewrite =>
      RewriteEnv(env, t);
      outcome := Continue(env.vars);
    case SendFile =>
      var size, content := host.size(t), host.read(t);
      if size.Some? && content.Some? {
        outcome := Respond(Response(200, map["Content-Length" := Decimal(size.value), "Content-Type" := host.contentType(t)],
                                    [content.value]));
      } else {
        outcome := Raise(FileError(t));
      }
    case XSendFile =>
      var size := host.size(t);
      if size.Some? {
        outcome := Respond(Response(200, map["X-Sendfile" := t, "Content-Length" := Decimal(size.value),
                                             "Content-Type" := host.contentType(t)], []));
      } else {
        outcome := Raise(FileError(t));
      }
    case OtherKind(name) =>
      outcome := Raise(Unsupported(name));
  }
}
