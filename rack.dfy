/**
 * The shapes the rule engine shares with its Rack host: the request
 * environment, the response triple, the regular-expression engine (as an
 * oracle), and what applying a rule can produce.
 */
module Rack {
  import opened Wrappers

  /** A Rack environment hash, restricted to its String-valued entries. */
  type Vars = map<string, string>

  const PathInfo := "PATH_INFO"
  const QueryString := "QUERY_STRING"
  const RequestUri := "REQUEST_URI"

  /** Rack guarantees that every request environment carries a PATH_INFO. */
  predicate IsRackEnv(vars: Vars) {
    PathInfo in vars
  }

  /** `env['PATH_INFO']`, nil when absent. */
  function PathOf(vars: Vars): Option<string> {
    if PathInfo in vars then Some(vars[PathInfo]) else None
  }

  /** The environment hash that `apply!` updates in place. */
  class Env {
    var vars: Vars

    constructor (vars: Vars)
      ensures this.vars == vars
    {
      this.vars := vars;
    }
  }

  /**
   * A successful regular-expression match: the matched text (`m.to_s`) and
   * one entry per capture group, nil for a group that did not participate.
   */
  datatype MatchData = MatchData(whole: string, groups: seq<Option<string>>)

  /** `nil.to_s` is the empty string. */
  function ToS(o: Option<string>): string {
    match o
    case None => ""
    case Some(s) => s
  }

  /** `m[k].to_s` for a group number `k` of the match. */
  function GroupText(m: MatchData, k: nat): string
    requires 1 <= k <= |m.groups|
  {
    ToS(m.groups[k - 1])
  }

  /** A Regexp, known only through `match`: nil, or the leftmost match found in the subject. */
  datatype Regex = Regex(search: string -> Option<MatchData>)

  /** The `from` of a rule: a String, a Regexp, or some other object. */
  datatype Pattern = Str(text: string) | Re(regex: Regex) | OtherPattern

  /** A Rack response: status, headers and body parts. */
  datatype Response = Response(status: int, headers: map<string, string>, body: seq<string>)

  /** The exceptions the rule engine can raise. */
  datatype Error =
    | Unsupported(kind: string)   // "Unsupported rule: ..."
    | NameError(name: string)     // a reference to an undefined local
    | TypeError                   // a nil capture handed to gsub!
    | FileError(path: string)     // File.size or File.read on a missing file

  /**
   * What `apply!` does: return a response that ends the request, return
   * true after rewriting the environment to `vars`, or raise.
   */
  datatype Outcome = Respond(response: Response) | Continue(vars: Vars) | Raise(error: Error)
}
