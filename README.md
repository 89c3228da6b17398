# Rack::Rewrite rule engine in Dafny

Rack::Rewrite is a Rack middleware that rewrites or redirects requests by
URL. A rule set is built by a small DSL (`rewrite`, `r301`, `r302`,
`send_file`, `x_send_file`). Each rule has a kind, a `from` pattern (a
String or a Regexp), a `to` target (a template string or a Proc) and, in
the final version, an optional `:if` guard. A rule matches a request when
the guard allows it and the request path matches `from`. When a rule
applies, it answers with a redirect or a file, or it rewrites the Rack
environment in place.

The repository holds three successive versions of this engine. The model
covers all three, one module each:

- `RewriteRule` (rewrite_rule.dfy) models the final engine, `lib/rack/rewrite/rule.rb`:
  - the five builders, which append to the rule set;
  - `matches?`, with its guard and the path rebuilt from PATH_INFO and QUERY_STRING;
  - `interpret_to` and `computed_to`;
  - the rewrite split of the target at its first `?`;
  - the redirect and file responses of `apply!`.
- `Substitution` (substitution.dfy) is the capture substitution of `computed_to`:
  - `$&` first, then `$n` from the highest group down to 1;
  - each step is a replace-all over the current string.

  Its main theorem says what that sequence of replacements produces for a template made of literal text and placeholders.
- `LegacyRule` (legacy_rule.dfy) and `LegacyRewrite` (legacy_rewrite.dfy) model the earlier engine, `lib/rack-rewrite/rule.rb` and `lib/rack-rewrite.rb`:
  - matching on PATH_INFO alone;
  - `$n` substitution only, where a nil capture raises;
  - a rewrite that sets PATH_INFO and REQUEST_URI to the same target;
  - first-match dispatch.
- `EarliestRewrite` (earliest_rewrite.dfy) models `rack_rewrite.rb`:
  - rules are `[kind, from, to]` triples;
  - a rule is found by exact comparison with PATH_INFO;
  - a 301 rule answers at once;
  - a rewrite rule calls the application with a merged environment.
- `RewriteScenarios` (rewrite_scenarios.dfy) works through one request of the final engine end to end.
- The support modules are:
  - `Rack` (rack.dfy): the environment, match data, responses and outcomes;
  - `Text` (text.dfy): `gsub!` with a String pattern, `index`, integer formatting and Ruby's inclusive range slice;
  - `Search` (search.dfy): `Enumerable#detect`;
  - `Wrappers` (wrappers.dfy): `Option` and `Result`.

Modelling choices:

- The Rack environment is a `map<string, string>`. `apply!` changes it in place, so it lives in the class `Rack.Env`. Each `apply!` is a method `Apply` that is proved equal to a specification function `Applied`.
- The rule sets are classes whose builder methods append to a `seq` field.
- The regular-expression engine is an oracle: a `Regex` is any function from a subject string to nil or a `MatchData`.
- Guards, Proc targets and the application are function values.
- The file system and the MIME table are `Host` queries.

## Model

| member | source | states |
|---|---|---|
| RewriteRule.GuardOption | lib/rack/rewrite/rule.rb:23-24 | the guard is the `:if` entry of a trailing Hash argument, and nil when the last argument is not a Hash |
| RewriteRule.RuleSet.constructor | lib/rack/rewrite/rule.rb:7-9 | a new rule set is empty |
| RewriteRule.RuleSet.Rewrite | lib/rack/rewrite/rule.rb:22-25 | appends exactly one `rewrite` rule with the given from, to and guard; earlier rules are unchanged |
| RewriteRule.RuleSet.R301 | lib/rack/rewrite/rule.rb:31-34 | appends exactly one `r301` rule; earlier rules are unchanged |
| RewriteRule.RuleSet.R302 | lib/rack/rewrite/rule.rb:40-43 | appends exactly one `r302` rule; earlier rules are unchanged |
| RewriteRule.RuleSet.SendFile | lib/rack/rewrite/rule.rb:49-52 | appends exactly one `send_file` rule; earlier rules are unchanged |
| RewriteRule.RuleSet.XSendFile | lib/rack/rewrite/rule.rb:59-62 | appends exactly one `x_send_file` rule; earlier rules are unchanged |
| RewriteRule.BuildPath | lib/rack/rewrite/rule.rb:157-161 | the rebuilt path starts with PATH_INFO; it equals PATH_INFO exactly when QUERY_STRING is absent or empty; otherwise it continues with `?` and then QUERY_STRING |
| RewriteRule.Matches | lib/rack/rewrite/rule.rb:72-82 | a guard returning false vetoes the rule; a String matches iff it equals the rebuilt path; a Regexp matches iff it finds a match in the rebuilt path; any other `from` never matches |
| RewriteRule.QueryStringDefeatsStringRule | lib/rack/rewrite/rule.rb:74-78 | a String `from` without `?` never matches a request that carries a non-empty query string |
| RewriteRule.ProcArgumentFor | lib/rack/rewrite/rule.rb:133-136 | a Proc receives the match (MatchData or nil) exactly when `from` is a Regexp, and `from` itself otherwise |
| RewriteRule.ComputesTo | lib/rack/rewrite/rule.rb:138-140 | `compute_to?` holds exactly when the Proc argument would be a non-nil match; a String `from` never computes |
| RewriteRule.MatchedRegexComputes | lib/rack/rewrite/rule.rb:72-82 | once a rule with a Regexp `from` has matched a request, `compute_to?` holds on the same rebuilt path, so its template is always substituted |
| RewriteRule.Interpretation | lib/rack/rewrite/rule.rb:121-126 | a Proc target gives whatever the Proc returns for its argument; a template is substituted from the match when `compute_to?` holds and is returned as it is otherwise, and always when it holds no `$` |
| RewriteRule.ComputedTo | lib/rack/rewrite/rule.rb:146-154 | the `$&` pass and then the `downto` loop of per-group passes compute exactly `Substituted(to, m)` |
| RewriteRule.InterpretTo | lib/rack/rewrite/rule.rb:121-140 | a Proc target is called with the MatchData (for a Regexp `from`) or with `from` itself; a template comes back unchanged when `from` is no matching Regexp, and also when it holds no `$` |
| RewriteRule.RewrittenPath | lib/rack/rewrite/rule.rb:96-97 | the new PATH_INFO is a prefix of the target, and all of it when the target holds no `?` |
| RewriteRule.RewrittenQuery | lib/rack/rewrite/rule.rb:96-101 | the new QUERY_STRING is a suffix of the target, strictly shorter than it when the target holds a `?`, and empty when it holds none |
| RewriteRule.RewrittenVars | lib/rack/rewrite/rule.rb:95-102 | the environment after a rewrite to `t`: REQUEST_URI is `t`, and nothing but the three keys changes; without `?`, PATH_INFO is `t` and QUERY_STRING is empty; when the first `?` is not at index 0, PATH_INFO holds no `?`, is not empty, and PATH_INFO + `?` + QUERY_STRING is `t`; a leading `?` leaves PATH_INFO equal to all of `t` |
| RewriteRule.RewrittenSplit | lib/rack/rewrite/rule.rb:96-101 | the split of a target at its first `?`: without `?` the path is the whole target and the query is empty; with a first `?` after index 0, the path holds no `?` and path + `?` + query is the target; with a leading `?` the path is the whole target and the query is the rest |
| RewriteRule.RewriteEnv | lib/rack/rewrite/rule.rb:93-103 | the in-place assignments of the `:rewrite` branch leave exactly the environment `RewrittenVars` describes |
| RewriteRule.RewriteThenBuildPath | lib/rack/rewrite/rule.rb:93-103 | after a rewrite to `t`, the path rebuilt from the environment is `t` again, unless `t` starts with `?` or ends at its first `?` |
| RewriteRule.BuildPathThenRewrite | lib/rack/rewrite/rule.rb:93-103 | rewriting to a request's own rebuilt path gives back its PATH_INFO and QUERY_STRING, when PATH_INFO holds no `?` and is not empty whenever a non-empty QUERY_STRING is present (an empty PATH_INFO with query `a` rebuilds to `?a`, whose leading `?` the rewrite keeps in PATH_INFO) |
| RewriteRule.RedirectMessage | lib/rack/rewrite/rule.rb:163-165 | the message is `Redirecting to <a href="`, the location, `">`, the location again and `</a>`: the location is both the link's `href` and its text |
| RewriteRule.Redirect | lib/rack/rewrite/rule.rb:89-92 | a redirect carries the given status, exactly the headers `Location` (the target) and `Content-Type` (the MIME type of the target), and the body `redirect_message(target)` |
| RewriteRule.Applied | lib/rack/rewrite/rule.rb:86-118 | `r301` and `r302` answer exactly `Redirect` with status 301 or 302 and the interpreted target, so Location, Content-Type and the `Redirecting to ...` body are those of the redirect; `rewrite` continues with the split environment; `send_file` answers 200 with exactly `Content-Length` and `Content-Type` and the file's content as body, `x_send_file` answers 200 with exactly `X-Sendfile` (the target), `Content-Length` and `Content-Type` and an empty body, and a file error is raised by `send_file` when the file cannot be sized or read, and by `x_send_file` when it cannot be sized; an unknown kind raises "Unsupported rule"; only a rewrite continues |
| RewriteRule.Apply | lib/rack/rewrite/rule.rb:86-118 | the in-place `apply!` returns what `Applied` returns, and changes `env` to the rewritten environment exactly when it continues |
| Text.ReplaceAll | lib/rack/rewrite/rule.rb:149-151 | `gsub!` with a String pattern; replacing a pattern by itself leaves the string unchanged (its partners ReplaceAllHit, ReplaceAllSkip and ReplaceAllAbsent give the scan step by step) |
| Substitution.SubstituteDown | lib/rack/rewrite/rule.rb:150-152 | the `downto` passes for groups `n` down to 1; a text without `$` comes out of all of them unchanged |
| Substitution.Substituted | lib/rack/rewrite/rule.rb:146-153 | the `$&` pass followed by the `downto` passes; a template without `$` comes out unchanged (SubstitutionResolvesPlaceholders says what it makes of any resolvable template) |
| Substitution.Placeholder | lib/rack/rewrite/rule.rb:151 | `"$#{num}"` is `$` followed by one or more decimal digits |
| Substitution.SubstitutionResolvesPlaceholders | lib/rack/rewrite/rule.rb:148-152 | for a template of literal text, `$&` and `$k` tokens, substitution yields each token's value in place (matched text, group text, or `""` for a group that did not participate), provided that no piece contains `$` and the text that the tokens after a group placeholder stand for does not start with a digit; that text may be empty, as for an empty or absent group or the end of the template |
| Substitution.EmptyCaptureAfterGroup | test/rule_test.rb:94-97 | with an empty second capture, `/people/$1$2` becomes `/people/1`: a group placeholder followed by an empty group is resolved |
| Substitution.InsertedTextIsSubstitutedAgain | lib/rack/rewrite/rule.rb:150-152 | text put in place by a higher group is searched again by the later passes: group 2's `$1` becomes group 1's text |
| Substitution.CountdownResolvable | lib/rack/rewrite/rule.rb:150-152 | the template `$n...$1` is resolvable whenever no group text contains `$` or starts with a digit; empty groups are allowed |
| Substitution.TenGroupsReversed | test/rule_test.rb:99-103 | with ten groups `a` to `j`, `$10$9$8$7$6$5$4$3$2$1` becomes `jihgfedcba`: `$10` is replaced as group 10 before `$1` can take its prefix |
| Text.ReplaceAllSkip | lib/rack/rewrite/rule.rb:149 | `gsub!` copies unchanged a prefix in which no occurrence of the pattern starts |
| Text.ReplaceAllHit | lib/rack/rewrite/rule.rb:149 | `gsub!` replaces an occurrence at the start and continues after it |
| Text.IndexOf | lib/rack/rewrite/rule.rb:96 | `index('?')` is nil iff there is no `?`; otherwise it is the position of the first `?` |
| Text.IndexOfAt | lib/rack/rewrite/rule.rb:96 | a `?` at position `i` with none before it is the position `index('?')` returns |
| Text.RangeSlice | lib/rack/rewrite/rule.rb:97-98 | Ruby's inclusive `s[first..last]`, where `last` = -1 means up to the end |
| Text.Decimal | lib/rack/rewrite/rule.rb:106 | `Integer#to_s`, used for `Content-Length` and for the digits of `"$#{num}"`: a non-empty string of decimal digits; its partners DecimalInjective and DecimalLengthMonotone say that distinct numbers get distinct forms and larger numbers no shorter ones |
| Text.DecimalInjective | lib/rack/rewrite/rule.rb:151 | different group numbers give different placeholders |
| RewriteScenarios.BioTemplateFilledIn | test/rule_test.rb:28 | `/$1?bio=$2` with groups `john` and `1` becomes `/john?bio=1` |
| RewriteScenarios.RewriteChangesQueryString | test/rule_test.rb:27-34 | a rewrite matched against `/john?show_bio=1` leaves PATH_INFO `/john`, QUERY_STRING `bio=1` and REQUEST_URI `/john?bio=1` |
| LegacyRule.RuleSet.constructor | lib/rack-rewrite/rule.rb:7-9 | a new rule set is empty |
| LegacyRule.RuleSet.Rewrite | lib/rack-rewrite/rule.rb:14-18 | appends exactly one `Rule(:rewrite, from, to)`; earlier rules are unchanged |
| LegacyRule.RuleSet.R301 | lib/rack-rewrite/rule.rb:14-18 | appends exactly one `Rule(:r301, from, to)`; earlier rules are unchanged |
| LegacyRule.RuleSet.R302 | lib/rack-rewrite/rule.rb:14-18 | appends exactly one `Rule(:r302, from, to)`; earlier rules are unchanged |
| LegacyRule.Matches | lib/rack-rewrite/rule.rb:28-37 | a Regexp matches iff it finds a match in the path; a String matches iff it equals the path; anything else never matches |
| LegacyRule.StringFromIsExact | test/rule_test.rb:38-53 | `/features` matches `/features` but neither `/features.xml` nor `/my_features` |
| LegacyRule.Interpretation | lib/rack-rewrite/rule.rb:59-70 | the earlier `interpret_to`: TypeError exactly when a matching Regexp left some group nil, and otherwise a success, which is `to` itself when it holds no `$` |
| LegacyRule.InterpretTo | lib/rack-rewrite/rule.rb:59-70 | with a matching Regexp, `$n` is replaced from the group count down to 1; this raises TypeError exactly when some group did not participate; otherwise `to` comes back unchanged |
| LegacyRule.AgreesWithFinalSubstitution | lib/rack-rewrite/rule.rb:62-65 | without `$&` in the template and with every group present, the earlier substitution equals the final one |
| LegacyRule.Applied | lib/rack-rewrite/rule.rb:41-55 | a rewrite sets PATH_INFO and REQUEST_URI to the target, adds no other key and changes nothing else, so QUERY_STRING is kept; `r301` and `r302` answer with exactly the Location header and `Redirecting...`; another kind raises NameError for the undefined `rule`; a nil capture raises TypeError |
| LegacyRule.Apply | lib/rack-rewrite/rule.rb:41-55 | the in-place `apply!` returns what `Applied` returns and changes `env` only on a rewrite |
| LegacyRewrite.FirstMatchingRule | lib/rack-rewrite.rb:23-25 | the index of the first rule matching the path, with no earlier rule matching; none iff no rule matches |
| LegacyRewrite.Selected | lib/rack-rewrite.rb:24 | without PATH_INFO no rule is selected; otherwise the first rule matching PATH_INFO is |
| LegacyRewrite.Call | lib/rack-rewrite.rb:13-19 | the application's response to the unchanged environment when no rule matches PATH_INFO, or when PATH_INFO is absent |
| LegacyRewrite.CallAppliesFirstMatch | lib/rack-rewrite.rb:13-15 | when rule `i` is the first rule matching PATH_INFO, `call` returns the outcome of that rule's `apply!` |
| LegacyRewrite.LaterRulesNeverConsulted | lib/rack-rewrite.rb:24 | once a rule matches, appending further rules does not change the outcome |
| LegacyRewrite.NoRulesPassThrough | lib/rack-rewrite.rb:7-18 | with an empty rule set every request goes to the application unchanged |
| LegacyRewrite.QueryStringPlaysNoPart | lib/rack-rewrite.rb:24 | for every environment, setting QUERY_STRING to any value selects the same rule as before |
| Search.FirstIndex | lib/rack-rewrite.rb:24 | `detect`: the first index whose element satisfies the predicate, with every earlier one failing; none iff none satisfies it |
| Search.FirstIndexIgnoresSuffix | lib/rack-rewrite.rb:24 | elements after the first hit are never consulted |
| EarliestRewrite.RuleSet.constructor | rack_rewrite.rb:35-37 | a new rule set is empty |
| EarliestRewrite.RuleSet.Rewrite | rack_rewrite.rb:42-45 | appends exactly the triple `[:rewrite, from, to]`; earlier triples are unchanged |
| EarliestRewrite.RuleSet.Moved301 | rack_rewrite.rb:48-50 | appends exactly the triple `[:'301', from, to]`; earlier triples are unchanged |
| EarliestRewrite.FindRule | rack_rewrite.rb:27-30 | the first triple, in insertion order, whose `from` equals PATH_INFO; none iff no `from` equals it, and none when PATH_INFO is absent |
| EarliestRewrite.Apply | rack_rewrite.rb:18-25 | a 301 triple answers exactly `[301, {Location => to}, ['Redirecting...']]`; a rewrite triple answers what the application answers for an environment with the request's other entries and PATH_INFO set to `to` |
| EarliestRewrite.Call | rack_rewrite.rb:9-15 | with no triple found the application gets the environment unchanged; otherwise the found triple's `apply` is the answer |
| EarliestRewrite.NoMatchPassesThrough | rack_rewrite.rb:9-14 | with no matching triple, the application gets the environment unchanged |
| EarliestRewrite.RedirectNeverCallsApp | rack_rewrite.rb:20-21 | a matching 301 triple answers `[301, {Location => to}, ['Redirecting...']]`, whatever the application is |
| EarliestRewrite.RewriteCallsAppWithNewPath | rack_rewrite.rb:22-23 | a matching rewrite triple calls the application with an environment that has the same keys and the same values except PATH_INFO, which is `to` |
| EarliestRewrite.FirstMatchWins | rack_rewrite.rb:29 | once a triple matches, the triples after it are never consulted |

## Left out

- Substitution.SubstitutionResolvesPlaceholders: its precondition excludes captures or literals containing `$`, and a digit at the start of what follows a group placeholder (an empty follower is allowed). `Substituted` itself models those cases as the code does (`InsertedTextIsSubstitutedAgain` shows one), but the theorem does not describe their result.
- Text.ReplaceAll: Ruby's `gsub!` reads backslash sequences such as `\1` or `\&` in a String replacement. The model inserts the replacement literally, so captures that contain `\` are not modelled faithfully.
- The regular-expression engine, including the Oniguruma check at lib/rack/rewrite/rule.rb:128-130, is an oracle. A `Regex` is any function from subject to match data, so the model assumes nothing about regex semantics.
- Proc targets, `:if` guards and the wrapped application are arbitrary function values. Their bodies are user code.
- RewriteRule.Redirect: the `Content-Type` header comes from the `Host.contentType` query. `Rack::Mime.mime_type(File.extname(...))` is a foreign library lookup.
- The `send_file` and `x_send_file` branches use `Host.size` and `Host.read` for `File.size` and `File.read`. A missing or unreadable file is reported as `FileError`; Ruby's exception classes for it are not modelled.
- RewriteRule.Matches, RewriteRule.InterpretTo, RewriteRule.Applied and LegacyRule.Applied require PATH_INFO in the environment, as a Rack environment always has it. In Ruby an environment without PATH_INFO compares nil (and raises when a query string is present). The earlier and earliest dispatchers do model an absent PATH_INFO: no rule is selected.
- LegacyRewrite.Call: `lib/rack-rewrite.rb` calls `apply!(env, @app)`, but `apply!` takes one argument, so Ruby would raise ArgumentError on every match. The model passes the environment only and returns the rule's outcome. For a rewrite that outcome is `Continue`, Ruby's `true`.
- EarliestRewrite.Apply has no case for kinds other than `rewrite` and `'301'`. Only those two builders exist, and Ruby's `case` would yield nil for anything else.
- The final dispatcher, lib/rack/rewrite.rb, is not part of this model. Neither is `lib/rack/rewrite/yaml_rule_set.rb`, which is YAML parsing and file reading.
- Not modelled, because none of it affects what the rules compute:
  - the `instance_eval` wiring of the DSL block;
  - the `puts` logging in rack_rewrite.rb;
  - the test harness embedded in rack_rewrite.rb.
- Some tests do not match the code, and the model follows the code:
  - test/rule_test.rb:12-33 use a `QUERYSTRING` key, while the code reads QUERY_STRING. RewriteScenarios.RewriteChangesQueryString therefore uses QUERY_STRING.
  - test/rule_test.rb:9 and :86 pass a bare path to `interpret_to`, which takes an environment.
  - test/rule_test.rb:43-79 call `matches?` with a path. That is the earlier engine's signature. The String cases at :43-53 are stated against `LegacyRule.Matches` (`LegacyRule.StringFromIsExact`). The Regexp cases at :61-79 have no counterpart: they depend on the regular-expression engine, which this model leaves as an oracle.
