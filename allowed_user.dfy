/**
 * `requireAllowedUser`: the middleware that admits a caller when auth is
 * off, and otherwise only when the `sub` claim of the caller's token is on
 * the allow-list read from the environment.
 */
module AllowedUser {
  import opened Wrappers
  import opened Text
  import opened JsValues

  /** The two environment variables the middleware reads (`None` when unset). */
  datatype Env = Env(authEnabled: Option<string>, allowedSubs: Option<string>)

  datatype Decision = Next | Denied(status: int, error: string)

  const AccessNotAllowed: string := "Access not allowed"

  /** `process.env.AUTH_ENABLED === "true"`: nothing else switches auth on. */
  predicate Enabled(env: Env) {
    env.authEnabled == Some("true")
  }

  /** `String(process.env.ALLOWED_SUBS || "")` split on commas, trimmed,
      empty entries dropped. */
  function AllowList(env: Env): (r: seq<string>)
    ensures forall k :: 0 <= k < |r| ==> r[k] != "" && IsTrimmed(r[k])
    ensures env.allowedSubs.None? ==> r == []
  {
    if env.allowedSubs.None? then
      assert Split("", ',') == [""];
      CommaList("")
    else CommaList(env.allowedSubs.value)
  }

  /** The decision for a caller whose token carries `sub` (`Missing` when
      there is no token, payload or claim). `includes` compares with `===`,
      so only a string can match. */
  function Decide(env: Env, sub: Field): (r: Decision)
    ensures r == Next || r == Denied(403, AccessNotAllowed)
    ensures !Enabled(env) ==> r == Next
    ensures Enabled(env) ==> (r == Next <==> sub.Text? && sub.s in AllowList(env))
    ensures Enabled(env) && AllowList(env) == [] ==> r.Denied?
    ensures Enabled(env) && !Truthy(sub) ==> r.Denied?
  {
    if !Enabled(env) then Next
    else
      var allowed := AllowList(env);
      if |allowed| == 0 then Denied(403, AccessNotAllowed)
      else if !Truthy(sub) || !(sub.Text? && sub.s in allowed) then Denied(403, AccessNotAllowed)
      else Next
  }

  /** With auth on, a caller is admitted exactly when its `sub` is, after
      trimming, one of the non-empty comma-separated entries of
      `ALLOWED_SUBS`: a `sub` with surrounding blanks never matches. */
  lemma AdmittedEntries(env: Env, sub: string)
    requires Enabled(env) && env.allowedSubs.Some?
    ensures Decide(env, Text(sub)) == Next <==> sub != "" && sub in TrimAll(Split(env.allowedSubs.value, ','))
    ensures Decide(env, Text(sub)) == Next ==> IsTrimmed(sub)
  {
    CommaListMembers(env.allowedSubs.value, sub);
  }

  /** An allow-list written as `a, b, c` admits exactly the subjects listed. */
  lemma AdmitsListed(subs: seq<string>, sub: string)
    requires forall k :: 0 <= k < |subs| ==> subs[k] != "" && IsTrimmed(subs[k]) && ',' !in subs[k]
    ensures Decide(Env(Some("true"), Some(Join(subs, ", "))), Text(sub)) == Next <==> sub in subs
  {
    var env := Env(Some("true"), Some(Join(subs, ", ")));
    assert AllowList(env) == subs by {
      CommaListOfJoin(subs);
    }
  }
}
