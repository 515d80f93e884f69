/**
 * Where the assistant's data directory comes from: a `--path` flag read once
 * at start-up, or the `VERIFAI_ASSISTANT_DIR` environment variable.
 * Python's `or` picks its first truthy operand, and an absent value and the
 * empty string are both falsy.
 */
module Config {
  import opened Wrappers

  /** Python truthiness of an optional string: absent and "" are both false. */
  predicate Truthy(s: Option<string>): (b: bool)
    ensures b <==> s != None && s != Some("")
  {
    s.Some? && s.value != ""
  }

  /** Python's `a or b` on optional strings: `a` when truthy, otherwise `b` as it is. */
  function Or(a: Option<string>, b: Option<string>): (r: Option<string>)
    ensures Truthy(r) <==> Truthy(a) || Truthy(b)
    ensures Truthy(a) ==> r == a
    ensures !Truthy(a) ==> r == b
  {
    if Truthy(a) then a else b
  }

  /**
   * The value `main` stores in `DEFAULT_VERIFAI_PATH`: the flag, or else
   * whatever the environment holds (possibly nothing).
   */
  function ConfiguredDefault(flag: Option<string>, env: Option<string>): (r: Option<string>)
    ensures Truthy(flag) ==> r == flag
    ensures !Truthy(flag) ==> r == env
  {
    Or(flag, env)
  }

  /**
   * `_resolve_base_path`: the stored default wins over the environment, and
   * an empty string counts as absent, so the result is never the empty path.
   */
  function ResolveBasePath(default: Option<string>, env: Option<string>): (r: Option<string>)
    ensures r.Some? <==> Truthy(default) || Truthy(env)
    ensures r.Some? ==> r.value != ""
    ensures Truthy(default) ==> r == default
    ensures !Truthy(default) && Truthy(env) ==> r == env
  {
    var base := Or(default, env);
    if Truthy(base) then base else None
  }

  /**
   * Start-up followed by resolution: the flag when it is non-empty, else the
   * environment value when that is non-empty, else no directory at all.
   */
  lemma FlagWinsOverEnvironment(flag: Option<string>, env: Option<string>)
    ensures Truthy(flag) ==> ResolveBasePath(ConfiguredDefault(flag, env), env) == flag
    ensures !Truthy(flag) && Truthy(env) ==> ResolveBasePath(ConfiguredDefault(flag, env), env) == env
    ensures !Truthy(flag) && !Truthy(env) ==> ResolveBasePath(ConfiguredDefault(flag, env), env) == None
  {
  }
}
