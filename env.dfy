/**
 * Environment-variable lookups with defaults (packages/config/src/env.ts), over an explicit
 * environment map in place of `process.env`. Being functions of the map, they never change it.
 */
module Env {
  import opened Wrappers
  import opened Js

  /** The process environment: variable name to value. */
  type Environment = map<string, string>

  /** getEnv: the stored value when the variable is set, else the default, else an error. */
  function GetEnv(env: Environment, key: string, defaultValue: Option<string> := None): (r: Result<string>)
    ensures r.Ok? <==> key in env || defaultValue.Some?
    ensures key in env ==> r.value == env[key]
    ensures key !in env && defaultValue.Some? ==> r.value == defaultValue.value
    ensures r.Err? ==> r.message == "Environment variable " + key + " is required"
  {
    if key !in env then
      if defaultValue.Some? then Ok(defaultValue.value)
      else Err("Environment variable " + key + " is required")
    else Ok(env[key])
  }

  /** The strict boolean reading of a variable's text: only "true" and "1" are true. */
  predicate IsTrueText(value: string)
  {
    value == "true" || value == "1"
  }

  /** getEnvAsBoolean: the default goes through its text form, then the strict reading applies. */
  function GetEnvAsBoolean(env: Environment, key: string, defaultValue: Option<bool> := None): (r: Result<bool>)
    ensures key in env ==> r == Ok(IsTrueText(env[key]))
    ensures key !in env && defaultValue.Some? ==> r == Ok(defaultValue.value)
    ensures key !in env && defaultValue.None? ==> r == Err("Environment variable " + key + " is required")
  {
    var text := if defaultValue.Some? then Some(BoolToString(defaultValue.value)) else None;
    match GetEnv(env, key, text)
    case Err(message) => Err(message)
    case Ok(value) => Ok(IsTrueText(value))
  }

  /** A value that is set wins over any default, the empty string included. */
  lemma GetEnvSetWins(env: Environment, key: string, value: string, defaultValue: Option<string>)
    ensures GetEnv(env[key := value], key, defaultValue) == Ok(value)
  {
  }

  /** Setting another variable does not change a lookup. */
  lemma GetEnvOtherKey(env: Environment, key: string, other: string, value: string, defaultValue: Option<string>)
    requires other != key
    ensures GetEnv(env[other := value], key, defaultValue) == GetEnv(env, key, defaultValue)
  {
  }

  /** A boolean default survives its round trip through "true"/"false". */
  lemma BooleanTextRoundTrip(b: bool)
    ensures IsTrueText(BoolToString(b)) == b
  {
  }

  /** Any other spelling of truth reads as false. */
  lemma NonCanonicalTextIsFalse(env: Environment, key: string, defaultValue: Option<bool>)
    requires key in env && env[key] in {"TRUE", "True", "yes", "on", ""}
    ensures GetEnvAsBoolean(env, key, defaultValue) == Ok(false)
  {
  }
}
