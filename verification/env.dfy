/** The backend's configuration (apps/backend/src/config/env.ts), read once
    from the process environment at start-up. The environment is a
    parameter: the variables that are set, each with its text. Loading the
    `.env` file is not modelled. */
module Env {
  import opened Wrappers
  import opened Text
  import opened Js

  type Vars = map<string, string>

  datatype Config = Config(nodeEnv: string, port: JsValue, appName: string, tokenSecret: string,
                           tokenTtlSeconds: JsValue)

  const DefaultNodeEnv: string := "development"
  const DefaultPort: int := 3333
  const DefaultAppName: string := "controle-app-backend"
  const DefaultTokenSecret: string := "local-dev-secret-change-me"
  const DefaultTokenTtl: int := 60 * 60 * 8

  /** `process.env[name] ?? fallback`. */
  function Lookup(vars: Vars, name: string, fallback: Option<string>): Option<string> {
    if name in vars then Some(vars[name]) else fallback
  }

  /** `required(name, fallback)`: the variable, or the fallback when it is
      unset; an empty result is an error naming the variable. A variable
      set to the empty string does not fall back. */
  function Required(vars: Vars, name: string, fallback: Option<string>): (r: Result<string, string>)
    ensures name in vars ==> (r.Success? <==> vars[name] != "")
    ensures name !in vars ==> (r.Success? <==> fallback.Some? && fallback.value != "")
    ensures r.Success? ==> r.value != "" && r.value == Lookup(vars, name, fallback).value
    ensures r.Failure? ==> r.error == "Missing env var: " + name
  {
    match Lookup(vars, name, fallback)
    case Some(v) => if v == "" then Failure("Missing env var: " + name) else Success(v)
    case None => Failure("Missing env var: " + name)
  }

  /** `Number(process.env[name] ?? fallback)`. */
  function NumberVar(vars: Vars, name: string, fallback: int): (r: JsValue)
    ensures r.Num? || r.NaN?
    ensures name !in vars ==> r == Num(fallback)
    ensures name in vars ==> r == StringToNumber(vars[name])
  {
    if name in vars then ToNumber(Str(vars[name])) else Num(fallback)
  }

  /** `env`: building it throws when `TOKEN_SECRET` is set but empty. */
  function Load(vars: Vars): (r: Result<Config, string>)
    ensures r.Success? <==> "TOKEN_SECRET" !in vars || vars["TOKEN_SECRET"] != ""
    ensures r.Failure? ==> r.error == "Missing env var: TOKEN_SECRET"
    ensures r.Success? ==>
      && r.value.nodeEnv == Lookup(vars, "NODE_ENV", Some(DefaultNodeEnv)).value
      && r.value.appName == Lookup(vars, "APP_NAME", Some(DefaultAppName)).value
      && r.value.tokenSecret == Lookup(vars, "TOKEN_SECRET", Some(DefaultTokenSecret)).value
      && r.value.port == NumberVar(vars, "PORT", DefaultPort)
      && r.value.tokenTtlSeconds == NumberVar(vars, "TOKEN_TTL_SECONDS", DefaultTokenTtl)
  {
    var secret :- Required(vars, "TOKEN_SECRET", Some(DefaultTokenSecret));
    Success(Config(Lookup(vars, "NODE_ENV", Some(DefaultNodeEnv)).value, NumberVar(vars, "PORT", DefaultPort),
                   Lookup(vars, "APP_NAME", Some(DefaultAppName)).value, secret,
                   NumberVar(vars, "TOKEN_TTL_SECONDS", DefaultTokenTtl)))
  }

  /** With nothing set, every default applies: port 3333, a token valid
      for eight hours, and the development secret. */
  lemma Defaults()
    ensures Load(map[]) == Success(Config("development", Num(3333), "controle-app-backend",
      "local-dev-secret-change-me", Num(28800)))
  {
  }

  /** A set variable wins over its default, and the secret is never empty. */
  lemma SetVariablesWin(vars: Vars)
    requires "TOKEN_SECRET" in vars && vars["TOKEN_SECRET"] != ""
    ensures Load(vars).Success? && Load(vars).value.tokenSecret == vars["TOKEN_SECRET"]
    ensures "NODE_ENV" in vars ==> Load(vars).value.nodeEnv == vars["NODE_ENV"]
    ensures "APP_NAME" in vars ==> Load(vars).value.appName == vars["APP_NAME"]
  {
  }

  /** A decimal `PORT` is read back as its value. */
  lemma DecimalPort(vars: Vars, n: nat)
    requires "TOKEN_SECRET" !in vars && "PORT" in vars && vars["PORT"] == NatToString(n)
    ensures Load(vars).Success? && Load(vars).value.port == Num(n)
  {
    NumberOfDecimal(n);
  }

  /** An empty `TOKEN_SECRET` stops the start-up instead of falling back
      to the development secret. */
  lemma EmptySecretStops(vars: Vars)
    requires "TOKEN_SECRET" in vars && vars["TOKEN_SECRET"] == ""
    ensures Load(vars) == Failure("Missing env var: TOKEN_SECRET")
  {
  }
}
