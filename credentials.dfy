/**
 * Credential resolution of the client core: the bearer token is built from a user and a
 * secret taken from the first source that has both, in the order constructor arguments,
 * OS keyring, `.env` file and process environment.
 */
module Credentials {
  import opened Wrappers

  const KeyringService := "sama_api_client"
  const KeyringUser := "sama_automation_user"
  const KeyringSecret := "sama_automation_secret"
  const EnvUser := "SAMA_AUTOMATION_USER"
  const EnvSecret := "SAMA_AUTOMATION_SECRET"

  /** The passwords the OS keyring holds, by (service, user name). */
  type Keyring = map<(string, string), string>

  /** Environment variables by name. */
  type Environment = map<string, string>

  /** `keyring.get_password(service, username)`. */
  function GetPassword(k: Keyring, service: string, username: string): (r: Option<string>)
    ensures r.Some? <==> (service, username) in k
    ensures r.Some? ==> r.value == k[(service, username)]
  {
    if (service, username) in k then Some(k[(service, username)]) else None
  }

  /** `os.getenv(name)`. */
  function GetEnv(env: Environment, name: string): (r: Option<string>)
    ensures r.Some? <==> name in env
    ensures r.Some? ==> r.value == env[name]
  {
    if name in env then Some(env[name]) else None
  }

  /**
   * The process environment after `load_dotenv`: variables of the `.env` file are added,
   * and (python-dotenv's default, `override=False`) a variable already set keeps its value.
   */
  function LoadDotenv(process: Environment, dotenv: Environment): (env: Environment)
    ensures env.Keys == process.Keys + dotenv.Keys
    ensures forall n :: n in process ==> env[n] == process[n]
    ensures forall n :: n in dotenv && n !in process ==> env[n] == dotenv[n]
  {
    dotenv + process
  }

  /** The token a complete (user, secret) pair gives: `f"{user} {secret}"`. */
  function PairToken(user: string, secret: string): (token: string)
  {
    user + " " + secret
  }

  /** `_get_keyring_token`. */
  function KeyringToken(k: Keyring): (t: Option<string>)
    ensures t.Some? <==> (KeyringService, KeyringUser) in k && (KeyringService, KeyringSecret) in k
    ensures t.Some? ==> t.value == PairToken(k[(KeyringService, KeyringUser)], k[(KeyringService, KeyringSecret)])
  {
    var user := GetPassword(k, KeyringService, KeyringUser);
    if user.None? then None
    else
      var secret := GetPassword(k, KeyringService, KeyringSecret);
      if secret.None? then None
      else Some(PairToken(user.value, secret.value))
  }

  /** `_get_env_token`, over the environment as `load_dotenv` leaves it. */
  function EnvToken(env: Environment): (t: Option<string>)
    ensures t.Some? <==> EnvUser in env && EnvSecret in env
    ensures t.Some? ==> t.value == PairToken(env[EnvUser], env[EnvSecret])
  {
    var user := GetEnv(env, EnvUser);
    if user.None? then None
    else
      var secret := GetEnv(env, EnvSecret);
      if secret.None? then None
      else Some(PairToken(user.value, secret.value))
  }

  /** The token the constructor arguments give, when both are present. */
  function ArgumentToken(user: Option<string>, secret: Option<string>): (t: Option<string>)
    ensures t.Some? <==> user.Some? && secret.Some?
    ensures t.Some? ==> t.value == PairToken(user.value, secret.value)
  {
    if user.Some? && secret.Some? then Some(PairToken(user.value, secret.value)) else None
  }

  /** `_get_token`: constructor arguments, then keyring, then `.env`/environment. */
  function GetToken(user: Option<string>, secret: Option<string>, k: Keyring, env: Environment): (t: Option<string>)
    ensures user.Some? && secret.Some? ==> t == Some(PairToken(user.value, secret.value))
    ensures t.None? <==> !(user.Some? && secret.Some?) && KeyringToken(k).None? && EnvToken(env).None?
  {
    if user.Some? && secret.Some? then Some(PairToken(user.value, secret.value))
    else
      var keyringToken := KeyringToken(k);
      if keyringToken.Some? then keyringToken
      else
        var envToken := EnvToken(env);
        if envToken.Some? then envToken
        else None
  }

  /** The first token an ordered list of sources yields, or None: the reference reading of the precedence rule. */
  function FirstToken(sources: seq<Option<string>>): (t: Option<string>)
    ensures t.Some? <==> exists i :: 0 <= i < |sources| && sources[i].Some?
    ensures t.Some? ==> exists i :: 0 <= i < |sources| && t == sources[i] && forall j :: 0 <= j < i ==> sources[j].None?
  {
    if |sources| == 0 then None
    else if sources[0].Some? then sources[0]
    else FirstToken(sources[1..])
  }

  /** `_get_token` is the first source, in precedence order, that yields a token. */
  lemma GetTokenIsFirstSource(user: Option<string>, secret: Option<string>, k: Keyring, env: Environment)
    ensures GetToken(user, secret, k, env) == FirstToken([ArgumentToken(user, secret), KeyringToken(k), EnvToken(env)])
  {
    var s := [ArgumentToken(user, secret), KeyringToken(k), EnvToken(env)];
    assert s[1..] == [KeyringToken(k), EnvToken(env)];
    assert s[1..][1..] == [EnvToken(env)];
    assert FirstToken(s[1..][1..]) == EnvToken(env) by {
      assert s[1..][1..][1..] == [];
    }
  }

  /** With both constructor arguments given, neither the keyring nor the environment matters. */
  lemma ArgumentsShortCircuit(user: string, secret: string, k1: Keyring, k2: Keyring, env1: Environment, env2: Environment)
    ensures GetToken(Some(user), Some(secret), k1, env1) == GetToken(Some(user), Some(secret), k2, env2)
  {
  }

  /** With incomplete arguments, a complete keyring entry wins over whatever the environment holds. */
  lemma KeyringBeforeEnvironment(user: Option<string>, secret: Option<string>, k: Keyring, env: Environment)
    requires !(user.Some? && secret.Some?)
    requires (KeyringService, KeyringUser) in k && (KeyringService, KeyringSecret) in k
    ensures GetToken(user, secret, k, env) == Some(PairToken(k[(KeyringService, KeyringUser)], k[(KeyringService, KeyringSecret)]))
  {
  }

  /** With incomplete arguments and an incomplete keyring pair, the token is the environment's, or None. */
  lemma EnvironmentFallback(user: Option<string>, secret: Option<string>, k: Keyring, env: Environment)
    requires !(user.Some? && secret.Some?)
    requires !((KeyringService, KeyringUser) in k && (KeyringService, KeyringSecret) in k)
    ensures GetToken(user, secret, k, env) == EnvToken(env)
  {
  }

  /** A variable absent from the process environment is read from the `.env` file. */
  lemma DotenvFillsGaps(process: Environment, dotenv: Environment)
    requires EnvUser !in process && EnvSecret !in process
    requires EnvUser in dotenv && EnvSecret in dotenv
    ensures EnvToken(LoadDotenv(process, dotenv)) == Some(PairToken(dotenv[EnvUser], dotenv[EnvSecret]))
  {
  }

  /** The value of the `Authorization` header: `f"Bearer {token}"`, where a missing token prints as `None`. */
  function BearerValue(token: Option<string>): (v: string)
    ensures token.None? ==> v == "Bearer None"
    ensures token.Some? ==> v == "Bearer " + token.value
  {
    "Bearer " + token.GetOr("None")
  }
}
