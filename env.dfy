/** The environment settings: each read once from the process environment
    with a default for an unset or empty variable, and a check that the two
    required ones are present. */
module Env {
  import opened Seqs
  import opened Strings

  datatype Env = Env(databaseUrl: string, nextAuthSecret: string, nextAuthUrl: string, apiKey: string)

  /** `process.env[name] || fallback`: an unset or empty variable gives the fallback. */
  function Read(vars: map<string, string>, name: string, fallback: string): (r: string)
    ensures name in vars && vars[name] != "" ==> r == vars[name]
    ensures name !in vars || vars[name] == "" ==> r == fallback
  {
    if name in vars && vars[name] != "" then vars[name] else fallback
  }

  /** The `env` object. The site URL is taken from `NEXT_PUBLIC_SITE_URL`. */
  function LoadEnv(vars: map<string, string>): Env
  {
    Env(Read(vars, "DATABASE_URL", ""),
        Read(vars, "NEXTAUTH_SECRET", ""),
        Read(vars, "NEXT_PUBLIC_SITE_URL", "http://localhost:3000"),
        Read(vars, "API_KEY", ""))
  }

  /** `env[key]` for the keys of the `env` object. */
  function Lookup(env: Env, key: string): string
  {
    match key
    case "DATABASE_URL" => env.databaseUrl
    case "NEXTAUTH_SECRET" => env.nextAuthSecret
    case "NEXTAUTH_URL" => env.nextAuthUrl
    case "API_KEY" => env.apiKey
    case _ => ""
  }

  const RequiredKeys: seq<string> := ["DATABASE_URL", "NEXTAUTH_SECRET"]

  /** The required keys whose value is empty, in the order listed. */
  function MissingKeys(env: Env): seq<string>
  {
    Filter(RequiredKeys, (key: string) => Lookup(env, key) == "")
  }

  const MissingPrefix: string := "Missing required environment variables: "

  /** `validateEnv`: `true`, or the error it throws, naming the missing keys
      joined with ", ". */
  function ValidateEnv(env: Env): Result<bool>
  {
    var missing := MissingKeys(env);
    if |missing| > 0 then Err(MissingPrefix + Join(missing, ", ")) else Ok(true)
  }

  /** The check passes exactly when both the database URL and the auth
      secret are set to something non-empty; the site URL and the API key
      play no part. When it fails, the message names exactly the missing
      ones, database URL first. */
  lemma ValidateEnvSpec(vars: map<string, string>)
    ensures var env := LoadEnv(vars);
      var dbSet := "DATABASE_URL" in vars && vars["DATABASE_URL"] != "";
      var secretSet := "NEXTAUTH_SECRET" in vars && vars["NEXTAUTH_SECRET"] != "";
      && (ValidateEnv(env).Ok? <==> dbSet && secretSet)
      && (ValidateEnv(env).Ok? ==> ValidateEnv(env).value)
      && (!dbSet && secretSet ==> ValidateEnv(env) == Err(MissingPrefix + "DATABASE_URL"))
      && (dbSet && !secretSet ==> ValidateEnv(env) == Err(MissingPrefix + "NEXTAUTH_SECRET"))
      && (!dbSet && !secretSet ==> ValidateEnv(env) == Err(MissingPrefix + "DATABASE_URL, NEXTAUTH_SECRET"))
  {
    var env := LoadEnv(vars);
    MissingKeysCases(env);
    var both := ["DATABASE_URL", "NEXTAUTH_SECRET"];
    assert both[1..] == ["NEXTAUTH_SECRET"];
    assert Join(both, ", ") == "DATABASE_URL, NEXTAUTH_SECRET";
  }

  /** The missing keys: the database URL if it is empty, then the secret if
      it is empty. */
  lemma MissingKeysCases(env: Env)
    ensures MissingKeys(env) ==
      (if env.databaseUrl == "" then ["DATABASE_URL"] else []) +
      (if env.nextAuthSecret == "" then ["NEXTAUTH_SECRET"] else [])
  {
    var keep := (key: string) => Lookup(env, key) == "";
    assert keep("DATABASE_URL") == (env.databaseUrl == "");
    assert keep("NEXTAUTH_SECRET") == (env.nextAuthSecret == "");
    assert RequiredKeys[..1] == ["DATABASE_URL"];
    assert Filter(["DATABASE_URL"], keep) == (if keep("DATABASE_URL") then ["DATABASE_URL"] else []) by {
      assert ["DATABASE_URL"][..0] == [];
    }
  }

  /** The site URL is never empty: unset, it is the local development address. */
  lemma SiteUrlNeverEmpty(vars: map<string, string>)
    ensures LoadEnv(vars).nextAuthUrl != ""
    ensures "NEXT_PUBLIC_SITE_URL" !in vars ==> LoadEnv(vars).nextAuthUrl == "http://localhost:3000"
  {
  }
}
