/** The OAuth manager of installation_scripts/manage_oauth.py: choosing the
    client section of a client-secret file, parsing the requested scopes,
    resolving the authorization id and credentials, and recording them in
    the `.env` file. The OAuth flow and the Discovery Engine request are not
    modelled: their results are inputs. */
module OAuth {
  import opened Wrappers
  import opened Strings
  import opened EnvFile
  import opened DiscoveryEngine

  /** The `client_id` and `client_secret` of one section of a client-secret
      file. */
  datatype ClientSection = ClientSection(clientId: string, clientSecret: string)

  /** The client section `generate_oauth_uri` reads: `web` if present, else
      `installed`; with neither the file is rejected. */
  function SelectClientSection(config: map<string, ClientSection>): (r: Option<ClientSection>)
    ensures r.Some? <==> "web" in config || "installed" in config
    ensures r.Some? ==> r.value in config.Values
    ensures "web" in config ==> r == Some(config["web"])
    ensures "web" !in config && "installed" in config ==> r == Some(config["installed"])
  {
    if "web" in config then Some(config["web"])
    else if "installed" in config then Some(config["installed"])
    else None
  }

  /** The scopes requested when none are given. */
  const DefaultScopes: seq<string> :=
    ["https://www.googleapis.com/auth/drive.metadata.readonly",
     "https://www.googleapis.com/auth/calendar.readonly"]

  /** The scope list of `setup`: the defaults when `--scopes` is absent or
      empty, else the comma-separated pieces, each stripped, in order. */
  function ParseScopes(scopes: Option<string>): (r: seq<string>)
    ensures !Truthy(scopes) ==> r == DefaultScopes
    ensures Truthy(scopes) ==> |r| == |Split(scopes.value, ',')|
    ensures Truthy(scopes) ==> forall k :: 0 <= k < |r| ==> r[k] == Strip(Split(scopes.value, ',')[k])
  {
    if !Truthy(scopes) then DefaultScopes
    else
      var parts := Split(scopes.value, ',');
      seq(|parts|, k requires 0 <= k < |parts| => Strip(parts[k]))
  }

  /** No scope parsed from a given list holds a comma. */
  lemma ParseScopesNoComma(scopes: Option<string>)
    requires Truthy(scopes)
    ensures forall k :: 0 <= k < |ParseScopes(scopes)| ==> ',' !in ParseScopes(scopes)[k]
  {
    var r := ParseScopes(scopes);
    var parts := Split(scopes.value, ',');
    forall k | 0 <= k < |r| ensures ',' !in r[k] {
      StripShape(parts[k]);
    }
  }

  /** When no piece has surrounding whitespace, the scopes are the pieces. */
  lemma ParseScopesOfStripped(s: string, parts: seq<string>)
    requires s != "" && Split(s, ',') == parts
    requires forall k :: 0 <= k < |parts| ==> Strip(parts[k]) == parts[k]
    ensures ParseScopes(Some(s)) == parts
  {
    var r := ParseScopes(Some(s));
    assert |r| == |parts|;
    forall k | 0 <= k < |r| ensures r[k] == parts[k] {
      assert r[k] == Strip(parts[k]);
    }
  }

  /** The authorization id of `create_auth`: the argument, else
      `OAUTH_AUTH_ID`, else `auth-` and the first eight hex digits of a
      fresh UUID (`uuidHex`). */
  function ResolveAuthId(arg: Option<string>, env: map<string, string>, uuidHex: string): (r: string)
    requires |uuidHex| >= 8
    ensures r != ""
    ensures Truthy(arg) ==> r == arg.value
    ensures !Truthy(arg) && IsSet(env, "OAUTH_AUTH_ID") ==> r == env["OAUTH_AUTH_ID"]
    ensures !Truthy(arg) && !IsSet(env, "OAUTH_AUTH_ID") ==> |r| == 13 && r[..5] == "auth-" && r[5..] == uuidHex[..8]
  {
    if Truthy(arg) then arg.value
    else if IsSet(env, "OAUTH_AUTH_ID") then env["OAUTH_AUTH_ID"]
    else "auth-" + uuidHex[..8]
  }

  /** The default token endpoint. */
  const TokenUri := "https://oauth2.googleapis.com/token"

  /** The arguments `create_auth` passes to `create_authorization`. */
  datatype AuthRequest = AuthRequest(
    authId: string,
    clientId: string,
    clientSecret: string,
    authUri: string,
    tokenUri: string)

  /** `create_auth` up to its call of `create_authorization`: the client id,
      secret and authorization URI must all be set; the token URI defaults
      to Google's. */
  function PlanCreateAuth(arg: Option<string>, env: map<string, string>, uuidHex: string): (r: Option<AuthRequest>)
    requires |uuidHex| >= 8
    ensures r.Some? <==>
      IsSet(env, "OAUTH_CLIENT_ID") && IsSet(env, "OAUTH_CLIENT_SECRET") && IsSet(env, "OAUTH_AUTH_URI")
    ensures r.Some? ==>
      && r.value.authId == ResolveAuthId(arg, env, uuidHex)
      && r.value.clientId == env["OAUTH_CLIENT_ID"]
      && r.value.clientSecret == env["OAUTH_CLIENT_SECRET"]
      && r.value.authUri == env["OAUTH_AUTH_URI"]
      && r.value.tokenUri == GetOr(env, "OAUTH_TOKEN_URI", TokenUri)
  {
    var authId := ResolveAuthId(arg, env, uuidHex);
    if IsSet(env, "OAUTH_CLIENT_ID") && IsSet(env, "OAUTH_CLIENT_SECRET") && IsSet(env, "OAUTH_AUTH_URI") then
      Some(AuthRequest(authId, env["OAUTH_CLIENT_ID"], env["OAUTH_CLIENT_SECRET"], env["OAUTH_AUTH_URI"],
                       GetOr(env, "OAUTH_TOKEN_URI", TokenUri)))
    else None
  }

  /** The five variables `create_authorization` records, in the order it
      writes them. */
  function AuthorizationEntries(req: AuthRequest): seq<(string, string)> {
    [("OAUTH_AUTH_ID", req.authId),
     ("OAUTH_CLIENT_ID", req.clientId),
     ("OAUTH_CLIENT_SECRET", req.clientSecret),
     ("OAUTH_AUTH_URI", req.authUri),
     ("OAUTH_TOKEN_URI", req.tokenUri)]
  }

  /** The four variables `setup` records. */
  function SetupEntries(section: ClientSection, authUri: string): seq<(string, string)> {
    [("OAUTH_CLIENT_ID", section.clientId),
     ("OAUTH_CLIENT_SECRET", section.clientSecret),
     ("OAUTH_AUTH_URI", authUri),
     ("OAUTH_TOKEN_URI", TokenUri)]
  }

  /** The names of the `OAUTH_` variables are valid `.env` keys. */
  lemma OAuthKeysValid()
    ensures ValidKey("OAUTH_AUTH_ID") && ValidKey("OAUTH_CLIENT_ID") && ValidKey("OAUTH_CLIENT_SECRET")
    ensures ValidKey("OAUTH_AUTH_URI") && ValidKey("OAUTH_TOKEN_URI")
  {
    OAuthClientKeysValid();
    UpperNameValid("OAUTH_AUTH_URI");
    UpperNameValid("OAUTH_TOKEN_URI");
  }

  lemma OAuthClientKeysValid()
    ensures ValidKey("OAUTH_AUTH_ID") && ValidKey("OAUTH_CLIENT_ID") && ValidKey("OAUTH_CLIENT_SECRET")
  {
    UpperNameValid("OAUTH_AUTH_ID");
    UpperNameValid("OAUTH_CLIENT_ID");
    UpperNameValid("OAUTH_CLIENT_SECRET");
  }

  /** The five keys are valid `.env` keys and distinct. */
  lemma AuthorizationKeysWritable(req: AuthRequest)
    requires '\n' !in req.authId && '\n' !in req.clientId && '\n' !in req.clientSecret
    requires '\n' !in req.authUri && '\n' !in req.tokenUri
    ensures Writable(AuthorizationEntries(req)) && DistinctKeys(AuthorizationEntries(req))
  {
    OAuthKeysValid();
    AuthorizationKeysDistinct(req);
  }

  lemma AuthorizationKeysDistinct(req: AuthRequest)
    ensures DistinctKeys(AuthorizationEntries(req))
  {
    var e := AuthorizationEntries(req);
    assert e[1].0[6] != e[4].0[6];
  }

  /** After `create_authorization` succeeds, the file holds the five
      entries with the values written: with the intended update whatever it
      held before, with the scripts' update when it ended with a newline. */
  lemma AuthorizationRecorded(text: string, req: AuthRequest, i: nat)
    requires '\n' !in req.authId && '\n' !in req.clientId && '\n' !in req.clientSecret
    requires '\n' !in req.authUri && '\n' !in req.tokenUri
    requires i < 5
    ensures var e := AuthorizationEntries(req);
      Lookup(UpdatedTextAll(text, e), e[i].0) == Some(e[i].0 + "=" + e[i].1)
    ensures var e := AuthorizationEntries(req);
      Closed(text) ==> Lookup(UpdatedTextAllAsWritten(text, e), e[i].0) == Some(e[i].0 + "=" + e[i].1)
  {
    AuthorizationKeysWritable(req);
    UpdatesThenLookup(text, AuthorizationEntries(req), i);
  }

  /** `OAuthManager`: its `.env` file and in-memory variables. */
  class OAuthManager {
    const env: EnvFile

    constructor(env: EnvFile)
      ensures this.env == env
    {
      this.env := env;
    }

    /** `create_authorization`. It fails before any request when
        `GCP_PROJECT_NUMBER` is unset; `accepted` is whether a token was
        obtained and the request succeeded. On success the five `OAUTH_`
        variables are recorded, in order. */
    method CreateAuthorization(req: AuthRequest, accepted: bool) returns (ok: bool)
      modifies env
      ensures ok <==> IsSet(old(env.envVars), "GCP_PROJECT_NUMBER") && accepted
      ensures ok ==>
        && env.content == UpdatedTextAllAsWritten(old(env.content), AuthorizationEntries(req))
        && env.envVars == AssignAll(old(env.envVars), AuthorizationEntries(req))
      ensures !ok ==> env.content == old(env.content) && env.envVars == old(env.envVars)
    {
      if !IsSet(env.envVars, "GCP_PROJECT_NUMBER") || !accepted {
        return false;
      }
      ghost var text, vars := env.content, env.envVars;
      env.UpdateEnvVar("OAUTH_AUTH_ID", req.authId);
      env.UpdateEnvVar("OAUTH_CLIENT_ID", req.clientId);
      env.UpdateEnvVar("OAUTH_CLIENT_SECRET", req.clientSecret);
      env.UpdateEnvVar("OAUTH_AUTH_URI", req.authUri);
      env.UpdateEnvVar("OAUTH_TOKEN_URI", req.tokenUri);
      FoldFive(TextStepAsWritten, text, AuthorizationEntries(req));
      AssignFive(vars, AuthorizationEntries(req));
      return true;
    }

    /** `create_auth`: the credentials must be recorded, then the
        authorization is created. */
    method CreateAuth(arg: Option<string>, uuidHex: string, accepted: bool) returns (ok: bool)
      requires |uuidHex| >= 8
      modifies env
      ensures ok <==> PlanCreateAuth(arg, old(env.envVars), uuidHex).Some?
                      && IsSet(old(env.envVars), "GCP_PROJECT_NUMBER") && accepted
      ensures ok ==>
        var req := PlanCreateAuth(arg, old(env.envVars), uuidHex).value;
        && env.content == UpdatedTextAllAsWritten(old(env.content), AuthorizationEntries(req))
        && env.envVars == AssignAll(old(env.envVars), AuthorizationEntries(req))
      ensures !ok ==> env.content == old(env.content) && env.envVars == old(env.envVars)
    {
      var plan := PlanCreateAuth(arg, env.envVars, uuidHex);
      if plan.None? {
        return false;
      }
      ok := CreateAuthorization(plan.value, accepted);
    }

    /** `setup`: with a client section chosen from the client-secret file and
        the authorization URI of the OAuth flow, the client id, secret,
        authorization URI and default token URI are recorded. A file with
        neither section is rejected and nothing is written. */
    method Setup(config: map<string, ClientSection>, authUri: string) returns (ok: bool)
      modifies env
      ensures ok <==> SelectClientSection(config).Some?
      ensures ok ==>
        && env.content == UpdatedTextAllAsWritten(old(env.content), SetupEntries(SelectClientSection(config).value, authUri))
        && env.envVars == AssignAll(old(env.envVars), SetupEntries(SelectClientSection(config).value, authUri))
      ensures !ok ==> env.content == old(env.content) && env.envVars == old(env.envVars)
    {
      var section := SelectClientSection(config);
      if section.None? {
        return false;
      }
      ghost var text, vars := env.content, env.envVars;
      env.UpdateEnvVar("OAUTH_CLIENT_ID", section.value.clientId);
      env.UpdateEnvVar("OAUTH_CLIENT_SECRET", section.value.clientSecret);
      env.UpdateEnvVar("OAUTH_AUTH_URI", authUri);
      env.UpdateEnvVar("OAUTH_TOKEN_URI", TokenUri);
      FoldFour(TextStepAsWritten, text, SetupEntries(section.value, authUri));
      AssignFour(vars, SetupEntries(section.value, authUri));
      return true;
    }
  }

  /** Four steps in a row, as one fold. */
  lemma FoldFour(step: (string, (string, string)) -> string, text: string, e: seq<(string, string)>)
    requires |e| == 4
    ensures Fold(step, text, e) == step(step(step(step(text, e[0]), e[1]), e[2]), e[3])
  {
    assert e[..1][..0] == [];
    assert Fold(step, text, e[..1]) == step(text, e[0]);
    assert e[..2][..1] == e[..1];
    assert Fold(step, text, e[..2]) == step(step(text, e[0]), e[1]);
    assert e[..3][..2] == e[..2];
    assert Fold(step, text, e[..3]) == step(step(step(text, e[0]), e[1]), e[2]);
    assert e[..4][..3] == e[..3];
    assert e[..4] == e;
  }

  /** Five steps in a row, as one fold. */
  lemma FoldFive(step: (string, (string, string)) -> string, text: string, e: seq<(string, string)>)
    requires |e| == 5
    ensures Fold(step, text, e) == step(step(step(step(step(text, e[0]), e[1]), e[2]), e[3]), e[4])
  {
    FoldFour(step, text, e[..4]);
    assert e[..5][..4] == e[..4];
    assert e[..5] == e;
  }

  /** Four and five assignments in a row, as one fold over the variables. */
  lemma AssignFour(vars: map<string, string>, e: seq<(string, string)>)
    requires |e| == 4
    ensures AssignAll(vars, e) == vars[e[0].0 := e[0].1][e[1].0 := e[1].1][e[2].0 := e[2].1][e[3].0 := e[3].1]
  {
    assert e[..1][..0] == [];
    assert AssignAll(vars, e[..1]) == vars[e[0].0 := e[0].1];
    assert e[..2][..1] == e[..1];
    assert AssignAll(vars, e[..2]) == vars[e[0].0 := e[0].1][e[1].0 := e[1].1];
    assert e[..3][..2] == e[..2];
    assert AssignAll(vars, e[..3]) == vars[e[0].0 := e[0].1][e[1].0 := e[1].1][e[2].0 := e[2].1];
    assert e[..4][..3] == e[..3];
    assert e[..4] == e;
  }

  lemma AssignFive(vars: map<string, string>, e: seq<(string, string)>)
    requires |e| == 5
    ensures AssignAll(vars, e) == vars[e[0].0 := e[0].1][e[1].0 := e[1].1][e[2].0 := e[2].1][e[3].0 := e[3].1][e[4].0 := e[4].1]
  {
    AssignFour(vars, e[..4]);
    assert e[..5][..4] == e[..4];
    assert e[..5] == e;
  }
}
