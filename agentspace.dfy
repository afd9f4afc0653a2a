/** The AgentSpace manager of installation_scripts/manage_agentspace.py: the
    checks it makes before talking to the Discovery Engine API, the URLs and
    payloads it builds, and the `.env` updates it makes after a successful
    call. Requests are not sent here: the outcome of each one is an input. */
module AgentSpace {
  import opened Wrappers
  import opened Strings
  import opened EnvFile
  import opened DiscoveryEngine

  // ---------------------------------------------------------------------
  // Required variables

  /** The variables every agent operation needs. */
  const RequiredVars: seq<string> :=
    ["GCP_PROJECT_ID", "GCP_PROJECT_NUMBER", "AGENTSPACE_APP_ID", "AGENT_ENGINE_RESOURCE_NAME", "GCP_LOCATION"]

  /** `_validate_environment`: whether all required variables are set, and
      the ones that are not, in the order they are required. */
  function ValidateEnvironment(env: map<string, string>): (r: (bool, seq<string>))
    ensures r.1 == MissingVars(RequiredVars, env)
    ensures r.0 <==> r.1 == []
    ensures r.0 ==> "GCP_PROJECT_NUMBER" in env && "AGENTSPACE_APP_ID" in env
                    && "AGENT_ENGINE_RESOURCE_NAME" in env
  {
    var missing := MissingVars(RequiredVars, env);
    ValidateEnvironmentAllSet(env);
    (missing == [], missing)
  }

  /** The environment is valid exactly when the five required variables
      are all set. */
  lemma ValidateEnvironmentAllSet(env: map<string, string>)
    ensures MissingVars(RequiredVars, env) == [] <==>
      IsSet(env, "GCP_PROJECT_ID") && IsSet(env, "GCP_PROJECT_NUMBER") && IsSet(env, "AGENTSPACE_APP_ID")
      && IsSet(env, "AGENT_ENGINE_RESOURCE_NAME") && IsSet(env, "GCP_LOCATION")
  {
    var req := RequiredVars;
    MissingVarsEmpty(req, env);
    assert req[0] == "GCP_PROJECT_ID" && req[1] == "GCP_PROJECT_NUMBER" && req[2] == "AGENTSPACE_APP_ID";
    assert req[3] == "AGENT_ENGINE_RESOURCE_NAME" && req[4] == "GCP_LOCATION";
  }

  // ---------------------------------------------------------------------
  // The agents URL

  /** `{base}/projects/{number}/locations/global/collections/{collection}/engines/{app}/assistants/{assistant}`. */
  function AssistantUrl(projectNumber: string, collection: string, appId: string, assistant: string): string {
    ApiBase + "/projects/" + projectNumber + "/locations/global/collections/" + collection
    + "/engines/" + appId + "/assistants/" + assistant
  }

  /** `_get_agent_api_url`: the agents collection of the configured
      assistant, with `/{agent_id}` added when an id is given. The
      collection and assistant default to `default_collection` and
      `default_assistant`. */
  function AgentApiUrl(env: map<string, string>, agentId: Option<string>): (r: string)
    requires "GCP_PROJECT_NUMBER" in env && "AGENTSPACE_APP_ID" in env
  {
    var base := AssistantUrl(env["GCP_PROJECT_NUMBER"],
                             GetOr(env, "AGENTSPACE_COLLECTION", "default_collection"),
                             env["AGENTSPACE_APP_ID"],
                             GetOr(env, "AGENTSPACE_ASSISTANT", "default_assistant")) + "/agents";
    if Truthy(agentId) then base + "/" + agentId.value else base
  }

  /** Without an id (or with an empty one) the URL is the agents collection
      of the assistant, from the configured or default collection and
      assistant. */
  lemma AgentApiUrlCollection(env: map<string, string>, agentId: Option<string>)
    requires "GCP_PROJECT_NUMBER" in env && "AGENTSPACE_APP_ID" in env
    requires !Truthy(agentId)
    ensures AgentApiUrl(env, agentId)
         == AssistantUrl(env["GCP_PROJECT_NUMBER"],
                         if "AGENTSPACE_COLLECTION" in env then env["AGENTSPACE_COLLECTION"] else "default_collection",
                         env["AGENTSPACE_APP_ID"],
                         if "AGENTSPACE_ASSISTANT" in env then env["AGENTSPACE_ASSISTANT"] else "default_assistant")
            + "/agents"
  {
  }

  /** With an id, the URL is the collection's URL followed by `/{id}`, and
      the id is its last path segment. */
  lemma AgentApiUrlWithId(env: map<string, string>, agentId: string)
    requires "GCP_PROJECT_NUMBER" in env && "AGENTSPACE_APP_ID" in env
    requires agentId != "" && '/' !in agentId
    ensures AgentApiUrl(env, Some(agentId)) == AgentApiUrl(env, None) + "/" + agentId
    ensures LastPiece(AgentApiUrl(env, Some(agentId)), '/') == agentId
  {
    assert forall k :: 0 <= k < |agentId| ==> agentId[k] != '/';
    LastPieceAfter(AgentApiUrl(env, None), agentId, '/');
  }

  // ---------------------------------------------------------------------
  // The agent configuration

  /** The payload of an agent registration or update. */
  datatype AgentConfig = AgentConfig(
    displayName: string,
    description: string,
    toolDescription: string,
    reasoningEngine: string,
    authorizations: seq<string>)

  /** `_build_agent_config`: display name, description and tool description
      from the environment or their defaults, the deployed reasoning engine,
      and the OAuth authorization when `OAUTH_AUTH_ID` is set. */
  function BuildAgentConfig(env: map<string, string>): (r: AgentConfig)
    requires "AGENT_ENGINE_RESOURCE_NAME" in env
    requires IsSet(env, "OAUTH_AUTH_ID") ==> "GCP_PROJECT_NUMBER" in env
    ensures r.reasoningEngine == env["AGENT_ENGINE_RESOURCE_NAME"]
    ensures |r.authorizations| == (if IsSet(env, "OAUTH_AUTH_ID") then 1 else 0)
    ensures IsSet(env, "OAUTH_AUTH_ID") ==>
      r.authorizations[0] == AuthorizationName(env["GCP_PROJECT_NUMBER"], env["OAUTH_AUTH_ID"])
  {
    AgentConfig(
      GetOr(env, "AGENT_DISPLAY_NAME", "Google Security Agent"),
      GetOr(env, "AGENT_DESCRIPTION", "Allows security operations on Google Security Products"),
      GetOr(env, "AGENT_TOOL_DESCRIPTION", "Various Tools from SIEM, SOAR and SCC"),
      env["AGENT_ENGINE_RESOURCE_NAME"],
      if IsSet(env, "OAUTH_AUTH_ID")
      then [AuthorizationName(env["GCP_PROJECT_NUMBER"], env["OAUTH_AUTH_ID"])]
      else [])
  }

  /** The authorization in the config names the configured auth id. */
  lemma ConfigAuthorizationNamesAuthId(env: map<string, string>)
    requires "AGENT_ENGINE_RESOURCE_NAME" in env && "GCP_PROJECT_NUMBER" in env
    requires IsSet(env, "OAUTH_AUTH_ID") && '/' !in env["OAUTH_AUTH_ID"]
    ensures LastPiece(BuildAgentConfig(env).authorizations[0], '/') == env["OAUTH_AUTH_ID"]
  {
    AuthorizationIdOfName(env["GCP_PROJECT_NUMBER"], env["OAUTH_AUTH_ID"]);
  }

  // ---------------------------------------------------------------------
  // register_agent

  /** What `register_agent` does before its request. */
  datatype RegisterPlan =
    | MissingRequired(vars: seq<string>)
    | AlreadyRegistered
    | PostAgent(url: string, config: AgentConfig)

  /** The guards of `register_agent`: a missing required variable, then an
      agent id already recorded without `force`, each stop it before any
      request; otherwise it posts the config to the agents URL. */
  function PlanRegistration(env: map<string, string>, force: bool): (r: RegisterPlan)
    ensures r.MissingRequired? <==> !ValidateEnvironment(env).0
    ensures r.MissingRequired? ==> r.vars == ValidateEnvironment(env).1
    ensures r.AlreadyRegistered? <==>
      ValidateEnvironment(env).0 && IsSet(env, "AGENTSPACE_AGENT_ID") && !force
    ensures r.PostAgent? ==>
      ValidateEnvironment(env).0 && r.url == AgentApiUrl(env, None) && r.config == BuildAgentConfig(env)
  {
    var (valid, missing) := ValidateEnvironment(env);
    if !valid then MissingRequired(missing)
    else if IsSet(env, "AGENTSPACE_AGENT_ID") && !force then AlreadyRegistered
    else PostAgent(AgentApiUrl(env, None), BuildAgentConfig(env))
  }

  /** The agent id in the `name` of a registered agent: its last path
      segment, empty when there is no name. */
  function AgentIdOf(agentName: Option<string>): string {
    if agentName.Some? && agentName.value != "" then LastPiece(agentName.value, '/') else ""
  }

  // ---------------------------------------------------------------------
  // update_agent_config

  /** The update-mask paths, in the order `update_agent_config` adds them. */
  const MaskPaths: seq<string> :=
    ["displayName", "description", "adk_agent_definition.tool_settings.tool_description"]

  /** The fields an agent update sends. */
  datatype AgentPatch = AgentPatch(
    displayName: Option<string>,
    description: Option<string>,
    toolDescription: Option<string>)

  /** A path of the mask sits at this position of `MaskPaths`. */
  predicate PathAt(mask: seq<string>, i: nat, k: nat) {
    i < |mask| && k < |MaskPaths| && mask[i] == MaskPaths[k]
  }

  /** The paths of `update_mask`: one for each non-empty argument, in the
      order display name, description, tool description. */
  function UpdateMask(displayName: Option<string>, description: Option<string>, toolDescription: Option<string>)
    : seq<string>
  {
    (if Truthy(displayName) then [MaskPaths[0]] else [])
    + (if Truthy(description) then [MaskPaths[1]] else [])
    + (if Truthy(toolDescription) then [MaskPaths[2]] else [])
  }

  /** Builds the update mask and the data of `update_agent_config`: each
      non-empty argument adds its field and its path, in the order display
      name, description, tool description. */
  method BuildUpdateMask(displayName: Option<string>, description: Option<string>, toolDescription: Option<string>)
    returns (mask: seq<string>, data: AgentPatch)
    ensures mask == UpdateMask(displayName, description, toolDescription)
    ensures |mask| <= 3
    ensures (MaskPaths[0] in mask <==> Truthy(displayName))
         && (MaskPaths[1] in mask <==> Truthy(description))
         && (MaskPaths[2] in mask <==> Truthy(toolDescription))
    ensures forall i :: 0 <= i < |mask| ==> mask[i] in MaskPaths
    ensures forall i: nat, j: nat, ki: nat, kj: nat :: i < j && PathAt(mask, i, ki) && PathAt(mask, j, kj) ==> ki < kj
    ensures data.displayName == (if Truthy(displayName) then displayName else None)
    ensures data.description == (if Truthy(description) then description else None)
    ensures data.toolDescription == (if Truthy(toolDescription) then toolDescription else None)
  {
    var paths := MaskPaths;
    mask := [];
    data := AgentPatch(None, None, None);
    if Truthy(displayName) {
      data := data.(displayName := displayName);
      mask := mask + [paths[0]];
    }
    if Truthy(description) {
      data := data.(description := description);
      mask := mask + [paths[1]];
    }
    if Truthy(toolDescription) {
      data := data.(toolDescription := toolDescription);
      mask := mask + [paths[2]];
    }
    MaskOrder(mask, paths, Truthy(displayName), Truthy(description), Truthy(toolDescription));
  }

  /** The three paths are distinct, so a mask built from them in order has
      them in `MaskPaths` order. */
  lemma MaskOrder(mask: seq<string>, paths: seq<string>, a: bool, b: bool, c: bool)
    requires paths == MaskPaths
    requires mask == (if a then [paths[0]] else []) + (if b then [paths[1]] else []) + (if c then [paths[2]] else [])
    ensures |mask| <= 3
    ensures (paths[0] in mask <==> a) && (paths[1] in mask <==> b) && (paths[2] in mask <==> c)
    ensures forall i :: 0 <= i < |mask| ==> mask[i] in paths
    ensures forall i: nat, j: nat, ki: nat, kj: nat :: i < j && PathAt(mask, i, ki) && PathAt(mask, j, kj) ==> ki < kj
  {
    PathsDistinct(paths);
    MaskSorted(mask, paths, a, b, c);
  }

  /** The paths of a mask built in order sit in `MaskPaths` order. */
  lemma MaskSorted(mask: seq<string>, paths: seq<string>, a: bool, b: bool, c: bool)
    requires paths == MaskPaths
    requires mask == (if a then [paths[0]] else []) + (if b then [paths[1]] else []) + (if c then [paths[2]] else [])
    ensures forall i: nat, j: nat, ki: nat, kj: nat :: i < j && PathAt(mask, i, ki) && PathAt(mask, j, kj) ==> ki < kj
  {
    PathsDistinct(paths);
    SubsequenceOrdered(mask, paths, a, b, c);
  }

  /** Picking some of three distinct strings, in order, keeps their order. */
  lemma SubsequenceOrdered(mask: seq<string>, p: seq<string>, a: bool, b: bool, c: bool)
    requires |p| == 3 && p[0] != p[1] && p[0] != p[2] && p[1] != p[2]
    requires mask == (if a then [p[0]] else []) + (if b then [p[1]] else []) + (if c then [p[2]] else [])
    ensures forall i: nat, j: nat, ki: nat, kj: nat :: i < j < |mask| && ki < 3 && kj < 3 && mask[i] == p[ki] && mask[j] == p[kj] ==> ki < kj
  {
    forall i: nat, j: nat, ki: nat, kj: nat | i < j < |mask| && ki < 3 && kj < 3 && mask[i] == p[ki] && mask[j] == p[kj]
      ensures ki < kj
    {
      if a && b && c {
        assert mask == [p[0], p[1], p[2]];
      } else if a && b {
        assert mask == [p[0], p[1]];
      } else if a && c {
        assert mask == [p[0], p[2]];
      } else {
        assert mask == [p[1], p[2]];
      }
    }
  }

  lemma PathsDistinct(paths: seq<string>)
    requires paths == MaskPaths
    ensures |paths| == 3
    ensures paths[0] != paths[1] && paths[0] != paths[2] && paths[1] != paths[2]
  {
    assert paths[0][1] != paths[1][1];
    assert |paths[1]| != |paths[2]|;
    assert |paths[0]| != |paths[2]|;
  }

  /** What `update_agent_config` does. */
  datatype UpdateOutcome =
    | UpdateRejected(reason: string)
    | NothingToUpdate
    | PatchAgent(url: string, updateMask: string, data: AgentPatch)

  /** `update_agent_config` up to its request: the agent id comes from the
      argument, else from `AGENTSPACE_AGENT_ID`; a missing id, project
      number or app id rejects the update; an empty mask succeeds without a
      request. Its URL always names `default_collection` and
      `default_assistant`. The script fetches an access token after the
      app id check and before the mask is built, so a token failure
      rejects even an update with nothing to change; the token is not part
      of this model. */
  method PlanAgentUpdate(env: map<string, string>, agentId: Option<string>,
                         displayName: Option<string>, description: Option<string>, toolDescription: Option<string>)
    returns (r: UpdateOutcome)
    ensures r.UpdateRejected? <==>
      (!Truthy(agentId) && !IsSet(env, "AGENTSPACE_AGENT_ID"))
      || !IsSet(env, "GCP_PROJECT_NUMBER") || !IsSet(env, "AGENTSPACE_APP_ID")
    ensures r.NothingToUpdate? <==>
      !r.UpdateRejected? && !Truthy(displayName) && !Truthy(description) && !Truthy(toolDescription)
    ensures r.PatchAgent? ==>
      var id := if Truthy(agentId) then agentId.value else env["AGENTSPACE_AGENT_ID"];
      && r.updateMask == Join(UpdateMask(displayName, description, toolDescription), ",")
      && r.url == AssistantUrl(env["GCP_PROJECT_NUMBER"], "default_collection", env["AGENTSPACE_APP_ID"], "default_assistant")
                  + "/agents/" + id
      && r.data.displayName == (if Truthy(displayName) then displayName else None)
      && r.data.description == (if Truthy(description) then description else None)
      && r.data.toolDescription == (if Truthy(toolDescription) then toolDescription else None)
  {
    var target := UpdateTarget(env, agentId);
    if target.Err? {
      return UpdateRejected(target.error);
    }
    var mask, data := BuildUpdateMask(displayName, description, toolDescription);
    if mask == [] {
      return NothingToUpdate;
    }
    r := PatchAgent(target.value, Join(mask, ","), data);
  }

  /** The checks of `update_agent_config` before its mask, in order, and
      the URL it patches. */
  method UpdateTarget(env: map<string, string>, agentId: Option<string>) returns (r: Result<string, string>)
    ensures r.Err? <==>
      (!Truthy(agentId) && !IsSet(env, "AGENTSPACE_AGENT_ID"))
      || !IsSet(env, "GCP_PROJECT_NUMBER") || !IsSet(env, "AGENTSPACE_APP_ID")
    ensures r.Ok? ==>
      var id := if Truthy(agentId) then agentId.value else env["AGENTSPACE_AGENT_ID"];
      r.value == AssistantUrl(env["GCP_PROJECT_NUMBER"], "default_collection", env["AGENTSPACE_APP_ID"], "default_assistant")
                 + "/agents/" + id
  {
    var id: string;
    if Truthy(agentId) {
      id := agentId.value;
    } else {
      if !IsSet(env, "AGENTSPACE_AGENT_ID") {
        return Err("No agent ID provided or found in environment");
      }
      id := env["AGENTSPACE_AGENT_ID"];
    }
    if !IsSet(env, "GCP_PROJECT_NUMBER") {
      return Err("GCP_PROJECT_NUMBER not found in environment");
    }
    if !IsSet(env, "AGENTSPACE_APP_ID") {
      return Err("AGENTSPACE_APP_ID not found in environment");
    }
    r := Ok(AssistantUrl(env["GCP_PROJECT_NUMBER"], "default_collection", env["AGENTSPACE_APP_ID"], "default_assistant")
            + "/agents/" + id);
  }

  /** With the default collection and assistant, the update goes to the same
      URL as `_get_agent_api_url` gives for the agent. */
  lemma UpdateUrlIsAgentUrl(env: map<string, string>, agentId: string)
    requires "GCP_PROJECT_NUMBER" in env && "AGENTSPACE_APP_ID" in env && agentId != ""
    requires "AGENTSPACE_COLLECTION" !in env && "AGENTSPACE_ASSISTANT" !in env
    ensures AgentApiUrl(env, Some(agentId))
         == AssistantUrl(env["GCP_PROJECT_NUMBER"], "default_collection", env["AGENTSPACE_APP_ID"], "default_assistant")
            + "/agents/" + agentId
  {
  }

  // ---------------------------------------------------------------------
  // create_app

  /** The chat settings of a new chat app. */
  datatype ChatConfig = ChatConfig(business: string, languageCode: string, timeZone: string)

  /** The request `create_app` sends. */
  datatype AppRequest = AppRequest(
    url: string,
    appId: string,
    displayName: string,
    solutionType: string,
    dataStoreIds: Option<seq<string>>,
    chat: Option<ChatConfig>)

  datatype CreateAppError =
    | AppMissingRequired(vars: seq<string>)
    | ChatNeedsDataStore

  const ChatSolution := "SOLUTION_TYPE_CHAT"

  /** `{base}/projects/{number}/locations/global/collections/{collection}/engines`. */
  function EnginesUrl(projectNumber: string, collection: string): string {
    ApiBase + "/projects/" + projectNumber + "/locations/global/collections/" + collection + "/engines"
  }

  /** The business, language and time zone of a chat app, with their defaults. */
  function ChatSettings(env: map<string, string>): ChatConfig {
    ChatConfig(GetOr(env, "AGENT_BUSINESS", "Security Operations"),
               GetOr(env, "AGENT_LANGUAGE", "en"),
               GetOr(env, "AGENT_TIMEZONE", "America/New_York"))
  }

  /** `app_name.lower().replace(' ', '-')`, the app name as an id. */
  function Slug(name: string): (r: string)
    ensures |r| == |name| && ' ' !in r
  {
    var s := Lower(ReplaceChar(name, ' ', '-'));
    assert forall k :: 0 <= k < |s| ==> s[k] != ' ';
    s
  }

  /** `{slug}_{int(time.time())}`; `now` is the clock reading. */
  function AppId(name: string, now: nat): (r: string)
    ensures ' ' !in r
    ensures |r| > |name| && r[..|name|] == Slug(name)
  {
    Slug(name) + "_" + NatToString(now)
  }

  /** The checks and the request of `create_app`: the project number and id
      must be set; the name defaults to `agentic-soc-app`; a chat app needs a
      data store; chat settings are added only for a chat app with chat
      enabled. */
  function PlanCreateApp(env: map<string, string>, appName: string, solutionType: string,
                         dataStoreIds: seq<string>, enableChat: bool, now: nat): (r: Result<AppRequest, CreateAppError>)
    ensures r.Err? && r.error.AppMissingRequired? <==>
      !IsSet(env, "GCP_PROJECT_NUMBER") || !IsSet(env, "GCP_PROJECT_ID")
    ensures r.Err? && r.error.ChatNeedsDataStore? <==>
      IsSet(env, "GCP_PROJECT_NUMBER") && IsSet(env, "GCP_PROJECT_ID")
      && dataStoreIds == [] && solutionType == ChatSolution
    ensures r.Ok? ==>
      var name := if appName == "" then "agentic-soc-app" else appName;
      && r.value.displayName == name
      && r.value.appId == AppId(name, now)
      && r.value.solutionType == solutionType
      && r.value.dataStoreIds == (if dataStoreIds == [] then None else Some(dataStoreIds))
      && (r.value.chat.Some? <==> enableChat && solutionType == ChatSolution)
  {
    var required := ["GCP_PROJECT_NUMBER", "GCP_PROJECT_ID"];
    var missing := MissingVars(required, env);
    MissingVarsEmpty(required, env);
    if missing != [] then Err(AppMissingRequired(missing))
    else
      var name := if appName == "" then "agentic-soc-app" else appName;
      var url := EnginesUrl(env["GCP_PROJECT_NUMBER"], GetOr(env, "AGENTSPACE_COLLECTION", "default_collection"));
      if dataStoreIds == [] && solutionType == ChatSolution then Err(ChatNeedsDataStore)
      else
        var chat :=
          if enableChat && solutionType == ChatSolution
          then Some(ChatSettings(env))
          else None;
        Ok(AppRequest(url, AppId(name, now), name, solutionType,
                      if dataStoreIds == [] then None else Some(dataStoreIds), chat))
  }

  // ---------------------------------------------------------------------
  // The data-store id union of _create_website_datastore

  predicate NoDuplicates(s: seq<string>) {
    forall i, j :: 0 <= i < j < |s| ==> s[i] != s[j]
  }

  /** `list(set(s))`, keeping each id where it first occurs. */
  function Distinct(s: seq<string>): (r: seq<string>)
    ensures forall x :: x in r <==> x in s
    ensures NoDuplicates(r)
    ensures |r| <= |s|
  {
    if s == [] then []
    else
      var d := Distinct(s[..|s| - 1]);
      var x := s[|s| - 1];
      assert forall y :: y in s <==> y in s[..|s| - 1] || y == x;
      if x in d then d else d + [x]
  }

  /** `list(set(existing_ids + [data_store_id]))`: the engine's data stores
      with the new one added, each once. */
  function MergeDataStoreIds(existing: seq<string>, newId: string): (r: seq<string>)
    ensures newId in r
    ensures forall x :: x in existing ==> x in r
    ensures forall x :: x in r ==> x in existing || x == newId
    ensures NoDuplicates(r)
  {
    Distinct(existing + [newId])
  }

  /** Linking a data store that is already linked changes nothing. */
  lemma MergeExistingIsDistinct(existing: seq<string>, newId: string)
    requires NoDuplicates(existing) && newId in existing
    ensures MergeDataStoreIds(existing, newId) == existing
  {
    DistinctOfDistinct(existing);
    assert (existing + [newId])[..|existing|] == existing;
  }

  lemma {:induction false} DistinctOfDistinct(s: seq<string>)
    requires NoDuplicates(s)
    ensures Distinct(s) == s
    decreases |s|
  {
    if s != [] {
      var init := s[..|s| - 1];
      DistinctOfDistinct(init);
      assert s[|s| - 1] !in init;
      assert init + [s[|s| - 1]] == s;
    }
  }

  // ---------------------------------------------------------------------
  // The manager

  /** `AgentSpaceManager`: its `.env` file and in-memory variables. */
  class AgentSpaceManager {
    const env: EnvFile

    constructor(env: EnvFile)
      ensures this.env == env
    {
      this.env := env;
    }

    /** `register_agent`. `agentName` is the `name` of the created agent when
        the request returns 200, and `None` when there is no token, the
        request fails or the status is another one. On success the agent id,
        the last segment of the name, is recorded when it is not empty. */
    method RegisterAgent(force: bool, agentName: Option<string>) returns (ok: bool)
      modifies env
      ensures ok <==> PlanRegistration(old(env.envVars), force).PostAgent? && agentName.Some?
      ensures ok && AgentIdOf(agentName) != "" ==>
        && env.envVars == old(env.envVars)["AGENTSPACE_AGENT_ID" := AgentIdOf(agentName)]
        && env.content == UpdatedTextAsWritten(old(env.content), "AGENTSPACE_AGENT_ID", AgentIdOf(agentName))
      ensures !(ok && AgentIdOf(agentName) != "") ==>
        env.envVars == old(env.envVars) && env.content == old(env.content)
    {
      var plan := PlanRegistration(env.envVars, force);
      ok := plan.PostAgent? && agentName.Some?;
      if ok {
        RecordAgentId(agentName);
      }
    }

    /** Records the id of a registered agent as `AGENTSPACE_AGENT_ID` when it
        is not empty. */
    method RecordAgentId(agentName: Option<string>)
      modifies env
      ensures AgentIdOf(agentName) != "" ==>
        && env.envVars == old(env.envVars)["AGENTSPACE_AGENT_ID" := AgentIdOf(agentName)]
        && env.content == UpdatedTextAsWritten(old(env.content), "AGENTSPACE_AGENT_ID", AgentIdOf(agentName))
      ensures AgentIdOf(agentName) == "" ==> env.envVars == old(env.envVars) && env.content == old(env.content)
    {
      var agentId := AgentIdOf(agentName);
      if agentId != "" {
        env.UpdateEnvVar("AGENTSPACE_AGENT_ID", agentId);
      }
    }

    /** `create_app`. `now` is the clock reading and `created` whether the
        request returned 200 or 201; on success the new app id is recorded
        as `AGENTSPACE_APP_ID`. */
    method CreateApp(appName: string, solutionType: string, dataStoreIds: seq<string>,
                     enableChat: bool, now: nat, created: bool) returns (ok: bool)
      modifies env
      ensures ok <==> PlanCreateApp(old(env.envVars), appName, solutionType, dataStoreIds, enableChat, now).Ok? && created
      ensures ok ==>
        var appId := PlanCreateApp(old(env.envVars), appName, solutionType, dataStoreIds, enableChat, now).value.appId;
        && env.envVars == old(env.envVars)["AGENTSPACE_APP_ID" := appId]
        && env.content == UpdatedTextAsWritten(old(env.content), "AGENTSPACE_APP_ID", appId)
      ensures !ok ==> env.envVars == old(env.envVars) && env.content == old(env.content)
    {
      var plan := PlanCreateApp(env.envVars, appName, solutionType, dataStoreIds, enableChat, now);
      if plan.Err? || !created {
        return false;
      }
      env.UpdateEnvVar("AGENTSPACE_APP_ID", plan.value.appId);
      return true;
    }
  }
}
