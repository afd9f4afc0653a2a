/** The Agent Engine manager of installation_scripts/manage_agent_engine.py:
    the bounded page-token loops of the listings, the checks `create_agent`
    makes before deploying, the display name it deploys under, selection
    by 1-based index for deletion, masking of secrets when an agent is
    inspected, and the engine id printed after creation. Remote services
    are injected: a page source, the set of existing engines and files,
    and the outcome of the deployment. */
module AgentEngine {
  import opened Wrappers
  import opened Strings
  import EnvValidation

  // ---------------------------------------------------------------------
  // Pagination

  /** The safety limit on the number of pages fetched. */
  const MaxPages: nat := 50

  /** One response: the items of the page and `next_page_token`. */
  datatype Page<T> = Page(items: seq<T>, nextToken: string)

  /** What a listing gathered: the items in page order and the number of
      pages fetched. */
  datatype Listing<T> = Listing(items: seq<T>, fetched: nat)

  /** The listing that starts with the request for `token` and may fetch
      `budget` more pages. `pages` is the service: the response for each
      request token; a token it has no response for is a request that
      raises, and then there is no listing. */
  function Pull<T>(pages: map<string, Page<T>>, token: string, budget: nat): (r: Option<Listing<T>>)
    ensures r.Some? ==> r.value.fetched <= budget
    decreases budget
  {
    if budget == 0 then Some(Listing([], 0))
    else if token !in pages then None
    else
      var page := pages[token];
      if page.nextToken == "" then Some(Listing(page.items, 1))
      else
        match Pull(pages, page.nextToken, budget - 1)
        case None => None
        case Some(rest) => Some(Listing(page.items + rest.items, rest.fetched + 1))
  }

  /** `acc` gathered over `n` pages, followed by the listing `r`. */
  function Prepend<T>(acc: seq<T>, n: nat, r: Option<Listing<T>>): Option<Listing<T>> {
    match r
    case None => None
    case Some(l) => Some(Listing(acc + l.items, n + l.fetched))
  }

  /** The page-token loop of `list_agents` and `list_assistants`: starts
      with an empty token, appends each page's items, stops after a page
      without a next token, and never fetches more than `MaxPages`
      pages. */
  method Paginate<T>(pages: map<string, Page<T>>) returns (r: Option<Listing<T>>)
    ensures r == Pull(pages, "", MaxPages)
  {
    var items: seq<T> := [];
    var pageCount: nat := 0;
    var token := "";
    PrependNothing(Pull(pages, token, MaxPages));
    while true
      invariant pageCount <= MaxPages
      invariant Pull(pages, "", MaxPages) == Prepend(items, pageCount, Pull(pages, token, MaxPages - pageCount))
      decreases MaxPages - pageCount
    {
      pageCount := pageCount + 1;
      if pageCount > MaxPages {
        PrependExhausted(pages, token, items, pageCount - 1);
        return Some(Listing(items, pageCount - 1));
      }
      if token !in pages {
        return None;
      }
      var page := pages[token];
      PullStep(pages, token, MaxPages - pageCount + 1, items, pageCount - 1);
      items := items + page.items;
      if page.nextToken == "" {
        return Some(Listing(items, pageCount));
      }
      token := page.nextToken;
    }
  }

  /** With no budget left the listing ends with what was gathered. */
  lemma PrependExhausted<T>(pages: map<string, Page<T>>, token: string, acc: seq<T>, n: nat)
    ensures Prepend(acc, n, Pull(pages, token, 0)) == Some(Listing(acc, n))
  {
    assert acc + [] == acc;
  }

  lemma PrependNothing<T>(r: Option<Listing<T>>)
    ensures Prepend([], 0, r) == r
  {
    match r
    case None =>
    case Some(l) => assert [] + l.items == l.items;
  }

  /** One fetch of the loop: the page's items join those gathered so far,
      and the listing continues from the page's next token. */
  lemma PullStep<T>(pages: map<string, Page<T>>, token: string, budget: nat, acc: seq<T>, n: nat)
    requires budget > 0 && token in pages
    ensures var page := pages[token];
      Prepend(acc, n, Pull(pages, token, budget))
        == if page.nextToken == "" then Some(Listing(acc + page.items, n + 1))
           else Prepend(acc + page.items, n + 1, Pull(pages, page.nextToken, budget - 1))
  {
    var page := pages[token];
    if page.nextToken != "" {
      match Pull(pages, page.nextToken, budget - 1)
      case None =>
      case Some(rest) =>
        assert acc + (page.items + rest.items) == (acc + page.items) + rest.items;
    }
  }

  /** `tokens` are successive request tokens: each has a response, and
      every response but the last hands out the next token, which is not
      empty. */
  predicate Chain<T>(pages: map<string, Page<T>>, tokens: seq<string>) {
    tokens != [] ==>
      && tokens[0] in pages
      && (|tokens| > 1 ==> pages[tokens[0]].nextToken == tokens[1] && tokens[1] != "" && Chain(pages, tokens[1..]))
  }

  /** The items of the pages answering `tokens`, in order. */
  function ItemsOf<T>(pages: map<string, Page<T>>, tokens: seq<string>): seq<T> {
    if tokens == [] then []
    else (if tokens[0] in pages then pages[tokens[0]].items else []) + ItemsOf(pages, tokens[1..])
  }

  /** Following a chain of tokens, a listing holds the items of its first
      `budget` pages when the chain is at least that long, and of the
      whole chain when it ends earlier with an empty next token. */
  lemma {:induction false} PullChain<T>(pages: map<string, Page<T>>, tokens: seq<string>, budget: nat)
    requires tokens != [] && Chain(pages, tokens)
    requires budget <= |tokens|
             || (tokens[|tokens| - 1] in pages && pages[tokens[|tokens| - 1]].nextToken == "")
    ensures var n := if budget < |tokens| then budget else |tokens|;
      Pull(pages, tokens[0], budget) == Some(Listing(ItemsOf(pages, tokens[..n]), n))
    decreases budget
  {
    if budget > 0 {
      var page := pages[tokens[0]];
      if |tokens| == 1 {
        assert tokens[..1] == tokens && tokens[1..] == [];
        assert page.items + [] == page.items;
        assert ItemsOf(pages, tokens[..1]) == page.items;
        if page.nextToken != "" {
          assert budget == 1;
          assert Pull(pages, page.nextToken, budget - 1) == Some(Listing([], 0));
        }
      } else {
        var rest := tokens[1..];
        PullChain(pages, rest, budget - 1);
        var n := if budget < |tokens| then budget else |tokens|;
        assert tokens[..n][1..] == rest[..n - 1];
      }
    }
  }

  /** `items` repeated `n` times. */
  function Cycle<T>(items: seq<T>, n: nat): seq<T> {
    if n == 0 then [] else items + Cycle(items, n - 1)
  }

  /** A token whose response hands out the same token again is fetched
      exactly `budget` times. */
  lemma {:induction false} PullLoop<T>(pages: map<string, Page<T>>, token: string, budget: nat)
    requires token in pages && token != "" && pages[token].nextToken == token
    ensures Pull(pages, token, budget) == Some(Listing(Cycle(pages[token].items, budget), budget))
    decreases budget
  {
    if budget > 0 {
      PullLoop(pages, token, budget - 1);
    }
  }

  /** A service that keeps handing back the same token does not keep the
      loop going: it stops after `MaxPages` pages. */
  lemma PaginationCapped<T>(pages: map<string, Page<T>>, token: string)
    requires "" in pages && pages[""].nextToken == token
    requires token in pages && token != "" && pages[token].nextToken == token
    ensures Pull(pages, "", MaxPages) == Some(Listing(pages[""].items + Cycle(pages[token].items, MaxPages - 1), MaxPages))
  {
    PullLoop(pages, token, MaxPages - 1);
  }

  /** A conversation as the Discovery Engine returns it; the display name
      and the state may be missing. */
  datatype Conversation = Conversation(name: string, displayName: Option<string>, state: Option<string>)

  /** The fields `list_assistants` keeps of a conversation. */
  datatype AssistantInfo = AssistantInfo(name: string, displayName: string, state: string)

  function Info(c: Conversation): AssistantInfo {
    AssistantInfo(c.name, c.displayName.GetOr("N/A"), c.state.GetOr("UNKNOWN"))
  }

  function Infos(cs: seq<Conversation>): (r: seq<AssistantInfo>)
    ensures |r| == |cs| && forall k :: 0 <= k < |cs| ==> r[k] == Info(cs[k])
  {
    seq(|cs|, k requires 0 <= k < |cs| => Info(cs[k]))
  }

  /** What `list_assistants` returns: nothing without the client library
      or without an engine id; otherwise the conversations of the bounded
      listing, and nothing when a request fails. */
  function AssistantsListed(libraryAvailable: bool, engineId: Option<string>,
                            pages: map<string, Page<Conversation>>): seq<AssistantInfo> {
    if !libraryAvailable || !Truthy(engineId) then []
    else
      match Pull(pages, "", MaxPages)
      case None => []
      case Some(l) => Infos(l.items)
  }

  /** `list_assistants`. */
  method ListAssistants(libraryAvailable: bool, engineId: Option<string>,
                        pages: map<string, Page<Conversation>>) returns (assistants: seq<AssistantInfo>)
    ensures assistants == AssistantsListed(libraryAvailable, engineId, pages)
  {
    if !libraryAvailable || !Truthy(engineId) {
      return [];
    }
    var listing := Paginate(pages);
    if listing.None? {
      return [];
    }
    assistants := Infos(listing.value.items);
  }

  // ---------------------------------------------------------------------
  // create_agent

  /** The variables `create_agent` validates, in order. */
  const CreateRequiredVars: seq<string> := [
    "GCP_PROJECT_ID", "GCP_LOCATION", "GCP_STAGING_BUCKET", "CHRONICLE_PROJECT_ID",
    "CHRONICLE_CUSTOMER_ID", "CHRONICLE_SERVICE_ACCOUNT_PATH", "SOAR_URL", "SOAR_API_KEY",
    "GTI_API_KEY", "RAG_CORPUS_ID"]

  const RagCorpusVar := "RAG_CORPUS_ID"
  const ServiceAccountPathVar := "CHRONICLE_SERVICE_ACCOUNT_PATH"

  /** A character of `[a-zA-Z0-9_-]`. */
  predicate IdChar(c: char) {
    'a' <= c <= 'z' || 'A' <= c <= 'Z' || '0' <= c <= '9' || c == '_' || c == '-'
  }

  /** A corpus id: one or more of `[a-zA-Z0-9_-]`. */
  predicate CorpusId(id: string) {
    id != [] && forall k :: 0 <= k < |id| ==> IdChar(id[k])
  }

  /** The whole value is `projects/<p>/locations/<l>/ragCorpora/<id>`, the
      segments non-empty and free of `/`, the id a corpus id. */
  predicate RagCorpusIdOk(value: string) {
    var parts := Split(value, '/');
    && |parts| == 6
    && parts[0] == "projects" && parts[1] != ""
    && parts[2] == "locations" && parts[3] != ""
    && parts[4] == "ragCorpora" && CorpusId(parts[5])
  }

  /** The check as written: `re.match` with a pattern ending in `$`, which
      also matches just before a final newline. */
  predicate RagCorpusIdAsWritten(value: string) {
    RagCorpusIdOk(value) || (value != [] && value[|value| - 1] == '\n' && RagCorpusIdOk(value[..|value| - 1]))
  }

  /** Every resource name of the documented shape is accepted. */
  lemma RagCorpusIdOfParts(project: string, location: string, id: string)
    requires project != "" && '/' !in project
    requires location != "" && '/' !in location
    requires CorpusId(id)
    ensures RagCorpusIdOk(Join(["projects", project, "locations", location, "ragCorpora", id], "/"))
  {
    var parts := ["projects", project, "locations", location, "ragCorpora", id];
    SplitJoin(parts, '/');
  }

  /** Every accepted value has the documented shape. */
  lemma RagCorpusIdParts(value: string)
    requires RagCorpusIdOk(value)
    ensures var parts := Split(value, '/');
      value == Join(["projects", parts[1], "locations", parts[3], "ragCorpora", parts[5]], "/")
  {
    JoinSplit(value, '/');
    ShapedParts(Split(value, '/'));
  }

  lemma ShapedParts(parts: seq<string>)
    requires |parts| == 6 && parts[0] == "projects" && parts[2] == "locations" && parts[4] == "ragCorpora"
    ensures parts == ["projects", parts[1], "locations", parts[3], "ragCorpora", parts[5]]
  {
  }

  /** The check as written lets an accepted resource name through with a
      newline after it, which the strict format rejects. */
  lemma RagCorpusIdTrailingNewline(value: string)
    requires RagCorpusIdOk(value)
    ensures RagCorpusIdAsWritten(value + "\n")
    ensures !RagCorpusIdOk(value + "\n")
  {
    var v := value + "\n";
    assert v[..|v| - 1] == value;
    SplitLast(v, '/');
    var parts := Split(v, '/');
    if |parts| == 6 {
      assert !IdChar(parts[5][|parts[5]| - 1]);
    }
  }

  const DisplayPrefix := "SOC Agent - "

  /** The four agent modules that have a fixed display name. */
  const KnownModules: set<string> := {"soc_agent_flash", "soc_agent", "soc_agent_tier1", "soc_agent_cti"}

  /** The display name the agent is deployed under: fixed for the four
      known modules, `SOC Agent - {module}` for any other. */
  function DisplayName(agentModule: string): (r: string)
    ensures DisplayPrefix <= r
    ensures agentModule !in KnownModules ==> r == DisplayPrefix + agentModule
  {
    if agentModule == "soc_agent_flash" then "SOC Agent - Flash"
    else if agentModule == "soc_agent" then "SOC Agent - Pro"
    else if agentModule == "soc_agent_tier1" then "SOC Agent - Tier 1 Analyst"
    else if agentModule == "soc_agent_cti" then "SOC Agent - CTI Researcher"
    else DisplayPrefix + agentModule
  }

  /** Why `create_agent` returned no resource name. */
  datatype CreateFailure =
    | InvalidConfig(errors: seq<EnvValidation.ValidationError>)
    | BadRagCorpusId(value: string)
    | BadServiceAccountFile(error: EnvValidation.ValidationError)
    | ServiceAccountPathUnset
    | NoCreateAgent(agentModule: string)
    | DeployFailed

  /** The outside world of a deployment: the files that exist, the agent
      modules that import and define `create_agent`, and the resource name
      the deployment returns for a display name (none when it raises). */
  datatype World = World(existing: set<string>, modules: set<string>, deploy: string -> Option<string>)

  /** `create_agent`: variable validation, then the RAG corpus id format
      as the script checks it (one final newline let through), then the
      service-account file, then the agent module, then the
      deployment; the first failure ends it. */
  function CreateAgent(env: map<string, string>, agentModule: string, world: World): Result<string, CreateFailure> {
    var errors := EnvValidation.Findings(CreateRequiredVars, env);
    if errors != [] then Err(InvalidConfig(errors))
    else
      var rag := EnvValidation.Value(env, RagCorpusVar);
      if !RagCorpusIdAsWritten(rag) then Err(BadRagCorpusId(rag))
      else DeployWithServiceAccount(EnvValidation.Value(env, ServiceAccountPathVar), agentModule, world)
  }

  /** The steps of `create_agent` after the format check: the
      service-account path must be set and the file must pass the path
      check, then the module is imported and the agent deployed. */
  function DeployWithServiceAccount(path: string, agentModule: string, world: World): Result<string, CreateFailure> {
    if path == "" then Err(ServiceAccountPathUnset)
    else
      match EnvValidation.ValidateFilePathExists(ServiceAccountPathVar, path, world.existing)
      case Some(e) => Err(BadServiceAccountFile(e))
      case None => Deploy(agentModule, world)
  }

  /** Importing the agent module and deploying under its display name. */
  function Deploy(agentModule: string, world: World): Result<string, CreateFailure> {
    if agentModule !in world.modules then Err(NoCreateAgent(agentModule))
    else
      match world.deploy(DisplayName(agentModule))
      case None => Err(DeployFailed)
      case Some(name) => Ok(name)
  }

  /** The checks run in order, and each failure is the first one. */
  lemma CreateAgentOrder(env: map<string, string>, agentModule: string, world: World)
    ensures var errors := EnvValidation.Findings(CreateRequiredVars, env);
      errors != [] ==> CreateAgent(env, agentModule, world) == Err(InvalidConfig(errors))
    ensures var rag := EnvValidation.Value(env, RagCorpusVar);
      EnvValidation.Findings(CreateRequiredVars, env) == [] && !RagCorpusIdAsWritten(rag) ==>
        CreateAgent(env, agentModule, world) == Err(BadRagCorpusId(rag))
  {
  }

  /** An agent is created only when every check passed, and its name is
      the one the deployment returned for the module's display name. */
  lemma CreateAgentSucceeds(env: map<string, string>, agentModule: string, world: World)
    requires CreateAgent(env, agentModule, world).Ok?
    ensures EnvValidation.Findings(CreateRequiredVars, env) == []
    ensures RagCorpusIdAsWritten(EnvValidation.Value(env, RagCorpusVar))
    ensures var rag := EnvValidation.Value(env, RagCorpusVar);
      rag == [] || rag[|rag| - 1] != '\n' ==> RagCorpusIdOk(rag)
    ensures EnvValidation.Value(env, ServiceAccountPathVar) in world.existing
    ensures agentModule in world.modules
    ensures world.deploy(DisplayName(agentModule)) == Some(CreateAgent(env, agentModule, world).value)
  {
    DeploySucceeds(EnvValidation.Value(env, ServiceAccountPathVar), agentModule, world);
  }

  lemma DeploySucceeds(path: string, agentModule: string, world: World)
    requires DeployWithServiceAccount(path, agentModule, world).Ok?
    ensures path in world.existing && agentModule in world.modules
    ensures world.deploy(DisplayName(agentModule)) == Some(DeployWithServiceAccount(path, agentModule, world).value)
  {
  }

  /** After variable validation passed, the service-account path is
      always set and never a placeholder, so the "not set" error cannot
      happen and the file check can only fail for a file that does not
      exist. */
  lemma ServiceAccountCheckedForExistence(env: map<string, string>, agentModule: string, world: World)
    ensures CreateAgent(env, agentModule, world) != Err(ServiceAccountPathUnset)
    ensures var r := CreateAgent(env, agentModule, world);
      r.Err? && r.error.BadServiceAccountFile? ==>
        r.error.error.errorType == EnvValidation.Missing && env[ServiceAccountPathVar] !in world.existing
  {
    if EnvValidation.Findings(CreateRequiredVars, env) == [] {
      ValidatedPathUsable(env);
      ServiceAccountFileChecked(EnvValidation.Value(env, ServiceAccountPathVar), agentModule, world);
    }
  }

  /** Once validation passed, the service-account path is set and is not
      a placeholder. */
  lemma ValidatedPathUsable(env: map<string, string>)
    requires EnvValidation.Findings(CreateRequiredVars, env) == []
    ensures var path := EnvValidation.Value(env, ServiceAccountPathVar);
      path != "" && !EnvValidation.IsPlaceholderValue(ServiceAccountPathVar, path).0
  {
    EnvValidation.ValidIffNothingFlagged(CreateRequiredVars, env);
    ServiceAccountPathRequired();
  }

  lemma ServiceAccountPathRequired()
    ensures ServiceAccountPathVar in CreateRequiredVars
  {
    assert CreateRequiredVars[5] == ServiceAccountPathVar;
  }

  /** For a set path that is not a placeholder, the file check can only
      fail because the file does not exist. */
  lemma ServiceAccountFileChecked(path: string, agentModule: string, world: World)
    requires path != "" && !EnvValidation.IsPlaceholderValue(ServiceAccountPathVar, path).0
    ensures DeployWithServiceAccount(path, agentModule, world) != Err(ServiceAccountPathUnset)
    ensures var r := DeployWithServiceAccount(path, agentModule, world);
      r.Err? && r.error.BadServiceAccountFile? ==>
        r.error.error.errorType == EnvValidation.Missing && path !in world.existing
  {
  }

  // ---------------------------------------------------------------------
  // Deleting by index

  /** `agents[index - 1]` for a 1-based index, or nothing when the index
      is out of range. */
  function SelectByIndex<T>(agents: seq<T>, index: int): (r: Option<T>)
    ensures r.Some? <==> 1 <= index <= |agents|
    ensures r.Some? ==> r.value == agents[index - 1]
  {
    if index < 1 || index > |agents| then None else Some(agents[index - 1])
  }

  /** The deployed reasoning engines, by resource name. */
  class ReasoningEngines {
    var names: set<string>

    constructor(names: set<string>)
      ensures this.names == names
    {
      this.names := names;
    }

    /** `delete_agent`: fails when the engine cannot be fetched or the
        deletion is not confirmed; otherwise removes it. `failing` holds
        the resource names whose `delete_reasoning_engine` raises; such a
        deletion returns false and removes nothing. */
    method DeleteAgent(resourceName: string, force: bool, confirmed: bool, failing: set<string>) returns (deleted: bool)
      modifies this
      ensures deleted <==> resourceName in old(names) && (force || confirmed) && resourceName !in failing
      ensures names == if deleted then old(names) - {resourceName} else old(names)
    {
      if resourceName !in names {
        return false;
      }
      if !force && !confirmed {
        return false;
      }
      if resourceName in failing {
        return false;
      }
      names := names - {resourceName};
      return true;
    }

    /** `delete_agent_by_index`: an index outside `1..len(agents)` deletes
        nothing; otherwise the agent at `index - 1` is deleted. */
    method DeleteAgentByIndex(agents: seq<string>, index: int, force: bool, confirmed: bool, failing: set<string>)
      returns (deleted: bool)
      modifies this
      ensures SelectByIndex(agents, index).None? ==> !deleted && names == old(names)
      ensures SelectByIndex(agents, index).Some? ==>
        var name := agents[index - 1];
        && (deleted <==> name in old(names) && (force || confirmed) && name !in failing)
        && names == if deleted then old(names) - {name} else old(names)
    {
      if |agents| == 0 {
        return false;
      }
      var chosen := SelectByIndex(agents, index);
      if chosen.None? {
        return false;
      }
      deleted := DeleteAgent(chosen.value, force, confirmed, failing);
    }
  }

  // ---------------------------------------------------------------------
  // Inspecting an agent

  const SensitiveMarkers: seq<string> := ["KEY", "SECRET", "PASSWORD", "TOKEN"]

  const Mask := "********"

  /** The upper-cased name contains one of the markers. */
  predicate Sensitive(name: string) {
    exists k :: 0 <= k < |SensitiveMarkers| && Contains(Upper(name), SensitiveMarkers[k])
  }

  /** The value `inspect_agent` shows for an environment entry. */
  function ShownValue(name: string, value: string): (r: string)
    ensures Sensitive(name) ==> r == Mask && |r| == 8
    ensures !Sensitive(name) ==> r == value
  {
    if Sensitive(name) then Mask else value
  }

  /** What is shown for a sensitive entry does not depend on its value. */
  lemma MaskHidesValue(name: string, v1: string, v2: string)
    requires Sensitive(name)
    ensures ShownValue(name, v1) == ShownValue(name, v2)
  {
  }

  lemma UpperOfLower(s: string)
    ensures Upper(Lower(s)) == Upper(s)
  {
    assert forall k :: 0 <= k < |s| ==> UpperChar(LowerChar(s[k])) == UpperChar(s[k]);
  }

  /** The test ignores the case of the name. */
  lemma SensitiveIgnoresCase(name: string)
    ensures Sensitive(Lower(name)) <==> Sensitive(name)
  {
    UpperOfLower(name);
  }

  /** The secrets `create_agent` deploys, `SOAR_APP_KEY` and `VT_APIKEY`,
      are masked. */
  lemma DeployedSecretsMasked()
    ensures Sensitive("SOAR_APP_KEY") && Sensitive("VT_APIKEY")
  {
    assert Upper("SOAR_APP_KEY") == "SOAR_APP_KEY";
    assert OccursAt(Upper("SOAR_APP_KEY"), SensitiveMarkers[0], 9);
    assert Upper("VT_APIKEY") == "VT_APIKEY";
    assert OccursAt(Upper("VT_APIKEY"), SensitiveMarkers[0], 6);
  }

  // ---------------------------------------------------------------------
  // The engine id

  /** The engine id printed after creation: the text after the last `/`,
      or the whole name when it has none. */
  function EngineId(resourceName: string): (r: string)
    ensures '/' !in r
    ensures |r| <= |resourceName| && r == resourceName[|resourceName| - |r|..]
  {
    if '/' in resourceName then LastPiece(resourceName, '/') else resourceName
  }

  /** The `/` test is redundant: the id is always the last piece. */
  lemma EngineIdIsLastPiece(resourceName: string)
    ensures EngineId(resourceName) == LastPiece(resourceName, '/')
  {
    LastPieceSeparator(resourceName, '/');
  }

  /** The id of `{parent}/{id}` is `id` when `id` holds no `/`. */
  lemma EngineIdOfResource(parent: string, id: string)
    requires '/' !in id
    ensures EngineId(parent + "/" + id) == id
  {
    LastPieceAfter(parent, id, '/');
    assert parent + "/" + id == parent + ['/'] + id;
    assert (parent + "/" + id)[|parent|] == '/';
  }
}
