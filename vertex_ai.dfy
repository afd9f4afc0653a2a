/** Setup verification of the Vertex AI manager
    (installation_scripts/manage_vertex_ai.py): the environment check that
    reuses the placeholder classifier, the aggregation of the individual
    checks into one verdict, the API-state rule, the location used to
    initialise Vertex AI, and the role computation of the permission check.
    Each remote call is an injected outcome. */
module VertexAi {
  import opened Wrappers
  import opened Strings
  import EnvValidation
  import Iam

  const ProjectIdVar := "GCP_PROJECT_ID"
  const LocationVar := "GCP_LOCATION"
  const RagLocationVar := "RAG_GCP_LOCATION"

  /** The variables `_check_env_vars` requires, in the order it checks them. */
  const RequiredVars: seq<string> := [ProjectIdVar, LocationVar]

  /** `REQUIRED_APIS`. */
  const RequiredApis: seq<string> :=
    ["aiplatform.googleapis.com", "storage.googleapis.com", "cloudbuild.googleapis.com", "compute.googleapis.com"]

  /** `REQUIRED_ROLES`. */
  const RequiredRoles: seq<string> := ["roles/aiplatform.user", "roles/storage.admin"]

  // ---------------------------------------------------------------------
  // Environment variables

  /** The value `_check_env_vars` accepts for `name`: present, not empty
      and not a placeholder. */
  function Accepted(env: map<string, string>, name: string): Option<string> {
    var value := EnvValidation.Value(env, name);
    if value != "" && !EnvValidation.IsPlaceholderValue(name, value).0 then Some(value) else None
  }

  /** The optional RAG location is unset, empty, or not a placeholder. */
  predicate RagLocationOk(env: map<string, string>) {
    var rag := EnvValidation.Value(env, RagLocationVar);
    rag == "" || !EnvValidation.IsPlaceholderValue(RagLocationVar, rag).0
  }

  /** The verdict of `_check_env_vars`. */
  predicate EnvOk(env: map<string, string>) {
    Accepted(env, ProjectIdVar).Some? && Accepted(env, LocationVar).Some? && RagLocationOk(env)
  }

  /** The attribute after the check: the accepted value, else what it held. */
  function Stored(env: map<string, string>, name: string, prior: Option<string>): Option<string> {
    if Accepted(env, name).Some? then Accepted(env, name) else prior
  }

  /** An unset or empty `RAG_GCP_LOCATION` never makes the check fail. */
  lemma RagLocationOptional(env: map<string, string>)
    requires EnvValidation.Value(env, RagLocationVar) == ""
    ensures EnvOk(env) <==> Accepted(env, ProjectIdVar).Some? && Accepted(env, LocationVar).Some?
  {
  }

  /** A placeholder `RAG_GCP_LOCATION` always makes the check fail, even
      though the variable is optional. */
  lemma RagPlaceholderFails(env: map<string, string>)
    requires RagLocationVar in env
    requires EnvValidation.IsPlaceholderValue(RagLocationVar, env[RagLocationVar]).0
    ensures !EnvOk(env)
  {
  }

  // ---------------------------------------------------------------------
  // Vertex AI initialisation

  /** `env_vars.get("RAG_GCP_LOCATION") or self.location`. */
  function InitLocation(env: map<string, string>, location: Option<string>): (r: Option<string>)
    ensures EnvValidation.Value(env, RagLocationVar) != "" ==> r == Some(env[RagLocationVar])
    ensures EnvValidation.Value(env, RagLocationVar) == "" ==> r == location
  {
    var rag := EnvValidation.Value(env, RagLocationVar);
    if rag != "" then Some(rag) else location
  }

  /** Once the environment check passed, Vertex AI is initialised with a
      location that is set and is not a placeholder: the RAG location when
      one is given, otherwise the accepted `GCP_LOCATION`. */
  lemma InitLocationChecked(env: map<string, string>, prior: Option<string>)
    requires EnvOk(env)
    ensures var l := InitLocation(env, Stored(env, LocationVar, prior));
      && l.Some? && l.value != ""
      && (EnvValidation.Value(env, RagLocationVar) != "" ==>
            !EnvValidation.IsPlaceholderValue(RagLocationVar, l.value).0)
      && (EnvValidation.Value(env, RagLocationVar) == "" ==>
            l == Some(env[LocationVar]) && !EnvValidation.IsPlaceholderValue(LocationVar, l.value).0)
  {
  }

  // ---------------------------------------------------------------------
  // API enablement

  /** What `_is_api_enabled` gets back: the service's reply with its
      optional `state` field, a missing client library, or a call that
      raised any other exception. */
  datatype ApiProbe = Reply(state: Option<string>) | LibraryMissing | CallFailed

  /** `_is_api_enabled`: an API counts as enabled exactly when its state is
      `ENABLED`; without the client library it is assumed enabled, and any
      other failure counts as not enabled. */
  function IsApiEnabled(p: ApiProbe): (r: bool)
    ensures p.Reply? ==> (r <==> p.state == Some("ENABLED"))
    ensures p == CallFailed ==> !r
    ensures p == LibraryMissing ==> r
  {
    match p
    case Reply(state) => state == Some("ENABLED")
    case LibraryMissing => true
    case CallFailed => false
  }

  /** Every required API counts as enabled. */
  predicate AllApisEnabled(probe: string -> ApiProbe) {
    forall k :: 0 <= k < |RequiredApis| ==> IsApiEnabled(probe(RequiredApis[k]))
  }

  /** `_check_apis`: looks at every required API and passes exactly when
      all of them are enabled. */
  method CheckApis(probe: string -> ApiProbe) returns (allEnabled: bool)
    ensures allEnabled <==> AllApisEnabled(probe)
  {
    allEnabled := true;
    for i := 0 to |RequiredApis|
      invariant allEnabled <==> forall k :: 0 <= k < i ==> IsApiEnabled(probe(RequiredApis[k]))
    {
      if !IsApiEnabled(probe(RequiredApis[i])) {
        allEnabled := false;
      }
    }
  }

  // ---------------------------------------------------------------------
  // IAM permissions

  const ServiceAccountDomain := ".iam.gserviceaccount.com"

  /** The email looks like a service account's. */
  predicate ServiceAccountLike(email: string) {
    Contains(email, "@") && Contains(email, ServiceAccountDomain)
  }

  /** The member identifiers under which the caller may appear in the
      policy: `user:{email}` whenever an email is known, and also
      `serviceAccount:{email}` when the email looks like a service
      account's. */
  function MemberIdentifiers(email: Option<string>): (ids: seq<string>)
    ensures !Truthy(email) ==> ids == []
    ensures Truthy(email) ==> |ids| >= 1 && ids[0] == "user:" + email.value
    ensures Truthy(email) ==> (Iam.MemberOf(email.value) in ids <==> ServiceAccountLike(email.value))
    ensures |ids| <= 2
  {
    if !Truthy(email) then []
    else
      var e := email.value;
      assert ("user:" + e)[..5] == "user:" && Iam.MemberOf(e)[..5] == "servi";
      ["user:" + e] + (if ServiceAccountLike(e) then [Iam.MemberOf(e)] else [])
  }

  /** One of the binding's members is one of the identifiers. */
  predicate HeldBy(b: Iam.Binding, ids: seq<string>) {
    exists j :: 0 <= j < |b.members| && b.members[j] in ids
  }

  /** The roles of the bindings that name the caller. */
  function RolesOf(bindings: seq<Iam.Binding>, ids: seq<string>): set<string>
  {
    if bindings == [] then {}
    else
      var last := bindings[|bindings| - 1];
      RolesOf(bindings[..|bindings| - 1], ids) + (if HeldBy(last, ids) then {last.role} else {})
  }

  /** A role is among the caller's roles exactly when some binding for it
      has one of the caller's identifiers among its members. */
  lemma {:induction false} RolesOfIff(bindings: seq<Iam.Binding>, ids: seq<string>, role: string)
    ensures role in RolesOf(bindings, ids) <==>
      exists k :: 0 <= k < |bindings| && bindings[k].role == role && HeldBy(bindings[k], ids)
    decreases |bindings|
  {
    if bindings != [] {
      var init := bindings[..|bindings| - 1];
      RolesOfIff(init, ids, role);
      if exists k :: 0 <= k < |init| && init[k].role == role && HeldBy(init[k], ids) {
        var k :| 0 <= k < |init| && init[k].role == role && HeldBy(init[k], ids);
        assert bindings[k] == init[k];
      }
      if exists k :: 0 <= k < |bindings| && bindings[k].role == role && HeldBy(bindings[k], ids) {
        var k :| 0 <= k < |bindings| && bindings[k].role == role && HeldBy(bindings[k], ids);
        if k < |init| {
          assert init[k] == bindings[k];
        }
      }
    }
  }

  /** Without a known email there are no identifiers, so no role is found
      and the permission check cannot pass. */
  lemma {:induction false} NoEmailNoRoles(bindings: seq<Iam.Binding>, email: Option<string>)
    requires !Truthy(email)
    ensures RolesOf(bindings, MemberIdentifiers(email)) == {}
    decreases |bindings|
  {
    if bindings != [] {
      NoEmailNoRoles(bindings[..|bindings| - 1], email);
    }
  }

  /** A service account that holds a role through a `serviceAccount:`
      binding is seen with that role. */
  lemma ServiceAccountRoleSeen(bindings: seq<Iam.Binding>, email: string, role: string)
    requires email != "" && ServiceAccountLike(email)
    requires Iam.Grants(bindings, role, Iam.MemberOf(email))
    ensures role in RolesOf(bindings, MemberIdentifiers(Some(email)))
  {
    var ids := MemberIdentifiers(Some(email));
    var b :| b in bindings && b.role == role && Iam.MemberOf(email) in b.members;
    var k :| 0 <= k < |bindings| && bindings[k] == b;
    var j :| 0 <= j < |b.members| && b.members[j] == Iam.MemberOf(email);
    assert HeldBy(bindings[k], ids);
    RolesOfIff(bindings, ids, role);
  }

  /** The first `j` members of the binding include one of the identifiers. */
  predicate HeldWithin(b: Iam.Binding, ids: seq<string>, j: nat)
    requires j <= |b.members|
  {
    exists i :: 0 <= i < j && b.members[i] in ids
  }

  /** The inner loop of the role computation: adds the binding's role once
      for each member that is one of the identifiers. */
  method AddHeldRole(roles: set<string>, b: Iam.Binding, ids: seq<string>) returns (roles': set<string>)
    ensures roles' == roles + (if HeldBy(b, ids) then {b.role} else {})
  {
    roles' := roles;
    for j := 0 to |b.members|
      invariant roles' == roles + (if HeldWithin(b, ids, j) then {b.role} else {})
    {
      if b.members[j] in ids {
        roles' := roles' + {b.role};
      }
    }
  }

  /** `user_roles`: the nested loop over the bindings and their members. */
  method UserRoles(bindings: seq<Iam.Binding>, ids: seq<string>) returns (roles: set<string>)
    ensures roles == RolesOf(bindings, ids)
  {
    roles := {};
    for i := 0 to |bindings|
      invariant roles == RolesOf(bindings[..i], ids)
    {
      assert bindings[..i + 1][..i] == bindings[..i];
      roles := AddHeldRole(roles, bindings[i], ids);
    }
    assert bindings[..|bindings|] == bindings;
  }

  /** Every required role is among `roles`. */
  predicate RolesPresent(roles: set<string>) {
    forall k :: 0 <= k < |RequiredRoles| ==> RequiredRoles[k] in roles
  }

  /** What `_check_permissions` gets to work with: no resource-manager
      library, no credentials, a policy fetch that raised, or the caller's
      email (when it could be determined) and the project's bindings. */
  datatype PermissionProbe =
    | NoLibrary
    | NoCredentials
    | PolicyFailed
    | Policy(email: Option<string>, bindings: seq<Iam.Binding>)

  /** `_check_permissions`: true when the check cannot be made, and
      otherwise exactly when the caller holds every required role. */
  method CheckPermissions(probe: PermissionProbe) returns (allRolesPresent: bool)
    ensures !probe.Policy? ==> allRolesPresent
    ensures probe.Policy? ==>
      (allRolesPresent <==> RolesPresent(RolesOf(probe.bindings, MemberIdentifiers(probe.email))))
  {
    if !probe.Policy? {
      return true;
    }
    var ids := MemberIdentifiers(probe.email);
    var userRoles := UserRoles(probe.bindings, ids);
    allRolesPresent := true;
    for i := 0 to |RequiredRoles|
      invariant allRolesPresent <==> forall k :: 0 <= k < i ==> RequiredRoles[k] in userRoles
    {
      if RequiredRoles[i] !in userRoles {
        allRolesPresent := false;
      }
    }
  }

  // ---------------------------------------------------------------------
  // The overall verification

  /** The checks `verify_setup` runs. */
  datatype Check = EnvVars | Authentication | ProjectAccess | Apis | VertexInit | Permissions

  /** The outcomes of the remote checks: authentication, project access,
      the state of each API, Vertex AI initialisation for a location, and
      what the permission check sees. */
  datatype Cloud = Cloud(
    authOk: bool,
    projectOk: bool,
    apis: string -> ApiProbe,
    initOk: Option<string> -> bool,
    permissions: PermissionProbe)

  /** The checks run, in order: authentication failure ends the run, the
      API check is skipped on request, and so is the permission check. */
  function Steps(skipApis: bool, skipPermissions: bool, authOk: bool): seq<Check> {
    [EnvVars] + RemoteSteps(skipApis, skipPermissions, authOk)
  }

  /** The checks run after the environment check. */
  function RemoteSteps(skipApis: bool, skipPermissions: bool, authOk: bool): seq<Check> {
    [Authentication]
    + if !authOk then []
      else [ProjectAccess] + (if skipApis then [] else [Apis]) + [VertexInit]
           + (if skipPermissions then [] else [Permissions])
  }

  /** The verdict of `verify_setup`: every check passed, except the API
      check when skipped. The permission check never takes part. Vertex AI
      is initialised with the location the manager holds after the
      environment check. */
  predicate Verdict(env: map<string, string>, skipApis: bool, cloud: Cloud, priorLocation: Option<string>) {
    EnvOk(env) && RemoteOk(env, skipApis, cloud, Stored(env, LocationVar, priorLocation))
  }

  /** Every check after the environment check passed, Vertex AI being
      initialised with `location` unless a RAG location is set. */
  predicate RemoteOk(env: map<string, string>, skipApis: bool, cloud: Cloud, location: Option<string>) {
    cloud.authOk && cloud.projectOk && (skipApis || AllApisEnabled(cloud.apis))
    && cloud.initOk(InitLocation(env, location))
  }

  /** A failed authentication stops the run after the second check, and
      the verdict is false. */
  lemma AuthFailureStopsEarly(env: map<string, string>, skipApis: bool, skipPermissions: bool, cloud: Cloud,
                               priorLocation: Option<string>)
    requires !cloud.authOk
    ensures Steps(skipApis, skipPermissions, cloud.authOk) == [EnvVars, Authentication]
    ensures !Verdict(env, skipApis, cloud, priorLocation)
  {
  }

  /** The API check runs exactly when authentication succeeded and it was
      not skipped; the permission check likewise. */
  lemma {:induction false} OptionalChecksRun(skipApis: bool, skipPermissions: bool, authOk: bool)
    ensures Apis in Steps(skipApis, skipPermissions, authOk) <==> authOk && !skipApis
    ensures Permissions in Steps(skipApis, skipPermissions, authOk) <==> authOk && !skipPermissions
  {
    var s := Steps(skipApis, skipPermissions, authOk);
    if authOk {
      var mid := if skipApis then [] else [Apis];
      var tail := if skipPermissions then [] else [Permissions];
      assert s == [EnvVars, Authentication, ProjectAccess] + mid + [VertexInit] + tail;
    }
  }

  /** Whatever the permission check would say, and whether it runs at all,
      the verdict is the same. */
  lemma PermissionsNeverDecide(env: map<string, string>, skipApis: bool, cloud: Cloud, other: PermissionProbe,
                               priorLocation: Option<string>)
    ensures Verdict(env, skipApis, cloud, priorLocation)
         == Verdict(env, skipApis, cloud.(permissions := other), priorLocation)
  {
  }

  /** The manager: the loaded variables and the project and location the
      environment check accepted. */
  class VertexAiManager {
    const envVars: map<string, string>
    var projectId: Option<string>
    var location: Option<string>

    constructor(envVars: map<string, string>)
      ensures this.envVars == envVars && projectId == None && location == None
    {
      this.envVars := envVars;
      projectId := None;
      location := None;
    }

    /** `_check_env_vars`: both required variables must be set and not
        placeholders, and only accepted values are stored; the optional
        RAG location fails the check only when it is a placeholder. */
    method CheckEnvVars() returns (allValid: bool)
      modifies this
      ensures allValid <==> EnvOk(envVars)
      ensures projectId == Stored(envVars, ProjectIdVar, old(projectId))
      ensures location == Stored(envVars, LocationVar, old(location))
    {
      allValid := true;
      assert RequiredVars[0] == ProjectIdVar && RequiredVars[1] == LocationVar && ProjectIdVar != LocationVar;
      for i := 0 to |RequiredVars|
        invariant allValid <==> (i > 0 ==> Accepted(envVars, ProjectIdVar).Some?)
                                && (i > 1 ==> Accepted(envVars, LocationVar).Some?)
        invariant projectId == if i > 0 then Stored(envVars, ProjectIdVar, old(projectId)) else old(projectId)
        invariant location == if i > 1 then Stored(envVars, LocationVar, old(location)) else old(location)
      {
        var name := RequiredVars[i];
        var accepted := CheckRequired(name);
        if accepted.None? {
          allValid := false;
        } else if name == ProjectIdVar {
          projectId := accepted;
        } else if name == LocationVar {
          location := accepted;
        }
      }
      var ragOk := CheckRagLocation();
      if !ragOk {
        allValid := false;
      }
    }

    /** One variable of `_check_env_vars`: its value when it is set and
        not a placeholder. */
    method CheckRequired(name: string) returns (accepted: Option<string>)
      ensures accepted == Accepted(envVars, name)
      ensures accepted.Some? ==> name in envVars && accepted.value == envVars[name] && accepted.value != ""
    {
      var value := EnvValidation.Value(envVars, name);
      if value == "" {
        return None;
      }
      var verdict := EnvValidation.IsPlaceholderValue(name, value);
      if verdict.0 {
        return None;
      }
      return Some(value);
    }

    /** The optional `RAG_GCP_LOCATION` of `_check_env_vars`: fails only
        for a placeholder value. */
    method CheckRagLocation() returns (ok: bool)
      ensures ok == RagLocationOk(envVars)
    {
      var rag := EnvValidation.Value(envVars, RagLocationVar);
      ok := true;
      if rag != "" {
        var verdict := EnvValidation.IsPlaceholderValue(RagLocationVar, rag);
        if verdict.0 {
          ok := false;
        }
      }
    }

    /** `verify_setup`: runs the checks in order and passes exactly when
        the verdict holds; the permission check runs for information only. */
    method VerifySetup(skipApis: bool, skipPermissions: bool, cloud: Cloud) returns (allPassed: bool, ran: seq<Check>)
      modifies this
      ensures allPassed == Verdict(envVars, skipApis, cloud, old(location))
      ensures ran == Steps(skipApis, skipPermissions, cloud.authOk)
      ensures projectId == Stored(envVars, ProjectIdVar, old(projectId))
      ensures location == Stored(envVars, LocationVar, old(location))
    {
      allPassed := true;
      ran := [EnvVars];
      var envOk := CheckEnvVars();
      if !envOk {
        allPassed := false;
      }
      var remoteOk, remoteRan := RemoteChecks(skipApis, skipPermissions, cloud);
      ran := ran + remoteRan;
      if !remoteOk {
        allPassed := false;
      }
    }

    /** The checks of `verify_setup` after the environment check, with the
        location the manager now holds. */
    method RemoteChecks(skipApis: bool, skipPermissions: bool, cloud: Cloud) returns (ok: bool, ran: seq<Check>)
      ensures ok == RemoteOk(envVars, skipApis, cloud, location)
      ensures ran == RemoteSteps(skipApis, skipPermissions, cloud.authOk)
    {
      if !cloud.authOk {
        return false, [Authentication];
      }
      var apisOk := true;
      var apiSteps: seq<Check> := [];
      if !skipApis {
        apiSteps := [Apis];
        apisOk := CheckApis(cloud.apis);
      }
      var initOk := cloud.initOk(InitLocation(envVars, location));
      var permissionSteps: seq<Check> := [];
      if !skipPermissions {
        permissionSteps := [Permissions];
        var _ := CheckPermissions(cloud.permissions);
      }
      ok := cloud.projectOk && apisOk && initOk;
      ran := [Authentication] + [ProjectAccess] + apiSteps + [VertexInit] + permissionSteps;
    }
  }
}
