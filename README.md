# Agentic SOC installation scripts — a Dafny model

The installation scripts set up a security-operations (SOC) agent on Google
Cloud. They check the `.env` configuration for missing and placeholder
values, grant IAM roles to the Google-managed service accounts, register the
agent with AgentSpace (Discovery Engine) and write ids back into `.env`,
create the OAuth authorization, upload RAG documents to Cloud Storage,
verify the Vertex AI setup, and list, create, inspect and delete Agent Engine
deployments.

The model keeps the logic inside those scripts and replaces every remote
service with an injected value or a small in-memory store:

- `EnvValidation` (`env_validation.py`) holds the placeholder classifier, the
  ordered findings of `validate_env_vars`, the report formatter and the file
  path check. These are functions, lemmas and loop methods.
- `Iam` (`manage_iam.py`) holds a class `IamManager`. Its `policy` field is
  the project's IAM policy, a sequence of role bindings, which add, remove,
  setup, verify and list read and replace. A role that raises during setup is
  an injected fault, keyed by the role's description.
- `EnvFile` models `_update_env_var`, which `manage_agentspace.py` and
  `manage_oauth.py` share. The `.env` text is cut after every `\n`, as
  `readlines` does for a file without carriage returns. The first entry line
  for the key is replaced; otherwise `key=value\n` is appended after the last
  line as that line stands. The in-memory variables are updated as well.
  `UpdatedLines` and `UpdatedText` are the intended update, which first ends
  an unterminated last line with a newline. Most lemmas are stated for the
  intended update. `AsWrittenAgrees` and `AsWrittenAllAgrees` carry those
  lemmas over to the scripts' update for a file that ends with a newline, or
  whose key already has an entry (see Findings).
- `AgentSpace` (`manage_agentspace.py`) holds the URL and config builders,
  the registration guards, the update mask, the app request and the
  data-store merge. Its class `AgentSpaceManager` writes ids through an
  `EnvFile`.
- `OAuth` (`manage_oauth.py`) holds the client-section choice, scope parsing,
  auth-id resolution and the `.env` writes of `create_authorization`,
  `setup` and `create-auth`.
- `DiscoveryEngine` holds the authorization resource names that the two
  managers share.
- `Gcs` (`manage_gcs.py`) holds the ordered file checks, bucket resolution,
  blob and `gs://` names, and `GcsStore`. Its `buckets` field maps each bucket
  to its set of blob names, and uploads and deletions change it.
- `VertexAi` (`manage_vertex_ai.py`) holds the environment checks, the
  aggregation of `verify_setup`, the API state rule, the init location and
  the permission check's role computation. Every remote answer is an input.
- `AgentEngine` (`manage_agent_engine.py`) holds the 50-page token loop, the
  `create_agent` validation sequence, the display names, index selection,
  `ReasoningEngines` (the set of deployed engine names that delete changes),
  secret masking and engine-id extraction.
- `Strings`, `Sorting` and `Wrappers` are the Python string operations,
  `sorted` on strings and `Option`/`Result` that the rest uses.

Three details of the code that the model follows:

- An exact placeholder match reports `matches .env.example placeholder: '<value>'`.
- The `your-[a-z-]+` rule is a `re.search`, so it matches anywhere in the value.
- An empty value is classified `(False, None)` by `is_placeholder_value`; it is
  reported as missing only by `validate_env_vars`.

## Model

| member | source | states |
|---|---|---|
| EnvValidation.IsPlaceholderValue | installation_scripts/env_validation.py:50-77 | an empty value gives (false, None); the flag holds exactly when a reason is given; an exact table match wins and quotes the placeholder; otherwise the value is flagged iff some pattern rule matches, and the reason names the first rule that matches |
| EnvValidation.FirstMatchFrom | installation_scripts/env_validation.py:72-75 | returns the first pattern rule at or after `from` that matches, none before it matches, and None only when no later rule matches |
| EnvValidation.FindingFor | installation_scripts/env_validation.py:102-128 | a variable gets a finding exactly when it is missing, empty or a placeholder |
| EnvValidation.Findings | installation_scripts/env_validation.py:100-128 | the findings in input order; `FindingsSound`, `FindingsComplete` and `FindingsAppend` characterise it and `ValidateEnvVars` is proved against it |
| EnvValidation.ValidateEnvVars | installation_scripts/env_validation.py:80-130 | the loop returns the findings of the required variables in order, and is_valid holds iff there are none |
| EnvValidation.FindingsAppend | installation_scripts/env_validation.py:100-128 | the findings of a concatenation are the findings of each part, in order |
| EnvValidation.FindingsAtMostOnePerVariable | installation_scripts/env_validation.py:100-128 | there are never more findings than required variables |
| EnvValidation.FindingsSound | installation_scripts/env_validation.py:102-127 | each finding names a required, flagged variable; it is Missing iff the value is empty, a missing finding carries "" and a placeholder finding carries the value |
| EnvValidation.FindingsComplete | installation_scripts/env_validation.py:102-127 | every flagged required variable has a finding |
| EnvValidation.ValidIffNothingFlagged | installation_scripts/env_validation.py:129-130 | no findings iff no required variable is flagged |
| EnvValidation.Truncated | installation_scripts/env_validation.py:165-170 | values up to 50 characters are shown whole; longer ones as their first 47 characters and "..." |
| EnvValidation.OfType | installation_scripts/env_validation.py:151-152 | keeps exactly the findings of the given kind |
| EnvValidation.OfTypeAppend | installation_scripts/env_validation.py:151-152 | grouping by kind keeps the input order |
| EnvValidation.MissingSectionOf | installation_scripts/env_validation.py:154-158 | the loop builds the heading, one line per missing variable in order, and a blank line |
| EnvValidation.PlaceholderSectionOf | installation_scripts/env_validation.py:160-172 | the loop builds the heading, one line per placeholder (value truncated) in order, and a blank line |
| EnvValidation.FormatValidationErrors | installation_scripts/env_validation.py:133-181 | the report is the header, the missing group, the placeholder group and the footer, joined by newlines |
| EnvValidation.Report | installation_scripts/env_validation.py:133-181 | the report text; `ReportEmptyIff`, `ReportPositions` and `FormatValidationErrors` state it |
| EnvValidation.ReportEmptyIff | installation_scripts/env_validation.py:143-144 | the report is "" exactly when there are no findings |
| EnvValidation.ReportPositions | installation_scripts/env_validation.py:151-181 | the k-th missing finding and the k-th placeholder finding sit at fixed line positions, in their original order |
| EnvValidation.MissingListedBeforePlaceholders | installation_scripts/env_validation.py:151-181 | every missing variable's line comes before every placeholder's line |
| EnvValidation.ValidateFilePathExists | installation_scripts/env_validation.py:184-214 | None exactly for an existing non-placeholder path; a placeholder is reported as such before existence is looked at; a missing file gives "File does not exist: <path>" |
| Iam.ServiceOfEmail | installation_scripts/manage_iam.py:82-92 | the service can be read back from `service-{number}@gcp-sa-{service}.iam.gserviceaccount.com` |
| Iam.ServiceAccountEmailInjective | installation_scripts/manage_iam.py:82-92 | different services give different emails |
| Iam.MemberOfInjective | installation_scripts/manage_iam.py:122 | `serviceAccount:{email}` determines the email |
| Iam.ServiceAccountEmail | installation_scripts/manage_iam.py:82-92 | the service agent email; `ServiceOfEmail` and `ServiceAccountEmailInjective` state it |
| Iam.FirstWithRole | installation_scripts/manage_iam.py:141-145 | finds the first binding with the role, or None when no binding has it |
| Iam.FirstGrant | installation_scripts/manage_iam.py:175-176 | finds the first binding with the role that holds the member, or None iff the pair is not granted |
| Iam.WithMemberGrants | installation_scripts/manage_iam.py:136-152 | after adding, a pair is granted iff it was granted before or is the added pair |
| Iam.AddedOnce | installation_scripts/manage_iam.py:136-152 | adding a pair that was absent grants it in exactly one binding |
| Iam.WithMember | installation_scripts/manage_iam.py:136-152 | the policy after an add; `WithMemberGrants` and `AddedOnce` state it |
| Iam.RemoveFirst | installation_scripts/manage_iam.py:179-182 | removes one occurrence: the multiset loses exactly that element |
| Iam.WithoutMember | installation_scripts/manage_iam.py:168-193 | removal is possible iff the pair is granted |
| Iam.WithoutMemberShape | installation_scripts/manage_iam.py:173-193 | after removal, exactly the non-empty bindings of the trimmed policy are left |
| Iam.WithoutMemberKeepsOthers | installation_scripts/manage_iam.py:168-193 | removal changes the grant of no other (role, member) pair |
| Iam.WithoutMemberRevokes | installation_scripts/manage_iam.py:173-193 | when one binding grants the pair, it is no longer granted afterwards |
| Iam.AddThenRemoveRestoresGrants | installation_scripts/manage_iam.py:108-193 | adding an absent pair and then removing it gives back exactly the original grants |
| Iam.RoleItems | installation_scripts/manage_iam.py:256-258 | one setup item per role of a service, in list order |
| Iam.Step | installation_scripts/manage_iam.py:256-287 | one role of the setup: failed on a fault, existing when granted, otherwise added; `SetupPair` is proved against it |
| Iam.Run | installation_scripts/manage_iam.py:246-290 | the setup over a list of items; `RunCounts`, `RealRunGrants` and `DryRunKeepsPolicy` state it |
| Iam.RunCounts | installation_scripts/manage_iam.py:246-290 | each item lands in exactly one of added, existing and failed |
| Iam.DryRunKeepsPolicy | installation_scripts/manage_iam.py:133-134 | a dry-run setup never changes the policy |
| Iam.RealRunGrants | installation_scripts/manage_iam.py:246-290 | after a real setup a pair is granted iff it was before or some non-failing item targets it |
| Iam.DryRunReportsLikeRealRun | installation_scripts/manage_iam.py:246-290 | with distinct pairs, a dry run reports the same added/existing/failed lists as a real run |
| Iam.RealRunGrantsAll | installation_scripts/manage_iam.py:246-290 | without faults, every required pair is granted after a real setup |
| Iam.RunAllExisting | installation_scripts/manage_iam.py:261-268 | when every pair is granted already, setup adds nothing, lists every label as existing and keeps the policy |
| Iam.SecondSetupAddsNothing | installation_scripts/manage_iam.py:246-290 | a second setup after a fault-free real setup adds nothing and lists every label as existing |
| Iam.RequiredPairsDistinct | installation_scripts/manage_iam.py:231-244 | the required permission table names no (role, member) pair twice |
| Iam.StatusMapKeys | installation_scripts/manage_iam.py:292-323 | the verification map has exactly one key per requirement label |
| Iam.StatusAllTrue | installation_scripts/manage_iam.py:292-323 | every label is true when every pair is granted |
| Iam.VerifyAfterSetup | installation_scripts/manage_iam.py:215-323 | verification after a fault-free real setup reports every label true |
| Iam.RolesOfGrants | installation_scripts/manage_iam.py:339-344 | a role is listed for a member iff some binding with that role holds the member |
| Iam.IamManager.CheckRoleBinding | installation_scripts/manage_iam.py:195-213 | the loop returns true iff some binding has the role and holds `serviceAccount:{email}` |
| Iam.IamManager.AddRoleBinding | installation_scripts/manage_iam.py:108-152 | returns false with no write when the pair is present; a dry run writes nothing; otherwise the member joins the first binding with the role or a new binding |
| Iam.IamManager.RemoveRoleBinding | installation_scripts/manage_iam.py:154-193 | returns false with no write when the pair is absent; a dry run writes nothing; otherwise the member leaves the first binding that holds it |
| Iam.IamManager.SetupAgentspacePermissions | installation_scripts/manage_iam.py:215-290 | the nested loops produce the result and policy of the setup run over the required table |
| Iam.IamManager.SetupPermissions | installation_scripts/manage_iam.py:246-290 | the outer loop over services equals the setup run over their items |
| Iam.IamManager.SetupRoles | installation_scripts/manage_iam.py:256-288 | the inner loop over one service's roles equals the setup run over its items |
| Iam.IamManager.SetupPair | installation_scripts/manage_iam.py:256-287 | one role is sorted into failed (on a fault), added or existing, and the policy changes only for a real add |
| Iam.IamManager.VerifyAgentspacePermissions | installation_scripts/manage_iam.py:292-323 | the map from each label to whether its pair is granted |
| Iam.IamManager.VerifyPermissions | installation_scripts/manage_iam.py:315-321 | the loops build the status map of the given table |
| Iam.IamManager.VerifyPair | installation_scripts/manage_iam.py:318-321 | one label is set to whether its pair is granted |
| Iam.IamManager.ListServiceAccountRoles | installation_scripts/manage_iam.py:325-344 | sorted, and a role is listed iff it is granted to the service account |
| Sorting.Insert | installation_scripts/manage_iam.py:344 | inserting into a sorted list keeps it sorted and adds exactly that element |
| Sorting.SortStrings | installation_scripts/manage_iam.py:344 | `sorted` returns a sorted permutation of its input |
| EnvFile.ReadLines | installation_scripts/manage_agentspace.py:70-72 | for text without carriage returns: the lines concatenate back to the file text, none is empty, a newline ends a line, and every line but the last ends in one |
| EnvFile.ReadConcat | installation_scripts/manage_agentspace.py:87-88 | writing lines and reading them back gives the same lines |
| EnvFile.EntryCheck | installation_scripts/manage_agentspace.py:76-78 | a line is an entry for the key iff it is non-blank, not a comment, contains `=`, and its stripped text before the first `=` is the key |
| EnvFile.KeyOfEntryLine | installation_scripts/manage_agentspace.py:81 | the written `key=value` line is an entry for its key |
| EnvFile.KeyOfTerminated | installation_scripts/manage_agentspace.py:76-78 | adding a newline to a line does not change which key it is an entry for |
| EnvFile.FirstEntrySome | installation_scripts/manage_agentspace.py:75-82 | the line found is an entry for the key and no earlier line is |
| EnvFile.FirstEntryNone | installation_scripts/manage_agentspace.py:75-84 | no line is found iff no line is an entry for the key |
| EnvFile.FirstEntryAt | installation_scripts/manage_agentspace.py:75-82 | the first entry line is the one found |
| EnvFile.FirstEntry | installation_scripts/manage_agentspace.py:75-82 | the index the scan stops at; `FirstEntrySome`, `FirstEntryNone` and `FirstEntryAt` characterise it |
| EnvFile.KeyOf | installation_scripts/manage_agentspace.py:76-78 | the stripped key before the first `=` of a non-blank, non-comment line; `EntryCheck` spells out the test |
| EnvFile.EntryFor | installation_scripts/manage_agentspace.py:76-79 | the line is an entry for the key; see `EntryCheck` and `KeyOfEntryLine` |
| EnvFile.ScanForKey | installation_scripts/manage_agentspace.py:75-82 | the loop stops at the first entry line for the key, or at the end |
| EnvFile.UpdatedLines | installation_scripts/manage_agentspace.py:74-86 | the intended update: replaces the first entry line with `key=value\n`, or ends an unterminated last line with a newline and appends the entry |
| EnvFile.UpdatedWellFormed | installation_scripts/manage_agentspace.py:74-88 | the intended update keeps the lines a valid line list |
| EnvFile.UpdatedFirstEntry | installation_scripts/manage_agentspace.py:74-86 | after the intended update the first entry for the key is `key=value\n` |
| EnvFile.UpdateIdempotent | installation_scripts/manage_agentspace.py:64-91 | a second identical intended update changes nothing |
| EnvFile.UpdateThenRead | installation_scripts/manage_agentspace.py:70-88 | the file written by the intended update reads back as the same lines, whose first entry for the key is the new one |
| EnvFile.UpdatedLinesAsWritten | installation_scripts/manage_agentspace.py:74-86 | the scripts' update of the lines: the first entry replaced, else the entry appended after the last line as it stands; `AppendedEntryLost` and `AsWrittenAgrees` state what it does |
| EnvFile.UpdatedText | installation_scripts/manage_agentspace.py:64-91 | the file text after the intended update; its properties are the lemmas on `UpdatedLines` and the lookup lemmas |
| EnvFile.UpdatedTextAsWritten | installation_scripts/manage_agentspace.py:64-91 | the file text after the scripts' update; `AsWrittenAgrees` relates it to `UpdatedText` |
| EnvFile.AsWrittenAgrees | installation_scripts/manage_agentspace.py:84-88 | the scripts' update writes exactly the intended text whenever the file is empty, ends with a newline, or already has an entry for the key |
| EnvFile.UpdatedTextClosed | installation_scripts/manage_agentspace.py:80-88 | the intended update of a file that ends with a newline ends with a newline |
| EnvFile.UpdatedLinesClosed | installation_scripts/manage_agentspace.py:80-86 | the intended update of lines whose last line ends with a newline leaves a last line that ends with one |
| EnvFile.AsWrittenAllAgrees | installation_scripts/manage_oauth.py:201-205 | on a file that is empty or ends with a newline, any series of the scripts' updates writes the intended text, and the file still ends with a newline |
| EnvFile.Lookup | installation_scripts/manage_agentspace.py:70-82 | the first entry line for a key in the file, as the next update's scan would find it; `UpdateThenLookup` and `UpdateKeepsOtherLookup` state how updates change it |
| EnvFile.UpdateThenLookup | installation_scripts/manage_agentspace.py:64-91 | reading the written file finds `key=value` for the key: always after the intended update, and after the scripts' update when the file ends with a newline or the key has an entry |
| EnvFile.UpdateKeepsOtherLookup | installation_scripts/manage_agentspace.py:75-86 | updating one key leaves every other key's lookup unchanged: always with the intended update, and with the scripts' update when the file ends with a newline or the updated key has an entry |
| EnvFile.UpdatesKeepLookup | installation_scripts/manage_oauth.py:201-205 | a series of updates of other keys leaves a key's lookup unchanged: always with the intended update, and with the scripts' update on a file that ends with a newline |
| EnvFile.UpdatesThenLookup | installation_scripts/manage_oauth.py:201-205 | after a series of updates with distinct keys each key reads back its own value: always with the intended update, and with the scripts' update on a file that ends with a newline |
| EnvFile.AssignAllValues | installation_scripts/manage_oauth.py:201-205 | the in-memory map holds each written value and keeps every other variable |
| EnvFile.EnvFile.UpdateEnvVar | installation_scripts/manage_agentspace.py:64-91 | the file becomes the scripts' update of the old text (first entry replaced, else `key=value\n` appended after the last line as it stands) and the in-memory map gains `key := value` |
| EnvFile.AppendedEntryLost | installation_scripts/manage_agentspace.py:70-88 | as written: an entry appended after a last line without a newline is merged into it and is lost on the next read |
| EnvFile.AppendedEntryLostSample | installation_scripts/manage_oauth.py:62-80 | as written: updating B=2 in a file holding "A=1" leaves no entry for B |
| EnvFile.MissingVarsMembers | installation_scripts/manage_agentspace.py:101-108 | a variable is listed iff it is required and absent or empty |
| EnvFile.MissingVarsEmpty | installation_scripts/manage_agentspace.py:101-109 | nothing is missing iff every required variable is set |
| EnvFile.MissingVarsAppend | installation_scripts/manage_agentspace.py:101-108 | the missing list keeps the declared order |
| EnvFile.MissingVars | installation_scripts/manage_agentspace.py:101-108 | the missing required variables; `MissingVarsMembers`, `MissingVarsEmpty` and `MissingVarsAppend` state which and in what order |
| EnvFile.GetOr | installation_scripts/manage_agentspace.py:333 | `dict.get(k, d)`: the value when present, else the default |
| AgentSpace.ValidateEnvironment | installation_scripts/manage_agentspace.py:99-109 | returns the missing required variables, and is valid iff there are none |
| AgentSpace.ValidateEnvironmentAllSet | installation_scripts/manage_agentspace.py:99-109 | valid iff all five required variables are set and non-empty |
| AgentSpace.AgentApiUrlCollection | installation_scripts/manage_agentspace.py:136-150 | without an id the URL ends in `/agents` and uses `default_collection`/`default_assistant` when unset |
| AgentSpace.AgentApiUrlWithId | installation_scripts/manage_agentspace.py:136-150 | an id adds exactly `/{id}`, which is the URL's last segment |
| AgentSpace.AgentApiUrl | installation_scripts/manage_agentspace.py:136-150 | the agents URL; `AgentApiUrlCollection` and `AgentApiUrlWithId` state its shape |
| AgentSpace.BuildAgentConfig | installation_scripts/manage_agentspace.py:152-179 | the config names the reasoning engine; it carries one authorization name when `OAUTH_AUTH_ID` is set, and none otherwise |
| AgentSpace.ConfigAuthorizationNamesAuthId | installation_scripts/manage_agentspace.py:173-178 | the authorization's last segment is the configured auth id |
| AgentSpace.PlanRegistration | installation_scripts/manage_agentspace.py:181-199 | missing variables stop registration; an existing agent id without force stops it; otherwise the config is posted to the agents URL |
| AgentSpace.AgentSpaceManager.RegisterAgent | installation_scripts/manage_agentspace.py:181-230 | succeeds iff the plan posts and the service names the agent; the agent id is recorded in `.env`, by the scripts' update, only then |
| AgentSpace.AgentSpaceManager.RecordAgentId | installation_scripts/manage_agentspace.py:221-228 | a non-empty last segment of the agent name is written as `AGENTSPACE_AGENT_ID` by the scripts' update; otherwise nothing changes |
| AgentSpace.AgentIdOf | installation_scripts/manage_agentspace.py:221-228 | the last segment of the agent name, "" without a name; `RecordAgentId` writes it |
| AgentSpace.BuildUpdateMask | installation_scripts/manage_agentspace.py:765-788 | the mask is `UpdateMask` of the arguments: a path is in it iff its argument is non-empty, in the fixed order, and the patch carries exactly those values |
| AgentSpace.UpdateMask | installation_scripts/manage_agentspace.py:765-779 | the mask paths, one per non-empty argument in declared order; `BuildUpdateMask` and `MaskOrder` state its membership and order |
| AgentSpace.MaskOrder | installation_scripts/manage_agentspace.py:765-779 | the three optional mask paths appear in declared order |
| AgentSpace.PlanAgentUpdate | installation_scripts/manage_agentspace.py:716-790 | rejected without an agent id, project number or app id; with an empty mask no request; otherwise a patch to the agent URL whose `updateMask` is the mask paths joined by commas and whose data carries exactly the non-empty arguments |
| AgentSpace.UpdateTarget | installation_scripts/manage_agentspace.py:735-756 | the agent id comes from the argument, then `.env`; fails when that or the project number or the app id is missing |
| AgentSpace.UpdateUrlIsAgentUrl | installation_scripts/manage_agentspace.py:136-150 | the update URL is the agent URL when no collection or assistant is configured |
| AgentSpace.Slug | installation_scripts/manage_agentspace.py:330 | the slug has the name's length and no spaces |
| AgentSpace.AppId | installation_scripts/manage_agentspace.py:328-330 | the app id starts with the slug of the name and contains no spaces |
| AgentSpace.PlanCreateApp | installation_scripts/manage_agentspace.py:316-366 | fails when the project is not configured, or for a chat app without data stores; otherwise the name defaults, data stores are carried when given, and chat config is added only for a chat app with chat enabled |
| AgentSpace.AgentSpaceManager.CreateApp | installation_scripts/manage_agentspace.py:295-397 | succeeds iff the request is valid and created, and only then writes `AGENTSPACE_APP_ID` by the scripts' update |
| AgentSpace.Distinct | installation_scripts/manage_agentspace.py:510 | same members, no duplicates |
| AgentSpace.MergeDataStoreIds | installation_scripts/manage_agentspace.py:503-510 | holds the new id and every existing id, nothing else, with no duplicates |
| AgentSpace.MergeExistingIsDistinct | installation_scripts/manage_agentspace.py:510 | linking an already linked id leaves a distinct list unchanged |
| AgentSpace.DistinctOfDistinct | installation_scripts/manage_agentspace.py:510 | removing duplicates from a list without them changes nothing |
| DiscoveryEngine.AuthorizationIdOfName | installation_scripts/manage_agentspace.py:175 | the authorization id is the last segment of its resource name |
| OAuth.SelectClientSection | installation_scripts/manage_oauth.py:116-124 | `web` is preferred over `installed`; neither gives an error |
| OAuth.ParseScopes | installation_scripts/manage_oauth.py:311-317 | no scopes gives the two defaults; otherwise one stripped piece per comma-separated part, in order |
| OAuth.ParseScopesNoComma | installation_scripts/manage_oauth.py:317 | no parsed scope contains a comma |
| OAuth.ParseScopesOfStripped | installation_scripts/manage_oauth.py:317 | joining already stripped, comma-free scopes with commas parses back to them |
| OAuth.ResolveAuthId | installation_scripts/manage_oauth.py:355-361 | the argument, else `OAUTH_AUTH_ID`, else `auth-` plus the first 8 hex digits |
| OAuth.PlanCreateAuth | installation_scripts/manage_oauth.py:364-372 | a request exists iff client id, secret and auth URI are set, and carries them, the resolved id and the token URI |
| OAuth.AuthorizationEntries | installation_scripts/manage_oauth.py:200-205 | the five variables written, in order; `AuthorizationRecorded` states they read back |
| OAuth.AuthorizationRecorded | installation_scripts/manage_oauth.py:200-205 | after creation each of the five keys reads back its value: always with the intended update, and with the scripts' update on a `.env` that ends with a newline |
| OAuth.OAuthManager.CreateAuthorization | installation_scripts/manage_oauth.py:143-213 | fails with no write without `GCP_PROJECT_NUMBER` or when the service refuses; otherwise applies the scripts' update for the five keys in order |
| OAuth.OAuthManager.CreateAuth | installation_scripts/manage_oauth.py:344-378 | succeeds iff the request can be planned and created, and only then applies the scripts' update for the five keys and sets them in the in-memory variables |
| OAuth.OAuthManager.Setup | installation_scripts/manage_oauth.py:295-340 | fails with no write when the client file has neither section; otherwise applies the scripts' update for the client id, secret, auth URI and token URI |
| Gcs.SuffixShape | installation_scripts/manage_gcs.py:129 | the suffix is the last `.` and what follows, is never the whole name, and is empty when the name has no such dot |
| Gcs.SuffixLower | installation_scripts/manage_gcs.py:129 | lower-casing commutes with taking the suffix |
| Gcs.Suffix | installation_scripts/manage_gcs.py:129 | `PurePath.suffix`; `SuffixShape` and `SuffixLower` state it |
| Gcs.ValidateFile | installation_scripts/manage_gcs.py:110-144 | the first failing check of existence, is-a-file, extension and size is reported; otherwise valid |
| Gcs.ValidateFileIgnoresCase | installation_scripts/manage_gcs.py:129 | names that differ only in case get the same verdict on the extension |
| Gcs.ValidateFileSizeBound | installation_scripts/manage_gcs.py:32-33 | exactly 500 MiB is accepted, one byte more is not |
| Gcs.ResolveBucket | installation_scripts/manage_gcs.py:91-93 | the argument, else the default, else the no-bucket error |
| Gcs.GcsStore.GetOrCreateBucket | installation_scripts/manage_gcs.py:78-108 | resolves the name, and the bucket exists afterwards when it resolves |
| Gcs.PrefixedPathSlashes | installation_scripts/manage_gcs.py:241-242 | trailing slashes on the prefix do not change the blob path |
| Gcs.ParseGcsUri | installation_scripts/manage_gcs.py:376-388 | rejects exactly the URIs that do not start with `gs://` for that reason |
| Gcs.UriOfParse | installation_scripts/manage_gcs.py:376-388 | a parsed URI is `gs://{bucket}/{blob}` with a slash-free bucket |
| Gcs.ParseGcsUriNoSlash | installation_scripts/manage_gcs.py:381-384 | a `gs://` URI without a slash after the bucket is rejected |
| Gcs.ParseOfUri | installation_scripts/manage_gcs.py:376-388 | `gs://{bucket}/{blob}` parses back to the bucket and blob |
| Gcs.UploadValidatesFirst | installation_scripts/manage_gcs.py:170-172 | an invalid file fails before any bucket is touched |
| Gcs.UploadNeverOverwrites | installation_scripts/manage_gcs.py:181-186 | without overwrite an existing blob fails and nothing changes |
| Gcs.UploadStores | installation_scripts/manage_gcs.py:146-208 | a successful upload validated the file, did not raise, returns `gs://{bucket}/{blob}` and stores the blob |
| Gcs.UploadKeeps | installation_scripts/manage_gcs.py:146-208 | an upload never removes a bucket or a blob |
| Gcs.UploadFailureStoresNothing | installation_scripts/manage_gcs.py:195-208 | an upload whose `upload_from_filename` raises fails with its URI and stores no blob |
| Gcs.Upload | installation_scripts/manage_gcs.py:146-208 | the upload of one file, `failing` naming the blobs whose upload raises; `UploadValidatesFirst`, `UploadNeverOverwrites`, `UploadFailureStoresNothing`, `UploadStores` and `UploadKeeps` state it |
| Gcs.GcsStore.UploadFile | installation_scripts/manage_gcs.py:146-208 | the store and the result are those of the upload function, an upload that raises included |
| Gcs.UploadAllCounts | installation_scripts/manage_gcs.py:235-264 | uploaded plus failed always equals the number of files |
| Gcs.UploadAllKeeps | installation_scripts/manage_gcs.py:235-264 | a batch never removes a bucket or a blob |
| Gcs.UploadAllNoBucket | installation_scripts/manage_gcs.py:210-264 | without any bucket name every file fails and nothing changes |
| Gcs.UploadAllReportsFailure | installation_scripts/manage_gcs.py:237-249 | a file whose upload raises is listed among the failed files |
| Gcs.UploadAll | installation_scripts/manage_gcs.py:210-264 | the batch upload; `UploadAllCounts`, `UploadAllKeeps`, `UploadAllNoBucket` and `UploadAllReportsFailure` state it |
| Gcs.GcsStore.UploadFiles | installation_scripts/manage_gcs.py:210-264 | the loop produces the store, URIs and failures of the batch function, a file whose upload raises being counted as failed |
| Gcs.GcsStore.DeleteFile | installation_scripts/manage_gcs.py:361-426 | succeeds iff the URI parses, the blob exists, and the run is dry or is forced or confirmed and `blob.delete()` does not raise; only a real successful run removes exactly that blob, and nothing changes otherwise |
| Gcs.Listed | installation_scripts/manage_gcs.py:448-449 | the listed blobs are blobs of the bucket that start with the prefix |
| Gcs.GcsStore.DeletePrefix | installation_scripts/manage_gcs.py:428-493 | a dry run deletes nothing; a real run removes exactly the listed blobs whose deletion does not fail; the count never exceeds the number listed |
| Gcs.GcsStore.RemoveListed | installation_scripts/manage_gcs.py:473-486 | the loop removes exactly the listed blobs that do not fail and counts them |
| Gcs.GcsStore.DeleteListed | installation_scripts/manage_gcs.py:473-486 | only the bucket's listed, non-failing blobs are removed |
| VertexAi.VertexAiManager.CheckEnvVars | installation_scripts/manage_vertex_ai.py:154-202 | valid iff project id and location are accepted and the RAG location is acceptable; only accepted values are stored |
| VertexAi.EnvOk | installation_scripts/manage_vertex_ai.py:154-202 | the verdict of the environment check; `CheckEnvVars` is proved against it |
| VertexAi.VertexAiManager.CheckRequired | installation_scripts/manage_vertex_ai.py:159-178 | a value is accepted only when set, non-empty and not a placeholder |
| VertexAi.VertexAiManager.CheckRagLocation | installation_scripts/manage_vertex_ai.py:180-200 | the RAG location check |
| VertexAi.RagLocationOptional | installation_scripts/manage_vertex_ai.py:180-200 | an unset RAG location never causes a failure |
| VertexAi.RagPlaceholderFails | installation_scripts/manage_vertex_ai.py:180-200 | a placeholder RAG location always fails |
| VertexAi.VertexAiManager.VerifySetup | installation_scripts/manage_vertex_ai.py:72-152 | the verdict is the conjunction of the checks, and the checks run are listed in order |
| VertexAi.Verdict | installation_scripts/manage_vertex_ai.py:72-152 | the verdict of `verify_setup`; `VerifySetup` and `PermissionsNeverDecide` state it |
| VertexAi.VertexAiManager.RemoteChecks | installation_scripts/manage_vertex_ai.py:101-137 | authentication gates the rest; project access, APIs (unless skipped) and init count, and permissions run but never count |
| VertexAi.AuthFailureStopsEarly | installation_scripts/manage_vertex_ai.py:103-105 | failed authentication stops after two checks and fails |
| VertexAi.OptionalChecksRun | installation_scripts/manage_vertex_ai.py:115-136 | the API and permission checks run iff authenticated and not skipped |
| VertexAi.PermissionsNeverDecide | installation_scripts/manage_vertex_ai.py:132-136 | the permission result never changes the verdict |
| VertexAi.CheckApis | installation_scripts/manage_vertex_ai.py:274-293 | true iff every required API is enabled |
| VertexAi.IsApiEnabled | installation_scripts/manage_vertex_ai.py:295-322 | enabled iff the state is `ENABLED`; any call error counts as not enabled |
| VertexAi.InitLocation | installation_scripts/manage_vertex_ai.py:324-331 | the RAG location when set, else the stored location |
| VertexAi.InitLocationChecked | installation_scripts/manage_vertex_ai.py:324-331 | after a passing environment check, init uses a non-empty, non-placeholder location |
| VertexAi.MemberIdentifiers | installation_scripts/manage_vertex_ai.py:397-402 | always `user:{email}`; `serviceAccount:{email}` iff the email looks like a service account |
| VertexAi.AddHeldRole | installation_scripts/manage_vertex_ai.py:405-409 | adds a binding's role exactly when it holds one of the identifiers |
| VertexAi.UserRoles | installation_scripts/manage_vertex_ai.py:405-409 | the loop collects the roles of the bindings that hold one of the identifiers |
| VertexAi.RolesOfIff | installation_scripts/manage_vertex_ai.py:405-409 | a role is collected iff some binding with it holds one of the identifiers |
| VertexAi.RolesOf | installation_scripts/manage_vertex_ai.py:405-409 | the roles held by one of the identifiers; `RolesOfIff` characterises it |
| VertexAi.NoEmailNoRoles | installation_scripts/manage_vertex_ai.py:397-409 | without an email no role is collected |
| VertexAi.ServiceAccountRoleSeen | installation_scripts/manage_vertex_ai.py:401-409 | a role granted to a service-account email is collected |
| VertexAi.CheckPermissions | installation_scripts/manage_vertex_ai.py:343-448 | passes iff every required role is collected; a failure to read the policy passes |
| AgentEngine.Pull | installation_scripts/manage_agent_engine.py:157-184 | never fetches more pages than the budget |
| AgentEngine.Paginate | installation_scripts/manage_agent_engine.py:155-184 | the `while True` loop gathers what the token chain yields, at most 50 pages |
| AgentEngine.PullChain | installation_scripts/manage_agent_engine.py:157-184 | following a token chain gathers the items of each page in order and stops at the empty token or at the budget |
| AgentEngine.PullLoop | installation_scripts/manage_agent_engine.py:178-184 | a token that points to itself is fetched until the budget is spent |
| AgentEngine.PaginationCapped | installation_scripts/manage_agent_engine.py:178-184 | a listing that never ends stops after exactly 50 pages |
| AgentEngine.Infos | installation_scripts/manage_agent_engine.py:340-346 | one record per conversation, in order |
| AgentEngine.ListAssistants | installation_scripts/manage_agent_engine.py:237-391 | nothing without the library or an engine id; otherwise the records of the 50-page listing |
| AgentEngine.AssistantsListed | installation_scripts/manage_agent_engine.py:237-391 | what `list_assistants` returns; `ListAssistants` is proved against it |
| AgentEngine.RagCorpusIdOfParts | installation_scripts/manage_agent_engine.py:584-595 | every `projects/<p>/locations/<l>/ragCorpora/<id>` built from valid parts is accepted |
| AgentEngine.RagCorpusIdParts | installation_scripts/manage_agent_engine.py:584-595 | every value the intended check accepts has that form; the script's check also accepts it followed by one newline (`RagCorpusIdTrailingNewline`) |
| AgentEngine.RagCorpusIdTrailingNewline | installation_scripts/manage_agent_engine.py:585-586 | as written: an accepted id with a trailing newline is still accepted by the check, though not by the intended one |
| AgentEngine.RagCorpusIdOk | installation_scripts/manage_agent_engine.py:584-595 | the intended check: exactly `projects/<p>/locations/<l>/ragCorpora/<id>`; `RagCorpusIdOfParts` and `RagCorpusIdParts` state it |
| AgentEngine.RagCorpusIdAsWritten | installation_scripts/manage_agent_engine.py:585-586 | the check as `re.match` with `$` performs it: the intended check, or the intended check of the value without one final newline |
| AgentEngine.CreateAgent | installation_scripts/manage_agent_engine.py:558-721 | the `create_agent` sequence: validation, RAG id format, service-account path and file, module import, deployment; `CreateAgentOrder` and `CreateAgentSucceeds` state it |
| AgentEngine.DeployWithServiceAccount | installation_scripts/manage_agent_engine.py:608-629 | the service-account path must be set and the file must exist, then `Deploy`; `DeploySucceeds` states it |
| AgentEngine.Deploy | installation_scripts/manage_agent_engine.py:631-721 | the module must define `create_agent`; the result is the resource name the deployment returns for the display name |
| AgentEngine.CreateAgentOrder | installation_scripts/manage_agent_engine.py:572-595 | variable validation fails first, then the RAG id format as the script checks it |
| AgentEngine.CreateAgentSucceeds | installation_scripts/manage_agent_engine.py:558-721 | a deployment passed variable validation, the script's RAG id check (the intended one too unless the value ends with a newline), the service-account file and the module, and deployed under the module's display name |
| AgentEngine.DeploySucceeds | installation_scripts/manage_agent_engine.py:603-721 | a deployment found the service-account file and the module |
| AgentEngine.ServiceAccountCheckedForExistence | installation_scripts/manage_agent_engine.py:558-629 | the path is never unset by then; a bad file is reported only because it does not exist |
| AgentEngine.ValidatedPathUsable | installation_scripts/manage_agent_engine.py:572-577 | after validation the service-account path is non-empty and not a placeholder |
| AgentEngine.ServiceAccountFileChecked | installation_scripts/manage_agent_engine.py:610-629 | with a usable path, only a nonexistent file is rejected |
| AgentEngine.DisplayName | installation_scripts/manage_agent_engine.py:679-689 | always starts with `SOC Agent`; an unknown module gets `SOC Agent - {module}` |
| AgentEngine.SelectByIndex | installation_scripts/manage_agent_engine.py:509-516 | an index from 1 to the length selects element index-1; any other gives None |
| AgentEngine.ReasoningEngines.DeleteAgent | installation_scripts/manage_agent_engine.py:443-491 | deletes iff the engine exists, the deletion is forced or confirmed, and `delete_reasoning_engine` does not raise (`failing`); only that engine is removed, and a failed deletion removes nothing |
| AgentEngine.ReasoningEngines.DeleteAgentByIndex | installation_scripts/manage_agent_engine.py:493-517 | given the listing, an out-of-range index deletes nothing; otherwise the selected engine is deleted as by name, including a raising deletion that removes nothing (the listing as written is always empty, see Left out) |
| AgentEngine.ShownValue | installation_scripts/manage_agent_engine.py:895-904 | sensitive names show eight `*`; others show the value |
| AgentEngine.MaskHidesValue | installation_scripts/manage_agent_engine.py:895-904 | the shown text of a sensitive variable does not depend on its value |
| AgentEngine.SensitiveIgnoresCase | installation_scripts/manage_agent_engine.py:895-903 | the sensitivity test ignores the case of the name |
| AgentEngine.DeployedSecretsMasked | installation_scripts/manage_agent_engine.py:674-675 | the SOAR and VirusTotal keys passed to the deployment are masked on inspection |
| AgentEngine.EngineId | installation_scripts/manage_agent_engine.py:1059-1061 | a slash-free suffix of the resource name |
| AgentEngine.EngineIdIsLastPiece | installation_scripts/manage_agent_engine.py:1059-1061 | the id is the last `/`-separated segment |
| AgentEngine.EngineIdOfResource | installation_scripts/manage_agent_engine.py:1059-1061 | the id of `{parent}/{id}` is the id |
| Strings.JoinSplit | installation_scripts/manage_oauth.py:317 | joining the pieces of `split` with the separator gives back the string |
| Strings.SplitJoin | installation_scripts/manage_oauth.py:317 | splitting a join of separator-free pieces gives back the pieces |
| Strings.StripShape | installation_scripts/manage_agentspace.py:76-78 | `strip` removes exactly the leading and trailing whitespace |
| Strings.LastPiece | installation_scripts/manage_agentspace.py:223 | `split("/")[-1]` is a separator-free suffix |

## Left out

- Network and SDK calls are not modelled. This covers Resource Manager, Discovery Engine REST, Vertex AI, Cloud Storage, Service Usage, credentials and access tokens. Each call's outcome is an input or an in-memory store, except where a line below says otherwise. A Cloud Storage upload or blob deletion that raises is an input (`failing`), and so is a reasoning-engine deletion that raises.
- Console output is left out: typer/rich messages, prompts and exit codes. A confirmation is a boolean input.
- The wall clock and `uuid` are parameters (`now`, `uuidHex`).
- `python-dotenv` parsing is not modelled. The loaded variables are a map given to each manager.
- Concurrent writers of the IAM policy are not modelled. The policy has a single writer.
- JWT decoding of the caller's email (installation_scripts/manage_vertex_ai.py:360-380) is left out. The email is an optional input.
- Floating-point code is left out: size display in MB/GB and `RAG_DISTANCE_THRESHOLD`.
- `mimetypes` content-type guessing is left out. Which exception an upload raises is modelled only as an error value.
- Failures of bucket lookup and creation and of `blob.exists()` are not modelled. `GcsStore.GetOrCreateBucket` always succeeds once the name resolves, and `DeleteFile` reads a missing bucket as "not found".
- Lower and upper case are modelled on ASCII letters only. `str.strip` uses the whitespace set of `str.isspace`.
- `AgentSpace.MergeDataStoreIds` keeps first-occurrence order. Python's `list(set(...))` has no specified order, so only membership and distinctness are claimed.
- The display loop of `list_agents` (installation_scripts/manage_agent_engine.py:189-231) is not modelled. It appends to the list it iterates and then fails on a dict; only its page accumulation is modelled.
- DeleteAgentByIndex (`AgentEngine.ReasoningEngines.DeleteAgentByIndex`): takes the listing of agents as an input, the listing `list_agents` is meant to return. As written, `list_agents` (installation_scripts/manage_agent_engine.py:189, 201-207, 233-235) appends each record to the list it iterates, fails on the record at the next step and returns `[]`; so `delete_agent_by_index` (installation_scripts/manage_agent_engine.py:504-507) always returns False without deleting. The model does not capture that failure.
- ReadLines (`EnvFile.ReadLines`): cuts the text after `\n` only. Python's text mode also ends lines at `\r\n` and `\r` and reads both as `\n`, so a `.env` with carriage returns is not modelled (the scripts would write it back with `\n` line ends).
- UpdatedWellFormed (`EnvFile.UpdatedWellFormed`): stated for the intended update `UpdatedLines`. The scripts' update gives the same text when the file ends with a newline or the key has an entry (`AsWrittenAgrees`), and otherwise merges the new entry into the last line (`AppendedEntryLost`).
- UpdatedFirstEntry (`EnvFile.UpdatedFirstEntry`): stated for the intended update; carried to the scripts' update only by `AsWrittenAgrees`, when the file ends with a newline or the key has an entry.
- UpdateIdempotent (`EnvFile.UpdateIdempotent`): stated for the intended update; carried to the scripts' update only by `AsWrittenAgrees`, when the file ends with a newline or the key has an entry.
- UpdateThenRead (`EnvFile.UpdateThenRead`): stated for the intended update; carried to the scripts' update only by `AsWrittenAgrees`, when the file ends with a newline or the key has an entry.
- UpdateThenLookup (`EnvFile.UpdateThenLookup`): for the scripts' update it is proved only when the file ends with a newline or the key has an entry; otherwise the entry can be lost (`AppendedEntryLost`).
- UpdateKeepsOtherLookup (`EnvFile.UpdateKeepsOtherLookup`): for the scripts' update it is proved only when the file ends with a newline or the updated key has an entry; otherwise the appended text joins the last line, which may be another key's entry.
- UpdatesKeepLookup (`EnvFile.UpdatesKeepLookup`): for the scripts' updates it is proved only on a file that is empty or ends with a newline.
- UpdatesThenLookup (`EnvFile.UpdatesThenLookup`): for the scripts' updates it is proved only on a file that is empty or ends with a newline.
- AuthorizationRecorded (`OAuth.AuthorizationRecorded`): for the scripts' updates it is proved only on a `.env` that is empty or ends with a newline.
- PlanAgentUpdate (`AgentSpace.PlanAgentUpdate`): `update_agent_config` also fetches an access token after the app id check (installation_scripts/manage_agentspace.py:750-753). A failure to get one returns False even when there is nothing to update; the plan has no token input.
- The copy of the Chronicle service-account file into the MCP server's directory (installation_scripts/manage_agent_engine.py:624-627) is a filesystem side effect and is not modelled.
- `list_engines`, `test_agent_with_resource`, `inspect_agent` (apart from masking) and the remaining REST listings are not modelled. They are remote reads with printed output.
- `vertexai.init` and the deployment's `env_vars` dictionary (installation_scripts/manage_agent_engine.py:660-676) are not modelled beyond the keys that inspection masks. The deployment is an injected function from display name to resource name.
- The start and end times printed for assistants are not modelled.
- `manage_rag.py` and `manage_datastore.py` are not part of this model. They are SDK and REST wrappers whose only logic repeats logic modelled here.
- The agent definitions (`soc_agent*/agent.py`), `main.py`, `manage.py` and `test_agent_engine.py` are not part of this model. They are configuration, CLI wiring and a network smoke test.
- A listing request that raises is not modelled as an exception. It is a token missing from the injected page source, and the listing is then None.

## Findings

| source | as written | input that shows it | evidently intended | confidence | as-written member | corrected member |
|---|---|---|---|---|---|---|
| installation_scripts/manage_agentspace.py:84-88 (and installation_scripts/manage_oauth.py:76-80) | when no line matches, `key=value\n` is appended after the last line even if that line has no trailing newline | a `.env` holding `A=1` with no final newline, then updating `B` to `2`: the file becomes `A=1B=2\n`, and no entry for `B` is read back | end the last line with a newline before appending, so the new entry is its own line | not executed | EnvFile.AppendedEntryLost | EnvFile.UpdateThenLookup |
| installation_scripts/manage_agent_engine.py:585-586 | `re.match` with a pattern ending in `$` accepts a value followed by one trailing newline | `projects/p/locations/l/ragCorpora/c` followed by `\n` | accept only the exact resource name (`re.fullmatch` or `\Z`) | not executed | AgentEngine.RagCorpusIdTrailingNewline | AgentEngine.RagCorpusIdParts |
