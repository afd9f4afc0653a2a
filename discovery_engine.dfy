/** Resource names of the Discovery Engine API that the AgentSpace and OAuth
    managers build. */
module DiscoveryEngine {
  import opened Strings

  /** `DISCOVERY_ENGINE_API_BASE`. */
  const ApiBase := "https://discoveryengine.googleapis.com/v1alpha"

  /** `projects/{number}/locations/global/authorizations`, the parent of
      every authorization of the project. */
  function AuthorizationsParent(projectNumber: string): string {
    "projects/" + projectNumber + "/locations/global/authorizations"
  }

  /** `projects/{number}/locations/global/authorizations/{id}`. */
  function AuthorizationName(projectNumber: string, authId: string): string {
    AuthorizationsParent(projectNumber) + "/" + authId
  }

  /** The authorization id is the last path segment of its name. */
  lemma AuthorizationIdOfName(projectNumber: string, authId: string)
    requires '/' !in authId
    ensures LastPiece(AuthorizationName(projectNumber, authId), '/') == authId
  {
    assert forall k :: 0 <= k < |authId| ==> authId[k] != '/';
    LastPieceAfter(AuthorizationsParent(projectNumber), authId, '/');
  }
}
