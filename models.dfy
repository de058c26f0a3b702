/**
 * The entities the setup wizard reads and writes: organizations, their
 * memberships, projects, project keys and API tokens, plus the JSON-like
 * values that the handoff cache holds.
 */
module Models {

  datatype Option<T> = None | Some(value: T)

  type UserId = nat
  type RoleId = string

  /** Shared by OrganizationStatus and ProjectStatus; only Visible is ever selected. */
  datatype ObjectStatus = Visible | Hidden | PendingDeletion | DeletionInProgress

  datatype ProjectKeyStatus = Active | Inactive

  datatype Organization = Organization(id: nat, status: ObjectStatus, dateAdded: int)

  /** A row of the organization's member_set: `user` holds `role` in organization `org`. */
  datatype Member = Member(org: nat, user: UserId, role: RoleId)

  datatype Project = Project(id: nat, org: nat, status: ObjectStatus, dateAdded: int)

  /** `roles` is the key's role bit field; bit 0 is the `store` role. */
  datatype ProjectKey = ProjectKey(id: nat, project: nat, roles: bv64, status: ProjectKeyStatus)

  /** The `store` flag of ProjectKey.roles. */
  const STORE_ROLE: bv64 := 1

  datatype ApiToken = ApiToken(
    id: nat,
    user: UserId,
    scopeList: seq<string>,
    token: string,
    refreshToken: Option<string>,
    expiresAt: Option<int>)

  /** The scopes a token grants (ApiToken.get_scopes). */
  function GetScopes(t: ApiToken): seq<string>
  {
    t.scopeList
  }

  /** Snapshot of the tables the aggregation queries; this core only reads them. */
  datatype Tables = Tables(
    organizations: seq<Organization>,
    members: seq<Member>,
    projects: seq<Project>,
    projectKeys: seq<ProjectKey>)

  /** The JSON-like values that are serialized and stored in the handoff cache. */
  datatype Json =
    | JNull
    | JString(str: string)
    | JList(items: seq<Json>)
    | JObject(fields: map<string, Json>)

  /** dict.get(key): the value under `key`, or null when it is missing. */
  function Field(m: map<string, Json>, key: string): (v: Json)
    ensures key !in m ==> v == JNull
    ensures key in m ==> v == m[key]
  {
    if key in m then m[key] else JNull
  }

  /**
   * The external `serialize` capability, one function per entity kind.  Each
   * yields a dictionary, whose contents this model does not inspect.
   */
  datatype Serializers = Serializers(
    organization: Organization -> map<string, Json>,
    project: Project -> map<string, Json>,
    projectKey: ProjectKey -> map<string, Json>,
    apiToken: ApiToken -> map<string, Json>)
}
