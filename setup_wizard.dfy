/**
 * SetupWizardView: the page an authenticated user opens with a wizard hash.
 * When the handoff cache still holds a slot for the hash, the view fills it
 * with either a mobile token or the user's projects and an API token, and
 * renders a confirmation page; otherwise it redirects.
 */
module SetupWizardView {
  import opened Models
  import opened Queries
  import opened Tokens
  import opened Backend

  /** Shared with the endpoint that pre-registers the slot. */
  const SETUP_WIZARD_CACHE_KEY: string := "setup-wizard-keys:v1:"
  const SETUP_WIZARD_CACHE_TIMEOUT: nat := 600

  const MOBILE_PREFIX: string := "mobile-"
  const TEMPLATE: string := "sentry/setup-wizard.html"

  /** The template context: the hash and whether the mobile flow ran. */
  datatype Context = Context(hash: string, mobile: bool)

  datatype Response = RedirectToOrg | Render(template: string, context: Context)

  function CacheKey(wizardHash: string): string
  {
    SETUP_WIZARD_CACHE_KEY + wizardHash
  }

  /** `wizard_hash.startswith('mobile-')`. */
  predicate IsMobileHash(wizardHash: string)
  {
    |MOBILE_PREFIX| <= |wizardHash| && wizardHash[..|MOBILE_PREFIX|] == MOBILE_PREFIX
  }

  // ---------------------------------------------------------------------
  // The project aggregation of setup_wizard, as a specification
  // ---------------------------------------------------------------------

  /** One iteration of the inner loop: project `project` of organization `org`. */
  datatype Visit = Visit(org: Organization, project: Project)

  function Block(o: Organization, ps: seq<Project>): (v: seq<Visit>)
    ensures |v| == |ps| && forall i :: 0 <= i < |ps| ==> v[i] == Visit(o, ps[i])
  {
    seq(|ps|, i requires 0 <= i < |ps| => Visit(o, ps[i]))
  }

  /** The inner query, as a function of the organization. */
  function ProjectsOf(db: Tables): Organization -> seq<Project>
  {
    o => ProjectQuery(db, o)
  }

  /**
   * The (organization, project) pairs the nested loops visit, in order, when
   * `projectsOf` gives each organization's project list.
   */
  function Visits(orgs: seq<Organization>, projectsOf: Organization -> seq<Project>): seq<Visit>
  {
    if orgs == [] then []
    else
      var last := orgs[|orgs| - 1];
      Visits(orgs[..|orgs| - 1], projectsOf) + Block(last, projectsOf(last))
  }

  function AllVisits(db: Tables, user: UserId, orgReadRoles: set<RoleId>): seq<Visit>
  {
    Visits(OrgQuery(db, user, orgReadRoles), ProjectsOf(db))
  }

  /** `serialize(keys)` on a list: the list of the serialized keys. */
  function SerializeKeys(ser: Serializers, keys: seq<ProjectKey>): (r: seq<Json>)
    ensures |r| == |keys| && forall i :: 0 <= i < |keys| ==> r[i] == JObject(ser.projectKey(keys[i]))
  {
    seq(|keys|, i requires 0 <= i < |keys| => JObject(ser.projectKey(keys[i])))
  }

  /**
   * The entry for project `p` of `o`: the serialized project with its
   * organization and its store keys put in (replacing any fields of those names).
   */
  function Enrich(db: Tables, ser: Serializers, o: Organization, p: Project): (r: Json)
    ensures r.JObject?
    ensures r.fields.Keys == ser.project(p).Keys + {"organization", "keys"}
    ensures r.fields["organization"] == JObject(ser.organization(o))
    ensures r.fields["keys"] == JList(SerializeKeys(ser, KeyQuery(db, p)))
    ensures forall f :: f in ser.project(p) && f != "organization" && f != "keys" ==>
      r.fields[f] == ser.project(p)[f]
  {
    var enriched := ser.project(p)["organization" := JObject(ser.organization(o))];
    JObject(enriched["keys" := JList(SerializeKeys(ser, KeyQuery(db, p)))])
  }

  /** One enriched entry per visited pair, in visiting order. */
  function EnrichAll(db: Tables, ser: Serializers, vs: seq<Visit>): (r: seq<Json>)
    ensures |r| == |vs|
    ensures forall i :: 0 <= i < |vs| ==> r[i] == Enrich(db, ser, vs[i].org, vs[i].project)
  {
    seq(|vs|, i requires 0 <= i < |vs| => Enrich(db, ser, vs[i].org, vs[i].project))
  }

  lemma EnrichAllAppend(db: Tables, ser: Serializers, vs: seq<Visit>, v: Visit)
    ensures EnrichAll(db, ser, vs + [v]) == EnrichAll(db, ser, vs) + [Enrich(db, ser, v.org, v.project)]
  {
  }

  /** One more project of the current organization extends the entry list by its entry. */
  lemma EnrichStep(db: Tables, ser: Serializers, done: seq<Visit>, org: Organization, ps: seq<Project>, j: nat)
    requires j < |ps|
    ensures EnrichAll(db, ser, done + Block(org, ps[..j])) + [Enrich(db, ser, org, ps[j])]
         == EnrichAll(db, ser, done + Block(org, ps[..j + 1]))
  {
    assert Block(org, ps[..j + 1]) == Block(org, ps[..j]) + [Visit(org, ps[j])];
    assert done + Block(org, ps[..j + 1]) == (done + Block(org, ps[..j])) + [Visit(org, ps[j])];
    EnrichAllAppend(db, ser, done + Block(org, ps[..j]), Visit(org, ps[j]));
  }

  /** `filled_projects` as setup_wizard builds it. */
  function Filled(db: Tables, ser: Serializers, user: UserId, orgReadRoles: set<RoleId>): seq<Json>
  {
    EnrichAll(db, ser, AllVisits(db, user, orgReadRoles))
  }

  /** Each organization contributes at most `cap` visits. */
  lemma {:induction false} VisitsBound(orgs: seq<Organization>, projectsOf: Organization -> seq<Project>, cap: nat)
    requires forall o :: o in orgs ==> |projectsOf(o)| <= cap
    ensures |Visits(orgs, projectsOf)| <= cap * |orgs|
  {
    if orgs != [] {
      var init, last := orgs[..|orgs| - 1], orgs[|orgs| - 1];
      assert forall o :: o in init ==> o in orgs;
      VisitsBound(init, projectsOf, cap);
      assert |projectsOf(last)| <= cap;
      assert cap * |orgs| == cap * |init| + cap;
    }
  }

  /** At most fifty organizations of at most fifty projects: 2500 entries. */
  lemma ProjectsBound(db: Tables, ser: Serializers, user: UserId, orgReadRoles: set<RoleId>)
    ensures |Filled(db, ser, user, orgReadRoles)| <= QUERY_LIMIT * QUERY_LIMIT
  {
    VisitsBound(OrgQuery(db, user, orgReadRoles), ProjectsOf(db), QUERY_LIMIT);
  }

  lemma BlockMembership(o: Organization, ps: seq<Project>, v: Visit)
    ensures v in Block(o, ps) <==> v.org == o && v.project in ps
  {
    if v.org == o && v.project in ps {
      var k :| 0 <= k < |ps| && ps[k] == v.project;
      assert Block(o, ps)[k] == v;
    }
  }

  /** The visits of a prefix of the organizations grow by one block per organization. */
  lemma VisitsStep(orgs: seq<Organization>, projectsOf: Organization -> seq<Project>, i: nat)
    requires i < |orgs|
    ensures Visits(orgs[..i + 1], projectsOf) == Visits(orgs[..i], projectsOf) + Block(orgs[i], projectsOf(orgs[i]))
  {
    assert orgs[..i + 1][..i] == orgs[..i];
  }

  /** A pair is visited exactly when its organization was selected and its project listed. */
  lemma {:induction false} VisitsMembership(orgs: seq<Organization>, projectsOf: Organization -> seq<Project>, v: Visit)
    ensures v in Visits(orgs, projectsOf) <==> v.org in orgs && v.project in projectsOf(v.org)
  {
    if orgs != [] {
      var init, last := orgs[..|orgs| - 1], orgs[|orgs| - 1];
      VisitsMembership(init, projectsOf, v);
      BlockMembership(last, projectsOf(last), v);
      assert orgs == init + [last];
    }
  }

  /**
   * Every entry comes from a visible organization the user can read and one
   * of that organization's visible projects.
   */
  lemma VisitsVisible(db: Tables, user: UserId, orgReadRoles: set<RoleId>, v: Visit)
    requires v in AllVisits(db, user, orgReadRoles)
    ensures v.org in db.organizations && v.org.status == Visible && Qualifies(db, user, orgReadRoles, v.org)
    ensures v.project in db.projects && v.project.org == v.org.id && v.project.status == Visible
  {
    VisitsMembership(OrgQuery(db, user, orgReadRoles), ProjectsOf(db), v);
  }

  /** Entries are grouped organization by organization, newest organization first. */
  lemma {:induction false} VisitsOrgOrder(orgs: seq<Organization>, projectsOf: Organization -> seq<Project>)
    requires NewestFirst(orgs, OrgDate)
    ensures forall i, j :: 0 <= i < j < |Visits(orgs, projectsOf)| ==>
      Visits(orgs, projectsOf)[i].org.dateAdded >= Visits(orgs, projectsOf)[j].org.dateAdded
  {
    if orgs != [] {
      var init, last := orgs[..|orgs| - 1], orgs[|orgs| - 1];
      VisitsOrgOrder(init, projectsOf);
      var vs, b := Visits(init, projectsOf), Block(last, projectsOf(last));
      forall i | 0 <= i < |vs|
        ensures vs[i].org.dateAdded >= last.dateAdded
      {
        VisitsMembership(init, projectsOf, vs[i]);
        var k :| 0 <= k < |init| && init[k] == vs[i].org;
        assert OrgDate(orgs[k]) >= OrgDate(orgs[|orgs| - 1]);
      }
      assert Visits(orgs, projectsOf) == vs + b;
    }
  }

  /** The whole aggregation is ordered by organization age. */
  lemma AllVisitsOrder(db: Tables, user: UserId, orgReadRoles: set<RoleId>)
    ensures var vs := AllVisits(db, user, orgReadRoles);
      forall i, j :: 0 <= i < j < |vs| ==> vs[i].org.dateAdded >= vs[j].org.dateAdded
  {
    VisitsOrgOrder(OrgQuery(db, user, orgReadRoles), ProjectsOf(db));
  }

  /**
   * With no organization listed twice, the visits of one organization form a
   * single run, and within it the projects come newest first.
   */
  lemma {:induction false} VisitsGrouped(orgs: seq<Organization>, projectsOf: Organization -> seq<Project>)
    requires Distinct(orgs)
    requires forall o :: o in orgs ==> NewestFirst(projectsOf(o), ProjectDate)
    ensures var vs := Visits(orgs, projectsOf);
      forall i, j, k :: 0 <= i < j < k < |vs| && vs[i].org == vs[k].org ==> vs[j].org == vs[i].org
    ensures var vs := Visits(orgs, projectsOf);
      forall i, j :: 0 <= i < j < |vs| && vs[i].org == vs[j].org ==>
        vs[i].project.dateAdded >= vs[j].project.dateAdded
  {
    if orgs != [] {
      var init, last := orgs[..|orgs| - 1], orgs[|orgs| - 1];
      assert orgs == init + [last];
      assert Distinct(init);
      assert last !in init by {
        assert forall i :: 0 <= i < |init| ==> init[i] == orgs[i] != last;
      }
      VisitsGrouped(init, projectsOf);
      var vs, ps := Visits(init, projectsOf), projectsOf(last);
      var b := Block(last, ps);
      forall i | 0 <= i < |vs|
        ensures vs[i].org != last
      {
        VisitsMembership(init, projectsOf, vs[i]);
      }
      assert NewestFirst(ps, ProjectDate);
      var all := Visits(orgs, projectsOf);
      assert all == vs + b;
      assert forall i :: |vs| <= i < |all| ==> all[i] == Visit(last, ps[i - |vs|]);
    }
  }

  /**
   * The aggregation, over organizations with distinct ids, lists each
   * organization's projects as one newest-first run.
   */
  lemma AllVisitsGrouped(db: Tables, user: UserId, orgReadRoles: set<RoleId>)
    requires UniqueOrgIds(db)
    ensures var vs := AllVisits(db, user, orgReadRoles);
      forall i, j, k :: 0 <= i < j < k < |vs| && vs[i].org == vs[k].org ==> vs[j].org == vs[i].org
    ensures var vs := AllVisits(db, user, orgReadRoles);
      forall i, j :: 0 <= i < j < |vs| && vs[i].org == vs[j].org ==>
        vs[i].project.dateAdded >= vs[j].project.dateAdded
  {
    OrgQueryDistinct(db, user, orgReadRoles);
    VisitsGrouped(OrgQuery(db, user, orgReadRoles), ProjectsOf(db));
    assert AllVisits(db, user, orgReadRoles) == Visits(OrgQuery(db, user, orgReadRoles), ProjectsOf(db));
  }

  // ---------------------------------------------------------------------
  // Payloads
  // ---------------------------------------------------------------------

  /** mobile_wizard's result: `{"token": serialize(token).get("token")}`. */
  function MobileResult(ser: Serializers, t: ApiToken): (r: Json)
    ensures r.JObject? && r.fields.Keys == {"token"}
    ensures r.fields["token"] == Field(ser.apiToken(t), "token")
  {
    JObject(map["token" := Field(ser.apiToken(t), "token")])
  }

  /** setup_wizard's result: `{"apiKeys": serialize(token), "projects": filled_projects}`. */
  function DesktopResult(ser: Serializers, t: ApiToken, projects: seq<Json>): (r: Json)
    ensures r.JObject? && r.fields.Keys == {"apiKeys", "projects"}
    ensures r.fields["apiKeys"] == JObject(ser.apiToken(t))
    ensures r.fields["projects"] == JList(projects)
  {
    JObject(map["apiKeys" := JObject(ser.apiToken(t)), "projects" := JList(projects)])
  }

  /**
   * What a dispatch on a present slot computes from the token store it starts
   * from: the payload to write and the token store afterwards.  It takes no
   * cache argument: the old slot value plays no part.
   */
  function Handoff(tokens: seq<ApiToken>, db: Tables, ser: Serializers, user: UserId,
                   orgReadRoles: set<RoleId>, wizardHash: string, secret: string)
    : (r: (Json, seq<ApiToken>))
    ensures r.0.JObject?
    ensures IsMobileHash(wizardHash) ==> r.0.fields.Keys == {"token"}
    ensures !IsMobileHash(wizardHash) ==>
      r.0.fields.Keys == {"apiKeys", "projects"} &&
      r.0.fields["projects"] == JList(Filled(db, ser, user, orgReadRoles))
    ensures r.1 == tokens || (|r.1| == |tokens| + 1 && r.1[..|tokens|] == tokens)
  {
    if IsMobileHash(wizardHash) then
      var (t, after) := Provision(tokens, user, MOBILE_SCOPES, secret);
      (MobileResult(ser, t), after)
    else
      var (t, after) := Provision(tokens, user, DESKTOP_SCOPES, secret);
      (DesktopResult(ser, t, Filled(db, ser, user, orgReadRoles)), after)
  }

  /**
   * Opening the page a second time for the same hash writes the same payload
   * and creates no further token.
   */
  lemma HandoffRepeatable(tokens: seq<ApiToken>, db: Tables, ser: Serializers, user: UserId,
                          orgReadRoles: set<RoleId>, wizardHash: string, secret: string, secret': string)
    ensures var (payload, after) := Handoff(tokens, db, ser, user, orgReadRoles, wizardHash, secret);
      Handoff(after, db, ser, user, orgReadRoles, wizardHash, secret') == (payload, after)
  {
    var required := if IsMobileHash(wizardHash) then MOBILE_SCOPES else DESKTOP_SCOPES;
    ProvisionIdempotent(tokens, user, required, secret, secret');
  }

  /**
   * A user with no qualifying organization gets an empty project list on the
   * desktop flow, and a token is still found or created.
   */
  lemma NoOrganizations(tokens: seq<ApiToken>, db: Tables, ser: Serializers, user: UserId,
                        orgReadRoles: set<RoleId>, wizardHash: string, secret: string)
    requires !IsMobileHash(wizardHash)
    requires forall o :: o in db.organizations ==> !Qualifies(db, user, orgReadRoles, o)
    ensures Filled(db, ser, user, orgReadRoles) == []
    ensures var (payload, after) := Handoff(tokens, db, ser, user, orgReadRoles, wizardHash, secret);
      var (t, provisioned) := Provision(tokens, user, DESKTOP_SCOPES, secret);
      && payload.fields["projects"] == JList([])
      && payload.fields["apiKeys"] == JObject(ser.apiToken(t))
      && after == provisioned
  {
    var p := QualifiesFor(db, user, orgReadRoles);
    FilterEmpty(db.organizations, p);
    assert Filter(db.organizations, p) == [];
    assert OrgQuery(db, user, orgReadRoles) == Newest(Filter(db.organizations, p), OrgDate, QUERY_LIMIT);
  }

  /**
   * A mobile hash, for a user none of whose tokens covers the seven mobile
   * scopes, appends exactly one token with exactly those scopes and hands its
   * token string over.
   */
  lemma MobileCreatesToken(tokens: seq<ApiToken>, db: Tables, ser: Serializers, user: UserId,
                           orgReadRoles: set<RoleId>, wizardHash: string, secret: string)
    requires IsMobileHash(wizardHash)
    requires forall t :: t in tokens ==> !(t.user == user && Covers(t, MOBILE_SCOPES))
    ensures var (payload, after) := Handoff(tokens, db, ser, user, orgReadRoles, wizardHash, secret);
      var t := NewToken(|tokens|, user, MOBILE_SCOPES, secret);
      && after == tokens + [t]
      && GetScopes(t) == MOBILE_SCOPES && t.refreshToken == None && t.expiresAt == None
      && payload == JObject(map["token" := Field(ser.apiToken(t), "token")])
  {
    ProvisionCreates(tokens, user, MOBILE_SCOPES, secret);
  }

  // ---------------------------------------------------------------------
  // The view
  // ---------------------------------------------------------------------

  /** The find-or-create both wizard helpers inline. */
  method FindOrCreateToken(store: Store, user: UserId, required: seq<string>, secret: string)
    returns (t: ApiToken)
    modifies store`tokens
    ensures (t, store.tokens) == Provision(old(store.tokens), user, required, secret)
  {
    var tokens := Covering(store.tokens, user, required);
    if tokens == [] {
      t := store.CreateToken(user, required, secret);
    } else {
      t := tokens[0];
    }
  }

  /** The nested loops of setup_wizard that build `filled_projects`. */
  method FillProjects(db: Tables, ser: Serializers, user: UserId, orgReadRoles: set<RoleId>)
    returns (filled: seq<Json>)
    ensures filled == Filled(db, ser, user, orgReadRoles)
  {
    var orgs := OrgQuery(db, user, orgReadRoles);
    filled := [];
    for i := 0 to |orgs|
      invariant filled == EnrichAll(db, ser, Visits(orgs[..i], ProjectsOf(db)))
    {
      var org := orgs[i];
      var projects := ProjectQuery(db, org);
      ghost var before := Visits(orgs[..i], ProjectsOf(db));
      for j := 0 to |projects|
        invariant filled == EnrichAll(db, ser, before + Block(org, projects[..j]))
      {
        var project := projects[j];
        var enriched := ser.project(project);
        enriched := enriched["organization" := JObject(ser.organization(org))];
        var keys := KeyQuery(db, project);
        enriched := enriched["keys" := JList(SerializeKeys(ser, keys))];
        filled := filled + [JObject(enriched)];
        assert JObject(enriched) == Enrich(db, ser, org, project);
        EnrichStep(db, ser, before, org, projects, j);
      }
      assert filled == EnrichAll(db, ser, Visits(orgs[..i + 1], ProjectsOf(db))) by {
        assert projects[..|projects|] == projects;
        assert ProjectsOf(db)(org) == projects;
        VisitsStep(orgs, ProjectsOf(db), i);
      }
    }
    assert orgs[..|orgs|] == orgs;
  }

  method MobileWizard(store: Store, ser: Serializers, user: UserId, secret: string) returns (result: Json)
    modifies store`tokens
    ensures var (t, after) := Provision(old(store.tokens), user, MOBILE_SCOPES, secret);
      result == MobileResult(ser, t) && store.tokens == after
  {
    var token := FindOrCreateToken(store, user, MOBILE_SCOPES, secret);
    result := JObject(map["token" := Field(ser.apiToken(token), "token")]);
  }

  method SetupWizard(store: Store, db: Tables, ser: Serializers, user: UserId, orgReadRoles: set<RoleId>,
                     secret: string) returns (result: Json)
    modifies store`tokens
    ensures var (t, after) := Provision(old(store.tokens), user, DESKTOP_SCOPES, secret);
      result == DesktopResult(ser, t, Filled(db, ser, user, orgReadRoles)) && store.tokens == after
  {
    var filledProjects := FillProjects(db, ser, user, orgReadRoles);
    var token := FindOrCreateToken(store, user, DESKTOP_SCOPES, secret);
    result := JObject(map["apiKeys" := JObject(ser.apiToken(token)), "projects" := JList(filledProjects)]);
  }

  /**
   * SetupWizardView.get.  A missing slot redirects and changes nothing; a
   * present slot is overwritten, with the fixed timeout, by the payload for
   * the hash's flow, and no other slot changes.
   */
  method Get(store: Store, db: Tables, ser: Serializers, user: UserId, orgReadRoles: set<RoleId>,
             wizardHash: string, secret: string) returns (response: Response)
    modifies store
    ensures old(store.CacheGet(CacheKey(wizardHash))) == None ==>
      response == RedirectToOrg && store.cache == old(store.cache) && store.tokens == old(store.tokens)
    ensures old(store.CacheGet(CacheKey(wizardHash))) != None ==>
      var (payload, after) := Handoff(old(store.tokens), db, ser, user, orgReadRoles, wizardHash, secret);
      && response == Render(TEMPLATE, Context(wizardHash, IsMobileHash(wizardHash)))
      && store.cache == old(store.cache)[CacheKey(wizardHash) := CacheEntry(payload, SETUP_WIZARD_CACHE_TIMEOUT)]
      && store.tokens == after
  {
    var context := Context(wizardHash, false);
    var key := CacheKey(wizardHash);
    var wizardData := store.CacheGet(key);
    if wizardData == None {
      return RedirectToOrg;
    }
    var result;
    if IsMobileHash(wizardHash) {
      context := Context(wizardHash, true);
      result := MobileWizard(store, ser, user, secret);
    } else {
      result := SetupWizard(store, db, ser, user, orgReadRoles, secret);
    }
    store.CacheSet(key, result, SETUP_WIZARD_CACHE_TIMEOUT);
    response := Render(TEMPLATE, context);
  }
}
