# Setup wizard handoff: a Dafny model

This project models Sentry's onboarding "setup wizard" view
(`src/sentry/web/frontend/setup_wizard.py`). An installer registers a random
wizard hash in a shared cache. A logged-in user then opens the wizard page with
that hash, and the view fills the cache slot with data the installer collects
later:

- for a hash starting with `mobile-`, one API token that covers seven mobile scopes;
- for any other hash, an API token with `project:releases` and the user's projects.
  Each project entry embeds its organization and the project's active store keys.

The model has five modules:

- `Models`: the entities (organizations, members, projects, project keys, API
  tokens), the JSON-like values the cache holds, and the external `serialize`
  capability as a record of functions.
- `Queries`: the three ORM queries, written as filters over table snapshots, a
  sort newest-first on `date_added`, and a cap of fifty rows.
- `Tokens`: the find-or-create of an API token. `Provision` specifies it as a
  function of the token table.
- `Backend`: the class `Store`, holding the two pieces of shared mutable state.
  These are the handoff cache (`map<string, CacheEntry>`) and the ApiToken table
  (`seq<ApiToken>`).
- `SetupWizardView`: the view itself. The dispatcher `Get`, the helpers
  `MobileWizard` and `SetupWizard`, and the nested loops that build
  `filled_projects` (`FillProjects`) are methods. Each is proved against a
  specification function (`Handoff`, `Provision`, `Filled`), and the lemmas
  state what the source promises about those functions.

Notes on how the code was read:

- A cache read gives None both for a missing key and for a stored None.
  `Store.CacheGet` returns `None` in both cases, so both lead to the redirect.
- The token and key queries have no `order_by`; the model reads them in the
  order of the table sequence (see "## Left out").
- The reuse test looks only at owner and scopes. It does not check
  `expires_at`, so a covering token that has expired is still reused.
- The cache key prefix and the timeout are defined in
  `sentry/api/endpoints/setup_wizard.py`, which is not part of this model. The
  model uses that module's values, `"setup-wizard-keys:v1:"` and 600. No
  property depends on them beyond their being fixed.

## Model

| member | source | states |
|---|---|---|
| `Queries.Filter` | src/sentry/web/frontend/setup_wizard.py:84-90 | a filtered query returns exactly the rows that satisfy the condition, and never more rows than the table holds |
| `Queries.FilterSubMultiset` | src/sentry/web/frontend/setup_wizard.py:84-90 | a filter returns each row no more often than the table holds it |
| `Queries.FilterFirst` | src/sentry/web/frontend/setup_wizard.py:48-52 | a filter is empty iff no row satisfies the condition; otherwise its first element is the first satisfying row in table order |
| `Queries.SortNewestSorts` | src/sentry/web/frontend/setup_wizard.py:71 | `order_by("-date_added")` puts the rows in descending `date_added` order and is a permutation of them |
| `Queries.Newest` | src/sentry/web/frontend/setup_wizard.py:71 | the capped query returns min(50, number of rows) rows |
| `Queries.NewestOrdered` | src/sentry/web/frontend/setup_wizard.py:76-80 | the capped query returns only rows of the table, newest first |
| `Queries.NewestDropsOnlyOlder` | src/sentry/web/frontend/setup_wizard.py:71 | a row the cap leaves out was displaced: exactly `limit` rows were returned and none is older than it |
| `Queries.NewestDistinct` | src/sentry/web/frontend/setup_wizard.py:71 | sorting and capping never duplicate a row |
| `Queries.FilterDistinct` | src/sentry/web/frontend/setup_wizard.py:67-70 | filtering never duplicates a row |
| `Queries.OrgQuery` | src/sentry/web/frontend/setup_wizard.py:67-71 | at most 50 organizations, each visible and readable by the user through a member role in the org:read set, newest first |
| `Queries.OrgQueryComplete` | src/sentry/web/frontend/setup_wizard.py:67-71 | a qualifying organization is left out only when 50 organizations no older than it were taken |
| `Queries.OrgQueryDistinct` | src/sentry/web/frontend/setup_wizard.py:67-71 | when organization ids are unique, no organization is visited twice |
| `Queries.ProjectQuery` | src/sentry/web/frontend/setup_wizard.py:76-80 | at most 50 projects, each a visible project of that organization, newest first |
| `Queries.ProjectQueryComplete` | src/sentry/web/frontend/setup_wizard.py:76-80 | a visible project of the organization is left out only when 50 projects no older than it were taken |
| `Queries.KeyQuery` | src/sentry/web/frontend/setup_wizard.py:84-90 | the keys listed are exactly the project's keys that are active and have the store role bit set (`roles == roles \| store`) |
| `Tokens.DesktopTestIsCovers` | src/sentry/web/frontend/setup_wizard.py:96-100 | the desktop test `"project:releases" in get_scopes()` is the covering test for the one-scope list |
| `Tokens.Covering` | src/sentry/web/frontend/setup_wizard.py:48-52 | the comprehension keeps exactly the user's tokens whose scopes include every required scope |
| `Tokens.NewToken` | src/sentry/web/frontend/setup_wizard.py:54-59 | a created token belongs to the user, has exactly the given scope list, and has no refresh token and no expiry |
| `Tokens.Provision` | src/sentry/web/frontend/setup_wizard.py:47-61 | find-or-create returns a token of the user covering the required scopes; the token table is unchanged or grows by exactly that token |
| `Tokens.ProvisionReusesFirst` | src/sentry/web/frontend/setup_wizard.py:60-61 | when a covering token of the user exists, nothing is created and the first covering token in table order is returned |
| `Tokens.ProvisionCreates` | src/sentry/web/frontend/setup_wizard.py:53-59 | when none exists, exactly one token is appended: the user's, with `scope_list` equal to the required list, `refresh_token` and `expires_at` None |
| `Tokens.ProvisionIdempotent` | src/sentry/web/frontend/setup_wizard.py:47-61 | a second find-or-create right after the first returns the same token and creates nothing |
| `Backend.Store.CacheGet` | src/sentry/web/frontend/setup_wizard.py:29-30 | the read gives None exactly when the slot is missing or holds None, and the stored value otherwise |
| `Backend.Store.CacheSet` | src/sentry/web/frontend/setup_wizard.py:40 | a write replaces that one slot wholesale, with the given timeout, and leaves every other slot alone |
| `Backend.Store.CreateToken` | src/sentry/web/frontend/setup_wizard.py:54-59 | creating a token appends exactly one row and changes no other |
| `SetupWizardView.SerializeKeys` | src/sentry/web/frontend/setup_wizard.py:91 | serializing the key list gives one serialized key per key, in order |
| `SetupWizardView.Enrich` | src/sentry/web/frontend/setup_wizard.py:82-91 | a project entry is the serialized project with `organization` set to its serialized organization and `keys` set to its serialized store keys; other fields are kept |
| `SetupWizardView.EnrichAll` | src/sentry/web/frontend/setup_wizard.py:82-92 | `filled_projects` holds one enriched entry per visited (organization, project) pair, at the same position as the pair |
| `SetupWizardView.VisitsBound` | src/sentry/web/frontend/setup_wizard.py:75-81 | the nested loops visit at most (projects per organization) × (organizations) pairs |
| `SetupWizardView.ProjectsBound` | src/sentry/web/frontend/setup_wizard.py:67-92 | `filled_projects` has at most 50 × 50 = 2500 entries |
| `SetupWizardView.VisitsMembership` | src/sentry/web/frontend/setup_wizard.py:75-81 | a pair is visited iff its organization was selected and its project was listed for that organization |
| `SetupWizardView.VisitsVisible` | src/sentry/web/frontend/setup_wizard.py:67-81 | every entry comes from a visible organization the user can read and a visible project of that organization |
| `SetupWizardView.VisitsOrgOrder` | src/sentry/web/frontend/setup_wizard.py:71-81 | when the organizations come newest first, so do the entries' organizations |
| `SetupWizardView.AllVisitsOrder` | src/sentry/web/frontend/setup_wizard.py:67-92 | the visited (organization, project) pairs, and so the entries of `filled_projects` by `EnrichAll`, are in descending organization `date_added` order |
| `SetupWizardView.VisitsGrouped` | src/sentry/web/frontend/setup_wizard.py:75-92 | with no organization twice, each organization's entries are one contiguous run, with projects newest first |
| `SetupWizardView.AllVisitsGrouped` | src/sentry/web/frontend/setup_wizard.py:67-92 | with unique organization ids, the visited pairs, and so the entries of `filled_projects` by `EnrichAll`, are grouped org by org, projects newest first within each |
| `SetupWizardView.MobileResult` | src/sentry/web/frontend/setup_wizard.py:63 | the mobile payload has the single field `token`, taken from the serialized token |
| `SetupWizardView.DesktopResult` | src/sentry/web/frontend/setup_wizard.py:111 | the desktop payload has exactly the fields `apiKeys` (the serialized token) and `projects` (the entry list) |
| `SetupWizardView.Handoff` | src/sentry/web/frontend/setup_wizard.py:33-37 | a `mobile-` hash yields a payload whose only field is `token`; any other hash yields `apiKeys` and `projects`; the token table grows by at most one row |
| `SetupWizardView.HandoffRepeatable` | src/sentry/web/frontend/setup_wizard.py:44-111 | opening the page again for the same hash writes the same payload and creates no further token |
| `SetupWizardView.NoOrganizations` | src/sentry/web/frontend/setup_wizard.py:73-111 | a user with no qualifying organization gets `projects` equal to the empty list, and a token is still found or created |
| `SetupWizardView.MobileCreatesToken` | src/sentry/web/frontend/setup_wizard.py:44-63 | on a mobile hash with no covering token, exactly one token with the seven mobile scopes is appended and its `token` field is handed over |
| `SetupWizardView.FindOrCreateToken` | src/sentry/web/frontend/setup_wizard.py:95-109 | the inlined find-or-create returns, and leaves the token table as, `Provision` says |
| `SetupWizardView.FillProjects` | src/sentry/web/frontend/setup_wizard.py:73-92 | the nested loops build exactly the specified entry list `Filled` |
| `SetupWizardView.MobileWizard` | src/sentry/web/frontend/setup_wizard.py:44-63 | returns the mobile payload for the provisioned token, and the token table becomes the provisioned one |
| `SetupWizardView.SetupWizard` | src/sentry/web/frontend/setup_wizard.py:66-111 | returns the desktop payload for the provisioned token and the filled projects, and the token table becomes the provisioned one |
| `SetupWizardView.Get` | src/sentry/web/frontend/setup_wizard.py:21-42 | missing slot: redirect, with the cache and token table unchanged. Present slot: one write to the same key with the fixed timeout and the `Handoff` payload (which ignores the old value); no other key changes; renders the hash with `mobile` set by the prefix |

## Left out

- Django ORM mechanics (SQL, joins, `F(...).bitor`, slicing) are modelled as filters, a sort and a cap over table snapshots.
- The order of rows with equal `date_added` is not specified by the database, and neither is which tied row the cap of 50 keeps. The model's sort fixes one tie order, the same on every call. `SetupWizardView.HandoffRepeatable` (the same `projects` list on a second visit) therefore holds only if the database orders ties the same way on both visits. `Queries.SortNewestSorts`, `Queries.NewestDropsOnlyOlder`, `Queries.OrgQueryComplete`, `Queries.ProjectQueryComplete`, `SetupWizardView.AllVisitsOrder` and `SetupWizardView.AllVisitsGrouped` hold for any tie order.
- The token queries (`ApiToken.objects.filter(user=...).all()`) and the store-key query have no `order_by`, so the database chooses their order. The model takes the order of the table sequence (insertion order). `Tokens.ProvisionReusesFirst` ("the first covering token"), the reuse half of `Tokens.ProvisionIdempotent` and `SetupWizardView.HandoffRepeatable` (the same token is handed over again), and the order of the `keys` list in `SetupWizardView.Enrich` hold for that order only. With two or more covering tokens, a database that returns them in another order on the second visit hands over a different token.
- The organization join is modelled as "some membership row of the user with a role in the org:read set". A user holds at most one membership per organization, so the join yields no duplicate rows.
- `roles.with_scope("org:read")` is a parameter: the set of role ids granting `org:read`.
- `serialize` is an external collaborator, passed in as one function per entity kind. The model does not look inside the dictionaries it returns.
- `ApiToken.get_scopes` is modelled as `scope_list`. The legacy bit-field scopes it falls back to when the list is empty are left out.
- The random token string and the primary key of a new token come from the database. The string is a parameter (`secret`) and the id is the row's position.
- Rendering, `redirect_to_org`, and `BaseView` authentication and request handling are reduced to a response tag: `RedirectToOrg`, or `Render` with the template name and the context `{hash, mobile}`.
- Cache expiry over time is left out. The timeout is only recorded with each write.
- The pre-registration endpoint in `sentry/api/endpoints/setup_wizard.py` is not part of this model.
- Store and cache failures are left out; they surface as unhandled exceptions.
- Concurrent requests are left out. That includes duplicate tokens from two simultaneous first visits and last-writer-wins on the cache slot.
- `AllVisitsGrouped`: the grouping and per-organization order hold only when organization ids are unique, which is the table's primary key.
