/**
 * Find-or-create of an API token, as mobile_wizard and setup_wizard both do
 * it: reuse the first token of the user that covers the required scopes, or
 * create one scoped to exactly those scopes.
 */
module Tokens {
  import opened Models
  import opened Queries

  /** The scopes mobile_wizard asks for. */
  const MOBILE_SCOPES: seq<string> :=
    ["project:releases", "project:read", "event:read", "team:read", "org:read", "member:read", "alerts:read"]

  /** The single scope setup_wizard asks for. */
  const RELEASES_SCOPE: string := "project:releases"

  const DESKTOP_SCOPES: seq<string> := [RELEASES_SCOPE]

  /** Every required scope is among the token's scopes. */
  predicate Covers(t: ApiToken, required: seq<string>)
  {
    forall scope :: scope in required ==> scope in GetScopes(t)
  }

  /** setup_wizard's own test, `"project:releases" in x.get_scopes()`, is Covers for its one scope. */
  lemma DesktopTestIsCovers(t: ApiToken)
    ensures Covers(t, DESKTOP_SCOPES) <==> RELEASES_SCOPE in GetScopes(t)
  {
  }

  predicate Reusable(user: UserId, required: seq<string>, t: ApiToken)
  {
    t.user == user && Covers(t, required)
  }

  function ReusableFor(user: UserId, required: seq<string>): ApiToken -> bool
  {
    t => Reusable(user, required, t)
  }

  /** The list comprehension over the user's tokens, in store order. */
  function Covering(tokens: seq<ApiToken>, user: UserId, required: seq<string>): (r: seq<ApiToken>)
    ensures forall t :: t in r <==> t in tokens && t.user == user && Covers(t, required)
  {
    Filter(tokens, ReusableFor(user, required))
  }

  /** `ApiToken.objects.create(user=..., scope_list=..., refresh_token=None, expires_at=None)`. */
  function NewToken(id: nat, user: UserId, scopeList: seq<string>, secret: string): (t: ApiToken)
    ensures t.user == user && GetScopes(t) == scopeList
    ensures t.refreshToken == None && t.expiresAt == None
  {
    ApiToken(id, user, scopeList, secret, None, None)
  }

  /**
   * The token find-or-create returns and the token store afterwards.  `secret`
   * is the random token string the store would generate for a new row.
   */
  function Provision(tokens: seq<ApiToken>, user: UserId, required: seq<string>, secret: string)
    : (r: (ApiToken, seq<ApiToken>))
    ensures r.0.user == user && Covers(r.0, required)
    ensures r.1 == tokens || r.1 == tokens + [r.0]
    ensures r.0 in r.1
  {
    var matching := Covering(tokens, user, required);
    if matching == [] then
      var t := NewToken(|tokens|, user, required, secret);
      (t, tokens + [t])
    else
      (matching[0], tokens)
  }

  /**
   * When some token of the user covers the scopes, nothing is created and the
   * first such token in store order is returned.
   */
  lemma ProvisionReusesFirst(tokens: seq<ApiToken>, user: UserId, required: seq<string>, secret: string)
    requires exists t :: t in tokens && t.user == user && Covers(t, required)
    ensures Provision(tokens, user, required, secret).1 == tokens
    ensures exists i :: (0 <= i < |tokens| && tokens[i] == Provision(tokens, user, required, secret).0 &&
      Reusable(user, required, tokens[i]) &&
      forall j :: 0 <= j < i ==> !Reusable(user, required, tokens[j]))
  {
    var t :| t in tokens && t.user == user && Covers(t, required);
    assert t in Covering(tokens, user, required);
    FilterFirst(tokens, ReusableFor(user, required));
  }

  /**
   * When no token of the user covers the scopes, exactly one token is
   * appended: the user's, scoped to exactly `required`, with no refresh token
   * and no expiry.
   */
  lemma ProvisionCreates(tokens: seq<ApiToken>, user: UserId, required: seq<string>, secret: string)
    requires forall t :: t in tokens ==> !(t.user == user && Covers(t, required))
    ensures var (t, after) := Provision(tokens, user, required, secret);
      && after == tokens + [t]
      && t.user == user && GetScopes(t) == required
      && t.refreshToken == None && t.expiresAt == None
  {
    FilterEmpty(tokens, ReusableFor(user, required));
  }

  /**
   * A second find-or-create right after the first returns the same token and
   * creates nothing, whatever secret it would have used.
   */
  lemma {:induction false} ProvisionIdempotent(tokens: seq<ApiToken>, user: UserId, required: seq<string>,
                                               secret: string, secret': string)
    ensures var (t, after) := Provision(tokens, user, required, secret);
      Provision(after, user, required, secret') == (t, after)
  {
    var p := ReusableFor(user, required);
    var (t, after) := Provision(tokens, user, required, secret);
    if Covering(tokens, user, required) == [] {
      FilterEmpty(tokens, p);
      assert after[|tokens|] == t && p(t);
      assert t in Filter(after, p);
      FilterFirst(after, p);
      var i :| 0 <= i < |after| && Filter(after, p)[0] == after[i] && p(after[i]) &&
        forall j :: 0 <= j < i ==> !p(after[j]);
      assert forall k :: 0 <= k < |tokens| ==> after[k] == tokens[k] && !p(after[k]);
    }
  }
}
