/**
 * The ORM queries of the setup wizard, as filters, a sort on `date_added`
 * (newest first) and a cap on the number of rows, over the table snapshot.
 */
module Queries {
  import opened Models

  /** Rows per query: the `[:50]` slices on organizations and projects. */
  const QUERY_LIMIT: nat := 50

  function Min(a: nat, b: nat): nat
  {
    if a <= b then a else b
  }

  // ---------------------------------------------------------------------
  // Generic building blocks
  // ---------------------------------------------------------------------

  /**
   * The rows of `s` that satisfy `p` (a `filter(...)`), each as often as in
   * `s` (`FilterSubMultiset`); `FilterFirst` states which row comes first.
   */
  function Filter<T(!new)>(s: seq<T>, p: T -> bool): (r: seq<T>)
    ensures |r| <= |s|
    ensures forall x :: x in r <==> x in s && p(x)
  {
    if s == [] then []
    else if p(s[0]) then [s[0]] + Filter(s[1..], p)
    else Filter(s[1..], p)
  }

  /** A filter keeps each row at most as often as the table holds it. */
  lemma {:induction false} FilterSubMultiset<T(!new)>(s: seq<T>, p: T -> bool)
    ensures multiset(Filter(s, p)) <= multiset(s)
  {
    if s != [] {
      FilterSubMultiset(s[1..], p);
      assert s == [s[0]] + s[1..];
    }
  }

  /** A filter comes back empty exactly when no row satisfies the condition. */
  lemma {:induction false} FilterEmpty<T(!new)>(s: seq<T>, p: T -> bool)
    ensures Filter(s, p) == [] <==> forall i :: 0 <= i < |s| ==> !p(s[i])
  {
    if s != [] {
      var tail := s[1..];
      FilterEmpty(tail, p);
      assert forall i :: 1 <= i < |s| ==> s[i] == tail[i - 1];
    }
  }

  /** The first row of a filter is the first row of `s` that satisfies `p`. */
  lemma {:induction false} FilterFirst<T(!new)>(s: seq<T>, p: T -> bool)
    requires Filter(s, p) != []
    ensures exists i :: (0 <= i < |s| && Filter(s, p)[0] == s[i] && p(s[i]) &&
                         forall j :: 0 <= j < i ==> !p(s[j]))
  {
    var tail := s[1..];
    if p(s[0]) {
      assert Filter(s, p)[0] == s[0];
    } else {
      assert Filter(s, p) == Filter(tail, p);
      FilterFirst(tail, p);
      var i :| 0 <= i < |tail| && Filter(tail, p)[0] == tail[i] && p(tail[i]) &&
        forall j :: 0 <= j < i ==> !p(tail[j]);
      assert s[i + 1] == tail[i];
      assert forall j :: 1 <= j < i + 1 ==> s[j] == tail[j - 1];
    }
  }

  /** `s` is in descending order of `date` (an `order_by("-date_added")`). */
  predicate NewestFirst<T>(s: seq<T>, date: T -> int)
  {
    forall i, j :: 0 <= i < j < |s| ==> date(s[i]) >= date(s[j])
  }

  /** Inserts `x` into a newest-first sequence, before the rows no newer than it. */
  function Insert<T>(x: T, s: seq<T>, date: T -> int): (r: seq<T>)
    ensures multiset(r) == multiset(s) + multiset{x}
  {
    if s == [] || date(x) >= date(s[0]) then [x] + s
    else
      assert s == [s[0]] + s[1..];
      [s[0]] + Insert(x, s[1..], date)
  }

  function SortNewest<T>(s: seq<T>, date: T -> int): (r: seq<T>)
    ensures multiset(r) == multiset(s)
  {
    if s == [] then []
    else
      assert s == [s[0]] + s[1..];
      Insert(s[0], SortNewest(s[1..], date), date)
  }

  /** Putting a row no older than any row of a newest-first sequence in front keeps it newest first. */
  lemma ConsNewestFirst<T>(h: T, rest: seq<T>, date: T -> int)
    requires NewestFirst(rest, date)
    requires forall y :: y in rest ==> date(y) <= date(h)
    ensures NewestFirst([h] + rest, date)
  {
    var r := [h] + rest;
    forall i, j | 0 <= i < j < |r|
      ensures date(r[i]) >= date(r[j])
    {
      assert r[j] == rest[j - 1];
      if i > 0 {
        assert r[i] == rest[i - 1];
      }
    }
  }

  /** Insertion keeps every row under a bound that `x` and all rows of `s` are under. */
  lemma InsertBounded<T>(x: T, s: seq<T>, date: T -> int, bound: int)
    requires date(x) <= bound
    requires forall y :: y in s ==> date(y) <= bound
    ensures forall y :: y in Insert(x, s, date) ==> date(y) <= bound
  {
    forall y | y in Insert(x, s, date)
      ensures date(y) <= bound
    {
      assert y in multiset(Insert(x, s, date));
      assert y == x || y in multiset(s);
    }
  }

  lemma {:induction false} InsertNewestFirst<T>(x: T, s: seq<T>, date: T -> int)
    requires NewestFirst(s, date)
    ensures NewestFirst(Insert(x, s, date), date)
  {
    if s == [] || date(x) >= date(s[0]) {
      ConsNewestFirst(x, s, date);
    } else {
      var tail := s[1..];
      assert NewestFirst(tail, date);
      assert forall y :: y in tail ==> date(y) <= date(s[0]);
      InsertNewestFirst(x, tail, date);
      InsertBounded(x, tail, date, date(s[0]));
      ConsNewestFirst(s[0], Insert(x, tail, date), date);
    }
  }

  /** The sort orders newest first and keeps every row (a permutation). */
  lemma {:induction false} SortNewestSorts<T>(s: seq<T>, date: T -> int)
    ensures NewestFirst(SortNewest(s, date), date)
    ensures multiset(SortNewest(s, date)) == multiset(s)
  {
    if s != [] {
      SortNewestSorts(s[1..], date);
      InsertNewestFirst(s[0], SortNewest(s[1..], date), date);
    }
  }

  /** The `limit` newest rows of `s`: `order_by("-date_added")[:limit]`. */
  function Newest<T>(s: seq<T>, date: T -> int, limit: nat): (r: seq<T>)
    ensures |r| == Min(limit, |s|)
  {
    var sorted := SortNewest(s, date);
    assert |sorted| == |multiset(sorted)| == |s|;
    sorted[..Min(limit, |s|)]
  }

  /** Every row the capped query returns is a row of `s`, newest first. */
  lemma NewestOrdered<T>(s: seq<T>, date: T -> int, limit: nat)
    ensures NewestFirst(Newest(s, date, limit), date)
    ensures forall x :: x in Newest(s, date, limit) ==> x in s
  {
    var sorted := SortNewest(s, date);
    SortNewestSorts(s, date);
    var r := Newest(s, date, limit);
    assert |sorted| == |multiset(sorted)| == |s|;
    assert r == sorted[..|r|];
    forall x | x in r
      ensures x in s
    {
      assert x in sorted;
      assert x in multiset(sorted);
    }
  }

  /**
   * A row of `s` that the capped query leaves out was displaced: the query
   * returned `limit` rows, and none of them is older than it.
   */
  lemma NewestDropsOnlyOlder<T>(s: seq<T>, date: T -> int, limit: nat, y: T)
    requires y in s && y !in Newest(s, date, limit)
    ensures |Newest(s, date, limit)| == limit
    ensures forall z :: z in Newest(s, date, limit) ==> date(z) >= date(y)
  {
    var sorted := SortNewest(s, date);
    SortNewestSorts(s, date);
    var r := Newest(s, date, limit);
    assert |sorted| == |multiset(sorted)| == |s|;
    assert r == sorted[..|r|];
    assert y in multiset(sorted);
    var j :| 0 <= j < |sorted| && sorted[j] == y;
    assert forall k :: 0 <= k < |r| ==> sorted[k] == r[k] != y;
    forall z | z in r
      ensures date(z) >= date(y)
    {
      var i :| 0 <= i < |r| && r[i] == z;
      assert sorted[i] == z;
    }
  }

  /** No row occurs twice. */
  ghost predicate Distinct<T>(s: seq<T>)
  {
    forall i, j :: 0 <= i < j < |s| ==> s[i] != s[j]
  }

  lemma {:induction false} FilterDistinct<T(!new)>(s: seq<T>, p: T -> bool)
    requires Distinct(s)
    ensures Distinct(Filter(s, p))
  {
    if s != [] {
      assert Distinct(s[1..]) by {
        assert forall i :: 0 <= i < |s[1..]| ==> s[1..][i] == s[i + 1];
      }
      FilterDistinct(s[1..], p);
      var rest := Filter(s[1..], p);
      assert s[0] !in s[1..] by {
        assert forall i :: 0 <= i < |s[1..]| ==> s[1..][i] == s[i + 1] != s[0];
      }
      if p(s[0]) {
        var r := [s[0]] + rest;
        forall i, j | 0 <= i < j < |r|
          ensures r[i] != r[j]
        {
          assert r[j] == rest[j - 1] && r[j] in rest;
          if i > 0 {
            assert r[i] == rest[i - 1];
          }
        }
      }
    }
  }

  lemma {:induction false} InsertDistinct<T>(x: T, s: seq<T>, date: T -> int)
    requires Distinct(s) && x !in s
    ensures Distinct(Insert(x, s, date))
  {
    if s == [] || date(x) >= date(s[0]) {
      var r := [x] + s;
      forall i, j | 0 <= i < j < |r|
        ensures r[i] != r[j]
      {
        assert r[j] == s[j - 1] && r[j] in s;
        if i > 0 {
          assert r[i] == s[i - 1];
        }
      }
    } else {
      assert Distinct(s[1..]) by {
        assert forall i :: 0 <= i < |s[1..]| ==> s[1..][i] == s[i + 1];
      }
      assert x !in s[1..];
      InsertDistinct(x, s[1..], date);
      var rest := Insert(x, s[1..], date);
      assert s[0] !in rest by {
        assert forall i :: 0 <= i < |s[1..]| ==> s[1..][i] == s[i + 1] != s[0];
        assert s[0] !in multiset(s[1..]);
        assert s[0] != x;
        assert s[0] !in multiset(rest);
      }
      var r := [s[0]] + rest;
      forall i, j | 0 <= i < j < |r|
        ensures r[i] != r[j]
      {
        assert r[j] == rest[j - 1] && r[j] in rest;
        if i > 0 {
          assert r[i] == rest[i - 1];
        }
      }
    }
  }

  lemma {:induction false} SortDistinct<T>(s: seq<T>, date: T -> int)
    requires Distinct(s)
    ensures Distinct(SortNewest(s, date))
  {
    if s != [] {
      assert Distinct(s[1..]) by {
        assert forall i :: 0 <= i < |s[1..]| ==> s[1..][i] == s[i + 1];
      }
      SortDistinct(s[1..], date);
      assert s[0] !in SortNewest(s[1..], date) by {
        assert forall i :: 0 <= i < |s[1..]| ==> s[1..][i] == s[i + 1] != s[0];
        assert s[0] !in multiset(s[1..]);
      }
      InsertDistinct(s[0], SortNewest(s[1..], date), date);
    }
  }

  /** The capped query never returns a row twice when the table has none twice. */
  lemma NewestDistinct<T>(s: seq<T>, date: T -> int, limit: nat)
    requires Distinct(s)
    ensures Distinct(Newest(s, date, limit))
  {
    SortDistinct(s, date);
    var sorted := SortNewest(s, date);
    assert |sorted| == |multiset(sorted)| == |s|;
    assert Newest(s, date, limit) == sorted[..Min(limit, |s|)];
  }

  // ---------------------------------------------------------------------
  // The three queries of setup_wizard
  // ---------------------------------------------------------------------

  function OrgDate(o: Organization): int { o.dateAdded }

  function ProjectDate(p: Project): int { p.dateAdded }

  /**
   * An organization qualifies when it is visible and `user` is a member of it
   * with a role that grants `org:read` (a role in `orgReadRoles`).
   */
  predicate Qualifies(db: Tables, user: UserId, orgReadRoles: set<RoleId>, o: Organization)
  {
    && o.status == Visible
    && exists m :: m in db.members && m.org == o.id && m.user == user && m.role in orgReadRoles
  }

  function QualifiesFor(db: Tables, user: UserId, orgReadRoles: set<RoleId>): Organization -> bool
  {
    o => Qualifies(db, user, orgReadRoles, o)
  }

  /** The organizations setup_wizard visits, newest first, at most fifty. */
  function OrgQuery(db: Tables, user: UserId, orgReadRoles: set<RoleId>): (r: seq<Organization>)
    ensures |r| <= QUERY_LIMIT
    ensures forall o :: o in r ==> o in db.organizations && Qualifies(db, user, orgReadRoles, o)
    ensures NewestFirst(r, OrgDate)
  {
    var candidates := Filter(db.organizations, QualifiesFor(db, user, orgReadRoles));
    NewestOrdered(candidates, OrgDate, QUERY_LIMIT);
    Newest(candidates, OrgDate, QUERY_LIMIT)
  }

  /** Organization ids are primary keys. */
  predicate UniqueOrgIds(db: Tables)
  {
    forall i, j :: 0 <= i < j < |db.organizations| ==> db.organizations[i].id != db.organizations[j].id
  }

  /** The organization query returns each organization at most once. */
  lemma OrgQueryDistinct(db: Tables, user: UserId, orgReadRoles: set<RoleId>)
    requires UniqueOrgIds(db)
    ensures Distinct(OrgQuery(db, user, orgReadRoles))
  {
    var candidates := Filter(db.organizations, QualifiesFor(db, user, orgReadRoles));
    FilterDistinct(db.organizations, QualifiesFor(db, user, orgReadRoles));
    NewestDistinct(candidates, OrgDate, QUERY_LIMIT);
  }

  predicate InOrg(o: Organization, p: Project)
  {
    p.org == o.id && p.status == Visible
  }

  function InOrgOf(o: Organization): Project -> bool
  {
    p => InOrg(o, p)
  }

  /** The visible projects of `o`, newest first, at most fifty. */
  function ProjectQuery(db: Tables, o: Organization): (r: seq<Project>)
    ensures |r| <= QUERY_LIMIT
    ensures forall p :: p in r ==> p in db.projects && p.org == o.id && p.status == Visible
    ensures NewestFirst(r, ProjectDate)
  {
    var candidates := Filter(db.projects, InOrgOf(o));
    NewestOrdered(candidates, ProjectDate, QUERY_LIMIT);
    Newest(candidates, ProjectDate, QUERY_LIMIT)
  }

  /**
   * The completeness half of both capped queries: a qualifying row is left out
   * only when fifty rows no older than it were selected.
   */
  lemma OrgQueryComplete(db: Tables, user: UserId, orgReadRoles: set<RoleId>, o: Organization)
    requires o in db.organizations && Qualifies(db, user, orgReadRoles, o)
    ensures o !in OrgQuery(db, user, orgReadRoles) ==>
      |OrgQuery(db, user, orgReadRoles)| == QUERY_LIMIT &&
      forall z :: z in OrgQuery(db, user, orgReadRoles) ==> z.dateAdded >= o.dateAdded
  {
    var candidates := Filter(db.organizations, QualifiesFor(db, user, orgReadRoles));
    assert QualifiesFor(db, user, orgReadRoles)(o);
    assert o in candidates;
    assert OrgQuery(db, user, orgReadRoles) == Newest(candidates, OrgDate, QUERY_LIMIT);
    if o !in OrgQuery(db, user, orgReadRoles) {
      NewestDropsOnlyOlder(candidates, OrgDate, QUERY_LIMIT, o);
    }
  }

  lemma ProjectQueryComplete(db: Tables, o: Organization, p: Project)
    requires p in db.projects && p.org == o.id && p.status == Visible
    ensures p !in ProjectQuery(db, o) ==>
      |ProjectQuery(db, o)| == QUERY_LIMIT &&
      forall z :: z in ProjectQuery(db, o) ==> z.dateAdded >= p.dateAdded
  {
    var candidates := Filter(db.projects, InOrgOf(o));
    assert InOrgOf(o)(p);
    assert p in candidates;
    assert ProjectQuery(db, o) == Newest(candidates, ProjectDate, QUERY_LIMIT);
    if p !in ProjectQuery(db, o) {
      NewestDropsOnlyOlder(candidates, ProjectDate, QUERY_LIMIT, p);
    }
  }

  /** A key whose role bits include `store`: `roles == roles | store`. */
  predicate IsStoreKey(p: Project, k: ProjectKey)
  {
    k.project == p.id && k.roles == k.roles | STORE_ROLE && k.status == Active
  }

  function IsStoreKeyOf(p: Project): ProjectKey -> bool
  {
    k => IsStoreKey(p, k)
  }

  /** The active keys of `p` that carry the store role, in table order. */
  function KeyQuery(db: Tables, p: Project): (r: seq<ProjectKey>)
    ensures forall k :: k in r <==>
      k in db.projectKeys && k.project == p.id && k.status == Active && k.roles & STORE_ROLE != 0
  {
    Filter(db.projectKeys, IsStoreKeyOf(p))
  }
}
