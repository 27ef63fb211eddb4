/** Behaviours of the entity-permission repository that span several of its
    calls: consolidation settles an entity once and for all, and grants made
    one after another on one entity all reach the record the next query
    returns. */
module EntityPermissionScenarios {
  import opened Types
  import opened Grants
  import opened EntityPermissionStore

  /** The records of `s + p` for `h` are those of `s`, then those of `p`. */
  lemma {:induction false} MatchesConcat(s: seq<EntityPermissions>, p: seq<EntityPermissions>, h: Guid)
    ensures Matches(s + p, h) == Matches(s, h) + Matches(p, h)
    decreases |s|
  {
    if s == [] {
      assert s + p == p;
    } else {
      var head := if s[0].entityGuid == h then [s[0]] else [];
      assert (s + p)[0] == s[0] && (s + p)[1..] == s[1..] + p;
      assert Matches(s + p, h) == head + Matches(s[1..] + p, h);
      MatchesConcat(s[1..], p, h);
      assert Matches(s, h) == head + Matches(s[1..], h);
      assert head + (Matches(s[1..], h) + Matches(p, h)) == (head + Matches(s[1..], h)) + Matches(p, h);
    }
  }

  /** Saving a table without records for `target` after one more record
      for it leaves exactly that record for `target`. */
  lemma SavedOne(s: seq<EntityPermissions>, p: seq<EntityPermissions>, c: EntityPermissions, target: Guid)
    requires Matches(s, target) == [] && Matches(p, target) == [] && c.entityGuid == target
    ensures Matches(s + (p + [c]), target) == [c]
  {
    MatchesConcat(s, p + [c], target);
    MatchesAppend(p, c, target);
  }

  /** Consolidation is idempotent. A second query for the same entity
      returns the record the first returned, leaves its list as the first
      query left it, and deletes nothing more. */
  method ConsolidateTwice(repo: EntityPermissionsRepository, target: Guid)
    returns (first: EntityPermissions?, second: EntityPermissions?)
    requires repo.Valid()
    modifies repo, repo.store
    ensures repo.Valid()
    ensures second == first
    ensures var m := Matches(old(repo.store), target);
      && (m == [] ==> first == null && repo.store == old(repo.store))
      && (m != [] ==> first == m[0] && repo.store == Excluding(old(repo.store), m[1..]))
      && (m != [] ==> first.permissions == old(repo.Consolidated(m)))
      && Matches(repo.store, target) == (if m == [] then [] else [m[0]])
  {
    first := repo.GetForEntity(target);
    if first != null {
      repo.ConsolidatedOne(first);
      ExcludingNothing(repo.store);
    }
    second := repo.GetForEntity(target);
  }

  /** Two grants on an entity with saved records, then a query: the
      record the query returns is the entity's first saved record, holding
      the consolidated saved grants with the first grant and then the second
      added. */
  method GrantTwiceSaved(repo: EntityPermissionsRepository, target: Guid,
                         g1: SecurityGroup, t1: PermissionTypes, g2: SecurityGroup, t2: PermissionTypes)
    returns (r1: Outcome, r2: Outcome, e: EntityPermissions?)
    requires repo.Valid() && Matches(repo.store, target) != []
    modifies repo, repo.store, repo.cache.Values
    ensures repo.Valid()
    ensures var group1, group2 := repo.findGroup(g1.guid), repo.findGroup(g2.guid);
      && r1 == (if group1.Some? then Pass else Fail(GroupNotFound))
      && r2 == (if group2.Some? then Pass else Fail(GroupNotFound))
    ensures var m, group1, group2 := Matches(old(repo.store), target), repo.findGroup(g1.guid), repo.findGroup(g2.guid);
      && e == m[0] && Matches(repo.store, target) == [e]
      && e.permissions == repo.Granted(repo.Granted(old(repo.Consolidated(m)), group1, t1), group2, t2)
  {
    ghost var m := Matches(repo.store, target);
    MatchesAfterConsolidation(repo.store, target);
    ExcludingIndexed(repo.store, m[1..]);
    r1 := repo.AddPermission(target, Some(g1), t1);
    ghost var afterFirst := m[0].permissions;
    repo.ConsolidatedOne(m[0]);
    ExcludingNothing(repo.store);
    r2 := repo.AddPermission(target, Some(g2), t2);
    assert m[0].permissions == repo.Granted(afterFirst, repo.findGroup(g2.guid), t2);
    repo.ConsolidatedOne(m[0]);
    e := repo.GetForEntity(target);
  }

  /** Two first grants on an entity no table holds and this repository has
      not cached. The repository's cache makes them create one record
      between them, not two: the first grant that resolves creates and
      caches it, and the second grant goes into the cached record. */
  method FirstGrantsTwice(repo: EntityPermissionsRepository, target: Guid,
                          g1: SecurityGroup, t1: PermissionTypes, g2: SecurityGroup, t2: PermissionTypes)
    returns (r1: Outcome, r2: Outcome)
    requires repo.Valid() && target !in repo.cache && Matches(repo.store, target) == []
    modifies repo, repo.store, repo.cache.Values
    ensures repo.Valid() && repo.store == old(repo.store)
    ensures var group1, group2 := repo.findGroup(g1.guid), repo.findGroup(g2.guid);
      && r1 == (if group1.Some? then Pass else Fail(GroupNotFound))
      && r2 == (if group2.Some? then Pass else Fail(GroupNotFound))
      && (group1.None? && group2.None? ==> repo.pending == old(repo.pending) && target !in repo.cache)
      && (group1.Some? || group2.Some? ==>
            && target in repo.cache && fresh(repo.cache[target])
            && repo.pending == old(repo.pending) + [repo.cache[target]]
            && repo.cache[target].entityGuid == target
            && repo.cache[target].permissions == repo.Granted(repo.Granted([], group1, t1), group2, t2))
  {
    ghost var group1 := repo.findGroup(g1.guid);
    r1 := repo.AddPermission(target, Some(g1), t1);
    assert group1.Some? ==>
      && target in repo.cache && fresh(repo.cache[target])
      && repo.pending == old(repo.pending) + [repo.cache[target]];
    assert group1.None? ==> repo.pending == old(repo.pending) && target !in repo.cache;
    r2 := repo.AddPermission(target, Some(g2), t2);
  }

  /** A save, then a query for an entity whose only record in either
      table is `c` (none when `c` is null): the query returns `c`, and
      consolidation has nothing to merge, so its list is as it was. */
  method SaveThenQuery(repo: EntityPermissionsRepository, target: Guid, ghost c: EntityPermissions?)
    returns (e: EntityPermissions?)
    requires repo.Valid() && Matches(repo.store + repo.pending, target) == (if c == null then [] else [c])
    modifies repo, repo.store, repo.pending
    ensures repo.Valid()
    ensures e == c && Matches(repo.store, target) == (if c == null then [] else [c])
    ensures c != null ==> c.permissions == old(c.permissions)
  {
    repo.SaveChanges();
    if c != null {
      repo.ConsolidatedOne(c);
      ExcludingNothing(repo.store);
    }
    assert forall i :: 0 <= i < |repo.store| ==> repo.store[i] in old(repo.store) || repo.store[i] in old(repo.pending);
    e := repo.GetForEntity(target);
  }

  /** Two first grants on an entity no table holds and this repository has
      not cached, then a save, then a query. When either group resolves, the
      query returns the one record created for the entity, holding the
      first grant and then the second. When neither resolves, nothing was
      added and the query finds nothing. */
  method GrantTwiceFresh(repo: EntityPermissionsRepository, target: Guid,
                         g1: SecurityGroup, t1: PermissionTypes, g2: SecurityGroup, t2: PermissionTypes)
    returns (r1: Outcome, r2: Outcome, e: EntityPermissions?)
    requires repo.Valid() && target !in repo.cache
    requires Matches(repo.store, target) == [] && Matches(repo.pending, target) == []
    modifies repo, repo.store, repo.pending, repo.cache.Values
    ensures repo.Valid()
    ensures var group1, group2 := repo.findGroup(g1.guid), repo.findGroup(g2.guid);
      && r1 == (if group1.Some? then Pass else Fail(GroupNotFound))
      && r2 == (if group2.Some? then Pass else Fail(GroupNotFound))
    ensures var group1, group2 := repo.findGroup(g1.guid), repo.findGroup(g2.guid);
      && (group1.None? && group2.None? ==> e == null)
      && (group1.Some? || group2.Some? ==>
            && e != null && fresh(e) && Matches(repo.store, target) == [e]
            && e.permissions == repo.Granted(repo.Granted([], group1, t1), group2, t2))
  {
    ghost var p0 := repo.pending;
    r1, r2 := FirstGrantsTwice(repo, target, g1, t1, g2, t2);
    ghost var created := target in repo.cache;
    if created {
      SavedOne(repo.store, p0, repo.cache[target], target);
    } else {
      MatchesConcat(repo.store, repo.pending, target);
    }
    e := SaveThenQuery(repo, target, if created then repo.cache[target] else null);
  }
}
