/** The entity-permission repository (`EntityPermissionsRepository`): a store
    of permission records that may, after concurrent first grants, hold more
    than one record for an entity; a per-instance cache of the records this
    repository created; and the consolidation that every read by entity runs
    to fold duplicate records into the first one. */
module EntityPermissionStore {
  import opened Types
  import opened Grants

  /** One permission record (`EntityPermissions`). Its grant list is changed
      in place; the Guid of the entity it protects never changes. */
  class EntityPermissions {
    const entityGuid: Guid
    var permissions: Grants

    constructor (entityGuid: Guid, permissions: Grants)
      ensures this.entityGuid == entityGuid && this.permissions == permissions
    {
      this.entityGuid := entityGuid;
      this.permissions := permissions;
    }
  }

  /** An entity permissions are kept for (`Entity`): only its Guid is
      read here. */
  datatype Entity = Entity(guid: Guid)

  // ---------------------------------------------------------------------
  // The store as a sequence of records
  // ---------------------------------------------------------------------

  /** A table holds each record once. */
  predicate Distinct(s: seq<EntityPermissions>)
  {
    forall i, j :: 0 <= i < j < |s| ==> s[i] != s[j]
  }

  /** The records of `s` for `target`, in store order (`Where(p => p.EntityGuid == target)`). */
  function Matches(s: seq<EntityPermissions>, target: Guid): seq<EntityPermissions>
  {
    if s == [] then []
    else (if s[0].entityGuid == target then [s[0]] else []) + Matches(s[1..], target)
  }

  /** `s` without the records in `ds`, in store order. */
  function Excluding(s: seq<EntityPermissions>, ds: seq<EntityPermissions>): seq<EntityPermissions>
  {
    if s == [] then []
    else (if s[0] in ds then [] else [s[0]]) + Excluding(s[1..], ds)
  }

  /** The grant lists of the records `rs`, record after record. */
  ghost function PermissionsOf(rs: seq<EntityPermissions>): (ls: seq<Grants>)
    reads rs
    ensures |ls| == |rs|
    ensures forall i :: 0 <= i < |rs| ==> ls[i] == rs[i].permissions
  {
    if rs == [] then [] else [rs[0].permissions] + PermissionsOf(rs[1..])
  }

  /** The lists `ls`, one after another. */
  function Concat(ls: seq<Grants>): Grants
  {
    if ls == [] then [] else Concat(ls[..|ls| - 1]) + ls[|ls| - 1]
  }

  /** Adding the grants of one more list, in order, after those of the
      lists before it. */
  lemma FoldConcatStep(add: GrantAdder, base: Grants, ls: seq<Grants>, k: nat)
    requires k < |ls|
    ensures FoldGrants(add, base, Concat(ls[..k + 1])) == FoldGrants(add, FoldGrants(add, base, Concat(ls[..k])), ls[k])
  {
    assert ls[..k + 1][..k] == ls[..k];
    FoldGrantsAppend(add, base, Concat(ls[..k]), ls[k]);
  }

  lemma {:induction false} MatchesMembers(s: seq<EntityPermissions>, target: Guid)
    ensures forall x :: x in Matches(s, target) <==> x in s && x.entityGuid == target
    decreases |s|
  {
    if s != [] {
      MatchesMembers(s[1..], target);
      assert s == [s[0]] + s[1..];
    }
  }

  lemma {:induction false} NoMatches(s: seq<EntityPermissions>, target: Guid)
    requires Matches(s, target) == []
    ensures forall i :: 0 <= i < |s| ==> s[i].entityGuid != target
    decreases |s|
  {
    if s != [] {
      NoMatches(s[1..], target);
      forall i | 0 <= i < |s| ensures s[i].entityGuid != target {
        if i > 0 {
          assert s[i] == s[1..][i - 1];
        }
      }
    }
  }

  lemma MatchesIndexed(s: seq<EntityPermissions>, target: Guid)
    ensures forall i :: 0 <= i < |Matches(s, target)| ==>
              Matches(s, target)[i] in s && Matches(s, target)[i].entityGuid == target
  {
    MatchesMembers(s, target);
  }

  lemma {:induction false} ExcludingIndexed(s: seq<EntityPermissions>, ds: seq<EntityPermissions>)
    ensures forall i :: 0 <= i < |Excluding(s, ds)| ==> Excluding(s, ds)[i] in s && Excluding(s, ds)[i] !in ds
    decreases |s|
  {
    if s != [] {
      ExcludingIndexed(s[1..], ds);
      var e := Excluding(s, ds);
      var rest := Excluding(s[1..], ds);
      forall i | 0 <= i < |e| ensures e[i] in s && e[i] !in ds {
        if s[0] !in ds {
          assert e == [s[0]] + rest;
          if i > 0 {
            assert e[i] == rest[i - 1];
          }
        } else {
          assert e == rest;
        }
      }
    }
  }

  lemma {:induction false} ExcludingMembers(s: seq<EntityPermissions>, ds: seq<EntityPermissions>)
    ensures forall x :: x in Excluding(s, ds) <==> x in s && x !in ds
    decreases |s|
  {
    if s != [] {
      ExcludingMembers(s[1..], ds);
      assert s == [s[0]] + s[1..];
    }
  }

  lemma DistinctCons(x: EntityPermissions, s: seq<EntityPermissions>)
    ensures Distinct([x] + s) <==> x !in s && Distinct(s)
  {
    if x !in s && Distinct(s) {
      forall i, j | 0 <= i < j < |[x] + s| ensures ([x] + s)[i] != ([x] + s)[j] {
        if i > 0 {
          assert ([x] + s)[i] == s[i - 1];
        }
      }
    }
    if Distinct([x] + s) {
      forall i, j | 0 <= i < j < |s| ensures s[i] != s[j] {
        assert s[i] == ([x] + s)[i + 1] && s[j] == ([x] + s)[j + 1];
      }
      forall k | 0 <= k < |s| ensures s[k] != x {
        assert ([x] + s)[0] != ([x] + s)[k + 1];
      }
    }
  }

  lemma {:induction false} MatchesDistinct(s: seq<EntityPermissions>, target: Guid)
    requires Distinct(s)
    ensures Distinct(Matches(s, target))
    decreases |s|
  {
    if s != [] {
      assert s == [s[0]] + s[1..];
      DistinctCons(s[0], s[1..]);
      MatchesDistinct(s[1..], target);
      MatchesMembers(s[1..], target);
      if s[0].entityGuid == target {
        DistinctCons(s[0], Matches(s[1..], target));
      }
    }
  }

  lemma {:induction false} ExcludingDistinct(s: seq<EntityPermissions>, ds: seq<EntityPermissions>)
    requires Distinct(s)
    ensures Distinct(Excluding(s, ds))
    decreases |s|
  {
    if s != [] {
      assert s == [s[0]] + s[1..];
      DistinctCons(s[0], s[1..]);
      ExcludingDistinct(s[1..], ds);
      ExcludingMembers(s[1..], ds);
      if s[0] !in ds {
        DistinctCons(s[0], Excluding(s[1..], ds));
      }
    }
  }

  lemma {:induction false} ExcludingNothing(s: seq<EntityPermissions>)
    ensures Excluding(s, []) == s
    decreases |s|
  {
    if s != [] {
      ExcludingNothing(s[1..]);
      assert s == [s[0]] + s[1..];
    }
  }

  /** Excluding records of another entity leaves `h`'s records as they were. */
  lemma {:induction false} MatchesExcluding(s: seq<EntityPermissions>, ds: seq<EntityPermissions>, h: Guid)
    requires forall i :: 0 <= i < |ds| ==> ds[i].entityGuid != h
    ensures Matches(Excluding(s, ds), h) == Matches(s, h)
    decreases |s|
  {
    if s != [] {
      MatchesExcluding(s[1..], ds, h);
      var e := Excluding(s, ds);
      if s[0] in ds {
        ghost var i :| 0 <= i < |ds| && ds[i] == s[0];
        assert e == Excluding(s[1..], ds);
      } else {
        assert e == [s[0]] + Excluding(s[1..], ds);
        assert e[1..] == Excluding(s[1..], ds);
        assert e != [] && e[0] == s[0];
      }
    }
  }

  /** Excluding every record of `target` but none other leaves none of them. */
  lemma {:induction false} MatchesExcludingAll(s: seq<EntityPermissions>, ds: seq<EntityPermissions>, target: Guid)
    requires forall x :: x in s && x.entityGuid == target ==> x in ds
    ensures Matches(Excluding(s, ds), target) == []
    decreases |s|
  {
    if s != [] {
      MatchesExcludingAll(s[1..], ds, target);
      var e := Excluding(s, ds);
      if s[0] in ds {
        assert e == Excluding(s[1..], ds);
      } else {
        assert s[0].entityGuid != target;
        assert e == [s[0]] + Excluding(s[1..], ds);
        assert e[1..] == Excluding(s[1..], ds);
        assert e != [] && e[0] == s[0];
      }
    }
  }

  /** Consolidation's end state: deleting every record of `target` but the
      first leaves exactly that first one. */
  lemma {:induction false} MatchesAfterConsolidation(s: seq<EntityPermissions>, target: Guid)
    requires Distinct(s)
    requires Matches(s, target) != []
    ensures Matches(Excluding(s, Matches(s, target)[1..]), target) == [Matches(s, target)[0]]
    decreases |s|
  {
    var m := Matches(s, target);
    assert s == [s[0]] + s[1..];
    DistinctCons(s[0], s[1..]);
    MatchesMembers(s[1..], target);
    if s[0].entityGuid == target {
      assert m == [s[0]] + Matches(s[1..], target);
      assert m[1..] == Matches(s[1..], target);
      var e := Excluding(s, m[1..]);
      assert e == [s[0]] + Excluding(s[1..], m[1..]);
      assert e[1..] == Excluding(s[1..], m[1..]);
      MatchesExcludingAll(s[1..], m[1..], target);
    } else {
      assert m == Matches(s[1..], target);
      assert s[0] !in m[1..] by {
        forall i | 1 <= i < |m| ensures m[i] != s[0] { }
      }
      MatchesAfterConsolidation(s[1..], target);
      var e := Excluding(s, m[1..]);
      assert e == [s[0]] + Excluding(s[1..], m[1..]);
      assert e[1..] == Excluding(s[1..], m[1..]);
    }
  }

  lemma {:induction false} MatchesAppend(s: seq<EntityPermissions>, x: EntityPermissions, h: Guid)
    ensures Matches(s + [x], h) == Matches(s, h) + (if x.entityGuid == h then [x] else [])
    decreases |s|
  {
    if s == [] {
      assert [x][1..] == [];
    } else {
      var head := if s[0].entityGuid == h then [s[0]] else [];
      var tail := if x.entityGuid == h then [x] else [];
      assert (s + [x])[0] == s[0] && (s + [x])[1..] == s[1..] + [x];
      assert Matches(s + [x], h) == head + Matches(s[1..] + [x], h);
      MatchesAppend(s[1..], x, h);
      assert Matches(s, h) == head + Matches(s[1..], h);
      assert head + (Matches(s[1..], h) + tail) == (head + Matches(s[1..], h)) + tail;
    }
  }

  lemma DistinctAppend(s: seq<EntityPermissions>, x: EntityPermissions)
    requires Distinct(s) && x !in s
    ensures Distinct(s + [x])
  {
    forall i, j | 0 <= i < j < |s + [x]| ensures (s + [x])[i] != (s + [x])[j] {
      assert (s + [x])[i] == s[i];
      if j == |s| {
        assert s[i] in s;
      }
    }
  }

  // ---------------------------------------------------------------------
  // Resolving the groups of a batch of grants in the group store
  // ---------------------------------------------------------------------

  /** The index of the first grant whose group the group store does not
      hold, or the number of grants when it holds them all. */
  function FirstUnresolved(findGroup: Guid -> Option<SecurityGroup>, gs: Grants): (n: nat)
    ensures n <= |gs|
    ensures forall i :: 0 <= i < n ==> findGroup(gs[i].securityGroup.guid).Some?
    ensures n < |gs| ==> findGroup(gs[n].securityGroup.guid).None?
  {
    if gs == [] || findGroup(gs[0].securityGroup.guid).None? then 0
    else 1 + FirstUnresolved(findGroup, gs[1..])
  }

  /** The grants `gs` with each group replaced by the group store's copy. */
  function Rebind(findGroup: Guid -> Option<SecurityGroup>, gs: Grants): (r: Grants)
    requires forall i :: 0 <= i < |gs| ==> findGroup(gs[i].securityGroup.guid).Some?
    ensures |r| == |gs|
    ensures forall i :: 0 <= i < |gs| ==>
              r[i] == SecurityGroupPermission(findGroup(gs[i].securityGroup.guid).value, gs[i].permissionType)
    decreases |gs|
  {
    if gs == [] then []
    else
      var last := gs[|gs| - 1];
      Rebind(findGroup, gs[..|gs| - 1])
        + [SecurityGroupPermission(findGroup(last.securityGroup.guid).value, last.permissionType)]
  }

  /** One more resolvable grant extends the rebound prefix by its rebound copy. */
  lemma RebindStep(findGroup: Guid -> Option<SecurityGroup>, gs: Grants, i: nat)
    requires i < |gs|
    requires forall j :: 0 <= j <= i ==> findGroup(gs[j].securityGroup.guid).Some?
    ensures Rebind(findGroup, gs[..i + 1]) == Rebind(findGroup, gs[..i])
              + [SecurityGroupPermission(findGroup(gs[i].securityGroup.guid).value, gs[i].permissionType)]
  {
    assert gs[..i + 1][..i] == gs[..i];
  }

  // ---------------------------------------------------------------------
  // The repository
  // ---------------------------------------------------------------------

  /** Every record of `s` is in `s0`: nothing new entered the saved table. */
  predicate Within(s: seq<EntityPermissions>, s0: seq<EntityPermissions>)
  {
    forall k :: 0 <= k < |s| ==> s[k] in s0
  }

  lemma ContainedTrans(s0: seq<EntityPermissions>, s1: seq<EntityPermissions>, s2: seq<EntityPermissions>)
    requires Within(s1, s0) && Within(s2, s1)
    ensures Within(s2, s0)
  {
    forall k | 0 <= k < |s2| ensures s2[k] in s0 {
      var j :| 0 <= j < |s1| && s1[j] == s2[k];
    }
  }

  /** The saved records `s` and added records `p` of every entity outside
      `named` are those of `s0` and `p0`. */
  predicate KeptOutside(s0: seq<EntityPermissions>, p0: seq<EntityPermissions>,
                        s: seq<EntityPermissions>, p: seq<EntityPermissions>, named: set<Guid>)
  {
    forall h :: h !in named ==> Matches(s, h) == Matches(s0, h) && Matches(p, h) == Matches(p0, h)
  }

  /** Two steps that each keep the records of the entities they do not
      name keep those of the entities neither names. */
  lemma KeptStep(s0: seq<EntityPermissions>, p0: seq<EntityPermissions>, s1: seq<EntityPermissions>,
                 p1: seq<EntityPermissions>, s2: seq<EntityPermissions>, p2: seq<EntityPermissions>,
                 named: set<Guid>, g: Guid)
    requires KeptOutside(s0, p0, s1, p1, named) && KeptOutside(s1, p1, s2, p2, {g})
    ensures KeptOutside(s0, p0, s2, p2, named + {g})
  {
  }

  /** A record `Add` and `Update` go on to store: non-null, for a
      non-empty entity Guid. */
  predicate Keyed(o: EntityPermissions?)
  {
    o != null && o.entityGuid != EmptyGuid
  }

  /** The error `Add` of `o` throws when it throws: a null record, else an
      empty Guid, else a grant whose group the group store does not hold.
      `Update` throws only the first two. */
  function Rejection(o: EntityPermissions?): (e: Error)
    ensures e == ArgumentNull <==> o == null
    ensures e == EmptyGuidRejected <==> o != null && o.entityGuid == EmptyGuid
    ensures e == GroupNotFound <==> Keyed(o)
  {
    if o == null then ArgumentNull
    else if o.entityGuid == EmptyGuid then EmptyGuidRejected
    else GroupNotFound
  }

  /** The index of the first record of a batch that `Add` and `Update`
      reject, or the size of the batch when they accept every record. */
  function FirstUnkeyed(os: seq<EntityPermissions?>): (n: nat)
    ensures n <= |os|
    ensures forall i :: 0 <= i < n ==> Keyed(os[i])
    ensures n < |os| ==> !Keyed(os[n])
  {
    if os == [] || !Keyed(os[0]) then 0 else 1 + FirstUnkeyed(os[1..])
  }

  /** What one `Add` or `Update` of a record for `g` leaves, from saved
      records `s0` and added records `p0` to `s1` and `p1`: at most one saved
      record for `g`, an added record for `g` when none was saved, and an
      added record for `g` kept. */
  predicate Settles(s0: seq<EntityPermissions>, p0: seq<EntityPermissions>,
                    s1: seq<EntityPermissions>, p1: seq<EntityPermissions>, g: Guid)
  {
    && |Matches(s1, g)| <= 1
    && (Matches(s0, g) == [] ==> Matches(p1, g) != [])
    && (Matches(p0, g) != [] ==> Matches(p1, g) != [])
  }

  /** The two ways `Add` and `Update` leave the records of `g` settle `g`:
      the saved ones consolidated into the first, or, with none saved, one
      more added record for `g`. */
  lemma SettlesAfterStore(s0: seq<EntityPermissions>, p0: seq<EntityPermissions>,
                          s1: seq<EntityPermissions>, p1: seq<EntityPermissions>, g: Guid)
    requires Distinct(s0)
    requires Matches(s0, g) != [] ==> s1 == Excluding(s0, Matches(s0, g)[1..]) && p1 == p0
    requires Matches(s0, g) == [] ==>
      s1 == s0 && |p1| == |p0| + 1 && p1[..|p0|] == p0 && p1[|p0|].entityGuid == g
    ensures Settles(s0, p0, s1, p1, g)
  {
    if Matches(s0, g) != [] {
      MatchesAfterConsolidation(s0, g);
    } else {
      assert p1 == p0 + [p1[|p0|]];
      MatchesAppend(p0, p1[|p0|], g);
    }
  }

  /** Every entity of `named` has at most one saved record in `s`, and an
      added record in `p` when `s0` saved none. */
  predicate SettledAll(s0: seq<EntityPermissions>, s: seq<EntityPermissions>, p: seq<EntityPermissions>,
                       named: set<Guid>)
  {
    forall h :: h in named ==> |Matches(s, h)| <= 1 && (Matches(s0, h) == [] ==> Matches(p, h) != [])
  }

  /** A batch step that settles `g` and touches no other entity keeps every
      entity the earlier steps settled settled. */
  lemma SettledStep(s0: seq<EntityPermissions>, p0: seq<EntityPermissions>, s1: seq<EntityPermissions>,
                    p1: seq<EntityPermissions>, s2: seq<EntityPermissions>, p2: seq<EntityPermissions>,
                    named: set<Guid>, g: Guid)
    requires SettledAll(s0, s1, p1, named) && KeptOutside(s0, p0, s1, p1, named)
    requires KeptOutside(s1, p1, s2, p2, {g}) && Settles(s1, p1, s2, p2, g)
    ensures SettledAll(s0, s2, p2, named + {g})
  {
  }

  /** No record of `s` is in `p`. */
  predicate Disjoint(s: seq<EntityPermissions>, p: seq<EntityPermissions>)
  {
    forall i :: 0 <= i < |s| ==> s[i] !in p
  }

  lemma DistinctConcat(s: seq<EntityPermissions>, p: seq<EntityPermissions>)
    requires Distinct(s) && Distinct(p) && Disjoint(s, p)
    ensures Distinct(s + p)
  {
    forall i, j | 0 <= i < j < |s + p| ensures (s + p)[i] != (s + p)[j] {
      if j >= |s| && i < |s| {
        assert (s + p)[j] == p[j - |s|];
      }
    }
  }

  /** What a consolidation of `target`'s records leaves in the saved
      table `s`, next to the added records `p`. */
  lemma ConsolidationFacts(s: seq<EntityPermissions>, p: seq<EntityPermissions>, target: Guid)
    requires Distinct(s) && Disjoint(s, p)
    requires Matches(s, target) != []
    ensures var m := Matches(s, target);
      && Distinct(m) && (forall i :: 0 <= i < |m| ==> m[i] in s && m[i].entityGuid == target)
    ensures var m := Matches(s, target);
      var e := Excluding(s, m[1..]);
      && Distinct(e) && Disjoint(e, p)
      && (forall i :: 0 <= i < |e| ==> e[i] in s)
      && Matches(e, target) == [m[0]] && m[0] in e
      && (forall h :: h != target ==> Matches(e, h) == Matches(s, h))
  {
    var m := Matches(s, target);
    MatchesIndexed(s, target);
    MatchesDistinct(s, target);
    MatchesAfterConsolidation(s, target);
    var e := Excluding(s, m[1..]);
    ExcludingDistinct(s, m[1..]);
    ExcludingIndexed(s, m[1..]);
    DisjointSubset(e, s, p);
    assert Matches(e, target)[0] == m[0];
    MatchesIndexed(e, target);
    forall h | h != target
      ensures Matches(e, h) == Matches(s, h)
    {
      MatchesExcluding(s, m[1..], h);
    }
  }

  lemma DisjointSubset(e: seq<EntityPermissions>, s: seq<EntityPermissions>, p: seq<EntityPermissions>)
    requires Disjoint(s, p)
    requires forall i :: 0 <= i < |e| ==> e[i] in s
    ensures Disjoint(e, p)
  {
    forall i | 0 <= i < |e| ensures e[i] !in p {
      var j :| 0 <= j < |s| && s[j] == e[i];
    }
  }

  class EntityPermissionsRepository {
    /** `SecurityGroupRepository.Find(guid)`: the group store's copy of a group. */
    const findGroup: Guid -> Option<SecurityGroup>
    /** The library's `EntityPermissions.AddPermission`. */
    const addPermission: GrantAdder
    /** The library's `EntityPermissions.AllowsAccessType`. */
    const allowsAccessType: AccessCheck

    /** The saved records, in the order a query returns them. */
    var store: seq<EntityPermissions>
    /** The records added in the current unit of work: queries do not see
        them until it is saved. */
    var pending: seq<EntityPermissions>
    /** `PermissionsCache`: the records this instance created, by entity. */
    var cache: map<Guid, EntityPermissions>

    ghost predicate Valid()
      reads this
    {
      && Distinct(store) && Distinct(pending) && Disjoint(store, pending)
      && forall g :: g in cache ==> cache[g].entityGuid == g
    }

    constructor (findGroup: Guid -> Option<SecurityGroup>, addPermission: GrantAdder,
                 allowsAccessType: AccessCheck, store: seq<EntityPermissions>)
      requires Distinct(store)
      ensures Valid()
      ensures this.findGroup == findGroup && this.addPermission == addPermission
      ensures this.allowsAccessType == allowsAccessType
      ensures this.store == store && pending == [] && cache == map[]
    {
      this.findGroup := findGroup;
      this.addPermission := addPermission;
      this.allowsAccessType := allowsAccessType;
      this.store := store;
      pending := [];
      cache := map[];
    }

    /** Saving the unit of work: the added records become visible to
        queries, after the saved ones. */
    method SaveChanges()
      requires Valid()
      modifies this`store, this`pending
      ensures Valid()
      ensures store == old(store) + old(pending) && pending == []
    {
      DistinctConcat(store, pending);
      store := store + pending;
      pending := [];
    }

    /** `base.Add(x)` of the persistence layer, for a record no table holds. */
    method Insert(x: EntityPermissions)
      requires Valid() && x !in store && x !in pending
      modifies this`pending
      ensures Valid()
      ensures pending == old(pending) + [x]
      ensures forall h :: Matches(pending, h) == Matches(old(pending), h) + (if x.entityGuid == h then [x] else [])
    {
      DistinctAppend(pending, x);
      forall h ensures Matches(pending + [x], h) == Matches(pending, h) + (if x.entityGuid == h then [x] else []) {
        MatchesAppend(pending, x, h);
      }
      pending := pending + [x];
    }

    /** `base.AddOrUpdate(x)` of the persistence layer: add `x` unless a
        table holds it already. */
    method Upsert(x: EntityPermissions)
      requires Valid()
      modifies this`pending
      ensures Valid()
      ensures pending == if x in store || x in old(pending) then old(pending) else old(pending) + [x]
    {
      if x !in store && x !in pending {
        Insert(x);
      }
    }

    /** The grant list `perms` after the library's `AddPermission` of the
        resolved group, or unchanged when the group store has none. */
    function Granted(perms: Grants, group: Option<SecurityGroup>, kinds: PermissionTypes): Grants
    {
      if group.Some? then addPermission(perms, group.value, kinds) else perms
    }

    /** The list the first record of a group of duplicates holds once every
        grant of the others has been added to it. */
    ghost function Consolidated(m: seq<EntityPermissions>): Grants
      requires m != []
      reads m
    {
      FoldGrants(addPermission, m[0].permissions, Concat(PermissionsOf(m[1..])))
    }

    /** With the OR-merge stand-in for the library's `AddPermission`,
        consolidating duplicate records keeps access intact: each set of
        groups is granted on the surviving record exactly the bits it was
        granted on any of the duplicates. */
    lemma ConsolidationKeepsAccess(m: seq<EntityPermissions>, groups: set<Guid>)
      requires m != []
      requires forall p, g, k :: addPermission(p, g, k) == OrMerge(p, g, k)
      ensures Effective(Consolidated(m), groups)
              == Effective(m[0].permissions, groups) + Effective(Concat(PermissionsOf(m[1..])), groups)
    {
      var rest := Concat(PermissionsOf(m[1..]));
      FoldGrantsPointwise(addPermission, OrMerge, m[0].permissions, rest);
      FoldOrMergeEffective(m[0].permissions, rest, groups);
    }

    /** The inner loop of the consolidation: add each grant of `toMove` to
        `into` with the library's `AddPermission`. */
    method AddEach(into: EntityPermissions, toMove: Grants)
      modifies into
      ensures into.permissions == FoldGrants(addPermission, old(into.permissions), toMove)
    {
      var i := 0;
      while i < |toMove|
        invariant 0 <= i <= |toMove|
        invariant into.permissions == FoldGrants(addPermission, old(into.permissions), toMove[..i])
      {
        assert toMove[..i + 1][..i] == toMove[..i];
        into.permissions := addPermission(into.permissions, toMove[i].securityGroup, toMove[i].permissionType);
        i := i + 1;
      }
      assert toMove[..i] == toMove;
    }

    /** One step of the consolidation: clear the list of the `k`-th
        duplicate and move its grants into `canonical`; no other duplicate
        changes. */
    method Absorb(canonical: EntityPermissions, duplicates: seq<EntityPermissions>, k: nat)
      requires canonical !in duplicates && Distinct(duplicates) && k < |duplicates|
      modifies canonical, duplicates[k]
      ensures canonical.permissions ==
                FoldGrants(addPermission, old(canonical.permissions), old(duplicates[k].permissions))
      ensures duplicates[k].permissions == []
      ensures forall j :: 0 <= j < |duplicates| && j != k ==> duplicates[j].permissions == old(duplicates[j].permissions)
    {
      var d := duplicates[k];
      var toMove := d.permissions;
      d.permissions := [];
      AddEach(canonical, toMove);
    }

    /** The consolidation loop of `GetForEntity`: for each duplicate in
        turn, clear its list and move its grants into `canonical` one
        `AddPermission` at a time. */
    method MergeDuplicates(canonical: EntityPermissions, duplicates: seq<EntityPermissions>)
      requires canonical !in duplicates && Distinct(duplicates)
      modifies canonical, duplicates
      ensures canonical.permissions ==
                FoldGrants(addPermission, old(canonical.permissions), Concat(old(PermissionsOf(duplicates))))
      ensures forall j :: 0 <= j < |duplicates| ==> duplicates[j].permissions == []
    {
      ghost var lists := PermissionsOf(duplicates);
      ghost var start := canonical.permissions;
      var k := 0;
      assert lists[..0] == [];
      while k < |duplicates|
        invariant 0 <= k <= |duplicates|
        invariant canonical.permissions == FoldGrants(addPermission, start, Concat(lists[..k]))
        invariant forall j :: 0 <= j < k ==> duplicates[j].permissions == []
        invariant forall j :: k <= j < |duplicates| ==> duplicates[j].permissions == lists[j]
      {
        Absorb(canonical, duplicates, k);
        FoldConcatStep(addPermission, start, lists, k);
        k := k + 1;
      }
      assert lists[..k] == lists;
    }

    /** `GetForEntity(Guid)`: null when no record protects `target`;
        otherwise the first record, after every later record for `target`
        has had its grants moved into it and has been deleted. */
    method GetForEntity(target: Guid) returns (r: EntityPermissions?)
      requires Valid()
      modifies this`store, store
      ensures Valid()
      ensures var m := Matches(old(store), target);
        && (m == [] ==> r == null && store == old(store) && unchanged(old(store)))
        && (m != [] ==> r == m[0] && store == Excluding(old(store), m[1..]))
        && (m != [] ==> r.permissions == old(Consolidated(m)))
        && (forall k :: 1 <= k < |m| ==> m[k].permissions == [] && m[k] != r)
      ensures r != null ==> r in old(store) && r in store && r.entityGuid == target
      ensures forall i :: 0 <= i < |store| ==> store[i] in old(store)
      ensures Matches(store, target) == if r == null then [] else [r]
      ensures forall h :: h != target ==> Matches(store, h) == Matches(old(store), h)
      ensures forall x: EntityPermissions :: old(allocated(x)) && x.entityGuid != target ==> unchanged(x)
    {
      var m := Matches(store, target);
      if |m| == 0 {
        return null;
      }
      ConsolidationFacts(store, pending, target);
      r := m[0];
      MergeDuplicates(r, m[1..]);
      // The loop deletes each duplicate after moving its grants; it never
      // reads the store, so the deletions are made here in one step.
      store := Excluding(store, m[1..]);
    }

    /** `AddPermission(Guid, SecurityGroup, PermissionTypes)`: grant the
        group store's copy of `securityGroup` the kinds `permissionTypes` on
        `target`, in the record a query finds, else in the one the cache
        holds, else in a new record that is cached and added. */
    method AddPermission(target: Guid, securityGroup: Option<SecurityGroup>, permissionTypes: PermissionTypes)
      returns (r: Outcome)
      requires Valid()
      modifies this, store, cache.Values
      ensures Valid()
      ensures securityGroup.None? ==>
        r == Fail(ArgumentNull) && unchanged(this) && unchanged(old(store)) && unchanged(old(cache.Values))
      ensures securityGroup.Some? && Matches(old(store), target) != [] ==>
        var m, group := Matches(old(store), target), findGroup(securityGroup.value.guid);
        && r == (if group.Some? then Pass else Fail(GroupNotFound))
        && store == Excluding(old(store), m[1..]) && pending == old(pending) && cache == old(cache)
        && m[0].permissions == Granted(old(Consolidated(m)), group, permissionTypes)
      ensures securityGroup.Some? && Matches(old(store), target) == [] && target in old(cache) ==>
        var c, group := old(cache)[target], findGroup(securityGroup.value.guid);
        && r == (if group.Some? then Pass else Fail(GroupNotFound))
        && store == old(store) && cache == old(cache)
        && pending == (if group.None? || c in old(pending) then old(pending) else old(pending) + [c])
        && c.permissions == Granted(old(c.permissions), group, permissionTypes)
      ensures securityGroup.Some? && Matches(old(store), target) == [] && target !in old(cache) ==>
        var group := findGroup(securityGroup.value.guid);
        && store == old(store)
        && (group.None? ==> r == Fail(GroupNotFound) && pending == old(pending) && cache == old(cache))
        && (group.Some? ==>
              && r == Pass
              && |pending| == |old(pending)| + 1 && pending[..|old(pending)|] == old(pending)
              && var c := pending[|old(pending)|];
              && fresh(c) && c.entityGuid == target
              && c.permissions == addPermission([], group.value, permissionTypes)
              && cache == old(cache)[target := c])
      ensures securityGroup.Some? ==>
        var m := Matches(old(store), target);
        forall k :: 1 <= k < |m| ==> m[k].permissions == []
      ensures securityGroup.Some? && Matches(old(store), target) != [] ==>
        forall x: EntityPermissions :: old(allocated(x)) && x !in Matches(old(store), target) ==>
          x.permissions == old(x.permissions)
      ensures forall x: EntityPermissions :: old(allocated(x)) && x.entityGuid != target ==> unchanged(x)
    {
      if securityGroup.None? {
        return Fail(ArgumentNull);
      }
      var group := findGroup(securityGroup.value.guid);
      ghost var m := Matches(store, target);
      MatchesIndexed(store, target);
      MatchesMembers(store, target);
      var existing := Locate(target);
      if group.None? {
        return Fail(GroupNotFound);
      }
      if existing == null {
        CreateRecord(target, group.value, permissionTypes);
      } else {
        GrantExisting(existing, group.value, permissionTypes);
      }
      return Pass;
    }

    /** The record `AddPermission` grants on: the one `GetForEntity`
        returns, else the one the cache holds, else none. */
    method Locate(target: Guid) returns (existing: EntityPermissions?)
      requires Valid()
      modifies this`store, store
      ensures Valid() && pending == old(pending) && cache == old(cache)
      ensures var m := Matches(old(store), target);
        && (m != [] ==> existing == m[0] && store == Excluding(old(store), m[1..]))
        && (m != [] ==> existing.permissions == old(Consolidated(m)))
        && (m == [] ==> existing == (if target in cache then cache[target] else null) && store == old(store))
        && (m == [] && existing != null ==> existing.permissions == old(existing.permissions))
        && (forall k :: 1 <= k < |m| ==> m[k].permissions == [] && m[k] != existing)
      ensures existing != null ==> existing.entityGuid == target
      ensures existing != null ==> (existing in store <==> Matches(old(store), target) != [])
      ensures existing != null ==> existing in old(store) || existing in old(cache.Values)
      ensures forall x: EntityPermissions :: old(allocated(x)) && x.entityGuid != target ==> unchanged(x)
    {
      if Matches(store, target) == [] {
        NoMatches(store, target);
      }
      existing := GetForEntity(target);
      if existing == null && target in cache {
        existing := cache[target];
      }
    }

    /** The last steps of `AddPermission` when neither a query nor the
        cache has a record: a new record for `target` holding the grant,
        cached and added. */
    method CreateRecord(target: Guid, group: SecurityGroup, permissionTypes: PermissionTypes)
      requires Valid()
      modifies this`cache, this`pending
      ensures Valid()
      ensures |pending| == |old(pending)| + 1 && pending[..|old(pending)|] == old(pending)
      ensures var c := pending[|old(pending)|];
        && fresh(c) && c.entityGuid == target
        && c.permissions == addPermission([], group, permissionTypes)
        && cache == old(cache)[target := c]
    {
      var created := new EntityPermissions(target, []);
      created.permissions := addPermission(created.permissions, group, permissionTypes);
      cache := cache[target := created];
      Insert(created);
    }

    /** The last steps of `AddPermission` on a found record: the grant is
        added to its list and the record is added unless a table holds it. */
    method GrantExisting(existing: EntityPermissions, group: SecurityGroup, permissionTypes: PermissionTypes)
      requires Valid()
      modifies existing, this`pending
      ensures Valid()
      ensures existing.permissions == addPermission(old(existing.permissions), group, permissionTypes)
      ensures pending == if existing in store || existing in old(pending) then old(pending) else old(pending) + [existing]
    {
      existing.permissions := addPermission(existing.permissions, group, permissionTypes);
      Upsert(existing);
    }

    /** `Add(EntityPermissions)`: add a copy of `o` when a query finds no
        record for its entity; otherwise add `o`'s grants one by one to the
        record it finds. */
    method Add(o: EntityPermissions?) returns (r: Outcome)
      requires Valid()
      modifies this, store, cache.Values
      ensures Valid()
      ensures cache == old(cache)
      ensures o == null ==> r == Fail(ArgumentNull) && unchanged(this) && unchanged(old(store))
      ensures o != null && o.entityGuid == EmptyGuid ==>
        r == Fail(EmptyGuidRejected) && unchanged(this) && unchanged(old(store))
      ensures o != null && o.entityGuid != EmptyGuid && Matches(old(store), o.entityGuid) == [] ==>
        && r == Pass && store == old(store)
        && |pending| == |old(pending)| + 1 && pending[..|old(pending)|] == old(pending)
        && var c := pending[|old(pending)|];
        && fresh(c) && c.entityGuid == o.entityGuid && c.permissions == old(o.permissions)
        && unchanged(old(store))
      ensures o != null && o.entityGuid != EmptyGuid && Matches(old(store), o.entityGuid) != [] ==>
        var m := Matches(old(store), o.entityGuid);
        && store == Excluding(old(store), m[1..]) && pending == old(pending)
        && (r.Pass? || r == Fail(GroupNotFound))
      ensures o != null && o.entityGuid != EmptyGuid && Matches(old(store), o.entityGuid) != [] && o !in old(store) ==>
        var m := Matches(old(store), o.entityGuid);
        var gs := old(o.permissions);
        var n := FirstUnresolved(findGroup, gs);
        && (r == Pass <==> n == |gs|)
        && m[0].permissions == FoldGrants(addPermission, old(Consolidated(m)), Rebind(findGroup, gs[..n]))
      ensures o != null && o.entityGuid != EmptyGuid ==>
        var m := Matches(old(store), o.entityGuid);
        forall k :: 1 <= k < |m| && m[k] == o ==> r == Pass && m[0].permissions == old(Consolidated(m))
      ensures o != null && o.entityGuid != EmptyGuid ==>
        var m := Matches(old(store), o.entityGuid);
        forall k :: 1 <= k < |m| ==> m[k].permissions == []
      ensures o != null && o.entityGuid != EmptyGuid && Matches(old(store), o.entityGuid) != [] ==>
        var m := Matches(old(store), o.entityGuid);
        var gs := old(Consolidated(m));
        var n := FirstUnresolved(findGroup, gs);
        o == m[0] ==>
          && (r == Pass <==> n == |gs|)
          && m[0].permissions == FoldGrants(addPermission, gs, Rebind(findGroup, gs[..n]))
      ensures forall x: EntityPermissions :: old(allocated(x)) && (o == null || x.entityGuid != o.entityGuid) ==> unchanged(x)
      ensures o != null ==> forall x: EntityPermissions :: old(allocated(x)) && x !in Matches(old(store), o.entityGuid) ==>
                x.permissions == old(x.permissions)
      ensures o != null ==> forall h :: h != o.entityGuid ==>
                Matches(store, h) == Matches(old(store), h) && Matches(pending, h) == Matches(old(pending), h)
      ensures forall k :: 0 <= k < |store| ==> store[k] in old(store)
    {
      if o == null {
        return Fail(ArgumentNull);
      }
      if o.entityGuid == EmptyGuid {
        return Fail(EmptyGuidRejected);
      }
      ghost var m := Matches(store, o.entityGuid);
      var existing := GetForEntity(o.entityGuid);
      if existing == null {
        var clone := new EntityPermissions(o.entityGuid, o.permissions);
        Insert(clone);
        return Pass;
      }
      r := AddGrants(existing, o.permissions, m);
      forall x: EntityPermissions | old(allocated(x)) && x !in m
        ensures x.permissions == old(x.permissions)
      {
        if x in old(store) {
          MatchesMembers(old(store), o.entityGuid);
          assert x.entityGuid != o.entityGuid;
        } else {
          assert x != existing;
        }
      }
    }

    /** The loop of `Add` once the entity has exactly one saved record:
        `AddPermission` of each grant of `gs` in order, stopping at the
        first that throws. The later records of `m`, the entity's records
        before the query, keep their lists. */
    method AddGrants(existing: EntityPermissions, gs: Grants, ghost m: seq<EntityPermissions>)
      returns (r: Outcome)
      requires Valid() && Matches(store, existing.entityGuid) == [existing]
      requires m != [] && m[0] == existing && forall k :: 1 <= k < |m| ==> m[k] != existing
      modifies this, store, cache.Values
      ensures Valid()
      ensures store == old(store) && pending == old(pending) && cache == old(cache)
      ensures r.Pass? || r == Fail(GroupNotFound)
      ensures var n := FirstUnresolved(findGroup, gs);
        && (r == Pass <==> n == |gs|)
        && existing.permissions == FoldGrants(addPermission, old(existing.permissions), Rebind(findGroup, gs[..n]))
      ensures forall k :: 1 <= k < |m| ==> m[k].permissions == old(m[k].permissions)
      ensures forall x: EntityPermissions :: old(allocated(x)) && x != existing ==> x.permissions == old(x.permissions)
      ensures forall x: EntityPermissions :: old(allocated(x)) && x.entityGuid != existing.entityGuid ==> unchanged(x)
    {
      var target := existing.entityGuid;
      ghost var n := FirstUnresolved(findGroup, gs);
      var i := 0;
      assert gs[..0] == [];
      ExcludingNothing(store);
      while i < |gs|
        invariant 0 <= i <= |gs| && i <= n
        invariant Valid()
        invariant store == old(store) && pending == old(pending) && cache == old(cache)
        invariant existing.permissions == FoldGrants(addPermission, old(existing.permissions), Rebind(findGroup, gs[..i]))
        invariant forall x: EntityPermissions :: old(allocated(x)) && x != existing ==> x.permissions == old(x.permissions)
        invariant forall x: EntityPermissions :: old(allocated(x)) && x.entityGuid != target ==> unchanged(x)
      {
        ghost var before := existing.permissions;
        ghost var group := findGroup(gs[i].securityGroup.guid);
        ConsolidatedOne(existing);
        r := AddPermission(target, Some(gs[i].securityGroup), gs[i].permissionType);
        assert existing.permissions == Granted(before, group, gs[i].permissionType);
        assert r.Fail? <==> group.None?;
        if r.Fail? {
          assert i == n;
          return;
        }
        assert i < n;
        RebindStep(findGroup, gs, i);
        i := i + 1;
      }
      assert gs[..i] == gs;
      return Pass;
    }

    /** A record with no duplicates consolidates to its own list. */
    lemma ConsolidatedOne(e: EntityPermissions)
      ensures Consolidated([e]) == e.permissions
    {
      assert PermissionsOf([e][1..]) == [];
    }

    /** `Update(EntityPermissions)`: add a copy of `o` when a query finds no
        record for its entity; otherwise give the record it finds `o`'s
        whole list. */
    method Update(o: EntityPermissions?) returns (r: Outcome)
      requires Valid()
      modifies this`store, this`pending, store
      ensures Valid()
      ensures o == null ==> r == Fail(ArgumentNull) && unchanged(this) && unchanged(old(store))
      ensures o != null && o.entityGuid == EmptyGuid ==>
        r == Fail(EmptyGuidRejected) && unchanged(this) && unchanged(old(store))
      ensures o != null && o.entityGuid != EmptyGuid && Matches(old(store), o.entityGuid) == [] ==>
        && r == Pass && store == old(store)
        && |pending| == |old(pending)| + 1 && pending[..|old(pending)|] == old(pending)
        && var c := pending[|old(pending)|];
        && fresh(c) && c.entityGuid == o.entityGuid && c.permissions == old(o.permissions)
        && unchanged(old(store))
      ensures o != null && o.entityGuid != EmptyGuid && Matches(old(store), o.entityGuid) != [] ==>
        var m := Matches(old(store), o.entityGuid);
        && r == Pass
        && store == Excluding(old(store), m[1..]) && pending == old(pending)
        && (o == m[0] ==> m[0].permissions == old(Consolidated(m)))
        && (o !in old(store) ==> m[0].permissions == old(o.permissions))
      ensures o != null && o.entityGuid != EmptyGuid ==>
        var m := Matches(old(store), o.entityGuid);
        forall k :: 1 <= k < |m| && m[k] == o ==> m[0].permissions == []
      ensures o != null && o.entityGuid != EmptyGuid ==>
        var m := Matches(old(store), o.entityGuid);
        forall k :: 1 <= k < |m| ==> m[k].permissions == []
      ensures forall x: EntityPermissions :: old(allocated(x)) && (o == null || x.entityGuid != o.entityGuid) ==> unchanged(x)
      ensures o != null ==> forall h :: h != o.entityGuid ==>
                Matches(store, h) == Matches(old(store), h) && Matches(pending, h) == Matches(old(pending), h)
      ensures forall k :: 0 <= k < |store| ==> store[k] in old(store)
    {
      if o == null {
        return Fail(ArgumentNull);
      }
      if o.entityGuid == EmptyGuid {
        return Fail(EmptyGuidRejected);
      }
      ghost var m := Matches(store, o.entityGuid);
      var existing := GetForEntity(o.entityGuid);
      if existing == null {
        var clone := new EntityPermissions(o.entityGuid, o.permissions);
        Insert(clone);
      } else {
        existing.permissions := o.permissions;
        assert forall k :: 1 <= k < |m| ==> m[k].permissions == [];
      }
      return Pass;
    }

    /** `AddOrUpdate(EntityPermissions)` is `Update`. */
    method AddOrUpdate(o: EntityPermissions?) returns (r: Outcome)
      requires Valid()
      modifies this`store, this`pending, store
      ensures Valid()
      ensures o == null ==> r == Fail(ArgumentNull) && unchanged(this) && unchanged(old(store))
      ensures o != null && o.entityGuid == EmptyGuid ==>
        r == Fail(EmptyGuidRejected) && unchanged(this) && unchanged(old(store))
      ensures o != null && o.entityGuid != EmptyGuid && Matches(old(store), o.entityGuid) == [] ==>
        && r == Pass && store == old(store)
        && |pending| == |old(pending)| + 1 && pending[..|old(pending)|] == old(pending)
        && var c := pending[|old(pending)|];
        && fresh(c) && c.entityGuid == o.entityGuid && c.permissions == old(o.permissions)
        && unchanged(old(store))
      ensures o != null && o.entityGuid != EmptyGuid && Matches(old(store), o.entityGuid) != [] ==>
        var m := Matches(old(store), o.entityGuid);
        && r == Pass
        && store == Excluding(old(store), m[1..]) && pending == old(pending)
        && (o == m[0] ==> m[0].permissions == old(Consolidated(m)))
        && (o !in old(store) ==> m[0].permissions == old(o.permissions))
      ensures o != null && o.entityGuid != EmptyGuid ==>
        var m := Matches(old(store), o.entityGuid);
        forall k :: 1 <= k < |m| && m[k] == o ==> m[0].permissions == []
      ensures o != null && o.entityGuid != EmptyGuid ==>
        var m := Matches(old(store), o.entityGuid);
        forall k :: 1 <= k < |m| ==> m[k].permissions == []
      ensures forall x: EntityPermissions :: old(allocated(x)) && (o == null || x.entityGuid != o.entityGuid) ==> unchanged(x)
      ensures o != null ==> forall h :: h != o.entityGuid ==>
                Matches(store, h) == Matches(old(store), h) && Matches(pending, h) == Matches(old(pending), h)
      ensures forall k :: 0 <= k < |store| ==> store[k] in old(store)
    {
      r := Update(o);
    }

    /** The entities a batch names. */
    static function GuidsOf(os: seq<EntityPermissions?>): (gs: set<Guid>)
      ensures forall i :: 0 <= i < |os| && os[i] != null ==> os[i].entityGuid in gs
      decreases |os|
    {
      if os == [] then {}
      else
        var last := os[|os| - 1];
        GuidsOf(os[..|os| - 1]) + (if last != null then {last.entityGuid} else {})
    }

    /** The entities the first `i + 1` records of a batch name. */
    static lemma GuidsOfStep(os: seq<EntityPermissions?>, i: nat)
      requires i < |os|
      ensures GuidsOf(os[..i + 1]) == GuidsOf(os[..i]) + (if os[i] != null then {os[i].entityGuid} else {})
    {
      assert os[..i + 1][..i] == os[..i];
    }

    /** A batch names every entity its prefixes name. */
    static lemma {:induction false} GuidsOfPrefix(os: seq<EntityPermissions?>, k: nat)
      requires k <= |os|
      ensures GuidsOf(os[..k]) <= GuidsOf(os)
      decreases |os|
    {
      if k < |os| {
        assert os[..k] == os[..|os| - 1][..k];
        GuidsOfPrefix(os[..|os| - 1], k);
      } else {
        assert os[..k] == os;
      }
    }

    /** One `Add` of the `AddRange` loop, seen through what the loop
        keeps: the error it throws, the entity it settles, no record of
        another entity touched and nothing new in the saved table. */
    method AddStep(o: EntityPermissions?) returns (r: Outcome)
      requires Valid()
      modifies this, store, cache.Values
      ensures Valid()
      ensures cache == old(cache)
      ensures !Keyed(o) ==> r == Fail(Rejection(o)) && store == old(store) && pending == old(pending)
      ensures Keyed(o) ==> (r.Pass? || r == Fail(Rejection(o)))
      ensures Keyed(o) ==> Settles(old(store), old(pending), store, pending, o.entityGuid)
      ensures o != null ==> KeptOutside(old(store), old(pending), store, pending, {o.entityGuid})
      ensures Within(store, old(store))
    {
      ghost var s0, p0 := store, pending;
      r := Add(o);
      if Keyed(o) {
        SettlesAfterStore(s0, p0, store, pending, o.entityGuid);
      }
    }

    /** Pass `i` of the `AddRange` loop over `batch`, which started from the
        saved records `s0` and the added records `p0`. */
    method AddAt(batch: seq<EntityPermissions?>, i: nat, ghost s0: seq<EntityPermissions>,
                 ghost p0: seq<EntityPermissions>) returns (r: Outcome)
      requires Valid() && i < |batch| && i <= FirstUnkeyed(batch)
      requires SettledAll(s0, store, pending, GuidsOf(batch[..i]))
      requires KeptOutside(s0, p0, store, pending, GuidsOf(batch[..i])) && Within(store, s0)
      modifies this, store, cache.Values
      ensures Valid() && cache == old(cache)
      ensures r.Fail? ==> r == Fail(Rejection(batch[i]))
      ensures r.Fail? && r != Fail(GroupNotFound) ==> i == FirstUnkeyed(batch)
      ensures r.Pass? ==> i < FirstUnkeyed(batch) && SettledAll(s0, store, pending, GuidsOf(batch[..i + 1]))
      ensures KeptOutside(s0, p0, store, pending, GuidsOf(batch[..i + 1])) && Within(store, s0)
    {
      var o := batch[i];
      ghost var s1, p1 := store, pending;
      r := AddStep(o);
      GuidsOfStep(batch, i);
      if o != null {
        KeptStep(s0, p0, s1, p1, store, pending, GuidsOf(batch[..i]), o.entityGuid);
      }
      if r.Pass? {
        SettledStep(s0, p0, s1, p1, store, pending, GuidsOf(batch[..i]), o.entityGuid);
      }
      ContainedTrans(s0, s1, store);
    }

    /** `AddRange`: reject a null batch, else `Add` each record in order,
        stopping at the first that throws. */
    method AddRange(os: Option<seq<EntityPermissions?>>) returns (r: Outcome)
      requires Valid()
      modifies this, store, cache.Values
      ensures Valid()
      ensures cache == old(cache)
      ensures os.None? ==> r == Fail(ArgumentNull) && unchanged(this) && unchanged(old(store))
      ensures os.Some? ==>
                var n := FirstUnkeyed(os.value);
                && (r.Pass? ==> n == |os.value|)
                && (n < |os.value| ==> r.Fail?)
                && (r.Fail? && r != Fail(GroupNotFound) ==> n < |os.value| && r == Fail(Rejection(os.value[n])))
      ensures os.Some? && r.Pass? ==> SettledAll(old(store), store, pending, GuidsOf(os.value))
      ensures os.Some? ==> KeptOutside(old(store), old(pending), store, pending, GuidsOf(os.value))
      ensures Within(store, old(store))
    {
      if os.None? {
        return Fail(ArgumentNull);
      }
      var batch := os.value;
      var i := 0;
      assert batch[..0] == [];
      while i < |batch|
        invariant 0 <= i <= |batch|
        invariant Valid() && cache == old(cache)
        invariant i <= FirstUnkeyed(batch)
        invariant SettledAll(old(store), store, pending, GuidsOf(batch[..i]))
        invariant KeptOutside(old(store), old(pending), store, pending, GuidsOf(batch[..i]))
        invariant Within(store, old(store))
      {
        r := AddAt(batch, i, old(store), old(pending));
        if r.Fail? {
          GuidsOfPrefix(batch, i + 1);
          return;
        }
        i := i + 1;
      }
      assert batch[..i] == batch;
      return Pass;
    }

    /** One `Update` of the `UpdateRange` loop, seen through what the loop
        keeps: the error it throws, the entity it settles, no record of
        another entity touched and nothing new in the saved table. */
    method UpdateStep(o: EntityPermissions?) returns (r: Outcome)
      requires Valid()
      modifies this`store, this`pending, store
      ensures Valid()
      ensures !Keyed(o) ==> r == Fail(Rejection(o)) && store == old(store) && pending == old(pending)
      ensures Keyed(o) ==> r == Pass && Settles(old(store), old(pending), store, pending, o.entityGuid)
      ensures o != null ==> KeptOutside(old(store), old(pending), store, pending, {o.entityGuid})
      ensures Within(store, old(store))
    {
      ghost var s0, p0 := store, pending;
      r := Update(o);
      if Keyed(o) {
        SettlesAfterStore(s0, p0, store, pending, o.entityGuid);
      }
    }

    /** Pass `i` of the `UpdateRange` loop over `batch`, which started from
        the saved records `s0` and the added records `p0`. */
    method UpdateAt(batch: seq<EntityPermissions?>, i: nat, ghost s0: seq<EntityPermissions>,
                    ghost p0: seq<EntityPermissions>) returns (r: Outcome)
      requires Valid() && i < |batch| && i <= FirstUnkeyed(batch)
      requires SettledAll(s0, store, pending, GuidsOf(batch[..i]))
      requires KeptOutside(s0, p0, store, pending, GuidsOf(batch[..i])) && Within(store, s0)
      modifies this`store, this`pending, store
      ensures Valid()
      ensures r.Fail? <==> i == FirstUnkeyed(batch)
      ensures r.Fail? ==> r == Fail(Rejection(batch[i]))
      ensures r.Pass? ==> SettledAll(s0, store, pending, GuidsOf(batch[..i + 1]))
      ensures KeptOutside(s0, p0, store, pending, GuidsOf(batch[..i + 1])) && Within(store, s0)
    {
      var o := batch[i];
      ghost var s1, p1 := store, pending;
      r := UpdateStep(o);
      GuidsOfStep(batch, i);
      if o != null {
        KeptStep(s0, p0, s1, p1, store, pending, GuidsOf(batch[..i]), o.entityGuid);
      }
      if r.Pass? {
        SettledStep(s0, p0, s1, p1, store, pending, GuidsOf(batch[..i]), o.entityGuid);
      }
      ContainedTrans(s0, s1, store);
    }

    /** `UpdateRange`: reject a null batch, else `Update` each record in
        order, stopping at the first that throws. */
    method UpdateRange(os: Option<seq<EntityPermissions?>>) returns (r: Outcome)
      requires Valid()
      modifies this`store, this`pending, store
      ensures Valid()
      ensures os.None? ==> r == Fail(ArgumentNull) && unchanged(this) && unchanged(old(store))
      ensures os.Some? ==>
                var n := FirstUnkeyed(os.value);
                r == if n == |os.value| then Pass else Fail(Rejection(os.value[n]))
      ensures os.Some? && r.Pass? ==> SettledAll(old(store), store, pending, GuidsOf(os.value))
      ensures os.Some? ==> KeptOutside(old(store), old(pending), store, pending, GuidsOf(os.value))
      ensures Within(store, old(store))
    {
      if os.None? {
        return Fail(ArgumentNull);
      }
      var batch := os.value;
      var i := 0;
      assert batch[..0] == [];
      while i < |batch|
        invariant 0 <= i <= |batch|
        invariant Valid()
        invariant i <= FirstUnkeyed(batch)
        invariant SettledAll(old(store), store, pending, GuidsOf(batch[..i]))
        invariant KeptOutside(old(store), old(pending), store, pending, GuidsOf(batch[..i]))
        invariant Within(store, old(store))
      {
        r := UpdateAt(batch, i, old(store), old(pending));
        if r.Fail? {
          GuidsOfPrefix(batch, i + 1);
          return;
        }
        i := i + 1;
      }
      assert batch[..i] == batch;
      return Pass;
    }

    /** `AddOrUpdateRange` is `UpdateRange`. */
    method AddOrUpdateRange(os: Option<seq<EntityPermissions?>>) returns (r: Outcome)
      requires Valid()
      modifies this`store, this`pending, store
      ensures Valid()
      ensures os.None? ==> r == Fail(ArgumentNull) && unchanged(this) && unchanged(old(store))
      ensures os.Some? ==>
                var n := FirstUnkeyed(os.value);
                r == if n == |os.value| then Pass else Fail(Rejection(os.value[n]))
      ensures os.Some? && r.Pass? ==> SettledAll(old(store), store, pending, GuidsOf(os.value))
      ensures os.Some? ==> KeptOutside(old(store), old(pending), store, pending, GuidsOf(os.value))
      ensures Within(store, old(store))
    {
      r := UpdateRange(os);
    }

    /** `AllowsAccessType(Guid, IUser, PermissionTypes)`: deny when a query
        finds no record for `target`, else ask the consolidated record. */
    method AllowsAccessType(target: Guid, user: Accessor, permissionTypes: PermissionTypes) returns (b: bool)
      requires Valid()
      modifies this`store, store
      ensures Valid()
      ensures var m := Matches(old(store), target);
        && (m == [] ==> !b && store == old(store))
        && (m != [] ==> b == allowsAccessType(old(Consolidated(m)), user, permissionTypes))
        && (m != [] ==> store == Excluding(old(store), m[1..]))
        && (m != [] ==> m[0].permissions == old(Consolidated(m)))
        && (forall k :: 1 <= k < |m| ==> m[k].permissions == [])
        && Matches(store, target) == (if m == [] then [] else [m[0]])
      ensures forall i :: 0 <= i < |store| ==> store[i] in old(store)
      ensures forall h :: h != target ==> Matches(store, h) == Matches(old(store), h)
      ensures forall x: EntityPermissions :: old(allocated(x)) && x.entityGuid != target ==> unchanged(x)
    {
      var existing := GetForEntity(target);
      if existing != null {
        return allowsAccessType(existing.permissions, user, permissionTypes);
      } else {
        return false;
      }
    }

    /** `AddPermission(Entity, SecurityGroup, PermissionTypes)`: reject a
        null entity, else grant on the entity's Guid. */
    method AddPermissionToEntity(target: Option<Entity>, securityGroup: Option<SecurityGroup>,
                                 permissionTypes: PermissionTypes)
      returns (r: Outcome)
      requires Valid()
      modifies this, store, cache.Values
      ensures Valid()
      ensures target.None? ==>
        r == Fail(ArgumentNull) && unchanged(this) && unchanged(old(store)) && unchanged(old(cache.Values))
      ensures target.Some? ==>
        && (securityGroup.None? ==> r == Fail(ArgumentNull))
        && (securityGroup.Some? ==>
              r == if findGroup(securityGroup.value.guid).Some? then Pass else Fail(GroupNotFound))
      ensures forall x: EntityPermissions :: old(allocated(x)) && (target.None? || x.entityGuid != target.value.guid) ==> unchanged(x)
    {
      if target.None? {
        return Fail(ArgumentNull);
      }
      r := AddPermission(target.value.guid, securityGroup, permissionTypes);
    }

    /** `AllowsAccessType(Entity, IUser, PermissionTypes)`: reject a null
        entity, else ask on the entity's Guid. */
    method AllowsAccessTypeForEntity(target: Option<Entity>, user: Accessor, permissionTypes: PermissionTypes)
      returns (r: Result<bool>)
      requires Valid()
      modifies this`store, store
      ensures Valid()
      ensures target.None? ==> r == Err(ArgumentNull) && store == old(store) && unchanged(old(store))
      ensures target.Some? ==>
        var m := Matches(old(store), target.value.guid);
        && (m == [] ==> r == Ok(false))
        && (m != [] ==> r == Ok(allowsAccessType(old(Consolidated(m)), user, permissionTypes)))
        && (m != [] ==> m[0].permissions == old(Consolidated(m)))
      ensures target.Some? ==>
        var g := target.value.guid;
        var m := Matches(old(store), g);
        && (m == [] ==> store == old(store))
        && (m != [] ==> store == Excluding(old(store), m[1..]))
        && (forall k :: 1 <= k < |m| ==> m[k].permissions == [])
        && Matches(store, g) == (if m == [] then [] else [m[0]])
        && (forall h :: h != g ==> Matches(store, h) == Matches(old(store), h))
      ensures forall i :: 0 <= i < |store| ==> store[i] in old(store)
      ensures forall x: EntityPermissions :: old(allocated(x)) && (target.None? || x.entityGuid != target.value.guid) ==> unchanged(x)
    {
      if target.None? {
        return Err(ArgumentNull);
      }
      var b := AllowsAccessType(target.value.guid, user, permissionTypes);
      return Ok(b);
    }

    /** `GetForEntity(Entity)`: reject a null entity, else read on the
        entity's Guid. */
    method GetForEntityObject(target: Option<Entity>) returns (r: Result<EntityPermissions?>)
      requires Valid()
      modifies this`store, store
      ensures Valid()
      ensures target.None? ==> r == Err(ArgumentNull) && store == old(store) && unchanged(old(store))
      ensures target.Some? ==>
        var m := Matches(old(store), target.value.guid);
        && r.Ok?
        && (m == [] ==> r.value == null)
        && (m != [] ==> r.value == m[0] && r.value.permissions == old(Consolidated(m)))
      ensures target.Some? ==>
        var g := target.value.guid;
        var m := Matches(old(store), g);
        && (m == [] ==> store == old(store))
        && (m != [] ==> store == Excluding(old(store), m[1..]))
        && (forall k :: 1 <= k < |m| ==> m[k].permissions == [])
        && Matches(store, g) == (if m == [] then [] else [m[0]])
        && (forall h :: h != g ==> Matches(store, h) == Matches(old(store), h))
      ensures forall i :: 0 <= i < |store| ==> store[i] in old(store)
      ensures forall x: EntityPermissions :: old(allocated(x)) && (target.None? || x.entityGuid != target.value.guid) ==> unchanged(x)
    {
      if target.None? {
        return Err(ArgumentNull);
      }
      var e := GetForEntity(target.value.guid);
      return Ok(e);
    }
  }
}
