/** The grant list of one entity-permission record, and the two library
    operations the repository calls on a record: `EntityPermissions.AddPermission`
    and `EntityPermissions.AllowsAccessType`. The library itself is not part
    of this model; the repository takes both operations as function values
    (`GrantAdder`, `AccessCheck`). `OrMerge` and `StandInAllows` below are a
    stand-in for them, an ASSUMPTION of this model: merge by group with a
    bitwise OR, and allow when the union of the user's groups' bits covers
    every requested bit. */
module Grants {
  import opened Types

  /** A bit position of the `[Flags]` enumeration `PermissionTypes`. */
  type Flag = i: int | 0 <= i < 32

  /** A `PermissionTypes` value, as the set of its bits that are 1: bitwise
      OR is union, bitwise AND is intersection, and "every requested bit is
      present" is inclusion. */
  type PermissionTypes = set<Flag>

  /** A security group (group, role or user) as a grant refers to it. */
  datatype SecurityGroup = SecurityGroup(guid: Guid, externalId: string)

  /** One grant: "this group may perform these kinds of access". */
  datatype SecurityGroupPermission =
    SecurityGroupPermission(securityGroup: SecurityGroup, permissionType: PermissionTypes)

  type Grants = seq<SecurityGroupPermission>

  /** What an access check knows of a user: the Guids of the groups it is
      in, directly or through its roles (the expansion is not modelled). */
  datatype Accessor = Accessor(groups: set<Guid>)

  /** `EntityPermissions.AddPermission`, as a function of the record's list. */
  type GrantAdder = (Grants, SecurityGroup, PermissionTypes) -> Grants

  /** `EntityPermissions.AllowsAccessType`, as a function of the record's list. */
  type AccessCheck = (Grants, Accessor, PermissionTypes) -> bool

  /** The list a record holds after `add` has been called on it once per
      grant of `gs`, in the order of `gs`. */
  function FoldGrants(add: GrantAdder, base: Grants, gs: Grants): Grants
    decreases |gs|
  {
    if gs == [] then base
    else
      var last := gs[|gs| - 1];
      add(FoldGrants(add, base, gs[..|gs| - 1]), last.securityGroup, last.permissionType)
  }

  lemma {:induction false} FoldGrantsAppend(add: GrantAdder, base: Grants, xs: Grants, ys: Grants)
    ensures FoldGrants(add, base, xs + ys) == FoldGrants(add, FoldGrants(add, base, xs), ys)
    decreases |ys|
  {
    if ys == [] {
      assert xs + ys == xs;
    } else {
      assert (xs + ys)[..|xs + ys| - 1] == xs + ys[..|ys| - 1];
      FoldGrantsAppend(add, base, xs, ys[..|ys| - 1]);
    }
  }

  /** Two adders that agree on every call fold every list alike. */
  lemma {:induction false} FoldGrantsPointwise(add: GrantAdder, other: GrantAdder, base: Grants, gs: Grants)
    requires forall p, g, k :: add(p, g, k) == other(p, g, k)
    ensures FoldGrants(add, base, gs) == FoldGrants(other, base, gs)
    decreases |gs|
  {
    if gs != [] {
      FoldGrantsPointwise(add, other, base, gs[..|gs| - 1]);
    }
  }

  // ---------------------------------------------------------------------
  // The OR-merge-by-group stand-in for the library
  // ---------------------------------------------------------------------

  /** Stand-in for `EntityPermissions.AddPermission`: OR the bits into the
      first grant for the same group (by Guid), or append a new grant. */
  function OrMerge(perms: Grants, group: SecurityGroup, kinds: PermissionTypes): Grants
  {
    if perms == [] then [SecurityGroupPermission(group, kinds)]
    else if perms[0].securityGroup.guid == group.guid then
      [perms[0].(permissionType := perms[0].permissionType + kinds)] + perms[1..]
    else [perms[0]] + OrMerge(perms[1..], group, kinds)
  }

  /** The bits one grant gives to a user in `groups`. */
  function Contribution(p: SecurityGroupPermission, groups: set<Guid>): PermissionTypes
  {
    if p.securityGroup.guid in groups then p.permissionType else {}
  }

  /** The union of the bits granted to any of `groups`. */
  function Effective(perms: Grants, groups: set<Guid>): PermissionTypes
  {
    if perms == [] then {}
    else Contribution(perms[0], groups) + Effective(perms[1..], groups)
  }

  /** Stand-in for `EntityPermissions.AllowsAccessType`: every requested bit
      is granted to at least one of the user's groups. */
  predicate StandInAllows(perms: Grants, user: Accessor, kinds: PermissionTypes)
  {
    kinds <= Effective(perms, user.groups)
  }

  /** At most one grant per group. */
  predicate UniqueGroups(perms: Grants)
  {
    forall i, j :: 0 <= i < j < |perms| ==> perms[i].securityGroup.guid != perms[j].securityGroup.guid
  }

  lemma {:induction false} EffectiveAppend(xs: Grants, ys: Grants, groups: set<Guid>)
    ensures Effective(xs + ys, groups) == Effective(xs, groups) + Effective(ys, groups)
    decreases |xs|
  {
    if xs == [] {
      assert xs + ys == ys;
    } else {
      assert (xs + ys)[1..] == xs[1..] + ys;
      EffectiveAppend(xs[1..], ys, groups);
    }
  }

  /** Merging a grant adds its bits for exactly the users in its group. */
  lemma {:induction false} OrMergeEffective(perms: Grants, group: SecurityGroup, kinds: PermissionTypes, groups: set<Guid>)
    ensures Effective(OrMerge(perms, group, kinds), groups)
         == Effective(perms, groups) + Contribution(SecurityGroupPermission(group, kinds), groups)
    decreases |perms|
  {
    var merged := OrMerge(perms, group, kinds);
    if perms == [] {
      assert merged[1..] == [];
    } else if perms[0].securityGroup.guid == group.guid {
      assert merged[1..] == perms[1..];
    } else {
      assert merged[1..] == OrMerge(perms[1..], group, kinds);
      OrMergeEffective(perms[1..], group, kinds, groups);
    }
  }

  /** Merging a grant keeps at most one grant per group. */
  lemma {:induction false} OrMergeKeepsUnique(perms: Grants, group: SecurityGroup, kinds: PermissionTypes)
    requires UniqueGroups(perms)
    ensures UniqueGroups(OrMerge(perms, group, kinds))
    decreases |perms|
  {
    if perms != [] && perms[0].securityGroup.guid != group.guid {
      OrMergeGroups(perms[1..], group, kinds);
      OrMergeKeepsUnique(perms[1..], group, kinds);
    }
  }

  /** The groups of a merged list are the old ones plus the merged one. */
  lemma {:induction false} OrMergeGroups(perms: Grants, group: SecurityGroup, kinds: PermissionTypes)
    ensures forall x :: x in OrMerge(perms, group, kinds) ==>
              x.securityGroup.guid == group.guid || exists y :: y in perms && y.securityGroup.guid == x.securityGroup.guid
    decreases |perms|
  {
    if perms != [] && perms[0].securityGroup.guid != group.guid {
      OrMergeGroups(perms[1..], group, kinds);
    }
  }

  /** Two grants to one group merge as one grant of the union of their bits;
      in particular the same grant twice merges as it once. */
  lemma {:induction false} OrMergeAbsorbs(perms: Grants, group: SecurityGroup, t: PermissionTypes, u: PermissionTypes)
    ensures OrMerge(OrMerge(perms, group, t), group, u) == OrMerge(perms, group, t + u)
    decreases |perms|
  {
    if perms == [] {
    } else if perms[0].securityGroup.guid == group.guid {
      assert perms[0].permissionType + t + u == perms[0].permissionType + (t + u);
    } else {
      OrMergeAbsorbs(perms[1..], group, t, u);
    }
  }

  lemma OrMergeIdempotent(perms: Grants, group: SecurityGroup, kinds: PermissionTypes)
    ensures OrMerge(OrMerge(perms, group, kinds), group, kinds) == OrMerge(perms, group, kinds)
  {
    OrMergeAbsorbs(perms, group, kinds, kinds);
    assert kinds + kinds == kinds;
  }

  /** Folding grants with the stand-in loses no bit and invents none: each
      user's effective bits are the old ones united with the folded grants'. */
  lemma {:induction false} FoldOrMergeEffective(base: Grants, gs: Grants, groups: set<Guid>)
    ensures Effective(FoldGrants(OrMerge, base, gs), groups) == Effective(base, groups) + Effective(gs, groups)
    decreases |gs|
  {
    if gs != [] {
      var init, last := gs[..|gs| - 1], gs[|gs| - 1];
      FoldOrMergeEffective(base, init, groups);
      OrMergeEffective(FoldGrants(OrMerge, base, init), last.securityGroup, last.permissionType, groups);
      assert gs == init + [last];
      EffectiveAppend(init, [last], groups);
    }
  }

  /** Folding grants with the stand-in keeps at most one grant per group. */
  lemma {:induction false} FoldOrMergeKeepsUnique(base: Grants, gs: Grants)
    requires UniqueGroups(base)
    ensures UniqueGroups(FoldGrants(OrMerge, base, gs))
    decreases |gs|
  {
    if gs != [] {
      var last := gs[|gs| - 1];
      FoldOrMergeKeepsUnique(base, gs[..|gs| - 1]);
      OrMergeKeepsUnique(FoldGrants(OrMerge, base, gs[..|gs| - 1]), last.securityGroup, last.permissionType);
    }
  }

  lemma {:induction false} EffectiveHasMember(perms: Grants, x: SecurityGroupPermission, groups: set<Guid>)
    requires x in perms && x.securityGroup.guid in groups
    ensures x.permissionType <= Effective(perms, groups)
    decreases |perms|
  {
    if perms[0] != x {
      EffectiveHasMember(perms[1..], x, groups);
    }
  }

  /** No grant lost: after folding `gs` into a record, every member of a
      group that held a grant in the record or in `gs` still holds its bits. */
  lemma NoGrantLost(base: Grants, gs: Grants, x: SecurityGroupPermission, groups: set<Guid>)
    requires x in base || x in gs
    requires x.securityGroup.guid in groups
    ensures x.permissionType <= Effective(FoldGrants(OrMerge, base, gs), groups)
  {
    FoldOrMergeEffective(base, gs, groups);
    if x in base {
      EffectiveHasMember(base, x, groups);
    } else {
      EffectiveHasMember(gs, x, groups);
    }
  }

  /** A user gaining groups never loses access. */
  lemma {:induction false} EffectiveMonotone(perms: Grants, small: set<Guid>, large: set<Guid>)
    requires small <= large
    ensures Effective(perms, small) <= Effective(perms, large)
    decreases |perms|
  {
    if perms != [] {
      EffectiveMonotone(perms[1..], small, large);
    }
  }

  lemma StandInAllowsMonotone(perms: Grants, user: Accessor, more: Accessor, kinds: PermissionTypes)
    requires user.groups <= more.groups
    requires StandInAllows(perms, user, kinds)
    ensures StandInAllows(perms, more, kinds)
  {
    EffectiveMonotone(perms, user.groups, more.groups);
  }

  /** A record without grants allows nothing but the empty request. */
  lemma StandInNoGrantDenies(user: Accessor, kinds: PermissionTypes)
    ensures StandInAllows([], user, kinds) <==> kinds == {}
  {
  }

  /** Worked example: the value 1 (bit 0) to G1 and 2 (bit 1) to G2 on a
      fresh record; a member of both may ask for 3, a member of G1 only may
      ask for 1 but not for 3. */
  lemma AdditiveGrantsExample()
    ensures var g1, g2 := SecurityGroup(1, "G1"), SecurityGroup(2, "G2");
            var rec := FoldGrants(OrMerge, [], [SecurityGroupPermission(g1, {0}), SecurityGroupPermission(g2, {1})]);
            && rec == [SecurityGroupPermission(g1, {0}), SecurityGroupPermission(g2, {1})]
            && StandInAllows(rec, Accessor({1, 2}), {0, 1})
            && !StandInAllows(rec, Accessor({1}), {0, 1})
            && StandInAllows(rec, Accessor({1}), {0})
  {
    var g1, g2 := SecurityGroup(1, "G1"), SecurityGroup(2, "G2");
    var gs := [SecurityGroupPermission(g1, {0}), SecurityGroupPermission(g2, {1})];
    assert gs[..1] == [gs[0]];
    assert [gs[0]][..0] == [];
    var r1 := [SecurityGroupPermission(g1, {0})];
    assert FoldGrants(OrMerge, [], gs[..1]) == r1;
    assert OrMerge(r1, g2, {1}) == [r1[0]] + OrMerge(r1[1..], g2, {1});
    var rec := FoldGrants(OrMerge, [], gs);
    assert rec == gs;
    assert rec[1..][1..] == [];
    assert Effective(rec[1..], {1}) == {};
    assert Effective(rec, {1}) == {0};
  }
}
