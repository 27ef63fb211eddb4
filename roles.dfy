/** `RoleRepository`: get-or-create of a role by name, and the existence
    test by name. */
module RoleStore {
  import opened Types
  import opened GroupRoles

  class RoleRepository {
    /** The saved roles, in store order. */
    var roles: seq<GroupRole>

    constructor (roles: seq<GroupRole>)
      ensures this.roles == roles
    {
      this.roles := roles;
    }

    /** `CreateIfNotExists(roleName, roleDescription, source)`: the role
        `GetByName` finds, else a new role with the given name,
        description and source (`System` unless one is given), added to
        the store. The new role's Guid, drawn at random by the entity, is
        the parameter `newGuid`. */
    method CreateIfNotExists(roleName: string, roleDescription: string, newGuid: Guid,
                             source: SecurityGroupSource := System)
      returns (r: Result<GroupRole>)
      modifies this
      ensures GetByName(old(roles), roleName).Err? ==> r == Err(MultipleMatches) && roles == old(roles)
      ensures GetByName(old(roles), roleName) == Ok(None) ==>
        && r.Ok? && roles == old(roles) + [r.value]
        && r.value == Role(newGuid, roleName, roleDescription, false, source)
      ensures forall x :: GetByName(old(roles), roleName) == Ok(Some(x)) ==> r == Ok(x) && roles == old(roles)
      ensures r.Ok? ==> GetByName(roles, roleName) == Ok(Some(r.value))
    {
      var existing := GetByName(roles, roleName);
      if existing.Err? {
        return Err(existing.error);
      }
      if existing.value.None? {
        var created := Role(newGuid, roleName, roleDescription, false, source);
        GetByNameAfterAppend(roles, created);
        roles := roles + [created];
        return Ok(created);
      }
      return Ok(existing.value.value);
    }

    /** `Exists(name)`: some saved role has the name (`Any()`). */
    function Exists(name: string): (b: bool)
      reads this
      ensures b <==> exists i :: 0 <= i < |roles| && roles[i].externalId == name
    {
      NamedEmpty(roles, name);
      Named(roles, name) != []
    }

    /** `Exists` agrees with `GetByName`: true exactly when the lookup does
        not come back empty, and, when at most one role has the name,
        exactly when it finds a role. */
    lemma ExistsAgreesWithGetByName(name: string)
      ensures Exists(name) <==> GetByName(roles, name) != Ok(None)
      ensures (forall i, j :: 0 <= i < j < |roles| ==> roles[i].externalId != roles[j].externalId) ==>
                (Exists(name) <==> GetByName(roles, name).Ok? && GetByName(roles, name).value.Some?)
    {
    }
  }

  /** A second `CreateIfNotExists` of the same name returns the role the
      first one returned and adds nothing. */
  method CreateTwice(repo: RoleRepository, name: string, description: string, g1: Guid, g2: Guid)
    returns (first: Result<GroupRole>, second: Result<GroupRole>)
    modifies repo
    ensures first.Ok? ==> second == first && repo.roles == old(repo.roles) + (if GetByName(old(repo.roles), name) == Ok(None) then [first.value] else [])
  {
    first := repo.CreateIfNotExists(name, description, g1);
    second := repo.CreateIfNotExists(name, description, g2);
  }
}
