/** `GroupRepository`: get-or-create of a group by name. */
module GroupStore {
  import opened Types
  import opened GroupRoles

  class GroupRepository {
    /** The saved groups, in store order. */
    var groups: seq<GroupRole>

    constructor (groups: seq<GroupRole>)
      ensures this.groups == groups
    {
      this.groups := groups;
    }

    /** `CreateIfNotExists(groupName, groupDescription)`: the group
        `GetByName` finds, with its own description, else a new group with
        the given name and description, added to the store. The new
        group's Guid, drawn at random by the entity, is the parameter
        `newGuid`. */
    method CreateIfNotExists(groupName: string, groupDescription: string, newGuid: Guid)
      returns (r: Result<GroupRole>)
      modifies this
      ensures GetByName(old(groups), groupName).Err? ==> r == Err(MultipleMatches) && groups == old(groups)
      ensures GetByName(old(groups), groupName) == Ok(None) ==>
        && r.Ok? && groups == old(groups) + [r.value]
        && r.value == Group(newGuid, groupName, groupDescription, false)
      ensures forall x :: GetByName(old(groups), groupName) == Ok(Some(x)) ==>
        r == Ok(x) && groups == old(groups) && r.value.description == x.description
      ensures r.Ok? ==> GetByName(groups, groupName) == Ok(Some(r.value))
    {
      var existing := GetByName(groups, groupName);
      if existing.Err? {
        return Err(existing.error);
      }
      if existing.value.None? {
        var created := Group(newGuid, groupName, groupDescription, false);
        GetByNameAfterAppend(groups, created);
        groups := groups + [created];
        return Ok(created);
      }
      return Ok(existing.value.value);
    }
  }
}
