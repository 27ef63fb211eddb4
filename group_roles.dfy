/** `GroupRoleRepository<T>`: the two queries the role and the group
    repositories share, over their saved rows in store order. Both are
    filters over the store and change nothing. */
module GroupRoles {
  import opened Types

  /** `SecurityGroup.SecurityGroupSource`: where a role comes from. The
      code modelled here names only `System`; the enumeration's other
      members are told apart by their numeric value. */
  datatype SecurityGroupSource = System | OtherSource(code: int)

  /** A `Role` or a `Group`, the two kinds of `GroupRole`. A role's or
      group's `Name` is its `ExternalId`, the key `GetByName` looks up. */
  datatype GroupRole =
    | Role(guid: Guid, externalId: string, description: string, isDefault: bool, source: SecurityGroupSource)
    | Group(guid: Guid, externalId: string, description: string, isDefault: bool)

  /** The rows whose `ExternalId` is `name`, in store order
      (`Where(t => t.ExternalId == Name)`). */
  function Named(items: seq<GroupRole>, name: string): seq<GroupRole>
  {
    if items == [] then []
    else (if items[0].externalId == name then [items[0]] else []) + Named(items[1..], name)
  }

  /** Every row `Named` returns is a row of the store with that name. */
  lemma {:induction false} NamedMembers(items: seq<GroupRole>, name: string)
    ensures forall x :: x in Named(items, name) ==> x in items && x.externalId == name
    decreases |items|
  {
    if items != [] {
      NamedMembers(items[1..], name);
    }
  }

  /** `Named` is empty exactly when no row has the name. */
  lemma {:induction false} NamedEmpty(items: seq<GroupRole>, name: string)
    ensures Named(items, name) == [] <==> forall i :: 0 <= i < |items| ==> items[i].externalId != name
    decreases |items|
  {
    if items != [] {
      NamedEmpty(items[1..], name);
      if Named(items, name) == [] {
        forall i | 0 <= i < |items| ensures items[i].externalId != name {
          if i > 0 {
            assert items[i] == items[1..][i - 1];
          }
        }
      } else if items[0].externalId != name {
        var j :| 0 <= j < |items[1..]| && items[1..][j].externalId == name;
        assert items[j + 1].externalId == name;
      }
    }
  }

  /** `Named` has two or more rows exactly when two rows share the name. */
  lemma {:induction false} NamedSeveral(items: seq<GroupRole>, name: string)
    ensures |Named(items, name)| >= 2 <==>
      exists i, j :: 0 <= i < j < |items| && items[i].externalId == name && items[j].externalId == name
    decreases |items|
  {
    if items != [] {
      var tail := items[1..];
      NamedSeveral(tail, name);
      NamedEmpty(tail, name);
      if |Named(items, name)| >= 2 {
        if items[0].externalId == name {
          var j :| 0 <= j < |tail| && tail[j].externalId == name;
          assert items[j + 1] == tail[j];
          assert 0 < j + 1 < |items|;
        } else {
          var i, j :| 0 <= i < j < |tail| && tail[i].externalId == name && tail[j].externalId == name;
          assert items[i + 1] == tail[i] && items[j + 1] == tail[j];
        }
      }
      if exists i, j :: 0 <= i < j < |items| && items[i].externalId == name && items[j].externalId == name {
        var i, j :| 0 <= i < j < |items| && items[i].externalId == name && items[j].externalId == name;
        assert items[j] == tail[j - 1];
        if i > 0 {
          assert items[i] == tail[i - 1];
        }
      }
    }
  }

  /** `GetByName(Name)`: `SingleOrDefault` over the rows named `name`:
      none when there is no such row, the row when there is exactly one,
      and an `InvalidOperationException` (here `MultipleMatches`) when
      there are more. */
  function GetByName(items: seq<GroupRole>, name: string): (r: Result<Option<GroupRole>>)
    ensures r == Ok(None) <==> forall i :: 0 <= i < |items| ==> items[i].externalId != name
    ensures r.Err? <==>
      exists i, j :: 0 <= i < j < |items| && items[i].externalId == name && items[j].externalId == name
    ensures r.Err? ==> r.error == MultipleMatches
    ensures r.Ok? && r.value.Some? ==>
      && r.value.value in items && r.value.value.externalId == name
      && forall i :: 0 <= i < |items| && items[i].externalId == name ==> items[i] == r.value.value
  {
    var m := Named(items, name);
    NamedMembers(items, name);
    NamedEmpty(items, name);
    NamedSeveral(items, name);
    if |m| == 0 then Ok(None)
    else if |m| == 1 then
      assert forall i :: 0 <= i < |items| && items[i].externalId == name ==> items[i] == m[0] by {
        forall i | 0 <= i < |items| && items[i].externalId == name ensures items[i] == m[0] {
          var k :| 0 <= k < |items| && items[k] == m[0];
        }
      }
      Ok(Some(m[0]))
    else Err(MultipleMatches)
  }

  /** The same store extended by a row whose name no stored row has: the
      lookup of that name now finds exactly that row. */
  lemma GetByNameAfterAppend(items: seq<GroupRole>, x: GroupRole)
    requires GetByName(items, x.externalId) == Ok(None)
    ensures GetByName(items + [x], x.externalId) == Ok(Some(x))
  {
    var s := items + [x];
    forall i | 0 <= i < |items| ensures s[i].externalId != x.externalId {
      assert s[i] == items[i];
    }
    assert s[|items|] == x;
  }

  /** `GetDefaults()`: the rows with `IsDefault` set, in store order. */
  function GetDefaults(items: seq<GroupRole>): (r: seq<GroupRole>)
    ensures forall x :: x in r ==> x in items && x.isDefault
    ensures forall i :: 0 <= i < |items| && items[i].isDefault ==> items[i] in r
  {
    if items == [] then []
    else
      var rest := GetDefaults(items[1..]);
      assert forall i :: 1 <= i < |items| ==> items[i] == items[1..][i - 1];
      (if items[0].isDefault then [items[0]] else []) + rest
  }

  /** `r` keeps some of the rows of `s`, in their order. */
  predicate Subsequence(r: seq<GroupRole>, s: seq<GroupRole>)
    decreases |s|
  {
    if r == [] then true
    else if s == [] then false
    else (r[0] == s[0] && Subsequence(r[1..], s[1..])) || Subsequence(r, s[1..])
  }

  /** `GetDefaults` keeps the store's order. */
  lemma {:induction false} GetDefaultsInOrder(items: seq<GroupRole>)
    ensures Subsequence(GetDefaults(items), items)
    decreases |items|
  {
    if items != [] {
      GetDefaultsInOrder(items[1..]);
      var r := GetDefaults(items);
      if items[0].isDefault {
        assert r[0] == items[0] && r[1..] == GetDefaults(items[1..]);
      } else {
        assert r == GetDefaults(items[1..]);
      }
    }
  }

  /** `GetDefaults` keeps every default row as often as the store holds
      it, and no other row: with `GetDefaultsInOrder`, it is exactly the
      default rows in store order. */
  lemma {:induction false} GetDefaultsCounts(items: seq<GroupRole>, x: GroupRole)
    ensures multiset(GetDefaults(items))[x] == if x.isDefault then multiset(items)[x] else 0
    decreases |items|
  {
    if items != [] {
      GetDefaultsCounts(items[1..], x);
      assert items == [items[0]] + items[1..];
    }
  }
}
