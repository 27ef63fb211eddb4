/** `UserRepository`: the user store, with the default role every
    signed-in user is given on each write, the default roles and groups a
    new user receives, the guest user `Find` falls back to, and the
    first-match lookups by e-mail, login and password. */
module UserStore {
  import opened Types
  import opened GroupRoles
  import opened RoleStore
  import opened GroupStore

  /** A user (`User`). Its roles, groups and `Enabled` flag are changed in
      place; its storage id, login, e-mail and password never change here. */
  class User {
    /** `_Id`, the storage id; 0 for a user that was never saved. */
    const id: int
    /** `ExternalId`, the login. */
    const externalId: string
    const email: string
    /** The stored password, compared as plain text. */
    const password: string
    var roles: seq<GroupRole>
    var groups: seq<GroupRole>
    var enabled: bool

    constructor (id: int, externalId: string, email: string, password: string,
                 roles: seq<GroupRole>, groups: seq<GroupRole>, enabled: bool)
      ensures this.id == id && this.externalId == externalId && this.email == email
      ensures this.password == password && this.roles == roles && this.groups == groups
      ensures this.enabled == enabled
    {
      this.id := id;
      this.externalId := externalId;
      this.email := email;
      this.password := password;
      this.roles := roles;
      this.groups := groups;
      this.enabled := enabled;
    }
  }

  // ---------------------------------------------------------------------
  // Stand-ins for the library's role operations on a user
  // ---------------------------------------------------------------------

  /** Stand-in for `User.HasRole`, an ASSUMPTION of this model: the user
      holds a role of the same name. */
  predicate HoldsRole(roles: seq<GroupRole>, role: GroupRole)
  {
    exists i :: 0 <= i < |roles| && roles[i].externalId == role.externalId
  }

  /** Stand-in for `User.AddRole`, an ASSUMPTION of this model: append
      the role unless one of its name is held. */
  function AddRoleOnce(roles: seq<GroupRole>, role: GroupRole): seq<GroupRole>
  {
    if HoldsRole(roles, role) then roles else roles + [role]
  }

  // ---------------------------------------------------------------------
  // First-match queries
  // ---------------------------------------------------------------------

  /** The index of the first user satisfying `p`, or the number of users
      when none does (`FirstOrDefault`). */
  function FirstIndex(us: seq<User>, p: User -> bool): (n: nat)
    ensures n <= |us|
    ensures forall j :: 0 <= j < n ==> !p(us[j])
    ensures n < |us| ==> p(us[n])
    decreases |us|
  {
    if us == [] || p(us[0]) then 0
    else
      var k := FirstIndex(us[1..], p);
      assert forall j :: 1 <= j < |us| ==> us[j] == us[1..][j - 1];
      1 + k
  }

  // ---------------------------------------------------------------------
  // Re-binding the guest's roles and groups to the stored ones
  // ---------------------------------------------------------------------

  /** The roles or groups `xs` with each one whose name the store `store`
      holds replaced by the stored row, or the error the first failing
      lookup throws. */
  function ResolveEach(xs: seq<GroupRole>, store: seq<GroupRole>): (r: Result<seq<GroupRole>>)
    ensures r.Err? <==> exists i :: 0 <= i < |xs| && GetByName(store, xs[i].externalId).Err?
    ensures r.Err? ==> r.error == MultipleMatches
    ensures r.Ok? ==> |r.value| == |xs|
    ensures r.Ok? ==> forall i :: 0 <= i < |xs| ==>
              || (GetByName(store, xs[i].externalId) == Ok(None) && r.value[i] == xs[i])
              || GetByName(store, xs[i].externalId) == Ok(Some(r.value[i]))
    decreases |xs|
  {
    if xs == [] then Ok([])
    else
      var init := ResolveEach(xs[..|xs| - 1], store);
      var last := xs[|xs| - 1];
      var found := GetByName(store, last.externalId);
      assert forall i :: 0 <= i < |xs| - 1 ==> xs[..|xs| - 1][i] == xs[i];
      if init.Err? then init
      else if found.Err? then Err(found.error)
      else Ok(init.value + [if found.value.Some? then found.value.value else last])
  }

  /** One more role or group resolves after those before it. */
  lemma ResolveStep(xs: seq<GroupRole>, store: seq<GroupRole>, i: nat)
    requires i < |xs|
    ensures ResolveEach(xs[..i + 1], store) ==
      var init, found := ResolveEach(xs[..i], store), GetByName(store, xs[i].externalId);
      if init.Err? then init
      else if found.Err? then Err(found.error)
      else Ok(init.value + [if found.value.Some? then found.value.value else xs[i]])
  {
    assert xs[..i + 1][..i] == xs[..i];
  }

  /** `List.Remove`: drop the first occurrence of `x`, if any. */
  function RemoveFirst(xs: seq<GroupRole>, x: GroupRole): seq<GroupRole>
  {
    if xs == [] then []
    else if xs[0] == x then xs[1..]
    else [xs[0]] + RemoveFirst(xs[1..], x)
  }

  lemma {:induction false} RemoveFirstCounts(xs: seq<GroupRole>, x: GroupRole)
    requires x in xs
    ensures multiset(RemoveFirst(xs, x)) == multiset(xs) - multiset{x}
    decreases |xs|
  {
    assert xs == [xs[0]] + xs[1..];
    if xs[0] != x {
      RemoveFirstCounts(xs[1..], x);
    }
  }

  /** The users of a batch (none when it is null), as the frame of the
      operations that give users their default roles. */
  function Batch(os: Option<seq<User?>>): seq<User?>
  {
    if os.Some? then os.value else []
  }

  /** The `i`-th user of a batch appears nowhere else in it. */
  predicate Once(batch: seq<User?>, i: int)
  {
    && 0 <= i < |batch|
    && forall k :: 0 <= k < |batch| && k != i ==> batch[k] != batch[i]
  }

  /** A batch with no null user, as a sequence of users. */
  function Users(batch: seq<User?>): (us: seq<User>)
    requires forall i :: 0 <= i < |batch| ==> batch[i] != null
    ensures |us| == |batch| && forall i :: 0 <= i < |batch| ==> us[i] == batch[i]
    decreases |batch|
  {
    if batch == [] then [] else Users(batch[..|batch| - 1]) + [batch[|batch| - 1]]
  }

  /** `base.AddOrUpdate` / `base.Update` of each user in turn: a user the
      store does not hold is appended, one it holds stays where it is. */
  function Upserted(us: seq<User>, batch: seq<User>): (r: seq<User>)
    ensures |us| <= |r| && r[..|us|] == us
    ensures forall i :: 0 <= i < |r| ==> r[i] in us || r[i] in batch
    ensures forall i :: 0 <= i < |batch| ==> batch[i] in r
    decreases |batch|
  {
    if batch == [] then us
    else
      var next := if batch[0] in us then us else us + [batch[0]];
      var r := Upserted(next, batch[1..]);
      assert r[..|us|] == r[..|next|][..|us|];
      assert batch[0] in r[..|next|];
      assert forall i :: 1 <= i < |batch| ==> batch[i] == batch[1..][i - 1];
      r
  }

  lemma SuffixCounts(xs: seq<GroupRole>, i: nat)
    requires i < |xs|
    ensures multiset(xs[i..]) == multiset{xs[i]} + multiset(xs[i + 1..])
  {
    assert xs[i..] == [xs[i]] + xs[i + 1..];
  }

  /** One step of the guest path of `Find`: when the role or group `x`
      resolves to the stored row `stored`, the first occurrence of `x` is
      removed and the stored row appended; otherwise nothing changes. */
  function Replaced(current: seq<GroupRole>, x: GroupRole, stored: Option<GroupRole>): seq<GroupRole>
  {
    if stored.Some? then RemoveFirst(current, x) + [stored.value] else current
  }

  /** `Replaced` trades one occurrence of `x` for the stored row. */
  lemma ReplacedCounts(current: seq<GroupRole>, x: GroupRole, stored: Option<GroupRole>,
                       done: seq<GroupRole>, rest: seq<GroupRole>)
    requires multiset(current) == multiset(done) + (multiset{x} + multiset(rest))
    ensures multiset(Replaced(current, x, stored))
            == multiset(done + [if stored.Some? then stored.value else x]) + multiset(rest)
  {
    if stored.Some? {
      assert x in current by {
        assert multiset(current)[x] > 0;
      }
      RemoveFirstCounts(current, x);
    }
  }

  /** A step of `ReplaceWithStored` keeps its loop invariant: the list
      holds the resolved rows seen so far and the rows still to visit. */
  lemma ReplaceStep(items: seq<GroupRole>, store: seq<GroupRole>, i: nat, current: seq<GroupRole>)
    requires i < |items|
    requires ResolveEach(items[..i], store).Ok?
    requires multiset(current) == multiset(ResolveEach(items[..i], store).value) + multiset(items[i..])
    requires GetByName(store, items[i].externalId).Ok?
    ensures ResolveEach(items[..i + 1], store).Ok?
    ensures multiset(Replaced(current, items[i], GetByName(store, items[i].externalId).value))
            == multiset(ResolveEach(items[..i + 1], store).value) + multiset(items[i + 1..])
  {
    var x := items[i];
    ResolveStep(items, store, i);
    SuffixCounts(items, i);
    ReplacedCounts(current, x, GetByName(store, x.externalId).value,
                   ResolveEach(items[..i], store).value, items[i + 1..]);
  }

  /** The loop of the guest path of `Find` over one list: each role or
      group whose name resolves in `store` is removed and the stored one
      appended; the others stay. A lookup that throws ends the loop. */
  method ReplaceWithStored(items: seq<GroupRole>, store: seq<GroupRole>)
    returns (current: seq<GroupRole>, r: Outcome)
    ensures var res := ResolveEach(items, store);
      && (res.Ok? ==> r == Pass && multiset(current) == multiset(res.value))
      && (res.Err? ==> r == Fail(MultipleMatches))
  {
    current := items;
    var i := 0;
    assert items[..0] == [];
    while i < |items|
      invariant 0 <= i <= |items|
      invariant ResolveEach(items[..i], store).Ok?
      invariant multiset(current) == multiset(ResolveEach(items[..i], store).value) + multiset(items[i..])
    {
      var found := GetByName(store, items[i].externalId);
      if found.Err? {
        return current, Fail(found.error);
      }
      ReplaceStep(items, store, i, current);
      current := Replaced(current, items[i], found.value);
      i := i + 1;
    }
    assert items[..i] == items;
    return current, Pass;
  }

  class UserRepository {
    /** The role store, for the default roles and the LoggedIn role. */
    const roleRepository: RoleRepository
    /** The group store, for the default groups. */
    const groupRepository: GroupRepository
    /** `Users.Guest`: the one guest user object. */
    const guest: User
    /** `Roles.LoggedIn`: the role every signed-in user is given. */
    const loggedIn: GroupRole
    /** The library's `User.HasRole`, on the user's roles. */
    const hasRole: (seq<GroupRole>, GroupRole) -> bool
    /** The library's `User.AddRole`, on the user's roles. */
    const addRole: (seq<GroupRole>, GroupRole) -> seq<GroupRole>
    /** The saved users, in store order. */
    var users: seq<User>

    constructor (roleRepository: RoleRepository, groupRepository: GroupRepository, guest: User,
                 loggedIn: GroupRole, hasRole: (seq<GroupRole>, GroupRole) -> bool,
                 addRole: (seq<GroupRole>, GroupRole) -> seq<GroupRole>, users: seq<User>)
      ensures this.roleRepository == roleRepository && this.groupRepository == groupRepository
      ensures this.guest == guest && this.loggedIn == loggedIn
      ensures this.hasRole == hasRole && this.addRole == addRole && this.users == users
    {
      this.roleRepository := roleRepository;
      this.groupRepository := groupRepository;
      this.guest := guest;
      this.loggedIn := loggedIn;
      this.hasRole := hasRole;
      this.addRole := addRole;
      this.users := users;
    }

    /** The roles `AddDefaults` leaves a user with login `externalId` and
        roles `roles` holding, or the exception it throws. */
    function DefaultRoles(externalId: string, roles: seq<GroupRole>): Result<seq<GroupRole>>
      reads roleRepository
    {
      if externalId == guest.externalId || hasRole(roles, loggedIn) then Ok(roles)
      else
        match GetByName(roleRepository.roles, loggedIn.externalId)
        case Err(e) => Err(e)
        case Ok(None) => Err(NullReference)
        case Ok(Some(stored)) => Ok(addRole(roles, stored))
    }

    /** The role store holds exactly one role named as the LoggedIn
        role. */
    predicate LoggedInStored()
      reads roleRepository
    {
      var found := GetByName(roleRepository.roles, loggedIn.externalId);
      found.Ok? && found.value.Some?
    }

    /** What `AddDefaults` promises, with the library's role operations
        taken to be the stand-ins `HoldsRole` and `AddRoleOnce`: a user
        other than the guest comes out holding the LoggedIn role; no role
        is lost; a second application changes nothing; and it throws
        exactly when the role is needed but the role store has no single
        role of that name. */
    lemma DefaultRolesProperties(externalId: string, roles: seq<GroupRole>)
      requires forall rs, x :: hasRole(rs, x) == HoldsRole(rs, x)
      requires forall rs, x :: addRole(rs, x) == AddRoleOnce(rs, x)
      ensures var d := DefaultRoles(externalId, roles);
        && (d.Ok? && externalId != guest.externalId ==> HoldsRole(d.value, loggedIn))
        && (d.Ok? ==> forall x :: x in roles ==> x in d.value)
        && (d.Ok? ==> DefaultRoles(externalId, d.value) == d)
      ensures DefaultRoles(externalId, roles).Err? <==>
                externalId != guest.externalId && !HoldsRole(roles, loggedIn) && !LoggedInStored()
    {
      var d := DefaultRoles(externalId, roles);
      if d.Ok? && externalId != guest.externalId && !HoldsRole(roles, loggedIn) {
        var stored := GetByName(roleRepository.roles, loggedIn.externalId).value.value;
        assert d.value == roles + [stored];
        assert d.value[|roles|].externalId == loggedIn.externalId;
      }
    }

    /** `AddDefaults(User)`: give a user other than the guest who lacks
        the LoggedIn role the stored LoggedIn role; a null user, or a
        missing stored role, throws `NullReferenceException`. */
    method AddDefaults(entity: User?) returns (r: Outcome)
      modifies entity
      ensures entity == null ==> r == Fail(NullReference)
      ensures entity != null ==>
        var d := DefaultRoles(entity.externalId, old(entity.roles));
        && (d.Ok? ==> r == Pass && entity.roles == d.value)
        && (d.Err? ==> r == Fail(d.error) && entity.roles == old(entity.roles))
      ensures entity != null ==> entity.groups == old(entity.groups) && entity.enabled == old(entity.enabled)
    {
      if entity == null {
        return Fail(NullReference);
      }
      if entity.externalId != guest.externalId && !hasRole(entity.roles, loggedIn) {
        var stored := GetByName(roleRepository.roles, loggedIn.externalId);
        if stored.Err? {
          return Fail(stored.error);
        }
        if stored.value.None? {
          return Fail(NullReference);
        }
        entity.roles := addRole(entity.roles, stored.value.value);
      }
      return Pass;
    }

    /** `AddDefaults(IEnumerable<User>)`: `AddDefaults` on each user in
        turn, stopping at the first that throws. */
    method AddDefaultsEach(batch: seq<User?>) returns (r: Outcome)
      modifies batch
      ensures r.Pass? ==> forall i :: 0 <= i < |batch| ==> batch[i] != null
      ensures r.Pass? ==> forall i :: 0 <= i < |batch| && Once(batch, i) ==>
                DefaultRoles(batch[i].externalId, old(batch[i].roles)) == Ok(batch[i].roles)
      ensures r.Fail? ==> (exists i :: 0 <= i < |batch| && batch[i] == null) || !LoggedInStored()
      ensures forall i :: 0 <= i < |batch| && batch[i] != null ==>
                batch[i].groups == old(batch[i].groups) && batch[i].enabled == old(batch[i].enabled)
    {
      var i := 0;
      while i < |batch|
        invariant 0 <= i <= |batch|
        invariant forall j :: 0 <= j < i ==> batch[j] != null
        invariant forall j :: 0 <= j < i && Once(batch, j) ==>
                    DefaultRoles(batch[j].externalId, old(batch[j].roles)) == Ok(batch[j].roles)
        invariant forall j :: i <= j < |batch| && Once(batch, j) && batch[j] != null ==>
                    batch[j].roles == old(batch[j].roles)
        invariant forall j :: 0 <= j < |batch| && batch[j] != null ==>
                    batch[j].groups == old(batch[j].groups) && batch[j].enabled == old(batch[j].enabled)
      {
        r := AddDefaults(batch[i]);
        if r.Fail? {
          return;
        }
        i := i + 1;
      }
      return Pass;
    }

    /** `base.AddOrUpdate` / `base.Update`: append a user the store does
        not hold. */
    method Upsert(u: User)
      modifies this`users
      ensures users == if u in old(users) then old(users) else old(users) + [u]
    {
      if u !in users {
        users := users + [u];
      }
    }

    /** `AcceptMessage(Creating<User>)`: the user being created receives
        every default role and every default group, in store order, and
        is enabled. */
    method AcceptMessage(target: User)
      modifies target
      ensures target.roles == old(target.roles) + GetDefaults(roleRepository.roles)
      ensures target.groups == old(target.groups) + GetDefaults(groupRepository.groups)
      ensures forall x :: x in roleRepository.roles && x.isDefault ==> x in target.roles
      ensures forall x :: x in groupRepository.groups && x.isDefault ==> x in target.groups
      ensures target.enabled
    {
      var defaultRoles := GetDefaults(roleRepository.roles);
      var i := 0;
      while i < |defaultRoles|
        invariant 0 <= i <= |defaultRoles|
        invariant target.roles == old(target.roles) + defaultRoles[..i]
        invariant target.groups == old(target.groups)
      {
        assert defaultRoles[..i + 1] == defaultRoles[..i] + [defaultRoles[i]];
        target.roles := target.roles + [defaultRoles[i]];
        i := i + 1;
      }
      assert defaultRoles[..i] == defaultRoles;
      var defaultGroups := GetDefaults(groupRepository.groups);
      i := 0;
      while i < |defaultGroups|
        invariant 0 <= i <= |defaultGroups|
        invariant target.roles == old(target.roles) + defaultRoles
        invariant target.groups == old(target.groups) + defaultGroups[..i]
      {
        assert defaultGroups[..i + 1] == defaultGroups[..i] + [defaultGroups[i]];
        target.groups := target.groups + [defaultGroups[i]];
        i := i + 1;
      }
      assert defaultGroups[..i] == defaultGroups;
      target.enabled := true;
    }

    /** `Add(User)`: `AddDefaults`, then add the user to the store. */
    method Add(o: User?) returns (r: Outcome)
      modifies this`users, o
      ensures o == null ==> r == Fail(NullReference) && users == old(users)
      ensures o != null ==>
        var d := DefaultRoles(o.externalId, old(o.roles));
        && (d.Ok? ==> r == Pass && o.roles == d.value && users == old(users) + [o])
        && (d.Err? ==> r == Fail(d.error) && o.roles == old(o.roles) && users == old(users))
      ensures o != null ==> o.groups == old(o.groups) && o.enabled == old(o.enabled)
    {
      r := AddDefaults(o);
      if r.Fail? {
        return;
      }
      users := users + [o];
    }

    /** `AddOrUpdate(User)`: `AddDefaults`, then add the user unless the
        store holds it. */
    method AddOrUpdate(o: User?) returns (r: Outcome)
      modifies this`users, o
      ensures o == null ==> r == Fail(NullReference) && users == old(users)
      ensures o != null ==>
        var d := DefaultRoles(o.externalId, old(o.roles));
        && (d.Ok? ==> r == Pass && o.roles == d.value && users == if o in old(users) then old(users) else old(users) + [o])
        && (d.Err? ==> r == Fail(d.error) && o.roles == old(o.roles) && users == old(users))
      ensures o != null ==> o.groups == old(o.groups) && o.enabled == old(o.enabled)
    {
      r := AddDefaults(o);
      if r.Fail? {
        return;
      }
      Upsert(o);
    }

    /** `Update(User)`: `AddDefaults`, then the persistence layer's
        update, which adds the user unless the store holds it. */
    method Update(o: User?) returns (r: Outcome)
      modifies this`users, o
      ensures o == null ==> r == Fail(NullReference) && users == old(users)
      ensures o != null ==>
        var d := DefaultRoles(o.externalId, old(o.roles));
        && (d.Ok? ==> r == Pass && o.roles == d.value && users == if o in old(users) then old(users) else old(users) + [o])
        && (d.Err? ==> r == Fail(d.error) && o.roles == old(o.roles) && users == old(users))
      ensures o != null ==> o.groups == old(o.groups) && o.enabled == old(o.enabled)
    {
      r := AddDefaults(o);
      if r.Fail? {
        return;
      }
      Upsert(o);
    }

    /** `AddRange(IEnumerable<User>)`: reject a null batch; give every
        user its defaults; then add them all. */
    method AddRange(os: Option<seq<User?>>) returns (r: Outcome)
      modifies this`users, Batch(os)
      ensures os.None? ==> r == Fail(ArgumentNull) && users == old(users)
      ensures os.Some? && r.Pass? ==>
        && (forall i :: 0 <= i < |os.value| ==> os.value[i] != null)
        && users == old(users) + Users(os.value)
        && forall i :: 0 <= i < |os.value| && Once(os.value, i) ==>
             DefaultRoles(os.value[i].externalId, old(os.value[i].roles)) == Ok(os.value[i].roles)
      ensures r.Fail? ==> users == old(users)
      ensures r.Fail? ==>
        os.None? || (exists i :: 0 <= i < |os.value| && os.value[i] == null) || !LoggedInStored()
      ensures forall i :: 0 <= i < |Batch(os)| && Batch(os)[i] != null ==>
        Batch(os)[i].groups == old(Batch(os)[i].groups) && Batch(os)[i].enabled == old(Batch(os)[i].enabled)
    {
      if os.None? {
        return Fail(ArgumentNull);
      }
      r := AddDefaultsEach(os.value);
      if r.Fail? {
        return;
      }
      users := users + Users(os.value);
    }

    /** `UpdateRange(IEnumerable<User>)`: reject a null batch; give every
        user its defaults; then update them all. */
    method UpdateRange(os: Option<seq<User?>>) returns (r: Outcome)
      modifies this`users, Batch(os)
      ensures os.None? ==> r == Fail(ArgumentNull) && users == old(users)
      ensures os.Some? && r.Pass? ==>
        && (forall i :: 0 <= i < |os.value| ==> os.value[i] != null)
        && users == Upserted(old(users), Users(os.value))
        && forall i :: 0 <= i < |os.value| && Once(os.value, i) ==>
             DefaultRoles(os.value[i].externalId, old(os.value[i].roles)) == Ok(os.value[i].roles)
      ensures r.Fail? ==> users == old(users)
      ensures r.Fail? ==>
        os.None? || (exists i :: 0 <= i < |os.value| && os.value[i] == null) || !LoggedInStored()
      ensures forall i :: 0 <= i < |Batch(os)| && Batch(os)[i] != null ==>
        Batch(os)[i].groups == old(Batch(os)[i].groups) && Batch(os)[i].enabled == old(Batch(os)[i].enabled)
    {
      if os.None? {
        return Fail(ArgumentNull);
      }
      r := AddDefaultsEach(os.value);
      if r.Fail? {
        return;
      }
      users := Upserted(users, Users(os.value));
    }

    /** `AddOrUpdateRange(IEnumerable<User>)`: as `UpdateRange`. */
    method AddOrUpdateRange(os: Option<seq<User?>>) returns (r: Outcome)
      modifies this`users, Batch(os)
      ensures os.None? ==> r == Fail(ArgumentNull) && users == old(users)
      ensures os.Some? && r.Pass? ==>
        && (forall i :: 0 <= i < |os.value| ==> os.value[i] != null)
        && users == Upserted(old(users), Users(os.value))
        && forall i :: 0 <= i < |os.value| && Once(os.value, i) ==>
             DefaultRoles(os.value[i].externalId, old(os.value[i].roles)) == Ok(os.value[i].roles)
      ensures r.Fail? ==> users == old(users)
      ensures r.Fail? ==>
        os.None? || (exists i :: 0 <= i < |os.value| && os.value[i] == null) || !LoggedInStored()
      ensures forall i :: 0 <= i < |Batch(os)| && Batch(os)[i] != null ==>
        Batch(os)[i].groups == old(Batch(os)[i].groups) && Batch(os)[i].enabled == old(Batch(os)[i].enabled)
    {
      if os.None? {
        return Fail(ArgumentNull);
      }
      r := AddDefaultsEach(os.value);
      if r.Fail? {
        return;
      }
      users := Upserted(users, Users(os.value));
    }

    /** `Find(int)`: the first user with storage id `userId`; the guest,
        with its roles and groups re-bound to the stored ones, when
        `userId` is 0 or no user has it. */
    method Find(userId: int) returns (r: Result<User>)
      modifies guest
      ensures userId != 0 && (exists i :: 0 <= i < |users| && users[i].id == userId) ==>
        && r.Ok? && r.value.id == userId && unchanged(guest)
        && exists i :: 0 <= i < |users| && users[i] == r.value && forall j :: 0 <= j < i ==> users[j].id != userId
      ensures userId == 0 || (forall i :: 0 <= i < |users| ==> users[i].id != userId) ==>
        var rs := ResolveEach(old(guest.roles), roleRepository.roles);
        var gs := ResolveEach(old(guest.groups), groupRepository.groups);
        && (rs.Err? || gs.Err? ==> r == Err(MultipleMatches))
        && (rs.Ok? && gs.Ok? ==>
              && r == Ok(guest)
              && multiset(guest.roles) == multiset(rs.value)
              && multiset(guest.groups) == multiset(gs.value))
      ensures guest.enabled == old(guest.enabled)
    {
      var n := FirstIndex(users, (u: User) => u.id == userId);
      if userId == 0 || n == |users| {
        var roles, rolesOk := ReplaceWithStored(guest.roles, roleRepository.roles);
        guest.roles := roles;
        if rolesOk.Fail? {
          return Err(rolesOk.error);
        }
        var groups, groupsOk := ReplaceWithStored(guest.groups, groupRepository.groups);
        guest.groups := groups;
        if groupsOk.Fail? {
          return Err(groupsOk.error);
        }
        return Ok(guest);
      }
      return Ok(users[n]);
    }

    /** `GetByEmail(email)`: the first user with that e-mail, or none. */
    function GetByEmail(email: string): (r: Option<User>)
      reads this
      ensures r.None? <==> forall i :: 0 <= i < |users| ==> users[i].email != email
      ensures r.Some? ==> exists i :: 0 <= i < |users| && users[i] == r.value && users[i].email == email
                            && forall j :: 0 <= j < i ==> users[j].email != email
    {
      var n := FirstIndex(users, (u: User) => u.email == email);
      if n < |users| then Some(users[n]) else None
    }

    /** `GetByLogin(login)`: the first user with that login, or none. */
    function GetByLogin(login: string): (r: Option<User>)
      reads this
      ensures r.None? <==> forall i :: 0 <= i < |users| ==> users[i].externalId != login
      ensures r.Some? ==> exists i :: 0 <= i < |users| && users[i] == r.value && users[i].externalId == login
                            && forall j :: 0 <= j < i ==> users[j].externalId != login
    {
      var n := FirstIndex(users, (u: User) => u.externalId == login);
      if n < |users| then Some(users[n]) else None
    }

    /** `GetByLoginPassword(login, password)`: the first user with that
        login and that stored password, or none. */
    function GetByLoginPassword(login: string, password: string): (r: Option<User>)
      reads this
      ensures r.None? <==> forall i :: 0 <= i < |users| ==> !(users[i].externalId == login && users[i].password == password)
      ensures r.Some? ==> exists i :: 0 <= i < |users| && users[i] == r.value
                            && users[i].externalId == login && users[i].password == password
                            && forall j :: 0 <= j < i ==> !(users[j].externalId == login && users[j].password == password)
    {
      var n := FirstIndex(users, (u: User) => u.externalId == login && u.password == password);
      if n < |users| then Some(users[n]) else None
    }
  }
}
