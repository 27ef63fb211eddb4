# Penguin.Cms.Security.Repositories in Dafny

This project models the security repositories of the Penguin CMS:

- **Entity permissions.** The store of permission records (which security groups may access an entity, and how) lives in
  `EntityPermissionsRepository`. It has three parts:
  - A per-instance cache of the records it created.
  - The consolidation that every read by entity runs. After concurrent first grants an entity can have several records;
    the first one absorbs the grants of the later ones, and the later ones are deleted.
  - Grant, add, update and access checks built on that read.
- **Users.** `UserRepository`, the user store:
  - It gives every signed-in user the LoggedIn role on each write.
  - It gives a user being created every default role and group, and enables them.
  - `Find` falls back to the shared guest user and re-binds the guest's roles and groups to the stored rows.
  - It has first-match lookups by e-mail, login and login with password.
- **Roles and groups.** `GroupRoleRepository`, `RoleRepository` and `GroupRepository` hold roles and groups. They offer
  lookup by name with `SingleOrDefault` semantics, the list of defaults, get-or-create and, for roles, an existence test.

How the files map to the model:

| file | module | contents |
|---|---|---|
| `types.dfy` | `Types` | Guids, `Option`, `Result`, `Outcome` and the exceptions as error values. |
| `grants.dfy` | `Grants` | A record's grant list, permission bits as sets of bit positions, and an OR-merge stand-in for the library's record operations, with its lemmas. |
| `entity_permissions.dfy` | `EntityPermissionStore` | `EntityPermissions` records and the repository, both classes. |
| `group_roles.dfy` | `GroupRoles` | Roles and groups as values; `GetByName` and `GetDefaults` over a store. |
| `roles.dfy`, `groups.dfy` | `RoleStore`, `GroupStore` | The role and group repositories, as classes. |
| `entity_scenarios.dfy` | `EntityPermissionScenarios` | Sequences of repository calls on one entity: a repeated query, and two grants followed by a query. |
| `users.dfy` | `UserStore` | `User` and `UserRepository`, as classes. |

How the model represents the system:

- **Stores and records.** Each store is a sequence field, in the order a query returns rows. Records and users are
  objects, changed in place as the code changes them. The entity-permission cache is a map from Guid to record.
- **Exceptions** are `Err`/`Fail` results, and they come back at the point where the code throws:
  - `ArgumentNullException` becomes `ArgumentNull`.
  - The empty-Guid exception becomes `EmptyGuidRejected`.
  - `SingleOrDefault`'s `InvalidOperationException` becomes `MultipleMatches`.
  - `NullReferenceException` becomes `NullReference`.
- **Calls into code that is not part of this model** are constructor parameters:
  - the library's `EntityPermissions.AddPermission` and `AllowsAccessType`;
  - `SecurityGroupRepository.Find`;
  - `User.HasRole` and `User.AddRole`;
  - `Users.Guest` and `Roles.LoggedIn`.

  Every contract holds for any such parameter. Separate lemmas prove further properties under stand-ins that are
  labelled as ASSUMPTIONS: `OrMerge`/`StandInAllows`, and `HoldsRole`/`AddRoleOnce`.
- **Random values.** The Guid a new role or group draws at random is a parameter.

## Model

| member | source | states |
|---|---|---|
| `GroupRoles.NamedMembers` | GroupRoleRepository.cs:32 | Every row the name filter keeps is a stored row with that name. |
| `GroupRoles.NamedEmpty` | GroupRoleRepository.cs:32 | The name filter is empty exactly when no stored row has the name. |
| `GroupRoles.NamedSeveral` | GroupRoleRepository.cs:32 | The name filter keeps two or more rows exactly when two different positions of the store hold the name. |
| `GroupRoles.GetByName` | GroupRoleRepository.cs:32 | Three exclusive outcomes, each stated in both directions. (1) No row when none has the name. (2) `MultipleMatches` exactly when two rows have it. (3) Otherwise a stored row with that name, equal to every row with that name. |
| `GroupRoles.GetByNameAfterAppend` | RoleRepository.cs:30-42 | After a row whose name no stored row has is added, the lookup by that name finds exactly that row. |
| `GroupRoles.GetDefaults` | GroupRoleRepository.cs:38 | Every row returned is a stored default, and every stored default is returned. |
| `GroupRoles.GetDefaultsInOrder` | GroupRoleRepository.cs:38 | The defaults come back as a subsequence of the store, so store order is kept. |
| `GroupRoles.GetDefaultsCounts` | GroupRoleRepository.cs:38 | Each default row comes back as many times as the store holds it; no other row comes back. |
| `RoleStore.RoleRepository.CreateIfNotExists` | RoleRepository.cs:28-46 | Several roles with the name: `MultipleMatches`, store unchanged. No role with it: a new role (given name, description and source, `System` by default; not a default role) is appended once and returned. One role with it: that role, store unchanged. On success the name afterwards resolves to the returned role. |
| `RoleStore.RoleRepository.Exists` | RoleRepository.cs:53 | True exactly when some stored role has the name. |
| `RoleStore.RoleRepository.ExistsAgreesWithGetByName` | RoleRepository.cs:53 | `Exists` is true exactly when `GetByName` does not come back empty. With unique names, it is true exactly when `GetByName` finds a role. |
| `RoleStore.CreateTwice` | RoleRepository.cs:28-46 | Get-or-create is idempotent. A second call with the same name returns what the first returned and adds nothing. Over both calls, at most the one new role is added. |
| `GroupStore.GroupRepository.CreateIfNotExists` | GroupRepository.cs:28-45 | As for roles, with a new `Group` (given name and description). A found group keeps its own description. |
| `Grants.FoldGrantsAppend` | EntityPermissionsRepository.cs:235-238 | Adding the grants of two lists one after another equals adding the first list, then the second. |
| `Grants.OrMergeEffective` | EntityPermissionsRepository.cs:131 | Stand-in (ASSUMPTION): merging a grant adds its bits for exactly the members of its group, and changes nothing for anyone else. |
| `Grants.OrMergeKeepsUnique` | EntityPermissionsRepository.cs:131 | Stand-in: merging keeps at most one grant per group. |
| `Grants.OrMergeGroups` | EntityPermissionsRepository.cs:131 | Stand-in: a merged list names only the groups it named before, plus the merged one. |
| `Grants.OrMergeAbsorbs` | EntityPermissionsRepository.cs:131 | Stand-in: two grants to one group merge as one grant of the union of their bits. |
| `Grants.OrMergeIdempotent` | EntityPermissionsRepository.cs:131 | Stand-in: granting the same bits to the same group twice is granting them once. |
| `Grants.EffectiveAppend` | EntityPermissionsRepository.cs:227-241 | The bits a list of grants gives a set of groups are the union over its parts. |
| `Grants.FoldOrMergeEffective` | EntityPermissionsRepository.cs:227-241 | Stand-in: folding grants into a record loses no bit and invents none. |
| `Grants.FoldOrMergeKeepsUnique` | EntityPermissionsRepository.cs:227-241 | Stand-in: folding grants keeps at most one grant per group. |
| `Grants.EffectiveHasMember` | EntityPermissionsRepository.cs:160-172 | A grant to one of a user's groups gives the user all of its bits. |
| `Grants.NoGrantLost` | EntityPermissionsRepository.cs:227-241 | Stand-in: after folding, every grant held by the record or by the folded list still gives its bits to its group's members. |
| `Grants.EffectiveMonotone` | EntityPermissionsRepository.cs:160-172 | More groups never means fewer granted bits. |
| `Grants.StandInAllowsMonotone` | EntityPermissionsRepository.cs:160-172 | Stand-in: a user gaining groups never loses access. |
| `Grants.StandInNoGrantDenies` | EntityPermissionsRepository.cs:160-172 | Stand-in: a record without grants allows only the empty request. |
| `Grants.AdditiveGrantsExample` | EntityPermissionsRepository.cs:125-131 | Stand-in, worked example. Bit 0 is granted to G1 and bit 1 to G2. A member of both may ask for both bits; a member of G1 alone may ask for bit 0 only. |
| `EntityPermissionStore.MatchesAfterConsolidation` | EntityPermissionsRepository.cs:220-243 | Deleting every record of the entity but the first leaves exactly that first record for it. |
| `EntityPermissionStore.SettlesAfterStore` | EntityPermissionsRepository.cs:49-61 | Whichever way `Add` or `Update` stores a valid record, its entity ends settled: it has at most one saved record, an added one when none was saved, and keeps an added one it had. |
| `EntityPermissionStore.FirstUnresolved` | EntityPermissionsRepository.cs:57-59 | The first grant whose group the group store cannot find, after all of whose predecessors it can. |
| `EntityPermissionStore.Rebind` | EntityPermissionsRepository.cs:105 | Each grant of the list with its group replaced by the group store's copy, and the same bits. |
| `EntityPermissionStore.EntityPermissionsRepository.ConsolidationKeepsAccess` | EntityPermissionsRepository.cs:227-241 | Stand-in: consolidating duplicate records keeps access. Every set of groups is granted, on the surviving record, exactly the bits the first record and the deleted duplicates granted it. |
| `EntityPermissionStore.EntityPermissionsRepository.AddEach` | EntityPermissionsRepository.cs:235-238 | The record's list afterwards is the library's `AddPermission` applied to it once per grant, in order. |
| `EntityPermissionStore.EntityPermissionsRepository.Absorb` | EntityPermissionsRepository.cs:229-240 | One duplicate's list is cleared and its grants are added to the first record. Every other duplicate is unchanged. |
| `EntityPermissionStore.EntityPermissionsRepository.MergeDuplicates` | EntityPermissionsRepository.cs:227-241 | The first record ends holding its own grants with all duplicates' grants added in store order. Every duplicate ends empty. |
| `EntityPermissionStore.EntityPermissionsRepository.GetForEntity` | EntityPermissionsRepository.cs:211-246 | No record for the entity: null, nothing changes. Otherwise it returns the first record, now holding the consolidated grants, and the later records are emptied and deleted. Afterwards the entity has exactly the returned record. Records of other entities are untouched, and the store invariant is kept. |
| `EntityPermissionStore.EntityPermissionsRepository.AddPermission` | EntityPermissionsRepository.cs:98-134 | Null group: `ArgumentNull`, nothing changes. Otherwise, after consolidation, the grant goes to the record found, else to the cached one, else to a fresh record that is cached and added. An empty Guid is not rejected. A group the group store does not know fails with `GroupNotFound` after consolidation and before anything else changes. Whenever a group is given, the entity's later duplicates end with empty lists. When a stored record is found, no record outside the entity's old matches changes its list. Records of other entities are untouched. |
| `EntityPermissionStore.EntityPermissionsRepository.Locate` | EntityPermissionsRepository.cs:107-116 | The record granted on is the consolidated first record, else the cached one, else none. It comes from the store or the cache and belongs to the entity. The entity's later duplicates end with empty lists. |
| `EntityPermissionStore.EntityPermissionsRepository.CreateRecord` | EntityPermissionsRepository.cs:118-127 | A fresh record for the entity, with the grant added to an empty list, is cached under the entity and added. |
| `EntityPermissionStore.EntityPermissionsRepository.GrantExisting` | EntityPermissionsRepository.cs:129-133 | The record gets the grant; it is added unless a table holds it already. |
| `EntityPermissionStore.EntityPermissionsRepository.Add` | EntityPermissionsRepository.cs:37-62 | Null: `ArgumentNull`. Empty Guid: `EmptyGuidRejected`. Neither changes anything. No record for the entity: a fresh copy with the same Guid and list is added. Otherwise each grant is added to the consolidated record with its group resolved; the first unknown group stops the loop with `GroupNotFound`, the only error a valid record can meet. The entity's later duplicates end with empty lists, and no record outside the entity's old saved records changes its list: not the cached record, nor the given record when only the cache or the added table holds it. Other entities' records are untouched, and nothing new enters the saved table. |
| `EntityPermissionStore.EntityPermissionsRepository.AddGrants` | EntityPermissionsRepository.cs:57-60 | The record ends as its old list with every grant before the first unresolved one added, rebound to the group store's copy. The outcome is `Pass` exactly when every group resolves, and `GroupNotFound` otherwise. No record other than the one granted on changes its list. |
| `EntityPermissionStore.EntityPermissionsRepository.Update` | EntityPermissionsRepository.cs:252-274 | Null and empty-Guid errors as for `Add`, with nothing changed. No record for the entity: a fresh copy is added. Otherwise the consolidated record takes the given list wholesale, and the later duplicates end with empty lists. When the given record is itself one of those duplicates, its list was emptied by the consolidation first, so the surviving record ends with no grants. Other entities' records are untouched, and nothing new enters the saved table. |
| `EntityPermissionStore.EntityPermissionsRepository.AddOrUpdate` | EntityPermissionsRepository.cs:68 | Everything `Update` states: the same errors with nothing changed, the same new store, added records and lists, the emptied duplicates, the same frame on other entities' records, and nothing new in the saved table. |
| `EntityPermissionStore.EntityPermissionsRepository.AddStep` | EntityPermissionsRepository.cs:147-150 | One `Add` of a batch. A rejected record gives its error and changes nothing; an accepted one can fail only with `GroupNotFound`. Its entity ends with at most one saved record, and with an added record when none was saved. Other entities' records are untouched, and nothing new enters the saved table. |
| `EntityPermissionStore.EntityPermissionsRepository.AddAt` | EntityPermissionsRepository.cs:147-150 | One pass of the `AddRange` loop. A failure other than `GroupNotFound` happens exactly at the first rejected record. A pass leaves every entity named so far settled. Entities not named so far keep their records. |
| `EntityPermissionStore.EntityPermissionsRepository.AddRange` | EntityPermissionsRepository.cs:140-151 | Null batch: `ArgumentNull`, nothing changes. A batch with a null record or an empty Guid fails. Any failure other than `GroupNotFound` is the error of the first such record. On success every entity the batch names has at most one saved record, and an added one when it had none saved. Entities the batch does not name keep their records, and nothing new enters the saved table. |
| `EntityPermissionStore.EntityPermissionsRepository.UpdateStep` | EntityPermissionsRepository.cs:287-290 | One `Update` of a batch. A rejected record gives its error and changes nothing; an accepted one passes. Its entity ends with at most one saved record, and with an added record when none was saved. Other entities' records are untouched, and nothing new enters the saved table. |
| `EntityPermissionStore.EntityPermissionsRepository.UpdateAt` | EntityPermissionsRepository.cs:287-290 | One pass of the `UpdateRange` loop. It fails exactly at the first rejected record, with that record's error. A pass leaves every entity named so far settled. Entities not named so far keep their records. |
| `EntityPermissionStore.EntityPermissionsRepository.UpdateRange` | EntityPermissionsRepository.cs:280-291 | Null batch: `ArgumentNull`, nothing changes. Otherwise the outcome is `Pass` exactly when every record is non-null with a non-empty Guid, and else the error of the first record that is not. On success every entity the batch names has at most one saved record, and an added one when it had none saved. Entities the batch does not name keep their records, and nothing new enters the saved table. |
| `EntityPermissionStore.EntityPermissionsRepository.AddOrUpdateRange` | EntityPermissionsRepository.cs:74 | Everything `UpdateRange` states, including that a null batch changes nothing. |
| `EntityPermissionStore.EntityPermissionsRepository.AllowsAccessType` | EntityPermissionsRepository.cs:160-172 | No record for the entity: denied, nothing changes. Otherwise the library's answer on the consolidated grants. The consolidation runs: later duplicates are emptied and deleted, the first record holds the consolidated grants, and the entity is left with exactly that record. Other entities' records are untouched. |
| `EntityPermissionStore.EntityPermissionsRepository.AddPermissionToEntity` | EntityPermissionsRepository.cs:82-90 | Null entity: `ArgumentNull`, nothing changes. Otherwise the `AddPermission` outcome for the entity's Guid. Only that entity's records change. |
| `EntityPermissionStore.EntityPermissionsRepository.AllowsAccessTypeForEntity` | EntityPermissionsRepository.cs:181-189 | Null entity: `ArgumentNull`, nothing changes. Otherwise the `AllowsAccessType` answer for the entity's Guid, with the consolidation it runs: later duplicates emptied and deleted, the first record holding the consolidated grants, the entity left with exactly that record, other entities' records untouched. |
| `EntityPermissionStore.EntityPermissionsRepository.GetForEntityObject` | EntityPermissionsRepository.cs:196-204 | Null entity: `ArgumentNull`, nothing changes. Otherwise the consolidated first record for the entity's Guid, or null when it has none. Later duplicates are emptied and deleted, and the entity is left with exactly the returned record. Other entities' records are untouched. |
| `EntityPermissionScenarios.ConsolidateTwice` | EntityPermissionsRepository.cs:211-246 | Consolidation is idempotent. A second query returns the record the first returned and deletes nothing more. That record holds the consolidated grants, and the entity is left with exactly that record. |
| `EntityPermissionScenarios.GrantTwiceSaved` | EntityPermissionsRepository.cs:98-134 | Two grants on an entity with saved records, then a query. The query returns the entity's first saved record, now its only one. That record holds the consolidated grants with the first grant and then the second added. Each grant's outcome depends only on whether its group resolves. |
| `EntityPermissionScenarios.FirstGrantsTwice` | EntityPermissionsRepository.cs:107-127 | Two first grants on an entity with no saved record and no cached one. When either group resolves, exactly one new record is added and cached, holding both grants in order. When neither resolves, nothing is added or cached. |
| `EntityPermissionScenarios.SaveThenQuery` | EntityPermissionsRepository.cs:211-222 | After a save, an entity whose only record in either table was one record gets that record from the query, with its list unchanged. An entity with none gets null. |
| `EntityPermissionScenarios.GrantTwiceFresh` | EntityPermissionsRepository.cs:98-134 | Two first grants on an entity no table holds and the cache lacks, a save, then a query. When either group resolves, the query returns the one record created for the entity, holding both grants in order, as the entity's only saved record. When neither resolves, the query finds nothing. |
| `UserStore.FirstIndex` | UserRepository.cs:161-182 | `FirstOrDefault`: the position of the first user satisfying the test. Every user before it fails the test; the one at it passes. |
| `UserStore.ResolveEach` | UserRepository.cs:121-148 | The guest's lists re-bound. Each entry is kept when its name is not stored, and replaced by the stored row of that name otherwise. It fails with `MultipleMatches` exactly when some entry's name is stored twice. |
| `UserStore.RemoveFirstCounts` | UserRepository.cs:131-132 | `List.Remove` takes out exactly one occurrence of the entry. |
| `UserStore.ReplaceWithStored` | UserRepository.cs:125-146 | The guest loop leaves the list with exactly the entries of the re-bound list, counted with multiplicity. When a lookup throws, it fails with `MultipleMatches`. |
| `UserStore.Upserted` | UserRepository.cs:96 | The persistence layer's update of a batch keeps every stored user in place, adds every batch user, and adds nobody else. |
| `UserStore.UserRepository.DefaultRolesProperties` | UserRepository.cs:217-232 | With the stand-in `HasRole`/`AddRole`, four properties. (1) A user other than the guest ends up holding the LoggedIn role. (2) No role is lost. (3) A second application changes nothing. (4) It throws exactly when the role is needed but the role store lacks a single LoggedIn role. |
| `UserStore.UserRepository.AddDefaults` | UserRepository.cs:217-232 | Null user: `NullReference`. The guest, or a user already holding LoggedIn, is unchanged. Otherwise the user gets the stored LoggedIn role. Missing: `NullReference`; ambiguous: `MultipleMatches`. The user's groups and enabled flag are unchanged. |
| `UserStore.UserRepository.AddDefaultsEach` | UserRepository.cs:209-215 | On success every user was non-null, and every user that occurs once got its default roles. A failure means a null user, or a role store without exactly one LoggedIn role. Groups and enabled flags are unchanged. |
| `UserStore.UserRepository.AcceptMessage` | UserRepository.cs:45-62 | The user being created gets every default role appended, then every default group, both in store order, and is enabled. |
| `UserStore.UserRepository.Add` | UserRepository.cs:68-72 | Defaults first. On success the user is appended with its default roles. On failure nothing is added and the user's roles are unchanged. The user's groups and enabled flag are unchanged either way. |
| `UserStore.UserRepository.AddOrUpdate` | UserRepository.cs:78-82 | Defaults first. On success the user is stored, appended only if not stored already. On failure nothing changes. The user's groups and enabled flag are unchanged either way. |
| `UserStore.UserRepository.Update` | UserRepository.cs:188-192 | As `AddOrUpdate`. |
| `UserStore.UserRepository.AddRange` | UserRepository.cs:103-112 | Null batch: `ArgumentNull`. Defaults for every user, then all are appended in order. A failure adds nothing, and means a null batch, a null user, or a role store without exactly one LoggedIn role. No user's groups or enabled flag change. |
| `UserStore.UserRepository.UpdateRange` | UserRepository.cs:198-207 | Null batch: `ArgumentNull`. Defaults for every user, then each is stored unless already stored. A failure adds nothing, and means a null batch, a null user, or a role store without exactly one LoggedIn role. No user's groups or enabled flag change. |
| `UserStore.UserRepository.AddOrUpdateRange` | UserRepository.cs:88-97 | As `UpdateRange`, with the same failure causes and the same frame on groups and enabled flags. |
| `UserStore.UserRepository.Find` | UserRepository.cs:119-154 | A non-zero id some user has: the first such user; the guest is untouched. Otherwise the guest, with its roles and groups re-bound to the stored rows, unresolved ones kept. A lookup that throws gives `MultipleMatches`. |
| `UserStore.UserRepository.GetByEmail` | UserRepository.cs:161 | None exactly when no user has the e-mail; otherwise the first user that has it. |
| `UserStore.UserRepository.GetByLogin` | UserRepository.cs:168-171 | None exactly when no user has the login; otherwise the first user that has it. |
| `UserStore.UserRepository.GetByLoginPassword` | UserRepository.cs:179-182 | None exactly when no user has both the login and the password; otherwise the first user that has both. |

## Left out

- `EntityPermissionStore.EntityPermissionsRepository.AddRange`, `UpdateRange` and `AddOrUpdateRange` do not state
  the grant lists that the named entities' records end with. Those lists are the per-element `Add` and `Update`
  contracts, composed in batch order. The composition is not stated, because batch elements may alias one another
  or name the same entity. For `AddRange`, a `GroupNotFound` failure is not tied to the record whose grant caused it.
- `EntityPermissionStore.EntityPermissionsRepository.Add` does not model two exceptions the code can throw. (1) A
  grant whose group is null makes `AddPermission` throw `ArgumentNullException`; here a grant always names a group,
  so that case cannot arise. (2) When `o` is itself the record the query returns, the loop enumerates `o.Permissions`
  while `AddPermission` may add to that same list, and a list's enumerator throws once its list has been changed.
  The model loops over the list as it was before the loop, so it describes that case as completing normally.
- `EntityPermissionStore.EntityPermissionsRepository.AddPermissionToEntity` states the outcome and the frame only. Its
  effect on the record is the one `AddPermission` states for the entity's Guid.
- `UserStore.UserRepository.AddDefaultsEach` (and so the user `AddRange`, `UpdateRange` and `AddOrUpdateRange`) states
  the new roles only for users that occur once in the batch. A user listed twice gets `AddDefaults` twice.
- `UserStore.UserRepository.Find` states the guest's lists only as multisets; the code's order (a removal, then an
  append at the end) is not stated. On a lookup that throws, the guest is left part-way through the loop, and the
  contract does not describe that partial state.
- The library's `EntityPermissions.AddPermission` and `AllowsAccessType`, and `User.HasRole` and `User.AddRole`, are
  outside the repository and are parameters. `OrMerge`, `StandInAllows`, `HoldsRole` and `AddRoleOnce` are assumed
  stand-ins for them, used only by the lemmas that name them.
- When `SecurityGroupRepository.Find` returns null, the library's `AddPermission` is assumed to throw. This is modelled
  as `GroupNotFound`, after consolidation has run and before anything else changes.
- A role's or group's `Name` is taken to be its `ExternalId`, the key `GetByName` compares.
- `PermissionTypes` is a 32-bit `[Flags]` value. It is modelled as the set of its 1 bits, so OR is union.
- `ShallowClone` is a fresh record with the same Guid and the same grant list. The copy shares nothing with the original
  here; whether the source shares the list is not part of this model.
- `Update` sets `existing.Permissions = o.Permissions`, which shares one list object between the two records. The model
  copies the list value instead, so later in-place changes through `o` are not reflected.
- Persistence, write contexts and transactions are not modelled. Added records wait in a unit of work (`pending`) that
  queries do not see until `SaveChanges`. The consolidation's deletions are applied together after its loop, and its
  `Find(_Id)` re-read is taken to return the same tracked record.
- The user, role and group stores make an add visible at once; they have no unit of work. Their base `Update` and
  `AddOrUpdate` are modelled as "append unless stored". The entity store differs because its behaviour depends on
  the delay: two first grants to one entity each see no saved record and each add one, and that is how the duplicates
  the consolidation removes arise. No single role, group or user operation reads back a row it has
  just added, so those stores are modelled as if each write is saved when its call ends. Across calls this is an
  assumption: `RoleStore.CreateTwice` describes a second call made after the first call's role was saved.
- Message-bus plumbing (`base.AcceptMessage`) is not modelled. The message is reduced to its target, which is non-null
  by type.
- `SecurityGroupRepository.cs` and `ProfileRepository.cs` are not part of this model.
- Not modelled: password hashing (passwords are compared as stored strings), concurrency between repository instances,
  a group's `Source`, and role and group fields other than Guid, name, description and the default flag.
- `Users.Guest` is one shared user object given to the repository; `Roles.LoggedIn` is a role value given to it.
- The Guid a new role or group draws at random is a parameter.
