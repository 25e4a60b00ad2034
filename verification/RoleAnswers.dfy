/** What Grants answers for a role, in terms of the base roles, the listed roles and the remote data alone. */
module RoleAnswers {
  import opened GoResult
  import opened Strconv
  import opened Sequences
  import opened Models
  import opened Privileges
  import opened CollaboratorCache
  import opened CollaboratorLookups
  import opened RoleCache
  import opened GrantRuns
  import opened RoleBuilder

  // ---------- Base roles ----------

  /** `b` is the first base role with the name. */
  ghost predicate FirstNamed(baseRoles: seq<BaseRole>, name: string, b: int) {
    && 0 <= b < |baseRoles| && baseRoles[b].roleName == name
    && forall j :: 0 <= j < b ==> baseRoles[j].roleName != name
  }

  ghost predicate NoneNamed(baseRoles: seq<BaseRole>, name: string) {
    forall b :: 0 <= b < |baseRoles| ==> baseRoles[b].roleName != name
  }

  lemma {:induction false} NamedBaseRole(baseRoles: seq<BaseRole>, name: string, b: int)
    requires FirstNamed(baseRoles, name, b)
    ensures FindBaseRole(baseRoles, name) == Some(baseRoles[b])
  {
    if b == 0 {
    } else {
      assert forall j :: 0 <= j < |baseRoles| - 1 ==> baseRoles[1..][j] == baseRoles[j + 1];
      NamedBaseRole(baseRoles[1..], name, b - 1);
    }
  }

  /** A base role is found if and only if one has the name. */
  lemma {:induction false} BaseRoleFoundIff(baseRoles: seq<BaseRole>, name: string)
    ensures FindBaseRole(baseRoles, name).None? <==> NoneNamed(baseRoles, name)
  {
    if baseRoles == [] {
    } else {
      BaseRoleFoundIff(baseRoles[1..], name);
      assert forall j :: 0 <= j < |baseRoles| - 1 ==> baseRoles[1..][j] == baseRoles[j + 1];
      if NoneNamed(baseRoles[1..], name) && baseRoles[0].roleName != name {
        forall b | 0 <= b < |baseRoles| ensures baseRoles[b].roleName != name {
          assert b > 0 ==> baseRoles[b] == baseRoles[1..][b - 1];
        }
      }
    }
  }

  /** From `k` on the grants are the privileges in order, marked immutable; before it none is of a privilege. */
  ghost predicate EndsWithPrivileges(grants: seq<RoleGrant>, k: nat, privileges: seq<CompoundPrivilege>) {
    && |grants| == k + |privileges|
    && (forall i :: 0 <= i < k ==> grants[i].CollaboratorHas?)
    && forall j :: 0 <= j < |privileges| ==>
         grants[k + j] == PrivilegeHas(privileges[j].resource + "-" + privileges[j].privilege.id, true)
  }

  lemma MembershipsAreOfCollaborators(users: seq<CompoundUser>, name: string)
    ensures forall i :: 0 <= i < |Memberships(users, name)| ==> Memberships(users, name)[i].CollaboratorHas?
  {
    MembershipsMeaning(users, name);
    forall i | 0 <= i < |Memberships(users, name)| ensures Memberships(users, name)[i].CollaboratorHas? {
      assert Memberships(users, name)[i] in Memberships(users, name);
    }
  }

  lemma MembershipsThenPrivileges(memberships: seq<RoleGrant>, privileges: seq<CompoundPrivilege>)
    requires forall i :: 0 <= i < |memberships| ==> memberships[i].CollaboratorHas?
    ensures EndsWithPrivileges(memberships + PrivilegeGrants(privileges, true), |memberships|, privileges)
  {
    var k, rest := |memberships|, PrivilegeGrants(privileges, true);
    forall j | 0 <= j < |privileges|
      ensures (memberships + rest)[k + j] ==
              PrivilegeHas(privileges[j].resource + "-" + privileges[j].privilege.id, true)
    {
      assert (memberships + rest)[k + j] == rest[j] == PrivilegeHas(privileges[j].Id(), true);
    }
  }

  /**
   A resource named like a base role is always answered, and with the privileges of the first
   base role of that name: all of them, in order, marked immutable, and no other privilege.
   */
  lemma BaseRoleAnswer(builder: RoleBuilder, resource: Resource, b: int, grants: seq<RoleGrant>, error: Option<Error>)
    requires FirstNamed(builder.baseRoles, resource.displayName, b)
    requires builder.GrantsAnswer(resource, grants, error)
    ensures error == None
    ensures exists k :: EndsWithPrivileges(grants, k, builder.baseRoles[b].privileges)
  {
    var name := resource.displayName;
    NamedBaseRole(builder.baseRoles, name, b);
    var users :| Enumerates(users, builder.cache.EntriesOf(RoleKey(name))) &&
      builder.Completes(resource, Memberships(users, name), grants, error);
    MembershipsAreOfCollaborators(users, name);
    MembershipsThenPrivileges(Memberships(users, name), builder.baseRoles[b].privileges);
  }

  // ---------- Custom roles ----------

  /** A known id of a listed resource resolves to an entry of that resource with that id. */
  lemma KnownResolves(catalogue: Catalogue, request: Request, group: string, privilege: string)
    requires AllKnown(catalogue, request)
    requires group in request && privilege in request[group]
    ensures exists x :: Multiplicity(catalogue, request, x) > 0 && x.resource == group && x.privilege.id == privilege
  {
    ResolveMeaning(catalogue, group, privilege);
    var x := Resolve(catalogue, group, privilege).value;
    LookupMeaning(catalogue[group], privilege);
    CountIsMultiplicity(request[group], privilege);
    assert x.resource == group && x.privilege.id == privilege && Multiplicity(catalogue, request, x) > 0;
  }

  /** When everything requested is known, the resolved ids are the joined names of the requested pairs. */
  lemma ResolvedIds(builder: RoleBuilder, request: Request, privileges: seq<CompoundPrivilege>, id: string)
    requires AllKnown(builder.catalogue, request) && builder.Resolves(request, privileges)
    ensures (exists x :: x in privileges && x.Id() == id) <==>
            exists g, p :: g in request && p in request[g] && id == g + "-" + p
  {
    forall x | x in privileges && x.Id() == id
      ensures exists g, p :: g in request && p in request[g] && id == g + "-" + p
    {
      ResolvedIsListed(builder.catalogue, request, x);
      assert id == x.resource + "-" + x.privilege.id;
    }
    forall g, p | g in request && p in request[g] && id == g + "-" + p
      ensures exists x :: x in privileges && x.Id() == id
    {
      KnownResolves(builder.catalogue, request, g, p);
      var x :| Multiplicity(builder.catalogue, request, x) > 0 && x.resource == g && x.privilege.id == p;
      assert multiset(privileges)[x] > 0;
      assert x in privileges && x.Id() == id;
    }
  }

  /**
   A listed role with a distinct id and no base role of its name is answered, when it is, with
   a privilege for exactly each pair it lists, the id joining the two names by a hyphen, and
   none of them marked immutable.
   */
  lemma CustomRoleAnswer(builder: RoleBuilder, list: seq<Role>, i: nat, grants: seq<RoleGrant>, id: string)
    requires builder.roleCache.IndexedBy(list) && i < |list| && DistinctRoleIds(list)
    requires NoneNamed(builder.baseRoles, list[i].name)
    requires builder.GrantsAnswer(Resource(list[i].name, Itoa(list[i].id)), grants, None)
    ensures PrivilegeHas(id, false) in grants <==>
            exists g, p :: g in list[i].privileges && p in list[i].privileges[g] && id == g + "-" + p
    ensures PrivilegeHas(id, true) !in grants
  {
    var resource := RoleResource(list[i]);
    BaseRoleFoundIff(builder.baseRoles, list[i].name);
    var users :| Enumerates(users, builder.cache.EntriesOf(RoleKey(resource.displayName))) &&
      builder.Completes(resource, Memberships(users, resource.displayName), grants, None);
    FetchedRoleIsFound(list, i);
    assert builder.roleCache.ById(resource.id) == LastRole(list, Itoa(list[i].id));
    var privileges :| builder.Resolves(list[i].privileges, privileges) &&
      grants == Memberships(users, resource.displayName) + PrivilegeGrants(privileges, false);
    NoPrivilegeInMemberships(users, resource.displayName, id, false);
    NoPrivilegeInMemberships(users, resource.displayName, id, true);
    PrivilegeGrantsMeaning(privileges, false, id, false);
    PrivilegeGrantsMeaning(privileges, false, id, true);
    ResolvedIds(builder, list[i].privileges, privileges, id);
  }

  /**
   The errors: a resource named like no base role is "not found" if and only if no role has
   its id, and then no privilege is answered; and it fails with nothing at all if and only if
   the role with its id lists a pair that is not in the catalogue.
   */
  lemma ErrorAnswer(builder: RoleBuilder, list: seq<Role>, resource: Resource, grants: seq<RoleGrant>,
                    error: Option<Error>)
    requires builder.roleCache.IndexedBy(list) && DistinctRoleIds(list)
    requires NoneNamed(builder.baseRoles, resource.displayName)
    requires builder.GrantsAnswer(resource, grants, error)
    ensures error == Some(RoleNotFound) <==> forall i :: 0 <= i < |list| ==> Itoa(list[i].id) != resource.id
    ensures error == Some(RoleNotFound) ==> forall i :: 0 <= i < |grants| ==> grants[i].CollaboratorHas?
    ensures error == Some(InvalidResource) || error == Some(PrivilegeNotFound) <==>
            exists i, g, p :: && 0 <= i < |list| && Itoa(list[i].id) == resource.id
                              && g in list[i].privileges && p in list[i].privileges[g]
                              && !Known(builder.catalogue, g, p)
    ensures error == Some(InvalidResource) || error == Some(PrivilegeNotFound) ==> grants == []
    ensures error in {None, Some(RoleNotFound), Some(InvalidResource), Some(PrivilegeNotFound)}
  {
    var name := resource.displayName;
    BaseRoleFoundIff(builder.baseRoles, name);
    var users :| Enumerates(users, builder.cache.EntriesOf(RoleKey(name))) &&
      builder.Completes(resource, Memberships(users, name), grants, error);
    MembershipsAreOfCollaborators(users, name);
    LastRoleMeaning(list, resource.id);
    assert builder.roleCache.ById(resource.id) == LastRole(list, resource.id);
    forall i | 0 <= i < |list| && Itoa(list[i].id) == resource.id
      ensures builder.roleCache.ById(resource.id) == Some(list[i])
    {
      FetchedRoleIsFound(list, i);
    }
  }

  // ---------- Collaborators ----------

  /** The collaborators an answer after a build goes over, and how it goes on from their membership grants. */
  lemma AnswerUsers(builder: RoleBuilder, resource: Resource, grants: seq<RoleGrant>, error: Option<Error>)
    returns (users: seq<CompoundUser>)
    requires builder.Valid() && builder.cache.IndexedBy(Users(builder.client.remote))
    requires BuildError(builder.client.remote).None? && DistinctMembers(builder.client.remote.members.value)
    requires builder.GrantsAnswer(resource, grants, error)
    ensures DistinctIds(AllUsers(builder.client.remote)) && DistinctIds(users)
    ensures forall u :: u in users <==>
                        && u in AllUsers(builder.client.remote)
                        && RoleKey(resource.displayName) in KeysOf(builder.env, u)
    ensures builder.Completes(resource, Memberships(users, resource.displayName), grants, error)
  {
    users :| Enumerates(users, builder.cache.EntriesOf(RoleKey(resource.displayName))) &&
      builder.Completes(resource, Memberships(users, resource.displayName), grants, error);
    LookupAfterBuild(builder.cache, RoleKey(resource.displayName), users);
  }

  /**
   The collaborators in an answer, whatever its privileges: a listed user that holds the name
   in the configured environment is granted once per listed row with the name, with that
   row's environment; a user that does not, and an id that is not listed, is not granted.
   */
  lemma MembersOfAnswer(builder: RoleBuilder, resource: Resource, grants: seq<RoleGrant>, error: Option<Error>,
                        u: CompoundUser, environment: string)
    requires builder.Valid() && builder.cache.IndexedBy(Users(builder.client.remote))
    requires BuildError(builder.client.remote).None? && DistinctMembers(builder.client.remote.members.value)
    requires builder.GrantsAnswer(resource, grants, error) && (error.None? || error == Some(RoleNotFound))
    requires u in AllUsers(builder.client.remote)
    ensures multiset(grants)[CollaboratorHas(u.user.id, environment)] ==
            if SimpleRole(builder.env, resource.displayName) in u.user.roles
            then multiset(u.user.roles)[SimpleRole(environment, resource.displayName)] else 0
  {
    var name := resource.displayName;
    var users := AnswerUsers(builder, resource, grants, error);
    FolderAndRoleKeys(builder.env, u, 0, name);
    CompletionKeepsCounts(builder, resource, Memberships(users, name), grants, error, u.user.id, environment);
    MembershipsCountOf(builder.env, AllUsers(builder.client.remote), users, u, name, environment);
  }

  lemma MembershipsCountOf(env: string, all: seq<CompoundUser>, found: seq<CompoundUser>, u: CompoundUser,
                           name: string, environment: string)
    requires DistinctIds(all) && DistinctIds(found) && u in all
    requires forall v :: v in found <==> v in all && RoleKey(name) in KeysOf(env, v)
    ensures multiset(Memberships(found, name))[CollaboratorHas(u.user.id, environment)] ==
            if RoleKey(name) in KeysOf(env, u) then multiset(u.user.roles)[SimpleRole(environment, name)] else 0
  {
    if RoleKey(name) in KeysOf(env, u) {
      MembershipsCount(found, name, u, environment);
    } else {
      forall v: CompoundUser | v in found ensures v.user.id != u.user.id {
        if v.user.id == u.user.id {
          SameIdSameUser(all, u, v);
        }
      }
      NoMembershipOf(found, name, u.user.id, environment);
    }
  }

  lemma CompletionKeepsCounts(builder: RoleBuilder, resource: Resource, memberships: seq<RoleGrant>,
                              grants: seq<RoleGrant>, error: Option<Error>, id: int, environment: string)
    requires builder.Completes(resource, memberships, grants, error) && (error.None? || error == Some(RoleNotFound))
    ensures multiset(grants)[CollaboratorHas(id, environment)] ==
            multiset(memberships)[CollaboratorHas(id, environment)]
  {
    var rest := grants[|memberships|..];
    assert grants == memberships + rest;
    assert CollaboratorHas(id, environment) !in rest;
  }

  /** Nobody who is not listed is granted. */
  lemma StrangersAreNotInAnswer(builder: RoleBuilder, resource: Resource, grants: seq<RoleGrant>, error: Option<Error>,
                                id: int, environment: string)
    requires builder.Valid() && builder.cache.IndexedBy(Users(builder.client.remote))
    requires BuildError(builder.client.remote).None? && DistinctMembers(builder.client.remote.members.value)
    requires builder.GrantsAnswer(resource, grants, error)
    requires forall c :: c in builder.client.remote.members.value ==> c.id != id
    ensures CollaboratorHas(id, environment) !in grants
  {
    var name := resource.displayName;
    var users := AnswerUsers(builder, resource, grants, error);
    MembershipsMeaning(users, name);
    BuildSucceedsIff(builder.client.remote);
    forall u: CompoundUser | u in users ensures u.user.id != id {
      var all := AllUsers(builder.client.remote);
      var i :| 0 <= i < |all| && all[i] == u;
      assert builder.client.remote.members.value[i] in builder.client.remote.members.value;
    }
    if error.None? || error == Some(RoleNotFound) {
      CompletionKeepsMembers(builder, resource, Memberships(users, name), grants, error, id, environment);
    }
  }

  /** With one role per environment and user, no pair of collaborator and environment repeats in an answer. */
  lemma AnswerDoesNotRepeat(builder: RoleBuilder, resource: Resource, grants: seq<RoleGrant>, error: Option<Error>,
                            u: CompoundUser, environment: string)
    requires builder.Valid() && builder.cache.IndexedBy(Users(builder.client.remote))
    requires BuildError(builder.client.remote).None? && DistinctMembers(builder.client.remote.members.value)
    requires builder.GrantsAnswer(resource, grants, error)
    requires u in AllUsers(builder.client.remote) && DistinctEnvironments(u.user.roles)
    ensures multiset(grants)[CollaboratorHas(u.user.id, environment)] <= 1
  {
    if error.None? || error == Some(RoleNotFound) {
      MembersOfAnswer(builder, resource, grants, error, u, environment);
      DistinctCount(u.user.roles, SimpleRole(environment, resource.displayName));
    }
  }
}
