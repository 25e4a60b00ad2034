/** Roles: the paged listing, the grants of one role, and the Grant call. */
module RoleBuilder {
  import opened GoResult
  import opened Strconv
  import opened Sequences
  import opened Models
  import opened Paging
  import opened Client
  import opened Privileges
  import opened CollaboratorCache
  import opened CollaboratorLookups
  import opened RoleCache
  import opened GrantRuns

  datatype Resource = Resource(displayName: string, id: string)

  datatype BaseRole = BaseRole(roleName: string, privileges: seq<CompoundPrivilege>)

  datatype RoleGrant =
    | CollaboratorHas(collaborator: int, environment: string)
    | PrivilegeHas(privilegeId: string, immutable: bool)

  /** The SDK prints a numeric id in decimal. */
  function RoleResource(role: Role): Resource {
    Resource(role.name, Itoa(role.id))
  }

  function RoleResources(roles: seq<Role>): (r: seq<Resource>)
    ensures |r| == |roles| && forall i :: 0 <= i < |roles| ==> r[i] == RoleResource(roles[i])
  {
    seq(|roles|, i requires 0 <= i < |roles| => RoleResource(roles[i]))
  }

  function BaseResources(roles: seq<BaseRole>): (r: seq<Resource>)
    ensures |r| == |roles| && forall i :: 0 <= i < |roles| ==> r[i] == Resource(roles[i].roleName, roles[i].roleName)
  {
    seq(|roles|, i requires 0 <= i < |roles| => Resource(roles[i].roleName, roles[i].roleName))
  }

  /** One page of a listing: the page's roles, then all base roles. */
  function ListedPage(page: seq<Role>, baseRoles: seq<BaseRole>): seq<Resource> {
    RoleResources(page) + BaseResources(baseRoles)
  }

  function FindBaseRole(baseRoles: seq<BaseRole>, name: string): Option<BaseRole> {
    if baseRoles == [] then None
    else if baseRoles[0].roleName == name then Some(baseRoles[0])
    else FindBaseRole(baseRoles[1..], name)
  }

  /** One grant per row of a collaborator's listed roles with the given name, in any environment. */
  function MembershipsOf(u: CompoundUser, roles: seq<SimpleRole>, name: string): seq<RoleGrant> {
    if roles == [] then []
    else
      var last := roles[|roles| - 1];
      MembershipsOf(u, roles[..|roles| - 1], name) +
      if last.roleName == name then [CollaboratorHas(u.user.id, last.environmentType)] else []
  }

  function Memberships(users: seq<CompoundUser>, name: string): seq<RoleGrant> {
    if users == [] then []
    else
      var last := users[|users| - 1];
      Memberships(users[..|users| - 1], name) + MembershipsOf(last, last.user.roles, name)
  }

  function PrivilegeGrants(privileges: seq<CompoundPrivilege>, immutable: bool): (grants: seq<RoleGrant>)
    ensures |grants| == |privileges| &&
            forall i :: 0 <= i < |privileges| ==> grants[i] == PrivilegeHas(privileges[i].Id(), immutable)
  {
    seq(|privileges|, i requires 0 <= i < |privileges| => PrivilegeHas(privileges[i].Id(), immutable))
  }

  class RoleBuilder {
    const client: WorkatoClient
    const cache: CollaboratorCache
    const roleCache: RoleCache
    const env: string
    const baseRoles: seq<BaseRole>
    const catalogue: Catalogue

    ghost predicate Valid()
      reads this, cache
    {
      && cache.client == client && roleCache.client == client && cache.env == env
      && cache.Valid()
    }

    constructor (client: WorkatoClient, env: string, baseRoles: seq<BaseRole>, catalogue: Catalogue)
      ensures Valid() && fresh(cache) && fresh(roleCache)
      ensures this.client == client && this.env == env && this.baseRoles == baseRoles && this.catalogue == catalogue
    {
      this.client := client;
      this.env := env;
      this.baseRoles := baseRoles;
      this.catalogue := catalogue;
      cache := new CollaboratorCache(client, env);
      roleCache := new RoleCache(client);
    }

    // ---------- Listing ----------

    ghost function CacheObjects(): set<object>
      reads this, cache
    {
      {cache, roleCache, cache.privilegeToUser, cache.folderToUser, cache.roleToUser}
    }

    /** Both caches hold what a full build from the server finds. */
    ghost predicate Built(last: nat)
      reads this, client, CacheObjects()
    {
      Valid() && Indexed(last)
    }

    ghost predicate Indexed(last: nat)
      reads this, client, CacheObjects()
    {
      && cache.IndexedBy(Users(client.remote))
      && roleCache.IndexedBy(Fetched(client.rolePages, last + 1))
    }

    /** The part of List under the empty token. */
    method BuildCaches(ghost last: nat) returns (error: Option<Error>)
      requires Valid() && StopsAt(client.rolePages, client.pageLimit, last)
      modifies cache, roleCache, client`askedRolePages
      ensures Valid()
      ensures error == if BuildError(client.remote).Some? then BuildError(client.remote)
                       else if client.rolePages(last).Err? then Some(client.rolePages(last).error) else None
      ensures cache.IndexedBy(Users(client.remote))
      ensures if BuildError(client.remote).Some? then unchanged(roleCache)
              else roleCache.IndexedBy(Fetched(client.rolePages, last + 1))
      ensures client.askedRolePages ==
              old(client.askedRolePages) + if BuildError(client.remote).None? then UpTo(last + 1) else []
    {
      error := cache.BuildCache();
      if error.None? {
        error := roleCache.BuildCache(last);
      }
    }

    /** One page of the listing; under the empty token both caches are built first. */
    method List(token: string, ghost last: nat) returns (r: Result<(seq<Resource>, string)>)
      requires Valid() && StopsAt(client.rolePages, client.pageLimit, last)
      modifies cache, roleCache, client`askedRolePages
      ensures Valid()
      ensures token != "" ==> unchanged(cache) && unchanged(roleCache)
      ensures token == "" && BuildError(client.remote).Some? ==> r == Err(BuildError(client.remote).value)
      ensures token == "" && BuildError(client.remote).None? && client.rolePages(last).Err? ==>
                r == Err(client.rolePages(last).error)
      ensures token == "" ==> cache.IndexedBy(Users(client.remote))
      ensures token == "" ==>
                if BuildError(client.remote).Some? then unchanged(roleCache)
                else roleCache.IndexedBy(Fetched(client.rolePages, last + 1))
      ensures token != "" || (BuildError(client.remote).None? && client.rolePages(last).Ok?) ==>
                var page := GetPage(client.rolePages, client.pageLimit, token);
                && r == (if page.Err? then Err(page.error) else Ok((ListedPage(page.value.0, baseRoles), page.value.1)))
                && client.askedRolePages == old(client.askedRolePages)
                   + (if token == "" then UpTo(last + 1) else [])
                   + if PageOfToken(token).Ok? then [PageOfToken(token).value] else []
    {
      if token == "" {
        var error := BuildCaches(last);
        if error.Some? {
          return Err(error.value);
        }
      }
      var page := client.GetRoles(token);
      if page.Err? {
        return Err(page.error);
      }
      var rv := Emit(page.value.0);
      r := Ok((rv, page.value.1));
    }

    /** The resources of one page: its roles in order, then the base roles. */
    method Emit(roles: seq<Role>) returns (rv: seq<Resource>)
      ensures rv == ListedPage(roles, baseRoles)
    {
      rv := [];
      for i := 0 to |roles|
        invariant rv == RoleResources(roles[..i])
      {
        rv := rv + [RoleResource(roles[i])];
      }
      for i := 0 to |baseRoles|
        invariant rv == RoleResources(roles) + BaseResources(baseRoles[..i])
      {
        rv := rv + [Resource(baseRoles[i].roleName, baseRoles[i].roleName)];
      }
      assert baseRoles[..|baseRoles|] == baseRoles;
    }

    /**
     The sync driver's listing run. It lists every page once and in order, or, when a build
     or a page fails, nothing at all.
     */
    method ListAll(ghost last: nat) returns (pages: seq<seq<Resource>>, error: Option<Error>)
      requires Valid() && StopsAt(client.rolePages, client.pageLimit, last)
      modifies cache, roleCache, client`askedRolePages
      ensures Valid()
      ensures error == if BuildError(client.remote).Some? then BuildError(client.remote)
                       else if client.rolePages(last).Err? then Some(client.rolePages(last).error) else None
      ensures error.Some? ==> pages == []
      ensures error.None? ==> Built(last) && Listed(pages, last)
      ensures error.None? ==> client.askedRolePages == old(client.askedRolePages) + UpTo(last + 1) + UpTo(last + 1)
    {
      var page, token;
      page, token, error := ListFirst(last);
      if error.Some? {
        return [], error;
      }
      ListedNext([], page);
      assert [] + [page] == [page];
      UpToNext(old(client.askedRolePages) + UpTo(last + 1), 0);
      pages := ListRest(last, page, token, old(client.askedRolePages) + UpTo(last + 1));
    }

    /** The driver's loop after the first page. */
    method ListRest(ghost last: nat, first: seq<Resource>, token: string, ghost asked: seq<int>)
      returns (pages: seq<seq<Resource>>)
      requires Built(last) && StopsAt(client.rolePages, client.pageLimit, last) && client.rolePages(last).Ok?
      requires ListedSoFar([first]) && (token == "" <==> last == 0) && (token != "" ==> token == TokenOf(1))
      requires client.askedRolePages == asked + UpTo(1)
      modifies cache, roleCache, client`askedRolePages
      ensures Built(last) && Listed(pages, last)
      ensures client.askedRolePages == asked + UpTo(last + 1)
    {
      pages := [first];
      var next := token;
      while next != ""
        invariant 1 <= |pages| <= last + 1
        invariant next == "" <==> |pages| == last + 1
        invariant next != "" ==> next == TokenOf(|pages|)
        invariant Built(last) && Listed(pages, |pages| - 1)
        invariant client.askedRolePages == asked + UpTo(|pages|)
        decreases last + 1 - |pages|
      {
        UpToNext(asked, |pages|);
        var page;
        page, next := ListNext(next, last, |pages|);
        ListedNext(pages, page);
        pages := pages + [page];
      }
    }

    method ListFirst(ghost last: nat) returns (page: seq<Resource>, next: string, error: Option<Error>)
      requires Valid() && StopsAt(client.rolePages, client.pageLimit, last)
      modifies cache, roleCache, client`askedRolePages
      ensures Valid()
      ensures error == if BuildError(client.remote).Some? then BuildError(client.remote)
                       else if client.rolePages(last).Err? then Some(client.rolePages(last).error) else None
      ensures error.None? ==>
                && Built(last)
                && PageListed(page, 0)
                && (next == "" <==> last == 0)
                && (next != "" ==> next == TokenOf(1))
                && client.askedRolePages == old(client.askedRolePages) + UpTo(last + 1) + [0]
    {
      TokenChain(client.rolePages, client.pageLimit, last, 0);
      var r := List("", last);
      if r.Err? {
        return [], "", Some(r.error);
      }
      page, next, error := r.value.0, r.value.1, None;
    }

    method ListNext(token: string, ghost last: nat, ghost n: nat) returns (page: seq<Resource>, next: string)
      requires Built(last) && StopsAt(client.rolePages, client.pageLimit, last) && client.rolePages(last).Ok?
      requires 1 <= n <= last && token == TokenOf(n) && token != ""
      modifies cache, roleCache, client`askedRolePages
      ensures Built(last)
      ensures PageListed(page, n)
      ensures next == "" <==> n == last
      ensures next != "" ==> next == TokenOf(n + 1)
      ensures client.askedRolePages == old(client.askedRolePages) + [n]
    {
      TokenParses(n);
      TokenChain(client.rolePages, client.pageLimit, last, n);
      var r := List(token, last);
      page, next := r.value.0, r.value.1;
    }

    ghost predicate PageListed(page: seq<Resource>, n: int) {
      client.rolePages(n).Ok? && page == ListedPage(client.rolePages(n).value, baseRoles)
    }

    ghost predicate ListedSoFar(pages: seq<seq<Resource>>) {
      forall n :: 0 <= n < |pages| ==> PageListed(pages[n], n)
    }

    ghost predicate Listed(pages: seq<seq<Resource>>, last: nat) {
      |pages| == last + 1 && ListedSoFar(pages)
    }

    lemma ListedNext(pages: seq<seq<Resource>>, page: seq<Resource>)
      requires ListedSoFar(pages) && PageListed(page, |pages|)
      ensures ListedSoFar(pages + [page])
    {
    }

    // ---------- Grants of one role ----------

    method IsBaseRole(name: string) returns (yes: bool)
      ensures yes <==> FindBaseRole(baseRoles, name).Some?
    {
      for i := 0 to |baseRoles|
        invariant FindBaseRole(baseRoles, name) == FindBaseRole(baseRoles[i..], name)
      {
        if baseRoles[i].roleName == name {
          return true;
        }
        assert baseRoles[i..][1..] == baseRoles[i + 1..];
      }
      yes := false;
    }

    /** The collaborators with the role, whichever of their rows name it. */
    method MembershipPart(name: string) returns (rv: seq<RoleGrant>)
      requires Valid()
      ensures exists users :: Enumerates(users, cache.EntriesOf(RoleKey(name))) && rv == Memberships(users, name)
    {
      rv := [];
      var collaborators := cache.GetUsersByRole(name);
      for i := 0 to |collaborators|
        invariant rv == Memberships(collaborators[..i], name)
      {
        assert collaborators[..i + 1][..i] == collaborators[..i];
        var collaborator := collaborators[i];
        var roles := collaborator.user.roles;
        for j := 0 to |roles|
          invariant rv == Memberships(collaborators[..i], name) + MembershipsOf(collaborator, roles[..j], name)
        {
          assert roles[..j + 1][..j] == roles[..j];
          if roles[j].roleName == name {
            rv := rv + [CollaboratorHas(collaborator.user.id, roles[j].environmentType)];
          }
        }
        assert roles[..|roles|] == roles;
      }
      assert collaborators[..|collaborators|] == collaborators;
    }

    method PrivilegePart(privileges: seq<CompoundPrivilege>, immutable: bool) returns (rv: seq<RoleGrant>)
      ensures rv == PrivilegeGrants(privileges, immutable)
    {
      rv := [];
      for i := 0 to |privileges|
        invariant rv == PrivilegeGrants(privileges[..i], immutable)
      {
        rv := rv + [PrivilegeHas(privileges[i].Id(), immutable)];
      }
      assert privileges[..|privileges|] == privileges;
    }

    /** What may be answered for a resource whose membership grants are `memberships`. */
    ghost predicate Completes(resource: Resource, memberships: seq<RoleGrant>,
                              grants: seq<RoleGrant>, error: Option<Error>)
      reads this, roleCache
    {
      var base, custom := FindBaseRole(baseRoles, resource.displayName), roleCache.ById(resource.id);
      if base.Some? then
        error == None && grants == memberships + PrivilegeGrants(base.value.privileges, true)
      else if custom.None? then
        error == Some(RoleNotFound) && grants == memberships
      else if !AllKnown(catalogue, custom.value.privileges) then
        (error == Some(InvalidResource) || error == Some(PrivilegeNotFound)) && grants == []
      else
        && error == None
        && exists privileges ::
             && Resolves(custom.value.privileges, privileges)
             && grants == memberships + PrivilegeGrants(privileges, false)
    }

    ghost predicate Resolves(request: Request, privileges: seq<CompoundPrivilege>) {
      forall x :: multiset(privileges)[x] == Multiplicity(catalogue, request, x)
    }

    /** The grants of a role: its collaborators in the order of a map range, then its privileges. */
    ghost predicate GrantsAnswer(resource: Resource, grants: seq<RoleGrant>, error: Option<Error>)
      reads this, roleCache, cache, CacheObjects()
    {
      exists users ::
        && Enumerates(users, cache.EntriesOf(RoleKey(resource.displayName)))
        && Completes(resource, Memberships(users, resource.displayName), grants, error)
    }

    method Grants(resource: Resource) returns (grants: seq<RoleGrant>, error: Option<Error>)
      requires Valid()
      ensures GrantsAnswer(resource, grants, error)
    {
      var rv := MembershipPart(resource.displayName);
      grants, error := Complete(resource, rv);
    }

    method Complete(resource: Resource, rv: seq<RoleGrant>) returns (grants: seq<RoleGrant>, error: Option<Error>)
      ensures Completes(resource, rv, grants, error)
    {
      var isBase := IsBaseRole(resource.displayName);
      if isBase {
        var role := FindBaseRole(baseRoles, resource.displayName);
        var privilegeGrants := PrivilegePart(role.value.privileges, true);
        return rv + privilegeGrants, None;
      }
      var role := roleCache.GetRoleById(resource.id);
      if role.None? {
        return rv, Some(RoleNotFound);
      }
      var privileges := FindRelatedPrivilegesErr(catalogue, role.value.privileges);
      if privileges.Err? {
        return [], Some(privileges.error);
      }
      var privilegeGrants := PrivilegePart(privileges.value, false);
      assert Resolves(role.value.privileges, privileges.value);
      return rv + privilegeGrants, None;
    }

    // ---------- Granting ----------

    /** slices.IndexFunc with SimpleRole.Equals. */
    method IndexOfRole(roles: seq<SimpleRole>, role: SimpleRole) returns (index: int)
      ensures -1 <= index < |roles|
      ensures index >= 0 <==> role in roles
    {
      for i := 0 to |roles|
        invariant role !in roles[..i]
      {
        if roles[i].environmentType == role.environmentType && roles[i].roleName == role.roleName {
          return i;
        }
        assert roles[..i + 1] == roles[..i] + [roles[i]];
      }
      assert roles[..|roles|] == roles;
      index := -1;
    }

    method IndexOfEnvironment(roles: seq<SimpleRole>, environment: string) returns (index: int)
      ensures -1 <= index < |roles|
      ensures forall i :: 0 <= i < (if index < 0 then |roles| else index) ==> roles[i].environmentType != environment
      ensures index >= 0 ==> roles[index].environmentType == environment
    {
      for i := 0 to |roles|
        invariant forall j :: 0 <= j < i ==> roles[j].environmentType != environment
      {
        if roles[i].environmentType == environment {
          return i;
        }
      }
      index := -1;
    }

    /** toSimpleRole. */
    method SimpleRoles(rows: seq<CollaboratorPrivilege>) returns (roles: seq<SimpleRole>)
      ensures roles == ToSimple(rows)
    {
      roles := [];
      for i := 0 to |rows|
        invariant roles == ToSimple(rows[..i])
      {
        roles := roles + [rows[i].Simple()];
      }
      assert rows[..|rows|] == rows;
    }

    /**
     Grants this connector's environment's role `roleName` to a collaborator. `stored` and
     `reported` say what becomes of the update request. Does what `Step` does to the workspace.
     */
    method Grant(resourceType: string, resourceId: string, roleName: string, stored: bool, reported: bool)
      returns (outcome: Outcome)
      modifies client`remote
      ensures resourceType != "collaborator" ==>
                outcome == Failed(GrantNotImplemented) && client.remote == old(client.remote)
      ensures resourceType == "collaborator" ==>
                (client.remote, outcome) == Step(old(client.remote), Event(resourceId, env, roleName, stored, reported))
    {
      if resourceType != "collaborator" {
        return Failed(GrantNotImplemented);
      }
      var userId := Atoi(resourceId);
      if userId.Err? {
        return Failed(userId.error);
      }
      var collaborator := client.GetCollaboratorPrivileges(userId.value);
      if collaborator.Err? {
        return Failed(collaborator.error);
      }
      var roles := SimpleRoles(collaborator.value);
      var newRole := SimpleRole(env, roleName);
      var index := IndexOfRole(roles, newRole);
      if index >= 0 {
        return AlreadyExists;
      }
      var sameEnvIndex := IndexOfEnvironment(roles, env);
      AssignAt(roles, newRole, sameEnvIndex);
      if sameEnvIndex >= 0 {
        roles := roles[sameEnvIndex := newRole];
      } else {
        roles := roles + [newRole];
      }
      var error := client.UpdateCollaboratorRoles(userId.value, roles, stored, reported);
      if error.Some? {
        return Failed(error.value);
      }
      outcome := Written(userId.value, roles);
    }
  }

  // ---------- What a listing run emits ----------

  function CustomRoles(pages: seq<seq<Resource>>, baseRoles: seq<BaseRole>): seq<Resource>
    requires forall n :: 0 <= n < |pages| ==> |pages[n]| >= |baseRoles|
  {
    if pages == [] then []
    else
      var last := pages[|pages| - 1];
      CustomRoles(pages[..|pages| - 1], baseRoles) + last[..|last| - |baseRoles|]
  }

  predicate EndsWithBaseRoles(page: seq<Resource>, baseRoles: seq<BaseRole>)
    requires |page| >= |baseRoles|
  {
    page[|page| - |baseRoles|..] == BaseResources(baseRoles)
  }

  lemma PageParts(builder: RoleBuilder, page: seq<Resource>, n: int)
    requires builder.PageListed(page, n)
    ensures |page| >= |builder.baseRoles| && EndsWithBaseRoles(page, builder.baseRoles)
    ensures page[..|page| - |builder.baseRoles|] == RoleResources(builder.client.rolePages(n).value)
  {
  }

  lemma RoleResourcesConcat(a: seq<Role>, b: seq<Role>)
    ensures RoleResources(a + b) == RoleResources(a) + RoleResources(b)
  {
  }

  lemma {:induction false} CustomRolesAreFetched(builder: RoleBuilder, pages: seq<seq<Resource>>)
    requires builder.ListedSoFar(pages)
    requires forall n :: 0 <= n < |pages| ==> |pages[n]| >= |builder.baseRoles|
    ensures CustomRoles(pages, builder.baseRoles) == RoleResources(Fetched(builder.client.rolePages, |pages|))
  {
    if pages == [] {
    } else {
      var n := |pages| - 1;
      CustomRolesAreFetched(builder, pages[..n]);
      PageParts(builder, pages[n], n);
      RoleResourcesConcat(Fetched(builder.client.rolePages, n), builder.client.rolePages(n).value);
    }
  }

  /**
   Over a server that serves a fixed list of roles, a full listing run emits every role
   exactly once and in order, and the base roles at the end of each of its
   |list| / pageLimit + 1 pages.
   */
  lemma FullListing(builder: RoleBuilder, pages: seq<seq<Resource>>, list: seq<Role>, last: nat)
    requires builder.client.pageLimit >= 1 && |list| <= MAX_INT
    requires ServesList(builder.client.rolePages, builder.client.pageLimit, list)
    requires StopsAt(builder.client.rolePages, builder.client.pageLimit, last)
    requires builder.Listed(pages, last)
    ensures |pages| == |list| / builder.client.pageLimit + 1
    ensures forall n :: 0 <= n < |pages| ==>
                          |pages[n]| >= |builder.baseRoles| && EndsWithBaseRoles(pages[n], builder.baseRoles)
    ensures forall n, b :: 0 <= n < |pages| && 0 <= b < |builder.baseRoles| ==>
                             var name := builder.baseRoles[b].roleName;
                             pages[n][|pages[n]| - |builder.baseRoles| + b] == Resource(name, name)
    ensures CustomRoles(pages, builder.baseRoles) == RoleResources(list)
    ensures forall i :: 0 <= i < |list| ==>
                          CustomRoles(pages, builder.baseRoles)[i] == Resource(list[i].name, Itoa(list[i].id))
  {
    StableListStop(builder.client.rolePages, builder.client.pageLimit, list, last);
    forall n | 0 <= n < |pages|
      ensures |pages[n]| >= |builder.baseRoles| && EndsWithBaseRoles(pages[n], builder.baseRoles)
    {
      PageParts(builder, pages[n], n);
    }
    CustomRolesAreFetched(builder, pages);
    forall n, b | 0 <= n < |pages| && 0 <= b < |builder.baseRoles|
      ensures pages[n][|pages[n]| - |builder.baseRoles| + b] == BaseResources(builder.baseRoles)[b]
    {
      assert EndsWithBaseRoles(pages[n], builder.baseRoles);
    }
  }

  // ---------- What the grants of a role are ----------

  /** After a listing run over a fixed list, the role cache is the index of that list. */
  lemma ListingIndexesTheList(builder: RoleBuilder, list: seq<Role>, last: nat)
    requires builder.client.pageLimit >= 1 && |list| <= MAX_INT
    requires ServesList(builder.client.rolePages, builder.client.pageLimit, list)
    requires StopsAt(builder.client.rolePages, builder.client.pageLimit, last) && builder.Built(last)
    ensures builder.roleCache.IndexedBy(list)
  {
    StableListStop(builder.client.rolePages, builder.client.pageLimit, list, last);
  }

  /**
   With the listed roles indexed, the grants of a listed role never fail with "role not
   found"; and with distinct ids they succeed if and only if a base role has its name or all
   its privileges are in the catalogue.
   */
  lemma ListedRoleHasGrants(builder: RoleBuilder, list: seq<Role>, i: nat, grants: seq<RoleGrant>, error: Option<Error>)
    requires builder.roleCache.IndexedBy(list) && i < |list|
    requires builder.GrantsAnswer(RoleResource(list[i]), grants, error)
    ensures error != Some(RoleNotFound)
    ensures DistinctRoleIds(list) ==>
              (error.None? <==>
               FindBaseRole(builder.baseRoles, list[i].name).Some? || AllKnown(builder.catalogue, list[i].privileges))
  {
    FetchedRoleIsFound(list, i);
    assert builder.roleCache.ById(Itoa(list[i].id)) == LastRole(list, Itoa(list[i].id));
  }

  lemma PrivilegeGrantsMeaning(privileges: seq<CompoundPrivilege>, immutable: bool, id: string, flag: bool)
    ensures PrivilegeHas(id, flag) in PrivilegeGrants(privileges, immutable) <==>
            flag == immutable && exists x :: x in privileges && x.Id() == id
  {
    var grants := PrivilegeGrants(privileges, immutable);
    if PrivilegeHas(id, flag) in grants {
      var i :| 0 <= i < |grants| && grants[i] == PrivilegeHas(id, flag);
      assert privileges[i] in privileges;
    }
    if flag == immutable {
      forall x | x in privileges && x.Id() == id ensures PrivilegeHas(id, flag) in grants {
        var i :| 0 <= i < |privileges| && privileges[i] == x;
        assert grants[i] == PrivilegeHas(id, flag);
      }
    }
  }

  lemma NoPrivilegeInMemberships(users: seq<CompoundUser>, name: string, id: string, flag: bool)
    ensures PrivilegeHas(id, flag) !in Memberships(users, name)
  {
    MembershipsMeaning(users, name);
  }

  /**
   Which privileges a listed role with a distinct id is answered with: its own, as far as a
   privilege resolves, if and only if no base role has its name; else the base role's, all
   marked immutable.
   */
  lemma ListedRolePrivileges(builder: RoleBuilder, list: seq<Role>, i: nat, grants: seq<RoleGrant>, id: string)
    requires builder.roleCache.IndexedBy(list) && i < |list| && DistinctRoleIds(list)
    requires builder.GrantsAnswer(RoleResource(list[i]), grants, None)
    ensures PrivilegeHas(id, false) in grants <==>
            && FindBaseRole(builder.baseRoles, list[i].name).None?
            && exists x :: Multiplicity(builder.catalogue, list[i].privileges, x) > 0 && x.Id() == id
    ensures PrivilegeHas(id, true) in grants <==>
            && FindBaseRole(builder.baseRoles, list[i].name).Some?
            && exists x :: x in FindBaseRole(builder.baseRoles, list[i].name).value.privileges && x.Id() == id
  {
    var resource := RoleResource(list[i]);
    var users :| Enumerates(users, builder.cache.EntriesOf(RoleKey(resource.displayName))) &&
      builder.Completes(resource, Memberships(users, resource.displayName), grants, None);
    FetchedRoleIsFound(list, i);
    assert builder.roleCache.ById(resource.id) == LastRole(list, Itoa(list[i].id));
    CompletedPrivileges(builder, resource, users, grants, list[i].privileges, id);
  }

  lemma CompletedPrivileges(builder: RoleBuilder, resource: Resource, users: seq<CompoundUser>, grants: seq<RoleGrant>,
                            own: Request, id: string)
    requires builder.Completes(resource, Memberships(users, resource.displayName), grants, None)
    requires builder.roleCache.ById(resource.id).Some? && builder.roleCache.ById(resource.id).value.privileges == own
    ensures PrivilegeHas(id, false) in grants <==>
            && FindBaseRole(builder.baseRoles, resource.displayName).None?
            && exists x :: Multiplicity(builder.catalogue, own, x) > 0 && x.Id() == id
    ensures PrivilegeHas(id, true) in grants <==>
            && FindBaseRole(builder.baseRoles, resource.displayName).Some?
            && exists x :: x in FindBaseRole(builder.baseRoles, resource.displayName).value.privileges && x.Id() == id
  {
    var name := resource.displayName;
    NoPrivilegeInMemberships(users, name, id, false);
    NoPrivilegeInMemberships(users, name, id, true);
    var base := FindBaseRole(builder.baseRoles, name);
    if base.Some? {
      PrivilegeGrantsMeaning(base.value.privileges, true, id, false);
      PrivilegeGrantsMeaning(base.value.privileges, true, id, true);
    } else {
      var privileges :| builder.Resolves(own, privileges) &&
        grants == Memberships(users, name) + PrivilegeGrants(privileges, false);
      PrivilegeGrantsMeaning(privileges, false, id, false);
      PrivilegeGrantsMeaning(privileges, false, id, true);
      assert forall x :: x in privileges <==> Multiplicity(builder.catalogue, own, x) > 0;
    }
  }

  lemma {:induction false} MembershipsConcat(a: seq<CompoundUser>, b: seq<CompoundUser>, name: string)
    ensures Memberships(a + b, name) == Memberships(a, name) + Memberships(b, name)
  {
    if b == [] {
      assert a + b == a;
    } else {
      var front := b[..|b| - 1];
      assert (a + b)[..|a + b| - 1] == a + front;
      MembershipsConcat(a, front, name);
    }
  }

  lemma MembershipsRemoveAt(users: seq<CompoundUser>, i: nat, rest: seq<CompoundUser>, name: string)
    requires i < |users| && rest == users[..i] + users[i + 1..]
    ensures multiset(Memberships(users, name)) ==
            multiset(MembershipsOf(users[i], users[i].user.roles, name)) + multiset(Memberships(rest, name))
  {
    assert users == (users[..i] + [users[i]]) + users[i + 1..];
    MembershipsConcat(users[..i] + [users[i]], users[i + 1..], name);
    MembershipsConcat(users[..i], users[i + 1..], name);
    assert (users[..i] + [users[i]])[..i] == users[..i];
  }

  /** The order in which a map range visits the collaborators does not change the grants as a multiset. */
  lemma {:induction false} MembershipsPermutation(a: seq<CompoundUser>, b: seq<CompoundUser>, name: string)
    requires multiset(a) == multiset(b)
    ensures multiset(Memberships(a, name)) == multiset(Memberships(b, name))
  {
    if a == [] {
      PermutationLength(a, b);
    } else {
      var i := PermutationSplit(a, b);
      var restA, restB := a[1..], b[..i] + b[i + 1..];
      MembershipsRemoveAt(a, 0, restA, name);
      MembershipsRemoveAt(b, i, restB, name);
      MembershipsPermutation(restA, restB, name);
    }
  }

  lemma {:induction false} MembershipsOfMeaning(u: CompoundUser, roles: seq<SimpleRole>, name: string)
    ensures forall g :: g in MembershipsOf(u, roles, name) <==>
                        g.CollaboratorHas? && g.collaborator == u.user.id && SimpleRole(g.environment, name) in roles
    ensures DistinctEnvironments(roles) ==> Distinct(MembershipsOf(u, roles, name))
  {
    if roles == [] {
    } else {
      var front, last := roles[..|roles| - 1], roles[|roles| - 1];
      MembershipsOfMeaning(u, front, name);
      assert roles == front + [last];
      if DistinctEnvironments(roles) && last.roleName == name {
        assert CollaboratorHas(u.user.id, last.environmentType) !in MembershipsOf(u, front, name);
      }
    }
  }

  lemma {:induction false} MembershipsMeaning(users: seq<CompoundUser>, name: string)
    ensures forall g :: g in Memberships(users, name) <==>
                        g.CollaboratorHas? &&
                        exists u :: u in users && u.user.id == g.collaborator &&
                                    SimpleRole(g.environment, name) in u.user.roles
  {
    if users == [] {
    } else {
      var front, last := users[..|users| - 1], users[|users| - 1];
      MembershipsMeaning(front, name);
      MembershipsOfMeaning(last, last.user.roles, name);
      assert users == front + [last];
    }
  }

  lemma {:induction false} MembershipsOfCount(u: CompoundUser, roles: seq<SimpleRole>, name: string,
                                              environment: string)
    ensures multiset(MembershipsOf(u, roles, name))[CollaboratorHas(u.user.id, environment)] ==
            multiset(roles)[SimpleRole(environment, name)]
  {
    if roles == [] {
    } else {
      var front, last := roles[..|roles| - 1], roles[|roles| - 1];
      MembershipsOfCount(u, front, name, environment);
      assert roles == front + [last];
    }
  }

  lemma NoMembershipOf(users: seq<CompoundUser>, name: string, id: int, environment: string)
    requires forall u :: u in users ==> u.user.id != id
    ensures multiset(Memberships(users, name))[CollaboratorHas(id, environment)] == 0
  {
    MembershipsMeaning(users, name);
    assert CollaboratorHas(id, environment) !in Memberships(users, name);
  }

  /** With distinct ids, a pair of collaborator and environment is granted once per listed row with that name. */
  lemma {:induction false} MembershipsCount(users: seq<CompoundUser>, name: string, u: CompoundUser,
                                            environment: string)
    requires DistinctIds(users) && u in users
    ensures multiset(Memberships(users, name))[CollaboratorHas(u.user.id, environment)] ==
            multiset(u.user.roles)[SimpleRole(environment, name)]
  {
    var front, last := users[..|users| - 1], users[|users| - 1];
    assert users == front + [last];
    MembershipsOfCount(last, last.user.roles, name, environment);
    if u == last {
      NoMembershipOf(front, name, u.user.id, environment);
    } else {
      MembershipsCount(front, name, u, environment);
      MembershipsOfMeaning(last, last.user.roles, name);
      assert CollaboratorHas(u.user.id, environment) !in MembershipsOf(last, last.user.roles, name);
    }
  }

  /** With distinct ids and one role per environment and user, no pair of collaborator and environment repeats. */
  lemma {:induction false} MembershipsDoNotRepeat(users: seq<CompoundUser>, name: string)
    requires DistinctIds(users)
    requires forall u :: u in users ==> DistinctEnvironments(u.user.roles)
    ensures Distinct(Memberships(users, name))
  {
    if users == [] {
    } else {
      var front, last := users[..|users| - 1], users[|users| - 1];
      MembershipsDoNotRepeat(front, name);
      MembershipsMeaning(front, name);
      MembershipsOfMeaning(last, last.user.roles, name);
      assert users == front + [last];
      forall g | g in MembershipsOf(last, last.user.roles, name) ensures g !in Memberships(front, name) {
      }
      DistinctConcat(Memberships(front, name), MembershipsOf(last, last.user.roles, name));
    }
  }

  /**
   The collaborator part of a role's grants, as a multiset: one grant per row with the
   role's name, in any environment, of exactly those listed collaborators that hold the
   name in the configured environment. When every collaborator is listed with at most one
   role per environment, no pair of collaborator and environment repeats.
   */
  lemma MembershipsAfterBuild(builder: RoleBuilder, name: string, users: seq<CompoundUser>)
    requires builder.Valid() && builder.cache.IndexedBy(Users(builder.client.remote))
    requires BuildError(builder.client.remote).None? && DistinctMembers(builder.client.remote.members.value)
    requires Enumerates(users, builder.cache.EntriesOf(RoleKey(name)))
    ensures multiset(Memberships(users, name)) ==
            multiset(Memberships(Holders(builder.env, AllUsers(builder.client.remote), RoleKey(name)), name))
    ensures (forall u :: u in AllUsers(builder.client.remote) ==> DistinctEnvironments(u.user.roles)) ==>
              Distinct(Memberships(users, name))
  {
    LookupAfterBuild(builder.cache, RoleKey(name), users);
    MembershipsPermutation(users, Holders(builder.env, AllUsers(builder.client.remote), RoleKey(name)), name);
    if forall u :: u in AllUsers(builder.client.remote) ==> DistinctEnvironments(u.user.roles) {
      MembershipsDoNotRepeat(users, name);
    }
  }

  lemma CompletionKeepsMembers(builder: RoleBuilder, resource: Resource, memberships: seq<RoleGrant>,
                               grants: seq<RoleGrant>, error: Option<Error>, id: int, environment: string)
    requires builder.Completes(resource, memberships, grants, error) && (error.None? || error == Some(RoleNotFound))
    ensures CollaboratorHas(id, environment) in grants <==> CollaboratorHas(id, environment) in memberships
  {
  }

  lemma SameIdSameUser(users: seq<CompoundUser>, u: CompoundUser, v: CompoundUser)
    requires DistinctIds(users) && u in users && v in users && u.user.id == v.user.id
    ensures u == v
  {
  }

  /** A user with one role, of this environment, is a member for exactly that role's name. */
  lemma MemberOfLookup(env: string, all: seq<CompoundUser>, found: seq<CompoundUser>, u: CompoundUser, name: string)
    requires DistinctIds(all) && u in all
    requires forall v :: v in found <==> v in all && RoleKey(name) in KeysOf(env, v)
    requires |u.user.roles| == 1 && u.user.roles[0].environmentType == env
    ensures CollaboratorHas(u.user.id, env) in Memberships(found, name) <==> u.user.roles[0].roleName == name
  {
    MembershipsMeaning(found, name);
    FolderAndRoleKeys(env, u, 0, name);
    assert SimpleRole(env, name) in u.user.roles <==> u.user.roles[0] == SimpleRole(env, name);
    forall v: CompoundUser | v in found && v.user.id == u.user.id ensures v == u {
      SameIdSameUser(all, u, v);
    }
  }

  /** The same in an answer for the resource whose collaborators are `found`. */
  lemma MemberInCompletion(builder: RoleBuilder, resource: Resource, found: seq<CompoundUser>,
                           grants: seq<RoleGrant>, error: Option<Error>, all: seq<CompoundUser>, u: CompoundUser)
    requires builder.Completes(resource, Memberships(found, resource.displayName), grants, error)
    requires error.None? || error == Some(RoleNotFound)
    requires DistinctIds(all) && u in all
    requires forall v :: v in found <==> v in all && RoleKey(resource.displayName) in KeysOf(builder.env, v)
    requires |u.user.roles| == 1 && u.user.roles[0].environmentType == builder.env
    ensures CollaboratorHas(u.user.id, builder.env) in grants <==> u.user.roles[0].roleName == resource.displayName
  {
    MemberOfLookup(builder.env, all, found, u, resource.displayName);
    CompletionKeepsMembers(builder, resource, Memberships(found, resource.displayName), grants, error,
                           u.user.id, builder.env);
  }

  /** And in an answer after a sync. */
  lemma MemberInAnswer(builder: RoleBuilder, resource: Resource, grants: seq<RoleGrant>, error: Option<Error>,
                       u: CompoundUser)
    requires builder.Valid() && builder.cache.IndexedBy(Users(builder.client.remote))
    requires BuildError(builder.client.remote).None? && DistinctMembers(builder.client.remote.members.value)
    requires builder.GrantsAnswer(resource, grants, error) && (error.None? || error == Some(RoleNotFound))
    requires u in Users(builder.client.remote)
    requires |u.user.roles| == 1 && u.user.roles[0].environmentType == builder.env
    ensures CollaboratorHas(u.user.id, builder.env) in grants <==> u.user.roles[0].roleName == resource.displayName
  {
    var users :| Enumerates(users, builder.cache.EntriesOf(RoleKey(resource.displayName))) &&
      builder.Completes(resource, Memberships(users, resource.displayName), grants, error);
    SuccessfulBuildLoadsAll(builder.client.remote);
    LookupAfterBuild(builder.cache, RoleKey(resource.displayName), users);
    MemberInCompletion(builder, resource, users, grants, error, AllUsers(builder.client.remote), u);
  }

  /**
   Grant takes the granted role's name from the resource id, while Grants looks it up by
   display name. So a stored grant is in what Grants answers for the resource after the next
   sync if and only if the resource's display name is its id: always for a base role, and
   for a custom role only when it is named by its own numeric id.
   */
  lemma GrantThenGrants(remote: Remote, event: Event, i: nat, resource: Resource,
                        builder: RoleBuilder, grants: seq<RoleGrant>, error: Option<Error>)
    requires BuildError(remote).None? && Sends(remote, event) && event.stored && |Sent(remote, event).roles| == 1
    requires DistinctMembers(remote.members.value)
    requires i < |remote.members.value| && remote.members.value[i].id == Sent(remote, event).id
    requires event.roleName == resource.id && event.env == builder.env
    requires builder.Valid() && builder.client.remote == Step(remote, event).0
    requires builder.cache.IndexedBy(Users(builder.client.remote))
    requires builder.GrantsAnswer(resource, grants, error) && (error.None? || error == Some(RoleNotFound))
    ensures CollaboratorHas(Sent(remote, event).id, event.env) in grants <==> resource.displayName == resource.id
  {
    GrantShowsInNextSync(remote, event, i);
    var after := Step(remote, event).0;
    var u := Users(after)[i];
    assert u.user.roles[0] == event.Role();
    MemberInAnswer(builder, resource, grants, error, u);
  }

  /** The custom role "Ops" with id 7, granted to the one collaborator, is missing from what Grants answers for it. */
  lemma CustomGrantIsInvisible(builder: RoleBuilder, grants: seq<RoleGrant>, error: Option<Error>)
    requires builder.Valid() && builder.env == "prod"
    requires builder.client.remote == Step(OneAdmin(), Event("1", "prod", "7", true, true)).0
    requires builder.cache.IndexedBy(Users(builder.client.remote))
    requires builder.GrantsAnswer(RoleResource(Role(7, "Ops", [], map[])), grants, error)
    requires error.None? || error == Some(RoleNotFound)
    ensures Step(OneAdmin(), Event("1", "prod", "7", true, true)).1 == Written(1, [SimpleRole("prod", "7")])
    ensures CollaboratorHas(1, "prod") !in grants
  {
    var event := Event("1", "prod", "7", true, true);
    GrantToOneAdmin(event);
    assert Itoa(7) == "7";
    GrantThenGrants(OneAdmin(), event, 0, RoleResource(Role(7, "Ops", [], map[])), builder, grants, error);
  }
}
