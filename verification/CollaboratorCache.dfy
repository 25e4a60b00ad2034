/**
 The inverted index from privileges, folders and role names to collaborators.

 The specification is a scan: `Scan(env, users, key)` goes over the fetched collaborators
 and collects those that hold the key. The cache's nested loops are proved to build,
 for every key, exactly the table the scan would compute.
 */
module CollaboratorCache {
  import opened GoResult
  import opened Strconv
  import opened Sequences
  import opened Models
  import opened Client
  import opened UCache
  import opened Privileges

  datatype CompoundUser = CompoundUser(user: Collaborator, detail: seq<CollaboratorPrivilege>) {
    function Id(): string {
      Itoa(user.id)
    }
  }

  /** A key of one of the three indexes. */
  datatype IndexKey = PrivilegeKey(id: string) | FolderKey(folderId: int) | RoleKey(roleName: string)

  ghost function GroupKeys(group: string, values: seq<string>): set<IndexKey> {
    set v | v in values :: PrivilegeKey(PrivilegeId(group, v))
  }

  ghost function PrivilegeKeys(privileges: map<string, seq<string>>): set<IndexKey> {
    set g, v | g in privileges && v in privileges[g] :: PrivilegeKey(PrivilegeId(g, v))
  }

  ghost function FolderKeys(folderIDs: seq<int>): set<IndexKey> {
    set f | f in folderIDs :: FolderKey(f)
  }

  ghost function KeysOfRow(env: string, row: CollaboratorPrivilege): set<IndexKey> {
    if row.environmentType == env then PrivilegeKeys(row.privileges) + FolderKeys(row.folderIDs) else {}
  }

  ghost function DetailKeys(env: string, rows: seq<CollaboratorPrivilege>): set<IndexKey> {
    set row, key | row in rows && key in KeysOfRow(env, row) :: key
  }

  ghost function RoleKeys(env: string, roles: seq<SimpleRole>): set<IndexKey> {
    set role | role in roles && role.environmentType == env :: RoleKey(role.roleName)
  }

  lemma GroupKeysNext(group: string, values: seq<string>, k: nat)
    requires k < |values|
    ensures GroupKeys(group, values[..k + 1]) ==
            GroupKeys(group, values[..k]) + {PrivilegeKey(PrivilegeId(group, values[k]))}
  {
    assert values[..k + 1] == values[..k] + [values[k]];
  }

  lemma PrivilegeKeysNext(privileges: map<string, seq<string>>, groups: set<string>, g: string)
    requires g in groups && g in privileges
    ensures PrivilegeKeys(privileges - (groups - {g})) ==
            PrivilegeKeys(privileges - groups) + GroupKeys(g, privileges[g])
  {
  }

  lemma FolderKeysNext(folderIDs: seq<int>, k: nat)
    requires k < |folderIDs|
    ensures FolderKeys(folderIDs[..k + 1]) == FolderKeys(folderIDs[..k]) + {FolderKey(folderIDs[k])}
  {
    assert folderIDs[..k + 1] == folderIDs[..k] + [folderIDs[k]];
  }

  lemma DetailKeysNext(env: string, rows: seq<CollaboratorPrivilege>, j: nat)
    requires j < |rows|
    ensures DetailKeys(env, rows[..j + 1]) == DetailKeys(env, rows[..j]) + KeysOfRow(env, rows[j])
  {
    assert rows[..j + 1] == rows[..j] + [rows[j]];
    forall key | key in KeysOfRow(env, rows[j]) ensures key in DetailKeys(env, rows[..j + 1]) {
      assert rows[j] in rows[..j + 1];
    }
  }

  lemma RoleKeysNext(env: string, roles: seq<SimpleRole>, j: nat)
    requires j < |roles|
    ensures roles[j].environmentType != env ==> RoleKeys(env, roles[..j + 1]) == RoleKeys(env, roles[..j])
    ensures roles[j].environmentType == env ==>
              RoleKeys(env, roles[..j + 1]) == RoleKeys(env, roles[..j]) + {RoleKey(roles[j].roleName)}
  {
    assert roles[..j + 1] == roles[..j] + [roles[j]];
    assert roles[j] in roles[..j + 1];
  }

  /** Everything a collaborator holds in an environment. */
  ghost function KeysOf(env: string, u: CompoundUser): set<IndexKey> {
    DetailKeys(env, u.detail) + RoleKeys(env, u.user.roles)
  }

  /** The collaborators holding `key`, by printed id; of two with the same id the later one stays. */
  ghost function Scan(env: string, users: seq<CompoundUser>, key: IndexKey): map<string, CompoundUser> {
    if users == [] then map[]
    else
      var before, last := Scan(env, users[..|users| - 1], key), users[|users| - 1];
      if key in KeysOf(env, last) then before[last.Id() := last] else before
  }

  /** The collaborators a build gets to: all those before the first whose table it cannot fetch. */
  function Loaded(remote: Remote, members: seq<Collaborator>): seq<CompoundUser> {
    if members == [] then []
    else match remote.Privileges(members[0].id)
      case Err(_) => []
      case Ok(rows) => [CompoundUser(members[0], rows)] + Loaded(remote, members[1..])
  }

  function FirstFailure(remote: Remote, members: seq<Collaborator>): Option<Error> {
    if members == [] then None
    else match remote.Privileges(members[0].id)
      case Err(e) => Some(e)
      case Ok(_) => FirstFailure(remote, members[1..])
  }

  /** `users` are the collaborators loaded from the first `i` of the listing, none of which failed. */
  predicate LoadedSoFar(remote: Remote, members: seq<Collaborator>, i: nat, users: seq<CompoundUser>)
    requires i <= |members|
  {
    && users + Loaded(remote, members[i..]) == Loaded(remote, members)
    && FirstFailure(remote, members[i..]) == FirstFailure(remote, members)
  }

  lemma LoadedSoFarNext(remote: Remote, members: seq<Collaborator>, i: nat, users: seq<CompoundUser>)
    requires i < |members| && LoadedSoFar(remote, members, i, users)
    ensures var rows := remote.Privileges(members[i].id);
            if rows.Err? then Loaded(remote, members) == users && FirstFailure(remote, members) == Some(rows.error)
            else LoadedSoFar(remote, members, i + 1, users + [CompoundUser(members[i], rows.value)])
  {
    assert members[i..][0] == members[i] && members[i..][1..] == members[i + 1..];
    var rows := remote.Privileges(members[i].id);
    if rows.Err? {
      assert users + [] == users;
    } else {
      var u, rest := CompoundUser(members[i], rows.value), Loaded(remote, members[i + 1..]);
      assert (users + [u]) + rest == users + ([u] + rest);
    }
  }

  lemma LoadedSoFarEnd(remote: Remote, members: seq<Collaborator>, users: seq<CompoundUser>)
    requires LoadedSoFar(remote, members, |members|, users)
    ensures Loaded(remote, members) == users && FirstFailure(remote, members) == None
  {
    assert users + [] == users;
  }

  function Users(remote: Remote): seq<CompoundUser> {
    if remote.members.Err? then [] else Loaded(remote, remote.members.value)
  }

  function BuildError(remote: Remote): Option<Error> {
    match remote.members
    case Err(e) => Some(e)
    case Ok(members) => FirstFailure(remote, members)
  }

  class CollaboratorCache {
    const client: WorkatoClient
    const env: string
    var privilegeToUser: HashSet<string, string, CompoundUser>
    var folderToUser: HashSet<int, string, CompoundUser>
    var roleToUser: HashSet<string, string, CompoundUser>

    ghost predicate Valid()
      reads this
    {
      privilegeToUser != roleToUser
    }

    /** What the index holds under a key. */
    ghost function EntriesOf(key: IndexKey): map<string, CompoundUser>
      reads this, privilegeToUser, folderToUser, roleToUser
    {
      match key
      case PrivilegeKey(id) => Entries(privilegeToUser.cache, id)
      case FolderKey(folderId) => Entries(folderToUser.cache, folderId)
      case RoleKey(roleName) => Entries(roleToUser.cache, roleName)
    }

    ghost predicate IndexedBy(users: seq<CompoundUser>)
      reads this, privilegeToUser, folderToUser, roleToUser
    {
      EveryKeyIndexedBy(users)
    }

    /** `IndexedBy`, key by key; a predicate of its own so that a proof that only hands `IndexedBy` on stays small. */
    ghost predicate EveryKeyIndexedBy(users: seq<CompoundUser>)
      reads this, privilegeToUser, folderToUser, roleToUser
    {
      forall key :: EntriesOf(key) == Scan(env, users, key)
    }

    /** `users` are indexed, and `u` is already filed under the keys in `done`. */
    ghost predicate Filing(users: seq<CompoundUser>, u: CompoundUser, done: set<IndexKey>)
      reads this, privilegeToUser, folderToUser, roleToUser
    {
      forall key ::
        EntriesOf(key) == if key in done then Scan(env, users, key)[u.Id() := u] else Scan(env, users, key)
    }

    lemma Filed(users: seq<CompoundUser>, u: CompoundUser)
      requires Filing(users, u, KeysOf(env, u))
      ensures IndexedBy(users + [u])
    {
      assert (users + [u])[..|users + [u]| - 1] == users;
    }

    constructor (client: WorkatoClient, env: string)
      ensures this.client == client && this.env == env
      ensures Valid() && fresh(privilegeToUser) && fresh(folderToUser) && fresh(roleToUser)
      ensures IndexedBy([])
    {
      this.client := client;
      this.env := env;
      privilegeToUser := new HashSet();
      folderToUser := new HashSet();
      roleToUser := new HashSet();
    }

    /**
     Whatever an earlier build left behind, the index afterwards is that of exactly the
     collaborators before the first failed fetch; without a failure, of all of them.
     */
    method BuildCache() returns (error: Option<Error>)
      modifies this
      ensures Valid() && fresh(privilegeToUser) && fresh(folderToUser) && fresh(roleToUser)
      ensures error == BuildError(client.remote)
      ensures IndexedBy(Users(client.remote))
      ensures client.remote.members.Err? ==> error == Some(client.remote.members.error) && IndexedBy([])
    {
      privilegeToUser := new HashSet();
      folderToUser := new HashSet();
      roleToUser := new HashSet();

      var collaborators := client.GetCollaborators();
      if collaborators.Err? {
        return Some(collaborators.error);
      }
      error := FileMembers(collaborators.value);
    }

    /** The build loop over the listing. */
    method FileMembers(members: seq<Collaborator>) returns (error: Option<Error>)
      requires Valid() && IndexedBy([])
      modifies privilegeToUser, folderToUser, roleToUser
      ensures error == FirstFailure(client.remote, members)
      ensures IndexedBy(Loaded(client.remote, members))
    {
      ghost var users: seq<CompoundUser> := [];
      for i := 0 to |members|
        invariant LoadedSoFar(client.remote, members, i, users)
        invariant IndexedBy(users)
      {
        LoadedSoFarNext(client.remote, members, i, users);
        error := FileMember(users, members[i]);
        if error.Some? {
          return;
        }
        users := users + [CompoundUser(members[i], client.remote.Privileges(members[i].id).value)];
      }
      LoadedSoFarEnd(client.remote, members, users);
      error := None;
    }

    /** One turn of the build loop: fetch a collaborator's rows and file it, or stop with the error of the fetch. */
    method FileMember(ghost users: seq<CompoundUser>, collaborator: Collaborator) returns (error: Option<Error>)
      requires Valid() && IndexedBy(users)
      modifies privilegeToUser, folderToUser, roleToUser
      ensures var rows := client.remote.Privileges(collaborator.id);
              if rows.Err? then error == Some(rows.error) && IndexedBy(users)
              else error == None && IndexedBy(users + [CompoundUser(collaborator, rows.value)])
    {
      var collaboratorRoles := client.GetCollaboratorPrivileges(collaborator.id);
      if collaboratorRoles.Err? {
        return Some(collaboratorRoles.error);
      }
      FileUser(users, CompoundUser(collaborator, collaboratorRoles.value));
      error := None;
    }

    method FileUser(ghost users: seq<CompoundUser>, u: CompoundUser)
      requires Valid() && IndexedBy(users)
      modifies privilegeToUser, folderToUser, roleToUser
      ensures IndexedBy(users + [u])
    {
      FileDetail(users, u);
      FileRoles(users, u, DetailKeys(env, u.detail));
      Filed(users, u);
    }

    /** The part of a build that goes over one collaborator's fetched rows. */
    method FileDetail(ghost users: seq<CompoundUser>, u: CompoundUser)
      requires Valid() && IndexedBy(users)
      modifies privilegeToUser, folderToUser
      ensures Filing(users, u, DetailKeys(env, u.detail))
    {
      var rows := u.detail;
      for j := 0 to |rows|
        invariant Filing(users, u, DetailKeys(env, rows[..j]))
      {
        ghost var done := DetailKeys(env, rows[..j]);
        DetailKeysNext(env, rows, j);
        if rows[j].environmentType != env {
          continue;
        }
        FilePrivileges(users, u, done, rows[j].privileges);
        FileFolders(users, u, done + PrivilegeKeys(rows[j].privileges), rows[j].folderIDs);
      }
      assert rows[..|rows|] == rows;
    }

    method FilePrivileges(ghost users: seq<CompoundUser>, u: CompoundUser, ghost done: set<IndexKey>,
                          privileges: map<string, seq<string>>)
      requires Valid() && Filing(users, u, done)
      modifies privilegeToUser
      ensures Filing(users, u, done + PrivilegeKeys(privileges))
    {
      var groups := privileges.Keys;
      while groups != {}
        invariant groups <= privileges.Keys
        invariant Filing(users, u, done + PrivilegeKeys(privileges - groups))
      {
        var keyGroup :| keyGroup in groups;
        ghost var seen := PrivilegeKeys(privileges - groups);
        FileGroup(users, u, done + seen, keyGroup, privileges[keyGroup]);
        PrivilegeKeysNext(privileges, groups, keyGroup);
        groups := groups - {keyGroup};
      }
      assert privileges - {} == privileges;
    }

    method FileGroup(ghost users: seq<CompoundUser>, u: CompoundUser, ghost done: set<IndexKey>,
                     keyGroup: string, values: seq<string>)
      requires Valid() && Filing(users, u, done)
      modifies privilegeToUser
      ensures Filing(users, u, done + GroupKeys(keyGroup, values))
    {
      for k := 0 to |values|
        invariant Filing(users, u, done + GroupKeys(keyGroup, values[..k]))
      {
        var privilegeKey := PrivilegeId(keyGroup, values[k]);
        FilePrivilege(users, u, done + GroupKeys(keyGroup, values[..k]), privilegeKey);
        GroupKeysNext(keyGroup, values, k);
      }
      assert values[..|values|] == values;
    }

    method FileFolders(ghost users: seq<CompoundUser>, u: CompoundUser, ghost done: set<IndexKey>, folderIDs: seq<int>)
      requires Valid() && Filing(users, u, done)
      modifies folderToUser
      ensures Filing(users, u, done + FolderKeys(folderIDs))
    {
      for k := 0 to |folderIDs|
        invariant Filing(users, u, done + FolderKeys(folderIDs[..k]))
      {
        FileFolder(users, u, done + FolderKeys(folderIDs[..k]), folderIDs[k]);
        FolderKeysNext(folderIDs, k);
      }
      assert folderIDs[..|folderIDs|] == folderIDs;
    }

    /** The part of a build that goes over the roles in the collaborator's listing. */
    method FileRoles(ghost users: seq<CompoundUser>, u: CompoundUser, ghost done: set<IndexKey>)
      requires Valid() && Filing(users, u, done)
      modifies roleToUser
      ensures Filing(users, u, done + RoleKeys(env, u.user.roles))
    {
      var roles := u.user.roles;
      for j := 0 to |roles|
        invariant Filing(users, u, done + RoleKeys(env, roles[..j]))
      {
        RoleKeysNext(env, roles, j);
        if roles[j].environmentType == env {
          FileRole(users, u, done + RoleKeys(env, roles[..j]), roles[j].roleName);
        }
      }
      assert roles[..|roles|] == roles;
    }

    method FilePrivilege(ghost users: seq<CompoundUser>, u: CompoundUser, ghost done: set<IndexKey>,
                         privilegeKey: string)
      requires Valid() && Filing(users, u, done)
      modifies privilegeToUser
      ensures Filing(users, u, done + {PrivilegeKey(privilegeKey)})
    {
      privilegeToUser.Set(privilegeKey, u.Id(), u);
    }

    method FileFolder(ghost users: seq<CompoundUser>, u: CompoundUser, ghost done: set<IndexKey>, folderId: int)
      requires Valid() && Filing(users, u, done)
      modifies folderToUser
      ensures Filing(users, u, done + {FolderKey(folderId)})
    {
      folderToUser.Set(folderId, u.Id(), u);
    }

    method FileRole(ghost users: seq<CompoundUser>, u: CompoundUser, ghost done: set<IndexKey>, roleName: string)
      requires Valid() && Filing(users, u, done)
      modifies roleToUser
      ensures Filing(users, u, done + {RoleKey(roleName)})
    {
      roleToUser.Set(roleName, u.Id(), u);
    }

    method GetUsersByPrivilege(privilegeKey: string) returns (users: seq<CompoundUser>)
      ensures Enumerates(users, EntriesOf(PrivilegeKey(privilegeKey)))
    {
      users := privilegeToUser.GetAll(privilegeKey);
    }

    method GetUsersByFolder(folderId: int) returns (users: seq<CompoundUser>)
      ensures Enumerates(users, EntriesOf(FolderKey(folderId)))
    {
      users := folderToUser.GetAll(folderId);
    }

    method GetUsersByRole(roleName: string) returns (users: seq<CompoundUser>)
      ensures Enumerates(users, EntriesOf(RoleKey(roleName)))
    {
      users := roleToUser.GetAll(roleName);
    }
  }
}
