/**
 What the collaborator index answers, in terms of the remote data alone.
 */
module CollaboratorLookups {
  import opened GoResult
  import opened Strconv
  import opened Sequences
  import opened Models
  import opened Privileges
  import opened CollaboratorCache

  // ---------- Holding a key ----------

  /** The literal data conditions behind a key. */
  ghost predicate HoldsPrivilege(env: string, u: CompoundUser, group: string, privilege: string) {
    exists row :: row in u.detail && row.environmentType == env && GrantsPrivilege(row, group, privilege)
  }

  predicate GrantsPrivilege(row: CollaboratorPrivilege, group: string, privilege: string) {
    group in row.privileges && privilege in row.privileges[group]
  }

  predicate HyphenFree(u: CompoundUser) {
    forall row :: row in u.detail ==>
      forall group :: group in row.privileges ==>
        forall privilege :: privilege in row.privileges[group] ==> '-' !in privilege
  }

  lemma DetailKeyMeaning(env: string, u: CompoundUser, key: IndexKey)
    requires !key.RoleKey?
    ensures key in KeysOf(env, u) <==> exists row :: row in u.detail && key in KeysOfRow(env, row)
  {
  }

  /** A folder or role name key is held exactly by the users with a matching row of the environment. */
  lemma FolderAndRoleKeys(env: string, u: CompoundUser, folderId: int, roleName: string)
    ensures FolderKey(folderId) in KeysOf(env, u) <==>
            exists row :: row in u.detail && row.environmentType == env && folderId in row.folderIDs
    ensures RoleKey(roleName) in KeysOf(env, u) <==> SimpleRole(env, roleName) in u.user.roles
  {
    DetailKeyMeaning(env, u, FolderKey(folderId));
    forall row ensures FolderKey(folderId) in KeysOfRow(env, row) <==>
                       row.environmentType == env && folderId in row.folderIDs
    {
    }
  }

  lemma RowKeyMeaning(env: string, row: CollaboratorPrivilege, id: string)
    ensures PrivilegeKey(id) in KeysOfRow(env, row) <==>
            row.environmentType == env &&
            exists group, privilege :: GrantsPrivilege(row, group, privilege) && PrivilegeId(group, privilege) == id
  {
    if row.environmentType == env {
      assert PrivilegeKey(id) in KeysOfRow(env, row) <==> PrivilegeKey(id) in PrivilegeKeys(row.privileges);
      forall group, privilege | GrantsPrivilege(row, group, privilege) && PrivilegeId(group, privilege) == id
        ensures PrivilegeKey(id) in PrivilegeKeys(row.privileges)
      {
      }
      if PrivilegeKey(id) in PrivilegeKeys(row.privileges) {
        var group, privilege :| group in row.privileges && privilege in row.privileges[group] &&
          PrivilegeKey(PrivilegeId(group, privilege)) == PrivilegeKey(id);
        assert GrantsPrivilege(row, group, privilege);
      }
    }
  }

  /** A privilege key is held exactly by the users with a privilege of that id. */
  lemma PrivilegeKeyMeaning(env: string, u: CompoundUser, id: string)
    ensures PrivilegeKey(id) in KeysOf(env, u) <==>
            exists group, privilege :: HoldsPrivilege(env, u, group, privilege) && PrivilegeId(group, privilege) == id
  {
    DetailKeyMeaning(env, u, PrivilegeKey(id));
    if PrivilegeKey(id) in KeysOf(env, u) {
      var row :| row in u.detail && PrivilegeKey(id) in KeysOfRow(env, row);
      RowKeyMeaning(env, row, id);
      var group, privilege :| GrantsPrivilege(row, group, privilege) && PrivilegeId(group, privilege) == id;
      assert HoldsPrivilege(env, u, group, privilege);
    }
    forall group, privilege | HoldsPrivilege(env, u, group, privilege) && PrivilegeId(group, privilege) == id
      ensures PrivilegeKey(id) in KeysOf(env, u)
    {
      var row :| row in u.detail && row.environmentType == env && GrantsPrivilege(row, group, privilege);
      RowKeyMeaning(env, row, id);
    }
  }

  /**
   The key of a pair is held by exactly the holders of the pair and of the pairs shifted
   against it; so a lookup is wrong about a user if and only if the user holds a shifted
   pair and not the pair itself.
   */
  lemma PrivilegeKeyIsExact(env: string, u: CompoundUser, group: string, privilege: string)
    ensures PrivilegeKey(PrivilegeId(group, privilege)) in KeysOf(env, u) <==>
            HoldsPrivilege(env, u, group, privilege) || HoldsShifted(env, u, group, privilege)
  {
    var id := PrivilegeId(group, privilege);
    PrivilegeKeyMeaning(env, u, id);
    forall g, p | HoldsPrivilege(env, u, g, p)
      ensures PrivilegeId(g, p) == id <==>
              (g == group && p == privilege) || Shifted(g, p, group, privilege) || Shifted(group, privilege, g, p)
    {
      PrivilegeIdsEqual(g, p, group, privilege);
    }
  }

  ghost predicate HoldsShifted(env: string, u: CompoundUser, group: string, privilege: string) {
    exists g, p ::
      HoldsPrivilege(env, u, g, p) && (Shifted(g, p, group, privilege) || Shifted(group, privilege, g, p))
  }

  /** On privilege names without hyphens the key of a pair is held by exactly the holders of that very pair. */
  lemma PrivilegeKeyHyphenFree(env: string, u: CompoundUser, group: string, privilege: string)
    requires '-' !in privilege && HyphenFree(u)
    ensures PrivilegeKey(PrivilegeId(group, privilege)) in KeysOf(env, u) <==> HoldsPrivilege(env, u, group, privilege)
  {
    PrivilegeKeyMeaning(env, u, PrivilegeId(group, privilege));
    forall g, p | HoldsPrivilege(env, u, g, p) && PrivilegeId(g, p) == PrivilegeId(group, privilege)
      ensures g == group && p == privilege
    {
      var row :| row in u.detail && row.environmentType == env && GrantsPrivilege(row, g, p);
      PrivilegeIdInjective(g, p, group, privilege);
    }
  }

  // ---------- The scan ----------

  /** `i` is the last collaborator with this printed id that holds the key. */
  ghost predicate LastHolder(env: string, users: seq<CompoundUser>, key: IndexKey, id: string, i: int) {
    LastHit(users, Holder(env, key, id), i)
  }

  ghost function Holder(env: string, key: IndexKey, id: string): CompoundUser -> bool {
    (u: CompoundUser) => u.Id() == id && key in KeysOf(env, u)
  }

  lemma {:induction false} ScanIsFindLast(env: string, users: seq<CompoundUser>, key: IndexKey, id: string)
    ensures FindLast(users, Holder(env, key, id)) ==
            if id in Scan(env, users, key) then Some(Scan(env, users, key)[id]) else None
  {
    if users == [] {
    } else {
      ScanIsFindLast(env, users[..|users| - 1], key, id);
    }
  }

  /** For any users, duplicate ids included: the table holds an id iff some holder has it, and then the last such. */
  lemma ScanFindsLastHolder(env: string, users: seq<CompoundUser>, key: IndexKey, id: string)
    ensures id in Scan(env, users, key) <==>
            exists i :: 0 <= i < |users| && users[i].Id() == id && key in KeysOf(env, users[i])
    ensures id in Scan(env, users, key) ==>
              exists i :: LastHolder(env, users, key, id, i) && Scan(env, users, key)[id] == users[i]
    ensures forall i :: LastHolder(env, users, key, id, i) ==>
                          id in Scan(env, users, key) && Scan(env, users, key)[id] == users[i]
  {
    ScanIsFindLast(env, users, key, id);
    FindLastMeaning(users, Holder(env, key, id));
    assert forall i :: 0 <= i < |users| ==>
                         (Holder(env, key, id)(users[i]) <==> users[i].Id() == id && key in KeysOf(env, users[i]));
  }

  ghost predicate DistinctIds(users: seq<CompoundUser>) {
    forall i, j :: 0 <= i < j < |users| ==> users[i].user.id != users[j].user.id
  }

  /** The naive scan: the users that hold the key, in listing order. */
  ghost function Holders(env: string, users: seq<CompoundUser>, key: IndexKey): seq<CompoundUser> {
    if users == [] then []
    else Holders(env, users[..|users| - 1], key) +
         if key in KeysOf(env, users[|users| - 1]) then [users[|users| - 1]] else []
  }

  lemma {:induction false} HoldersMeaning(env: string, users: seq<CompoundUser>, key: IndexKey)
    ensures forall u :: u in Holders(env, users, key) <==> u in users && key in KeysOf(env, u)
  {
    if users == [] {
    } else {
      var front, last := users[..|users| - 1], users[|users| - 1];
      HoldersMeaning(env, front, key);
      assert users == front + [last];
    }
  }

  lemma LastIsNew(users: seq<CompoundUser>)
    requires DistinctIds(users) && users != []
    ensures DistinctIds(users[..|users| - 1])
    ensures users[|users| - 1] !in users[..|users| - 1]
  {
    var front, last := users[..|users| - 1], |users| - 1;
    forall i | 0 <= i < |front| ensures front[i] != users[last] {
      assert front[i] == users[i] && users[i].user.id != users[last].user.id;
    }
  }

  lemma {:induction false} HoldersDistinct(env: string, users: seq<CompoundUser>, key: IndexKey)
    requires DistinctIds(users)
    ensures Distinct(Holders(env, users, key))
  {
    if users == [] {
    } else {
      var front, last := users[..|users| - 1], users[|users| - 1];
      LastIsNew(users);
      HoldersDistinct(env, front, key);
      HoldersMeaning(env, front, key);
      DistinctConcat(Holders(env, front, key), if key in KeysOf(env, last) then [last] else []);
    }
  }

  lemma ScanMeaning(env: string, users: seq<CompoundUser>, key: IndexKey)
    requires DistinctIds(users)
    ensures forall id :: id in Scan(env, users, key) ==>
                           var u := Scan(env, users, key)[id]; u.Id() == id && u in users && key in KeysOf(env, u)
    ensures forall u :: u in users && key in KeysOf(env, u) ==>
                          u.Id() in Scan(env, users, key) && Scan(env, users, key)[u.Id()] == u
  {
    forall id | id in Scan(env, users, key)
      ensures var u := Scan(env, users, key)[id]; u.Id() == id && u in users && key in KeysOf(env, u)
    {
      ScanFindsLastHolder(env, users, key, id);
    }
    forall u | u in users && key in KeysOf(env, u)
      ensures u.Id() in Scan(env, users, key) && Scan(env, users, key)[u.Id()] == u
    {
      var i :| 0 <= i < |users| && users[i] == u;
      forall j | i < j < |users| ensures users[j].Id() != u.Id() {
        if users[j].Id() == u.Id() {
          ItoaInjective(users[j].user.id, u.user.id);
        }
      }
      ScanFindsLastHolder(env, users, key, u.Id());
      assert LastHolder(env, users, key, u.Id(), i);
    }
  }

  lemma EnumeratedById(m: map<string, CompoundUser>, found: seq<CompoundUser>, order: seq<string>)
    requires EnumeratesAs(found, m, order)
    requires forall id :: id in m ==> m[id].Id() == id
    ensures DistinctIds(found)
    ensures forall u: CompoundUser :: u in found <==> u.Id() in m && m[u.Id()] == u
  {
    assert forall i :: 0 <= i < |found| ==> order[i] in m && found[i].Id() == order[i];
    forall u: CompoundUser | u.Id() in m && m[u.Id()] == u ensures u in found {
      var i :| 0 <= i < |order| && order[i] == u.Id();
      assert found[i] == u;
    }
  }

  lemma LookupElements(env: string, users: seq<CompoundUser>, key: IndexKey, found: seq<CompoundUser>)
    requires DistinctIds(users)
    requires Enumerates(found, Scan(env, users, key))
    ensures DistinctIds(found)
    ensures forall u :: u in found <==> u in users && key in KeysOf(env, u)
  {
    var m := Scan(env, users, key);
    var order :| EnumeratesAs(found, m, order);
    ScanMeaning(env, users, key);
    EnumeratedById(m, found, order);
  }

  /** With distinct ids, what a lookup enumerates is a permutation of the naive scan: each holder once, nobody else. */
  lemma LookupIsScan(env: string, users: seq<CompoundUser>, key: IndexKey, found: seq<CompoundUser>)
    requires DistinctIds(users)
    requires Enumerates(found, Scan(env, users, key))
    ensures multiset(found) == multiset(Holders(env, users, key))
  {
    LookupElements(env, users, key, found);
    HoldersMeaning(env, users, key);
    HoldersDistinct(env, users, key);
    assert Distinct(found);
    SameElements(found, Holders(env, users, key));
  }

  // ---------- From the remote data ----------

  ghost predicate DistinctMembers(members: seq<Collaborator>) {
    forall i, j :: 0 <= i < j < |members| ==> members[i].id != members[j].id
  }

  /**
   A build loads the longest prefix of the listing whose tables can all be fetched and have
   exactly one row, and its error is that of the first collaborator outside that prefix.
   */
  lemma {:induction false} LoadedPrefix(remote: Remote, members: seq<Collaborator>)
    ensures |Loaded(remote, members)| <= |members|
    ensures forall i :: 0 <= i < |Loaded(remote, members)| ==>
                          Loaded(remote, members)[i].user == members[i] &&
                          remote.Privileges(members[i].id) == Ok(Loaded(remote, members)[i].detail)
    ensures |Loaded(remote, members)| == |members| ==> FirstFailure(remote, members) == None
    ensures |Loaded(remote, members)| < |members| ==>
              var id := members[|Loaded(remote, members)|].id;
              if id in remote.rows
              then |remote.rows[id]| != 1 && FirstFailure(remote, members) == Some(NotExactlyOneRow)
              else FirstFailure(remote, members) == Some(RequestFailed)
  {
    if members == [] {
    } else if remote.Privileges(members[0].id).Ok? {
      LoadedPrefix(remote, members[1..]);
    }
  }

  /** A build succeeds if and only if the listing does and every listed collaborator has exactly one row. */
  lemma BuildSucceedsIff(remote: Remote)
    ensures BuildError(remote).None? <==>
            && remote.members.Ok?
            && forall c :: c in remote.members.value ==> c.id in remote.rows && |remote.rows[c.id]| == 1
  {
    if remote.members.Ok? {
      var members := remote.members.value;
      LoadedPrefix(remote, members);
      var n := |Loaded(remote, members)|;
      if n < |members| {
        assert members[n] in members;
      }
    }
  }

  /** The collaborators of the listing with their tables, as a successful build sees them. */
  ghost function AllUsers(remote: Remote): seq<CompoundUser>
    requires BuildError(remote).None?
  {
    BuildSucceedsIff(remote);
    var members := remote.members.value;
    seq(|members|, i requires 0 <= i < |members| => CompoundUser(members[i], remote.rows[members[i].id]))
  }

  lemma SuccessfulBuildLoadsAll(remote: Remote)
    requires BuildError(remote).None?
    ensures Users(remote) == AllUsers(remote)
  {
    LoadedPrefix(remote, remote.members.value);
  }

  /**
   After a successful build every lookup, by privilege, folder or role name, returns
   exactly the listed collaborators that hold the key, each once.
   */
  lemma LookupAfterBuild(cache: CollaboratorCache, key: IndexKey, found: seq<CompoundUser>)
    requires BuildError(cache.client.remote).None? && DistinctMembers(cache.client.remote.members.value)
    requires cache.IndexedBy(Users(cache.client.remote))
    requires Enumerates(found, cache.EntriesOf(key))
    ensures multiset(found) == multiset(Holders(cache.env, AllUsers(cache.client.remote), key))
    ensures DistinctIds(found)
    ensures forall u :: u in found <==> u in AllUsers(cache.client.remote) && key in KeysOf(cache.env, u)
  {
    SuccessfulBuildLoadsAll(cache.client.remote);
    LookupElements(cache.env, AllUsers(cache.client.remote), key, found);
    LookupIsScan(cache.env, AllUsers(cache.client.remote), key, found);
  }

  /**
   Two builds that load the same collaborators, in whatever caches they are and whatever was
   there before, answer every lookup alike.
   */
  lemma RebuildChangesNoLookup(before: CollaboratorCache, after: CollaboratorCache, users: seq<CompoundUser>,
                               key: IndexKey, a: seq<CompoundUser>, b: seq<CompoundUser>)
    requires before.env == after.env && before.IndexedBy(users) && after.IndexedBy(users)
    requires Enumerates(a, before.EntriesOf(key)) && Enumerates(b, after.EntriesOf(key))
    ensures multiset(a) == multiset(b)
  {
    assert before.EntriesOf(key) == after.EntriesOf(key);
    EnumerationsAgree(a, b, before.EntriesOf(key));
  }

  /** The same on one cache: building it again from unchanged data leaves a folder's lookup as it was. */
  method BuildTwice(cache: CollaboratorCache, folderId: int)
    returns (first: seq<CompoundUser>, second: seq<CompoundUser>)
    modifies cache
    ensures multiset(first) == multiset(second)
  {
    var error := cache.BuildCache();
    first := cache.GetUsersByFolder(folderId);
    ghost var entries := cache.EntriesOf(FolderKey(folderId));
    error := cache.BuildCache();
    second := cache.GetUsersByFolder(folderId);
    EnumerationsAgree(first, second, entries);
  }
}
