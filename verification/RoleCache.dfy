/**
 The role index: it drains the paginated roles endpoint into an ordered list of roles per
 folder and a table of roles by printed id.
 */
module RoleCache {
  import opened GoResult
  import opened Strconv
  import opened Sequences
  import opened Models
  import opened Paging
  import opened Client

  /** Each fetched role in order, once per occurrence of the folder among its folder ids. */
  function FolderRoles(fetched: seq<Role>, folderId: int): seq<Role> {
    if fetched == [] then []
    else
      var last := fetched[|fetched| - 1];
      FolderRoles(fetched[..|fetched| - 1], folderId) + Repeat(last, Count(last.folderIDs, folderId))
  }

  /** The last fetched role whose id prints to `id`. */
  function LastRole(fetched: seq<Role>, id: string): Option<Role> {
    FindLast(fetched, HasId(id))
  }

  function HasId(id: string): Role -> bool {
    (role: Role) => Itoa(role.id) == id
  }

  lemma Appended(fetched: seq<Role>, role: Role)
    ensures forall f :: FolderRoles(fetched + [role], f) ==
                        FolderRoles(fetched, f) + Repeat(role, Count(role.folderIDs, f))
    ensures forall id :: LastRole(fetched + [role], id) ==
                         if id == Itoa(role.id) then Some(role) else LastRole(fetched, id)
  {
    assert (fetched + [role])[..|fetched + [role]| - 1] == fetched;
  }

  function RolesAt(table: map<int, seq<Role>>, folderId: int): seq<Role> {
    if folderId in table then table[folderId] else []
  }

  /** The role was appended to each folder's list once per occurrence of the folder in `folderIDs`. */
  ghost predicate Extended(before: map<int, seq<Role>>, after: map<int, seq<Role>>, role: Role, folderIDs: seq<int>) {
    forall f :: RolesAt(after, f) == RolesAt(before, f) + Repeat(role, Count(folderIDs, f))
  }

  lemma CountNext(s: seq<int>, j: nat, x: int)
    requires j < |s|
    ensures Count(s[..j + 1], x) == Count(s[..j], x) + if x == s[j] then 1 else 0
  {
    assert s[..j + 1][..j] == s[..j];
  }

  lemma ExtendedNext(before: map<int, seq<Role>>, after: map<int, seq<Role>>, role: Role, folderIDs: seq<int>, j: nat)
    requires j < |folderIDs| && Extended(before, after, role, folderIDs[..j])
    ensures Extended(before, after[folderIDs[j] := RolesAt(after, folderIDs[j]) + [role]], role, folderIDs[..j + 1])
  {
    var next := after[folderIDs[j] := RolesAt(after, folderIDs[j]) + [role]];
    forall f ensures RolesAt(next, f) == RolesAt(before, f) + Repeat(role, Count(folderIDs[..j + 1], f)) {
      ExtendedAt(RolesAt(before, f), RolesAt(after, f), role, folderIDs, j, f);
    }
  }

  lemma ExtendedAt(before: seq<Role>, after: seq<Role>, role: Role, folderIDs: seq<int>, j: nat, f: int)
    requires j < |folderIDs| && after == before + Repeat(role, Count(folderIDs[..j], f))
    ensures (if f == folderIDs[j] then after + [role] else after) == before + Repeat(role, Count(folderIDs[..j + 1], f))
  {
    CountNext(folderIDs, j, f);
  }

  class RoleCache {
    const client: WorkatoClient
    var folderToRole: map<int, seq<Role>>
    var roles: map<string, Role>

    function ByFolder(folderId: int): seq<Role>
      reads this
    {
      RolesAt(folderToRole, folderId)
    }

    function ById(id: string): Option<Role>
      reads this
    {
      if id in roles then Some(roles[id]) else None
    }

    ghost predicate FoldersIndexedBy(fetched: seq<Role>)
      reads this
    {
      forall folderId :: ByFolder(folderId) == FolderRoles(fetched, folderId)
    }

    ghost predicate IdsIndexedBy(fetched: seq<Role>)
      reads this
    {
      forall id :: ById(id) == LastRole(fetched, id)
    }

    ghost predicate IndexedBy(fetched: seq<Role>)
      reads this
    {
      FoldersIndexedBy(fetched) && IdsIndexedBy(fetched)
    }

    constructor (client: WorkatoClient)
      ensures this.client == client && IndexedBy([])
    {
      this.client := client;
      folderToRole := map[];
      roles := map[];
    }

    /**
     Asks for pages 0, 1, ..., last, each once, and leaves the index of exactly the rows
     those pages hold. `last` is the page a drain of this server stops at; a failing last
     page makes the build fail with the pages before it indexed.
     */
    method BuildCache(ghost last: nat) returns (error: Option<Error>)
      requires StopsAt(client.rolePages, client.pageLimit, last)
      modifies this, client`askedRolePages
      ensures IndexedBy(Fetched(client.rolePages, last + 1))
      ensures error == if client.rolePages(last).Ok? then None else Some(client.rolePages(last).error)
      ensures client.askedRolePages == old(client.askedRolePages) + UpTo(last + 1)
    {
      folderToRole := map[];
      roles := map[];
      var token := "";
      ghost var n := 0;
      while true
        invariant n <= last && token == TokenOf(n)
        invariant IndexedBy(Fetched(client.rolePages, n))
        invariant client.askedRolePages == old(client.askedRolePages) + UpTo(n)
        decreases last - n
      {
        var nextToken;
        error, nextToken := FetchPage(last, n, token);
        UpToNext(old(client.askedRolePages), n);
        if error.Some? {
          return;
        }
        token := nextToken;
        if nextToken == "" {
          break;
        }
        n := n + 1;
      }
    }

    /** One turn of the drain loop: fetch page `n`, index its rows, hand on the next token. */
    method FetchPage(ghost last: nat, ghost n: nat, token: string) returns (error: Option<Error>, nextToken: string)
      requires StopsAt(client.rolePages, client.pageLimit, last)
      requires n <= last && token == TokenOf(n)
      requires IndexedBy(Fetched(client.rolePages, n))
      modifies this, client`askedRolePages
      ensures IndexedBy(Fetched(client.rolePages, n + 1))
      ensures client.askedRolePages == old(client.askedRolePages) + [n]
      ensures error == if client.rolePages(n).Ok? then None else Some(client.rolePages(n).error)
      ensures error.Some? ==> n == last
      ensures nextToken != "" ==> n < last && nextToken == TokenOf(n + 1)
      ensures nextToken == "" ==> n == last
    {
      TokenParses(n);
      TokenChain(client.rolePages, client.pageLimit, last, n);
      var response := client.GetRoles(token);
      if response.Err? {
        assert Fetched(client.rolePages, n + 1) == Fetched(client.rolePages, n);
        return Some(response.error), "";
      }
      AddPage(Fetched(client.rolePages, n), response.value.0);
      error, nextToken := None, response.value.1;
    }

    method AddPage(ghost fetched: seq<Role>, page: seq<Role>)
      requires IndexedBy(fetched)
      modifies this
      ensures IndexedBy(fetched + page)
    {
      ghost var seen := fetched;
      for i := 0 to |page|
        invariant seen == fetched + page[..i]
        invariant IndexedBy(seen)
      {
        AddRole(seen, page[i]);
        seen := seen + [page[i]];
      }
      assert seen == fetched + page;
    }

    method AddRole(ghost fetched: seq<Role>, role: Role)
      requires IndexedBy(fetched)
      modifies this
      ensures IndexedBy(fetched + [role])
    {
      AddToFolders(role);
      roles := roles[Itoa(role.id) := role];
      Appended(fetched, role);
    }

    method AddToFolders(role: Role)
      modifies this`folderToRole
      ensures Extended(old(folderToRole), folderToRole, role, role.folderIDs)
    {
      var folderIDs := role.folderIDs;
      ghost var before := folderToRole;
      for j := 0 to |folderIDs|
        invariant Extended(before, folderToRole, role, folderIDs[..j])
      {
        ExtendedNext(before, folderToRole, role, folderIDs, j);
        var folderID := folderIDs[j];
        var current := if folderID in folderToRole then folderToRole[folderID] else [];
        folderToRole := folderToRole[folderID := current + [role]];
      }
      assert folderIDs[..|folderIDs|] == folderIDs;
    }

    method GetRoleByFolder(folderId: int) returns (r: seq<Role>)
      ensures r == ByFolder(folderId)
    {
      if folderId !in folderToRole {
        return [];
      }
      r := folderToRole[folderId];
    }

    method GetRoleById(id: string) returns (r: Option<Role>)
      ensures r == ById(id)
    {
      if id !in roles {
        return None;
      }
      r := Some(roles[id]);
    }
  }

  // ---------- What the index answers ----------

  /** A folder's list is built page by page: fetching more only appends. */
  lemma {:induction false} FolderRolesConcat(a: seq<Role>, b: seq<Role>, folderId: int)
    ensures FolderRoles(a + b, folderId) == FolderRoles(a, folderId) + FolderRoles(b, folderId)
  {
    if b == [] {
      assert a + b == a;
    } else {
      var front := b[..|b| - 1];
      assert (a + b)[..|a + b| - 1] == a + front;
      FolderRolesConcat(a, front, folderId);
    }
  }

  /** A role is in a folder's list as often as it was fetched times the occurrences of the folder in it. */
  lemma {:induction false} FolderRolesCount(fetched: seq<Role>, folderId: int, role: Role)
    ensures multiset(FolderRoles(fetched, folderId))[role] == Count(fetched, role) * Count(role.folderIDs, folderId)
  {
    if fetched == [] {
    } else {
      var front, last := fetched[..|fetched| - 1], fetched[|fetched| - 1];
      var m, k := Count(front, role), Count(role.folderIDs, folderId);
      assert fetched == front + [last];
      FolderCountNext(front, last, folderId, role);
      calc {
        multiset(FolderRoles(fetched, folderId))[role];
        multiset(FolderRoles(front, folderId))[role] + if last == role then k else 0;
        { FolderRolesCount(front, folderId, role); }
        m * k + if last == role then k else 0;
        { ProductNext(m, k); }
        (if last == role then m + 1 else m) * k;
        Count(fetched, role) * k;
      }
    }
  }

  lemma FolderCountNext(front: seq<Role>, last: Role, folderId: int, role: Role)
    ensures multiset(FolderRoles(front + [last], folderId))[role] ==
            multiset(FolderRoles(front, folderId))[role] + if last == role then Count(role.folderIDs, folderId) else 0
  {
    Appended(front, last);
    RepeatCount(last, Count(last.folderIDs, folderId), role);
  }

  lemma ProductNext(m: nat, k: nat)
    ensures (m + 1) * k == m * k + k
  {
  }

  lemma {:induction false} RepeatCount<T>(x: T, n: nat, y: T)
    ensures multiset(Repeat(x, n))[y] == if x == y then n else 0
  {
    if n == 0 {
    } else {
      RepeatCount(x, n - 1, y);
    }
  }

  /** `i` is the last fetched role whose id prints to `id`. */
  ghost predicate LastWithId(fetched: seq<Role>, id: string, i: int) {
    LastHit(fetched, HasId(id), i)
  }

  /** A lookup by id finds a role if and only if some fetched role has that id, and then the last such. */
  lemma LastRoleMeaning(fetched: seq<Role>, id: string)
    ensures LastRole(fetched, id).Some? <==> exists i :: 0 <= i < |fetched| && Itoa(fetched[i].id) == id
    ensures LastRole(fetched, id).Some? ==>
              exists i :: LastWithId(fetched, id, i) && LastRole(fetched, id) == Some(fetched[i])
    ensures forall i :: LastWithId(fetched, id, i) ==> LastRole(fetched, id) == Some(fetched[i])
  {
    FindLastMeaning(fetched, HasId(id));
    assert forall i :: 0 <= i < |fetched| ==> (HasId(id)(fetched[i]) <==> Itoa(fetched[i].id) == id);
  }

  ghost predicate DistinctRoleIds(fetched: seq<Role>) {
    forall i, j :: 0 <= i < j < |fetched| ==> fetched[i].id != fetched[j].id
  }

  /** Every fetched role is found by its id; with distinct ids, the role found is that role. */
  lemma FetchedRoleIsFound(fetched: seq<Role>, i: nat)
    requires i < |fetched|
    ensures LastRole(fetched, Itoa(fetched[i].id)).Some?
    ensures LastRole(fetched, Itoa(fetched[i].id)).value.id == fetched[i].id
    ensures DistinctRoleIds(fetched) ==> LastRole(fetched, Itoa(fetched[i].id)) == Some(fetched[i])
  {
    var id := Itoa(fetched[i].id);
    LastRoleMeaning(fetched, id);
    var j :| LastWithId(fetched, id, j) && LastRole(fetched, id) == Some(fetched[j]);
    ItoaInjective(fetched[j].id, fetched[i].id);
  }
}
