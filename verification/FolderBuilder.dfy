/**
 Folder grants: a state machine whose whole state travels in the page token.

 The first call plans the two kinds of grants to enumerate, every later call takes one
 planned state off the bag and emits its grants, and the empty token ends the run.
 */
module FolderBuilder {
  import opened GoResult
  import opened Strconv
  import opened Sequences
  import opened Models
  import opened GenBag
  import opened CollaboratorCache
  import opened CollaboratorLookups
  import opened RoleCache

  datatype PageState = PageState(resourceTypeID: string, page: int)

  datatype FolderGrant =
    | RoleAccess(folder: string, role: int)
    | CollaboratorAccess(folder: string, collaborator: int)

  const COLLABORATOR_TYPE := "collaborator"
  const ROLE_TYPE := "role"

  const COLLABORATOR_STATE := PageState(COLLABORATOR_TYPE, 0)
  const ROLE_STATE := PageState(ROLE_TYPE, 0)

  function RoleGrants(folder: string, roles: seq<Role>): (grants: seq<FolderGrant>)
    ensures |grants| == |roles| && forall i :: 0 <= i < |roles| ==> grants[i] == RoleAccess(folder, roles[i].id)
  {
    seq(|roles|, i requires 0 <= i < |roles| => RoleAccess(folder, roles[i].id))
  }

  function CollaboratorGrants(folder: string, users: seq<CompoundUser>): seq<FolderGrant> {
    if users == [] then []
    else CollaboratorGrants(folder, users[..|users| - 1]) + [CollaboratorAccess(folder, users[|users| - 1].user.id)]
  }

  // ---------- The plan behind a token ----------

  /** One call of a run: plan the enumeration, or visit a planned state. */
  datatype Call = Plan | Visit(state: PageState)

  function Visits(stack: seq<PageState>): (calls: seq<Call>)
    ensures |calls| == |stack|
  {
    if stack == [] then [] else [Visit(stack[|stack| - 1])] + Visits(stack[..|stack| - 1])
  }

  /**
   The calls a run makes when it starts with this bag: without a current state it first
   plans the two kinds of grants, on top of whatever states the bag still holds.
   */
  function Calls(bag: BagState<PageState>): seq<Call> {
    if bag.current.None?
    then [Plan] + Visits(bag.states + [COLLABORATOR_STATE, ROLE_STATE])
    else Visits(bag.Stack())
  }

  function After(bag: BagState<PageState>): BagState<PageState> {
    if bag.current.None? then bag.Pushed(COLLABORATOR_STATE).Pushed(ROLE_STATE) else bag.Popped()
  }

  /** A run from the start: plan, then the role grants, then the collaborator grants. */
  lemma CallsFromStart()
    ensures Calls(BagState([], None)) == [Plan, Visit(ROLE_STATE), Visit(COLLABORATOR_STATE)]
  {
    var planned := [COLLABORATOR_STATE, ROLE_STATE];
    assert [] + planned == planned;
    assert planned[..1] == [COLLABORATOR_STATE];
    assert [COLLABORATOR_STATE][..0] == [];
    assert Visits([COLLABORATOR_STATE]) == [Visit(COLLABORATOR_STATE)];
    assert Visits(planned) == [Visit(ROLE_STATE)] + Visits(planned[..1]);
  }

  /** Every call does the first of the calls left and leaves the rest; a run is over when none is left. */
  lemma CallsNext(bag: BagState<PageState>)
    ensures Calls(bag) != []
    ensures Calls(bag)[0] == if bag.current.None? then Plan else Visit(bag.current.value)
    ensures After(bag).Stack() == [] ==> Calls(bag)[1..] == []
    ensures After(bag).Stack() != [] ==> Calls(bag)[1..] == Calls(After(bag))
  {
    if bag.current.None? {
      assert bag.Pushed(COLLABORATOR_STATE) == BagState(bag.states, Some(COLLABORATOR_STATE));
      assert After(bag) == BagState(bag.states + [COLLABORATOR_STATE], Some(ROLE_STATE));
      assert After(bag).Stack() == bag.states + [COLLABORATOR_STATE, ROLE_STATE];
    } else {
      BagIsStack(bag, bag.current.value);
      assert Calls(bag)[1..] == Visits(bag.Stack()[..|bag.Stack()| - 1]);
    }
  }

  // ---------- What the calls may answer ----------

  /** What the two caches hold for a folder; nothing when its id is not a number. */
  datatype FolderView = FolderView(users: map<string, CompoundUser>, roles: seq<Role>)

  /** What one call may emit; the collaborators come in the order of a map range. */
  ghost predicate Emits(view: FolderView, folder: string, call: Call, grants: seq<FolderGrant>) {
    match call
    case Plan => grants == []
    case Visit(state) =>
      if state.resourceTypeID == COLLABORATOR_TYPE then
        Atoi(folder).Ok? && exists users :: Enumerates(users, view.users) && grants == CollaboratorGrants(folder, users)
      else if state.resourceTypeID == ROLE_TYPE then
        Atoi(folder).Ok? && grants == RoleGrants(folder, view.roles)
      else grants == []
  }

  /** The calls that need the folder id as a number. */
  predicate NeedsNumber(call: Call) {
    call.Visit? && call.state.resourceTypeID in {COLLABORATOR_TYPE, ROLE_TYPE}
  }

  function CallOf(bag: BagState<PageState>): Call {
    if bag.current.None? then Plan else Visit(bag.current.value)
  }

  /** What one call on this bag may answer. */
  ghost predicate Answers(view: FolderView, codec: Codec<PageState>, folder: string, bag: BagState<PageState>,
                          r: Result<(seq<FolderGrant>, string)>)
  {
    if NeedsNumber(CallOf(bag)) && Atoi(folder).Err? then r == Err(NotANumber)
    else r.Ok? && Emits(view, folder, CallOf(bag), r.value.0) && r.value.1 == Marshalled(codec, After(bag))
  }

  /**
   The answers case by case. Without a current state the call emits nothing and puts a
   collaborator state and, on top, a role state on what the bag holds. With one it emits by
   the type of the state, and the state below becomes the current one.
   */
  lemma AnswersMeaning(view: FolderView, codec: Codec<PageState>, folder: string, bag: BagState<PageState>,
                       r: Result<(seq<FolderGrant>, string)>)
    requires Answers(view, codec, folder, bag, r)
    ensures bag.current.None? ==>
              r == Ok(([], codec.encode(BagState(bag.states + [PageState("collaborator", 0)],
                                                 Some(PageState("role", 0))))))
    ensures bag.current.Some? && bag.current.value.resourceTypeID in {"collaborator", "role"} && Atoi(folder).Err? ==>
              r == Err(NotANumber)
    ensures bag.current.Some? && bag.current.value.resourceTypeID !in {"collaborator", "role"} ==>
              r.Ok? && r.value.0 == []
    ensures bag.current.Some? && bag.current.value.resourceTypeID == "role" && Atoi(folder).Ok? ==>
              && r.Ok? && |r.value.0| == |view.roles|
              && forall i :: 0 <= i < |view.roles| ==> r.value.0[i] == RoleAccess(folder, view.roles[i].id)
    ensures bag.current.Some? && bag.current.value.resourceTypeID == "collaborator" && Atoi(folder).Ok? ==>
              && r.Ok?
              && exists users: seq<CompoundUser> :: Enumerates(users, view.users) && |r.value.0| == |users| &&
                   forall i :: 0 <= i < |users| ==> r.value.0[i] == CollaboratorAccess(folder, users[i].user.id)
    ensures bag.current.Some? && r.Ok? ==>
              r.value.1 == if bag.states == [] then ""
                           else codec.encode(BagState(bag.states[..|bag.states| - 1],
                                                      Some(bag.states[|bag.states| - 1])))
  {
    if bag.current.Some? && bag.current.value.resourceTypeID == "collaborator" && Atoi(folder).Ok? {
      var users :| Enumerates(users, view.users) && r.value.0 == CollaboratorGrants(folder, users);
      CollaboratorGrantsAt(folder, users);
    }
  }

  /** The first calls of a run were answered with these pages. */
  ghost predicate Synced(view: FolderView, folder: string, calls: seq<Call>, pages: seq<seq<FolderGrant>>) {
    |pages| <= |calls| && forall i :: 0 <= i < |pages| ==> Emits(view, folder, calls[i], pages[i])
  }

  /** In the middle of a run: the first calls are answered and the token stands for the rest. */
  ghost predicate Ongoing(view: FolderView, codec: Codec<PageState>, folder: string, calls: seq<Call>,
                          pages: seq<seq<FolderGrant>>, bag: BagState<PageState>, token: string)
  {
    && Unmarshalled(codec, token) == Some(bag)
    && Synced(view, folder, calls, pages) && calls[|pages|..] == Calls(bag)
  }

  /** At the end of a run: all calls are answered, or the next one needs a number the folder id is not. */
  ghost predicate Ended(view: FolderView, folder: string, calls: seq<Call>, pages: seq<seq<FolderGrant>>,
                        error: Option<Error>)
  {
    && Synced(view, folder, calls, pages)
    && (error.None? ==> |pages| == |calls|)
    && (error.Some? ==> error == Some(NotANumber) && Atoi(folder).Err? &&
                        |pages| < |calls| && NeedsNumber(calls[|pages|]))
  }

  lemma SyncedNext(view: FolderView, folder: string, calls: seq<Call>, pages: seq<seq<FolderGrant>>,
                   page: seq<FolderGrant>)
    requires Synced(view, folder, calls, pages) && |pages| < |calls| && Emits(view, folder, calls[|pages|], page)
    ensures Synced(view, folder, calls, pages + [page])
  {
  }

  lemma FirstCall(view: FolderView, codec: Codec<PageState>, folder: string, calls: seq<Call>,
                  pages: seq<seq<FolderGrant>>, bag: BagState<PageState>, token: string)
    requires Ongoing(view, codec, folder, calls, pages, bag, token)
    ensures |pages| < |calls| && calls[|pages|] == CallOf(bag)
  {
    CallsNext(bag);
    assert calls[|pages|] == calls[|pages|..][0];
  }

  /** An answered call ends the run or leaves it going with the next token. */
  lemma AfterCall(view: FolderView, codec: Codec<PageState>, folder: string, calls: seq<Call>,
                  pages: seq<seq<FolderGrant>>, bag: BagState<PageState>, token: string,
                  page: seq<FolderGrant>, next: string)
    requires Lawful(codec) && Ongoing(view, codec, folder, calls, pages, bag, token)
    requires Emits(view, folder, CallOf(bag), page) && next == Marshalled(codec, After(bag))
    ensures next == "" ==> Ended(view, folder, calls, pages + [page], None)
    ensures next != "" ==>
              Ongoing(view, codec, folder, calls, pages + [page], After(bag), next) && |pages + [page]| <= |calls|
  {
    FirstCall(view, codec, folder, calls, pages, bag, token);
    SyncedNext(view, folder, calls, pages, page);
    CallsNext(bag);
    TokenRoundTrip(codec, After(bag));
    assert calls[|pages| + 1..] == calls[|pages|..][1..];
  }

  /** One turn of the driver, from what the call on its bag may answer. */
  lemma TurnOfRun(view: FolderView, codec: Codec<PageState>, folder: string, calls: seq<Call>,
                  pages: seq<seq<FolderGrant>>, bag: BagState<PageState>, token: string,
                  r: Result<(seq<FolderGrant>, string)>)
    requires Lawful(codec) && Ongoing(view, codec, folder, calls, pages, bag, token)
    requires Answers(view, codec, folder, bag, r)
    ensures r.Err? ==> Ended(view, folder, calls, pages, Some(r.error))
    ensures r.Ok? && r.value.1 == "" ==> Ended(view, folder, calls, pages + [r.value.0], None)
    ensures r.Ok? && r.value.1 != "" ==>
              && Ongoing(view, codec, folder, calls, pages + [r.value.0], After(bag), r.value.1)
              && |pages| + 1 <= |calls|
  {
    FirstCall(view, codec, folder, calls, pages, bag, token);
    if r.Ok? {
      AfterCall(view, codec, folder, calls, pages, bag, token, r.value.0, r.value.1);
    }
  }

  class FolderBuilder {
    const cache: CollaboratorCache
    const roleCache: RoleCache
    const codec: Codec<PageState>

    constructor (cache: CollaboratorCache, roleCache: RoleCache, codec: Codec<PageState>)
      ensures this.cache == cache && this.roleCache == roleCache && this.codec == codec
    {
      this.cache := cache;
      this.roleCache := roleCache;
      this.codec := codec;
    }

    ghost function View(folder: string): FolderView
      reads cache, roleCache, cache.folderToUser, cache.privilegeToUser, cache.roleToUser
    {
      if Atoi(folder).Err? then FolderView(map[], [])
      else FolderView(cache.EntriesOf(FolderKey(Atoi(folder).value)), roleCache.ByFolder(Atoi(folder).value))
    }

    /** One call: decode the token, do the first call the bag stands for, encode what is left. */
    method Grants(folder: string, token: string) returns (r: Result<(seq<FolderGrant>, string)>)
      ensures if Unmarshalled(codec, token).None? then r == Err(CorruptPageToken)
              else Answers(View(folder), codec, folder, Unmarshalled(codec, token).value, r)
      ensures token != "" && codec.decode(token).None? ==> r == Err(CorruptPageToken)
      ensures token != "" && codec.decode(token).Some? ==>
                Answers(View(folder), codec, folder, codec.decode(token).value, r)
      ensures token == "" ==> Answers(View(folder), codec, folder, BagState([], None), r)
    {
      var bag := new GenBag<PageState>();
      var error := bag.Unmarshal(codec, token);
      if error.Some? {
        return Err(CorruptPageToken);
      }
      var current := bag.Current();
      if current == null {
        var next := PlanRun(bag);
        r := Ok(([], next));
      } else {
        r := VisitTop(folder, bag);
      }
    }

    /** The call without a current state: plans the two kinds of grants. */
    method PlanRun(bag: GenBag<PageState>) returns (next: string)
      requires bag.Valid() && bag.Value().current.None?
      modifies bag, bag.buffer
      ensures next == Marshalled(codec, After(old(bag.Value())))
    {
      bag.Push(COLLABORATOR_STATE);
      bag.Push(ROLE_STATE);
      next := bag.Marshal(codec);
    }

    /** The call with a current state: takes it off the bag and emits its grants. */
    method VisitTop(folder: string, bag: GenBag<PageState>) returns (r: Result<(seq<FolderGrant>, string)>)
      requires bag.Valid() && bag.Value().current.Some?
      modifies bag
      ensures Answers(View(folder), codec, folder, old(bag.Value()), r)
    {
      var state := bag.Pop();
      var emitted := Visited(folder, state.value);
      if emitted.Err? {
        return Err(emitted.error);
      }
      var next := bag.Marshal(codec);
      r := Ok((emitted.value, next));
    }

    /** The grants of one planned state. */
    method Visited(folder: string, state: PageState) returns (r: Result<seq<FolderGrant>>)
      ensures if NeedsNumber(Visit(state)) && Atoi(folder).Err? then r == Err(NotANumber)
              else r.Ok? && Emits(View(folder), folder, Visit(state), r.value)
    {
      var rv: seq<FolderGrant> := [];
      if state.resourceTypeID == COLLABORATOR_TYPE {
        var folderId := Atoi(folder);
        if folderId.Err? {
          return Err(NotANumber);
        }
        var users := cache.GetUsersByFolder(folderId.value);
        for i := 0 to |users|
          invariant rv == CollaboratorGrants(folder, users[..i])
        {
          assert users[..i + 1][..i] == users[..i];
          rv := rv + [CollaboratorAccess(folder, users[i].user.id)];
        }
        assert users[..|users|] == users;
      }
      if state.resourceTypeID == ROLE_TYPE {
        var folderId := Atoi(folder);
        if folderId.Err? {
          return Err(NotANumber);
        }
        var roles := roleCache.GetRoleByFolder(folderId.value);
        for i := 0 to |roles|
          invariant rv == RoleGrants(folder, roles[..i])
        {
          rv := rv + [RoleAccess(folder, roles[i].id)];
        }
        assert roles[..|roles|] == roles;
      }
      r := Ok(rv);
    }

    /**
     The sync driver: calls until the token is empty. From any token it makes exactly the
     calls the token stands for, in order, one page of grants per call, unless a call that
     needs the folder id as a number does not get one.
     */
    method Sync(folder: string, start: string) returns (pages: seq<seq<FolderGrant>>, error: Option<Error>)
      requires Lawful(codec)
      ensures Unmarshalled(codec, start).None? ==> pages == [] && error == Some(CorruptPageToken)
      ensures Unmarshalled(codec, start).Some? ==>
                Ended(View(folder), folder, Calls(Unmarshalled(codec, start).value), pages, error)
    {
      if Unmarshalled(codec, start).None? {
        var r := Grants(folder, start);
        return [], Some(r.error);
      }
      ghost var bag := Unmarshalled(codec, start).value;
      pages, error := SyncFrom(folder, start, View(folder), Calls(bag), bag);
    }

    /** The driver's loop. */
    method SyncFrom(folder: string, start: string, ghost view: FolderView, ghost calls: seq<Call>,
                    ghost first: BagState<PageState>)
      returns (pages: seq<seq<FolderGrant>>, error: Option<Error>)
      requires Lawful(codec) && view == View(folder) && Ongoing(view, codec, folder, calls, [], first, start)
      ensures Ended(view, folder, calls, pages, error)
    {
      pages := [];
      ghost var bag := first;
      var token := start;
      while true
        invariant |pages| <= |calls| && Ongoing(view, codec, folder, calls, pages, bag, token)
        decreases |calls| - |pages|
      {
        var r := Grants(folder, token);
        TurnOfRun(view, codec, folder, calls, pages, bag, token, r);
        if r.Err? {
          return pages, Some(r.error);
        }
        pages, token, bag := pages + [r.value.0], r.value.1, After(bag);
        if token == "" {
          return pages, None;
        }
      }
    }
  }

  // ---------- What a run emits ----------

  /** A token with k pending states leads to exactly k calls; one without a current state to two more and the plan. */
  lemma CallCount(bag: BagState<PageState>)
    ensures |Calls(bag)| == if bag.current.Some? then |bag.Stack()| else 3 + |bag.states|
  {
  }

  lemma {:induction false} CollaboratorGrantsConcat(folder: string, a: seq<CompoundUser>, b: seq<CompoundUser>)
    ensures CollaboratorGrants(folder, a + b) == CollaboratorGrants(folder, a) + CollaboratorGrants(folder, b)
  {
    if b == [] {
      assert a + b == a;
    } else {
      var front := b[..|b| - 1];
      assert (a + b)[..|a + b| - 1] == a + front;
      CollaboratorGrantsConcat(folder, a, front);
    }
  }

  lemma CollaboratorGrantsRemoveAt(folder: string, users: seq<CompoundUser>, i: nat, rest: seq<CompoundUser>)
    requires i < |users| && rest == users[..i] + users[i + 1..]
    ensures multiset(CollaboratorGrants(folder, users)) ==
            multiset{CollaboratorAccess(folder, users[i].user.id)} + multiset(CollaboratorGrants(folder, rest))
  {
    assert users == (users[..i] + [users[i]]) + users[i + 1..];
    CollaboratorGrantsConcat(folder, users[..i] + [users[i]], users[i + 1..]);
    CollaboratorGrantsConcat(folder, users[..i], users[i + 1..]);
    assert (users[..i] + [users[i]])[..i] == users[..i];
  }

  lemma {:induction false} CollaboratorGrantsPermutation(folder: string, a: seq<CompoundUser>, b: seq<CompoundUser>)
    requires multiset(a) == multiset(b)
    ensures multiset(CollaboratorGrants(folder, a)) == multiset(CollaboratorGrants(folder, b))
    decreases |a|
  {
    if a == [] {
      PermutationLength(a, b);
    } else {
      var i := PermutationSplit(a, b);
      var restA, restB := a[1..], b[..i] + b[i + 1..];
      CollaboratorGrantsRemoveAt(folder, a, 0, restA);
      CollaboratorGrantsRemoveAt(folder, b, i, restB);
      CollaboratorGrantsPermutation(folder, restA, restB);
    }
  }

  lemma {:induction false} CollaboratorGrantsAt(folder: string, users: seq<CompoundUser>)
    ensures |CollaboratorGrants(folder, users)| == |users|
    ensures forall i :: 0 <= i < |users| ==>
                          CollaboratorGrants(folder, users)[i] == CollaboratorAccess(folder, users[i].user.id)
  {
    if users == [] {
    } else {
      CollaboratorGrantsAt(folder, users[..|users| - 1]);
    }
  }

  /** One grant per user, for exactly the users; with distinct ids none repeats. */
  lemma CollaboratorGrantsMeaning(folder: string, users: seq<CompoundUser>)
    ensures forall g :: g in CollaboratorGrants(folder, users) <==>
                        g.CollaboratorAccess? && g.folder == folder &&
                        exists u :: u in users && u.user.id == g.collaborator
    ensures DistinctIds(users) ==> Distinct(CollaboratorGrants(folder, users))
  {
    var grants := CollaboratorGrants(folder, users);
    CollaboratorGrantsAt(folder, users);
    forall u | u in users ensures CollaboratorAccess(folder, u.user.id) in grants {
      var i :| 0 <= i < |users| && users[i] == u;
      assert grants[i] == CollaboratorAccess(folder, u.user.id);
    }
    forall g | g in grants
      ensures g.CollaboratorAccess? && g.folder == folder && exists u :: u in users && u.user.id == g.collaborator
    {
      var i :| 0 <= i < |grants| && grants[i] == g;
      assert users[i] in users;
    }
  }

  /**
   A full run over a folder, on caches built from the remote data, is three calls: nothing,
   then every role grant of the folder in order, then one collaborator grant for each listed
   collaborator that holds the folder, and no other.
   */
  lemma FullRun(builder: FolderBuilder, folder: string, pages: seq<seq<FolderGrant>>, fetched: seq<Role>)
    requires Synced(builder.View(folder), folder, Calls(BagState([], None)), pages)
    requires |pages| == |Calls(BagState([], None))|
    requires builder.roleCache.IndexedBy(fetched)
    requires builder.cache.IndexedBy(Users(builder.cache.client.remote))
    requires BuildError(builder.cache.client.remote).None?
    requires DistinctMembers(builder.cache.client.remote.members.value)
    ensures |pages| == 3 && Atoi(folder).Ok?
    ensures pages[0] == []
    ensures pages[1] == RoleGrants(folder, FolderRoles(fetched, Atoi(folder).value))
    ensures multiset(pages[2]) == multiset(CollaboratorGrants(folder,
              Holders(builder.cache.env, AllUsers(builder.cache.client.remote), FolderKey(Atoi(folder).value))))
    ensures Distinct(pages[2])
    ensures forall g :: g in pages[2] <==>
                        g.CollaboratorAccess? && g.folder == folder &&
                        exists u :: u in AllUsers(builder.cache.client.remote) && u.user.id == g.collaborator &&
                                    FolderKey(Atoi(folder).value) in KeysOf(builder.cache.env, u)
  {
    CallsFromStart();
    var calls := Calls(BagState([], None));
    assert Emits(builder.View(folder), folder, calls[0], pages[0]);
    assert Emits(builder.View(folder), folder, calls[1], pages[1]);
    assert Emits(builder.View(folder), folder, calls[2], pages[2]);
    var folderId := Atoi(folder).value;
    assert builder.roleCache.ByFolder(folderId) == FolderRoles(fetched, folderId);
    var users :| Enumerates(users, builder.cache.EntriesOf(FolderKey(folderId))) &&
      pages[2] == CollaboratorGrants(folder, users);
    LookupAfterBuild(builder.cache, FolderKey(folderId), users);
    CollaboratorGrantsMeaning(folder, users);
    CollaboratorGrantsPermutation(folder, users,
      Holders(builder.cache.env, AllUsers(builder.cache.client.remote), FolderKey(folderId)));
  }
}
