/**
 Workato privileges: naming, the catalogue, and the resolution of requested privileges.

 The catalogue is a parameter. Go ranges over maps in an arbitrary order, so the loops
 pick their next key nondeterministically and the contracts hold for every choice.
 */
module Privileges {
  import opened GoResult
  import opened Sequences

  datatype Privilege = Privilege(id: string, description: string)

  datatype CompoundPrivilege = CompoundPrivilege(resource: string, privilege: Privilege) {
    function Id(): string {
      PrivilegeId(resource, privilege.id)
    }
  }

  type Catalogue = map<string, seq<Privilege>>
  type Request = map<string, seq<string>>

  // ---------- Names ----------

  function PrivilegeId(group: string, privilege: string): string {
    group + "-" + privilege
  }

  /** The parts before and after the last hyphen. */
  function SplitAtLastHyphen(s: string): Option<(string, string)> {
    if s == [] then None
    else if s[|s| - 1] == '-' then Some((s[..|s| - 1], ""))
    else match SplitAtLastHyphen(s[..|s| - 1])
      case None => None
      case Some((group, privilege)) => Some((group, privilege + [s[|s| - 1]]))
  }

  lemma {:induction false} SplitPrivilege(s: string)
    ensures SplitAtLastHyphen(s).Some? ==>
              var (group, privilege) := SplitAtLastHyphen(s).value;
              s == PrivilegeId(group, privilege) && '-' !in privilege
  {
    if s == [] {
    } else if s[|s| - 1] != '-' {
      SplitPrivilege(s[..|s| - 1]);
    }
  }

  lemma IdOfLongerName(group: string, front: string, last: char)
    ensures var id := PrivilegeId(group, front + [last]);
            id != [] && id[|id| - 1] == last && id[..|id| - 1] == PrivilegeId(group, front)
  {
  }

  lemma {:induction false} SplitOfHyphenFree(group: string, privilege: string)
    requires '-' !in privilege
    ensures SplitAtLastHyphen(PrivilegeId(group, privilege)) == Some((group, privilege))
  {
    if privilege == [] {
      assert PrivilegeId(group, privilege) == group + "-";
    } else {
      var front, last := privilege[..|privilege| - 1], privilege[|privilege| - 1];
      assert privilege == front + [last];
      SplitOfHyphenFree(group, front);
      IdOfLongerName(group, front, last);
    }
  }

  /** An id splits back into its two names if and only if the privilege name has no hyphen. */
  lemma PrivilegeIdSplits(group: string, privilege: string)
    ensures SplitAtLastHyphen(PrivilegeId(group, privilege)) == Some((group, privilege)) <==> '-' !in privilege
  {
    if '-' !in privilege {
      SplitOfHyphenFree(group, privilege);
    } else {
      SplitPrivilege(PrivilegeId(group, privilege));
    }
  }

  /** The second group extends the first by a hyphen and a part `x` that the first privilege name starts with. */
  ghost predicate Shifted(g: string, p: string, g': string, p': string) {
    exists x :: g' == PrivilegeId(g, x) && p == PrivilegeId(x, p')
  }

  lemma ShiftedPairsCollide(g: string, p: string, g': string, p': string)
    requires Shifted(g, p, g', p')
    ensures PrivilegeId(g, p) == PrivilegeId(g', p')
  {
    var x :| g' == PrivilegeId(g, x) && p == PrivilegeId(x, p');
    assert g + "-" + (x + "-" + p') == (g + "-" + x) + "-" + p';
  }

  lemma ShorterGroupIsShifted(g: string, p: string, g': string, p': string)
    requires PrivilegeId(g, p) == PrivilegeId(g', p') && |g| < |g'|
    ensures Shifted(g, p, g', p')
  {
    var id, x := PrivilegeId(g, p), g'[|g| + 1..];
    assert g == id[..|g|] == g'[..|g|] && id[|g|] == '-' == g'[|g|];
    assert g' == PrivilegeId(g, x);
    assert p == id[|g| + 1..] == PrivilegeId(x, p');
  }

  /** Two pairs have one id if and only if they are the same pair or one is shifted against the other. */
  lemma PrivilegeIdsEqual(g: string, p: string, g': string, p': string)
    ensures PrivilegeId(g, p) == PrivilegeId(g', p') <==>
            (g == g' && p == p') || Shifted(g, p, g', p') || Shifted(g', p', g, p)
  {
    if Shifted(g, p, g', p') {
      ShiftedPairsCollide(g, p, g', p');
    } else if Shifted(g', p', g, p) {
      ShiftedPairsCollide(g', p', g, p);
    } else if PrivilegeId(g, p) == PrivilegeId(g', p') {
      var id := PrivilegeId(g, p);
      if |g| < |g'| {
        ShorterGroupIsShifted(g, p, g', p');
      } else if |g'| < |g| {
        ShorterGroupIsShifted(g', p', g, p);
      } else {
        assert g == id[..|g|] == g' && p == id[|g| + 1..] == p';
      }
    }
  }

  /** Corollary: hyphens in group names alone never make two ids collide. */
  lemma PrivilegeIdInjective(g: string, p: string, g': string, p': string)
    requires '-' !in p && '-' !in p'
    requires PrivilegeId(g, p) == PrivilegeId(g', p')
    ensures g == g' && p == p'
  {
    SplitOfHyphenFree(g, p);
    SplitOfHyphenFree(g', p');
  }

  /** A shifted pair: the part "prem" moves from the privilege name to the group name. */
  lemma PrivilegeIdCollides()
    ensures Shifted("On", "prem-read", "On-prem", "read")
    ensures PrivilegeId("On", "prem-read") == PrivilegeId("On-prem", "read")
  {
    assert "On-prem" == PrivilegeId("On", "prem") && "prem-read" == PrivilegeId("prem", "read");
  }

  // ---------- Resolving one request ----------

  /** The first privilege of a catalogue entry with the given id. */
  function Lookup(list: seq<Privilege>, id: string): Option<Privilege> {
    if list == [] then None
    else if list[0].id == id then Some(list[0])
    else Lookup(list[1..], id)
  }

  function Resolve(catalogue: Catalogue, resource: string, id: string): Option<CompoundPrivilege> {
    if resource !in catalogue then None
    else match Lookup(catalogue[resource], id)
      case None => None
      case Some(p) => Some(CompoundPrivilege(resource, p))
  }

  /** `i` is the first place with the id. */
  ghost predicate FirstWithId(list: seq<Privilege>, id: string, i: int) {
    0 <= i < |list| && list[i].id == id && forall j :: 0 <= j < i ==> list[j].id != id
  }

  method IndexFunc(list: seq<Privilege>, id: string) returns (index: int)
    ensures index < 0 <==> Lookup(list, id).None?
    ensures index >= 0 ==> index < |list| && Lookup(list, id) == Some(list[index])
    ensures if index < 0 then forall j :: 0 <= j < |list| ==> list[j].id != id else FirstWithId(list, id, index)
  {
    for i := 0 to |list|
      invariant Lookup(list, id) == Lookup(list[i..], id)
      invariant forall j :: 0 <= j < i ==> list[j].id != id
    {
      if list[i].id == id {
        return i;
      }
      assert list[i..][1..] == list[i + 1..];
    }
    index := -1;
  }

  lemma {:induction false} LookupMeaning(list: seq<Privilege>, id: string)
    ensures Lookup(list, id).None? <==> forall p :: p in list ==> p.id != id
    ensures Lookup(list, id).Some? ==> Lookup(list, id).value in list && Lookup(list, id).value.id == id
  {
    if list == [] {
    } else {
      LookupMeaning(list[1..], id);
      assert list == [list[0]] + list[1..];
    }
  }

  lemma {:induction false} LookupIsFirst(list: seq<Privilege>, id: string, i: int)
    requires FirstWithId(list, id, i)
    ensures Lookup(list, id) == Some(list[i])
  {
    if i == 0 {
    } else {
      assert forall j :: 0 <= j < |list| - 1 ==> list[1..][j] == list[j + 1];
      LookupIsFirst(list[1..], id, i - 1);
    }
  }

  lemma {:induction false} FirstExists(list: seq<Privilege>, p: Privilege) returns (i: nat)
    requires p in list
    ensures FirstWithId(list, p.id, i)
  {
    if list[0].id == p.id {
      i := 0;
    } else {
      assert list == [list[0]] + list[1..];
      var rest := FirstExists(list[1..], p);
      i := rest + 1;
      assert forall j :: 0 < j < |list| ==> list[j] == list[1..][j - 1];
    }
  }

  // ---------- Sums over the keys of a map ----------

  ghost function Sum(sizes: map<string, nat>, keys: set<string>): nat
    requires keys <= sizes.Keys
  {
    if keys == {} then 0
    else
      var k :| k in keys;
      sizes[k] + Sum(sizes, keys - {k})
  }

  lemma {:induction false} SumAdd(sizes: map<string, nat>, keys: set<string>, k: string)
    requires keys <= sizes.Keys && k in keys
    ensures Sum(sizes, keys) == sizes[k] + Sum(sizes, keys - {k})
  {
    var first :| first in keys && Sum(sizes, keys) == sizes[first] + Sum(sizes, keys - {first});
    if first != k {
      SumAdd(sizes, keys - {first}, k);
      SumAdd(sizes, keys - {k}, first);
      assert keys - {first} - {k} == keys - {k} - {first};
    }
  }

  /** A sum of parts is at most the sum of wholes, and reaches it only when every part is whole. */
  lemma {:induction false} SumCompare(parts: map<string, nat>, wholes: map<string, nat>, keys: set<string>)
    requires keys <= parts.Keys && keys <= wholes.Keys
    requires forall k :: k in keys ==> parts[k] <= wholes[k]
    ensures Sum(parts, keys) <= Sum(wholes, keys)
    ensures Sum(parts, keys) == Sum(wholes, keys) <==> forall k :: k in keys ==> parts[k] == wholes[k]
  {
    if keys == {} {
    } else {
      var k :| k in keys;
      SumAdd(parts, keys, k);
      SumAdd(wholes, keys, k);
      SumCompare(parts, wholes, keys - {k});
    }
  }

  // ---------- Resolving a whole request ----------

  /** How often a resolution returns `x`: once per time its id is requested, if `x` is what that id stands for. */
  ghost function Multiplicity(catalogue: Catalogue, request: Request, x: CompoundPrivilege): nat {
    if x.resource in request && Resolve(catalogue, x.resource, x.privilege.id) == Some(x)
    then Count(request[x.resource], x.privilege.id)
    else 0
  }

  predicate Known(catalogue: Catalogue, resource: string, id: string) {
    resource in catalogue && exists p :: p in catalogue[resource] && p.id == id
  }

  ghost predicate AllKnown(catalogue: Catalogue, request: Request) {
    forall k, id :: k in request && id in request[k] ==> Known(catalogue, k, id)
  }

  function KnownCount(catalogue: Catalogue, resource: string, ids: seq<string>): nat {
    if ids == [] then 0
    else KnownCount(catalogue, resource, ids[..|ids| - 1]) +
         if Resolve(catalogue, resource, ids[|ids| - 1]).Some? then 1 else 0
  }

  lemma ResolveMeaning(catalogue: Catalogue, resource: string, id: string)
    ensures Resolve(catalogue, resource, id).Some? <==> Known(catalogue, resource, id)
  {
    if resource in catalogue {
      LookupMeaning(catalogue[resource], id);
    }
  }

  lemma {:induction false} KnownCountMeaning(catalogue: Catalogue, resource: string, ids: seq<string>)
    ensures KnownCount(catalogue, resource, ids) <= |ids|
    ensures KnownCount(catalogue, resource, ids) == |ids| <==> forall id :: id in ids ==> Known(catalogue, resource, id)
  {
    if ids == [] {
    } else {
      var front, last := ids[..|ids| - 1], ids[|ids| - 1];
      KnownCountMeaning(catalogue, resource, front);
      assert ids == front + [last];
      ResolveMeaning(catalogue, resource, last);
      assert last in ids;
    }
  }

  ghost function RequestedSizes(request: Request): map<string, nat> {
    map k | k in request :: |request[k]|
  }

  ghost function KnownSizes(catalogue: Catalogue, request: Request): map<string, nat> {
    map k | k in request :: KnownCount(catalogue, k, request[k])
  }

  /** Comparing the two lengths decides whether everything requested is known. */
  lemma LengthsAgreeIffAllKnown(catalogue: Catalogue, request: Request)
    ensures Sum(KnownSizes(catalogue, request), request.Keys) <= Sum(RequestedSizes(request), request.Keys)
    ensures Sum(KnownSizes(catalogue, request), request.Keys) == Sum(RequestedSizes(request), request.Keys) <==>
            AllKnown(catalogue, request)
  {
    forall k | k in request
      ensures KnownCount(catalogue, k, request[k]) <= |request[k]|
      ensures KnownCount(catalogue, k, request[k]) == |request[k]| <==>
              forall id :: id in request[k] ==> Known(catalogue, k, id)
    {
      KnownCountMeaning(catalogue, k, request[k]);
    }
    SumCompare(KnownSizes(catalogue, request), RequestedSizes(request), request.Keys);
  }

  /** `all` is what `before` held, and one entry for each known id among `ids` of the resource. */
  ghost predicate Resolving(catalogue: Catalogue, before: seq<CompoundPrivilege>, resource: string, ids: seq<string>,
                            all: seq<CompoundPrivilege>)
  {
    && |all| == |before| + KnownCount(catalogue, resource, ids)
    && forall x :: multiset(all)[x] == multiset(before)[x] +
                   if x.resource == resource && Resolve(catalogue, resource, x.privilege.id) == Some(x)
                   then Count(ids, x.privilege.id) else 0
  }

  lemma ResolvingNext(catalogue: Catalogue, before: seq<CompoundPrivilege>, resource: string, ids: seq<string>, n: nat,
                      all: seq<CompoundPrivilege>, found: Option<CompoundPrivilege>)
    requires n < |ids| && Resolving(catalogue, before, resource, ids[..n], all)
    requires found == Resolve(catalogue, resource, ids[n])
    ensures Resolving(catalogue, before, resource, ids[..n + 1], all + if found.Some? then [found.value] else [])
  {
    assert ids[..n + 1][..n] == ids[..n];
    if resource in catalogue {
      LookupMeaning(catalogue[resource], ids[n]);
    }
  }

  method ResolveGroup(catalogue: Catalogue, before: seq<CompoundPrivilege>, resource: string, ids: seq<string>)
    returns (all: seq<CompoundPrivilege>)
    ensures Resolving(catalogue, before, resource, ids, all)
  {
    all := before;
    if resource in catalogue {
      var reference := catalogue[resource];
      for n := 0 to |ids|
        invariant Resolving(catalogue, before, resource, ids[..n], all)
      {
        ResolvingNext(catalogue, before, resource, ids, n, all, Resolve(catalogue, resource, ids[n]));
        var index := IndexFunc(reference, ids[n]);
        if index >= 0 {
          all := all + [CompoundPrivilege(resource, reference[index])];
        }
      }
      assert ids[..|ids|] == ids;
    } else {
      NothingKnown(catalogue, resource, ids);
    }
  }

  lemma {:induction false} NothingKnown(catalogue: Catalogue, resource: string, ids: seq<string>)
    requires resource !in catalogue
    ensures KnownCount(catalogue, resource, ids) == 0
  {
    if ids == [] {
    } else {
      NothingKnown(catalogue, resource, ids[..|ids| - 1]);
    }
  }

  /** The result is fixed as a multiset, and its length is the number of requested ids that are known. */
  method FindRelatedPrivileges(catalogue: Catalogue, request: Request) returns (all: seq<CompoundPrivilege>)
    ensures forall x :: multiset(all)[x] == Multiplicity(catalogue, request, x)
    ensures |all| == Sum(KnownSizes(catalogue, request), request.Keys)
  {
    all := [];
    var todo := request.Keys;
    while todo != {}
      invariant todo <= request.Keys
      invariant forall x :: multiset(all)[x] == if x.resource in todo then 0 else Multiplicity(catalogue, request, x)
      invariant |all| + Sum(KnownSizes(catalogue, request), todo) == Sum(KnownSizes(catalogue, request), request.Keys)
    {
      var key :| key in todo;
      all := ResolveGroup(catalogue, all, key, request[key]);
      SumAdd(KnownSizes(catalogue, request), todo, key);
      todo := todo - {key};
    }
  }

  /**
   Succeeds if and only if every requested pair is in the catalogue, whatever the three
   iteration orders; the third error is never returned. Which of the other two errors a
   failing request gets does depend on the order.
   */
  method FindRelatedPrivilegesErr(catalogue: Catalogue, request: Request) returns (r: Result<seq<CompoundPrivilege>>)
    ensures r.Ok? <==> AllKnown(catalogue, request)
    ensures r.Ok? ==> forall x :: multiset(r.value)[x] == Multiplicity(catalogue, request, x)
    ensures r.Ok? ==> |r.value| == Sum(RequestedSizes(request), request.Keys)
    ensures r.Err? ==> r.error == InvalidResource || r.error == PrivilegeNotFound
    ensures r == Err(InvalidResource) ==> exists k :: k in request && k !in catalogue
    ensures r == Err(PrivilegeNotFound) ==>
              exists k, id :: k in request && k in catalogue && id in request[k] && !Known(catalogue, k, id)
  {
    var count := 0;
    var todo := request.Keys;
    while todo != {}
      invariant todo <= request.Keys
      invariant count + Sum(RequestedSizes(request), todo) == Sum(RequestedSizes(request), request.Keys)
    {
      var key :| key in todo;
      count := count + |request[key]|;
      SumAdd(RequestedSizes(request), todo, key);
      todo := todo - {key};
    }

    var reference := FindRelatedPrivileges(catalogue, request);
    LengthsAgreeIffAllKnown(catalogue, request);

    if |reference| != count {
      todo := request.Keys;
      while todo != {}
        invariant todo <= request.Keys
        invariant forall k, id :: k in request && k !in todo && id in request[k] ==> Known(catalogue, k, id)
      {
        var key :| key in todo;
        if key !in catalogue {
          return Err(InvalidResource);
        }
        var resource, values := catalogue[key], request[key];
        for i := 0 to |values|
          invariant forall id :: id in values[..i] ==> Known(catalogue, key, id)
        {
          var index := IndexFunc(resource, values[i]);
          ResolveMeaning(catalogue, key, values[i]);
          if index < 0 {
            assert values[i] in request[key] && !Known(catalogue, key, values[i]);
            return Err(PrivilegeNotFound);
          }
          assert values[..i + 1] == values[..i] + [values[i]];
        }
        assert values[..|values|] == values;
        todo := todo - {key};
      }
      r := Err(InvalidPrivileges);
      assert false;
    } else {
      r := Ok(reference);
    }
  }

  // ---------- The catalogue itself ----------

  method AllCompoundPrivileges(catalogue: Catalogue) returns (all: seq<CompoundPrivilege>)
    ensures forall x :: multiset(all)[x] ==
                        if x.resource in catalogue then multiset(catalogue[x.resource])[x.privilege] else 0
  {
    all := [];
    var todo := catalogue.Keys;
    while todo != {}
      invariant todo <= catalogue.Keys
      invariant forall x :: multiset(all)[x] ==
                            if x.resource in catalogue && x.resource !in todo
                            then multiset(catalogue[x.resource])[x.privilege] else 0
    {
      var resource :| resource in todo;
      all := ListGroup(all, resource, catalogue[resource]);
      todo := todo - {resource};
    }
  }

  method ListGroup(before: seq<CompoundPrivilege>, resource: string, privileges: seq<Privilege>)
    returns (all: seq<CompoundPrivilege>)
    ensures forall x :: multiset(all)[x] == multiset(before)[x] +
                        if x.resource == resource then multiset(privileges)[x.privilege] else 0
  {
    all := before;
    for i := 0 to |privileges|
      invariant forall x :: multiset(all)[x] == multiset(before)[x] +
                            if x.resource == resource then multiset(privileges[..i])[x.privilege] else 0
    {
      assert privileges[..i + 1] == privileges[..i] + [privileges[i]];
      all := all + [CompoundPrivilege(resource, privileges[i])];
    }
    assert privileges[..|privileges|] == privileges;
  }

  function Ids(list: seq<Privilege>): (ids: seq<string>)
    ensures |ids| == |list| && forall i :: 0 <= i < |list| ==> ids[i] == list[i].id
  {
    seq(|list|, i requires 0 <= i < |list| => list[i].id)
  }

  /** The request that asks for everything the catalogue lists. */
  function OwnRequest(catalogue: Catalogue): Request {
    map resource | resource in catalogue :: Ids(catalogue[resource])
  }

  /** Within one resource, an id stands for one privilege. */
  ghost predicate IdsDetermine(list: seq<Privilege>) {
    forall p, q :: p in list && q in list && p.id == q.id ==> p == q
  }

  lemma IdsOfFront(list: seq<Privilege>)
    requires list != []
    ensures Ids(list)[..|list| - 1] == Ids(list[..|list| - 1])
  {
  }

  lemma {:induction false} CountIds(list: seq<Privilege>, p: Privilege)
    requires forall q :: q in list && q.id == p.id ==> q == p
    ensures Count(Ids(list), p.id) == multiset(list)[p]
  {
    if list == [] {
    } else {
      var front, last := list[..|list| - 1], list[|list| - 1];
      assert list == front + [last];
      IdsOfFront(list);
      CountIds(front, p);
      assert multiset(list)[p] == multiset(front)[p] + if last == p then 1 else 0;
    }
  }

  lemma CatalogueResolvesAt(catalogue: Catalogue, x: CompoundPrivilege)
    requires forall resource :: resource in catalogue ==> IdsDetermine(catalogue[resource])
    ensures Multiplicity(catalogue, OwnRequest(catalogue), x) ==
            if x.resource in catalogue then multiset(catalogue[x.resource])[x.privilege] else 0
  {
    if x.resource in catalogue {
      var list := catalogue[x.resource];
      LookupMeaning(list, x.privilege.id);
      if x.privilege in list {
        CountIds(list, x.privilege);
      }
    }
  }

  /**
   Resolving the catalogue's own ids gives a permutation of the catalogue if and only if
   within each resource an id stands for one privilege.
   */
  lemma CatalogueResolvesToItself(catalogue: Catalogue, all: seq<CompoundPrivilege>, resolved: seq<CompoundPrivilege>)
    requires forall x :: multiset(all)[x] ==
                         if x.resource in catalogue then multiset(catalogue[x.resource])[x.privilege] else 0
    requires forall x :: multiset(resolved)[x] == Multiplicity(catalogue, OwnRequest(catalogue), x)
    ensures multiset(resolved) == multiset(all) <==>
            forall resource :: resource in catalogue ==> IdsDetermine(catalogue[resource])
  {
    if forall resource :: resource in catalogue ==> IdsDetermine(catalogue[resource]) {
      forall x ensures multiset(resolved)[x] == multiset(all)[x] {
        CatalogueResolvesAt(catalogue, x);
      }
    } else {
      var resource :| resource in catalogue && !IdsDetermine(catalogue[resource]);
      var list := catalogue[resource];
      var p, q :| p in list && q in list && p.id == q.id && p != q;
      var other := if Lookup(list, p.id) == Some(p) then q else p;
      var x := CompoundPrivilege(resource, other);
      assert multiset(all)[x] > 0;
      assert multiset(resolved)[x] == 0;
    }
  }

  /**
   The multiplicity in terms of the data: the entry of the catalogue that comes first with
   its id is returned once per occurrence of that id in its group of the request, and no
   other entry is returned.
   */
  lemma MultiplicityMeaning(catalogue: Catalogue, request: Request, x: CompoundPrivilege)
    ensures Multiplicity(catalogue, request, x) ==
            if && x.resource in catalogue && x.resource in request
               && exists i :: && FirstWithId(catalogue[x.resource], x.privilege.id, i)
                             && catalogue[x.resource][i] == x.privilege
            then multiset(request[x.resource])[x.privilege.id]
            else 0
  {
    if x.resource in catalogue && x.resource in request {
      var list := catalogue[x.resource];
      CountIsMultiplicity(request[x.resource], x.privilege.id);
      LookupMeaning(list, x.privilege.id);
      if Lookup(list, x.privilege.id).Some? {
        var i := FirstExists(list, Lookup(list, x.privilege.id).value);
        LookupIsFirst(list, x.privilege.id, i);
      }
      forall i | FirstWithId(list, x.privilege.id, i) ensures Lookup(list, x.privilege.id) == Some(list[i]) {
        LookupIsFirst(list, x.privilege.id, i);
      }
    }
  }

  /** Everything a resolution returns is in the catalogue. */
  lemma ResolvedIsListed(catalogue: Catalogue, request: Request, x: CompoundPrivilege)
    requires Multiplicity(catalogue, request, x) > 0
    ensures x.resource in catalogue && x.privilege in catalogue[x.resource]
    ensures x.resource in request && x.privilege.id in request[x.resource]
  {
    LookupMeaning(catalogue[x.resource], x.privilege.id);
    CountIsMultiplicity(request[x.resource], x.privilege.id);
  }

  /** Adding an empty group for any resource, known or not, does not change the outcome or the result. */
  lemma EmptyGroupIsHarmless(catalogue: Catalogue, request: Request, resource: string)
    requires resource !in request
    ensures AllKnown(catalogue, request[resource := []]) <==> AllKnown(catalogue, request)
    ensures forall x :: Multiplicity(catalogue, request[resource := []], x) == Multiplicity(catalogue, request, x)
  {
    var extended := request[resource := []];
    forall k, id | k in request && id in request[k]
      ensures AllKnown(catalogue, extended) ==> Known(catalogue, k, id)
    {
      assert id in extended[k];
    }
  }
}
