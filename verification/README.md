# A verified model of the Workato connector's core

The connector reads collaborators, roles, folders and privileges from a Workato workspace,
indexes them, enumerates them page by page as resources and grants, and writes role
assignments back. This project models the stateful core of that work and proves what its
caches, page tokens, page-state stack, privilege resolution and role grants do. The caches,
the stack, the client and the builders are classes with loops, as in the source; each is
proved against a specification on values, and the promises are proved about those values.

| file | component |
|---|---|
| `Strconv.dfy` | decimal printing and parsing of 64-bit integers: tokens, ids and cache keys |
| `Paging.dfy` | page tokens and the drain protocol of the list endpoints |
| `Models.dfy`, `Client.dfy` | the remote workspace and the API client |
| `UCache.dfy`, `CollaboratorCache.dfy` | the inverted index from privileges, folders and role names to collaborators |
| `CollaboratorLookups.dfy` | what that index answers, in terms of the remote data alone |
| `RoleCache.dfy` | the paginated role index |
| `GenBag.dfy`, `FolderBuilder.dfy` | the serializable stack with its shared backing array, and the token-carried folder run |
| `Privileges.dfy` | privilege ids, the catalogue, and resolution in every map order |
| `GrantRuns.dfy`, `RoleBuilder.dfy` | the role grant on lists, workspaces and whole runs; listing and grants of roles |
| `RoleAnswers.dfy` | what Grants answers for a role, in terms of the base roles, the listed roles and the remote data alone |
| `Sequences.dfy`, `GoResult.dfy` | shared facts about permutations and map ranges; results and errors |

## How the environment is modelled

- The catalogue of privileges, the base roles, the page size and the environment are parameters.
- A Go `range` over a map visits its keys in an arbitrary order. Loops pick the next key
  nondeterministically, and `Enumerates` says of a result that it lists the values of a map
  in some order.
- The roles endpoint is a function from page number to a page or an error. One drain asks
  for each page once, so `RoleCache.BuildCache` also covers a server that changes between
  requests. `RoleBuilder.ListAll` drains the same function twice, once to build the cache
  and once to list, and so assumes a server that does not change in between. Methods that
  drain take a ghost page number `last`, the first page that fails or is not full;
  `Paging.StopExists` shows that every server that ever gives such a page has one.
- "Stable server" means a fixed list in 0-based pages (`ServesList`). The 0-based numbering
  is an assumption about the server. `Paging.OneBasedServerDrains` says exactly what it is
  worth: against a server that takes page 0 for page 1 the drain is right if and only if
  the list is shorter than one page.
- JSON is a pair of functions with decode-after-encode and non-empty encodings (`Lawful`).
- Whether the server stores an update and whether the client takes the request for a success
  are two independent parameters of each Grant.
- The server stores the rows it is sent and reports them in its listing (`Remote.Store`).

## Where the code does not do what it is for

- The client accepts a collaborator only if its table has exactly one row, and Grant appends
  a second row when the granted environment differs from that row's. So the first grant for
  another environment is the last one that ever takes effect for a user (`RunClosedForm`), and after it
  no build of the collaborator cache succeeds (`SyncAfterRun`, an if and only if; a workspace
  and a grant that show it are in `CrossingGrantStopsSync`).
- Grant takes the role name from the entitlement's resource id, and Grants looks it up by
  display name. What was granted is in the answer of Grants after the next sync if and only
  if the resource's id equals its display name (`GrantThenGrants`): always for base roles,
  and for a custom role only when it is named by its own numeric id. `CustomGrantIsInvisible`
  shows it for a custom role "Ops" with id 7.
- Two (group, privilege) pairs get one id if and only if they are equal or shifted against
  each other: one group extends the other by a hyphen and a part that the other privilege
  name starts with (`PrivilegeIdsEqual`). A lookup by privilege is wrong about a user if and
  only if the user holds a shifted pair and not the pair itself (`PrivilegeKeyIsExact`). With
  privilege names free of hyphens, as in the connector's catalogue, there are no shifted pairs.
- A page token whose JSON has states but no current state (`ImproperToken`) yields a bag on
  which pop does not undo push (`PopUndoesPush`, an if and only if). Marshal never produces
  such a token.
- The client takes every answered status but 400 and 404 for a success, so Grant can report
  a role as written that the server did not store. A reported grant is in the workspace if
  and only if the server stored it (`WrittenIsStoredIff`; `LostGrant` is one that is not).
- A custom role whose name is also a base role's is answered with the base role's
  privileges, marked immutable. A listed role gets its own privileges if and only if no base
  role has its name (`ListedRolePrivileges`).
- The last error of the privilege resolution, "invalid privileges", is unreachable.

The list step of Grant, taken alone, can also report "already exists" on a list where another
role of the same environment comes first (`StepMissesHiddenRole`; `StepUpdatesMap` says
exactly when the step is a map update). No call of Grant gets there: the one-row guard
rejects every such table first (`GuardRejects`).

## Model

| member | source | states |
|---|---|---|
| Strconv.AtoiOfItoa | pkg/connector/client/roles.go:14-20 | Parsing a printed integer gives it back for every 64-bit value, is an error for every wider one, and no printed number is the empty end marker |
| Strconv.ItoaInjective | pkg/connector/role_cache.go:47 | Distinct integer ids print to distinct map keys |
| Strconv.AtoiMeaning | pkg/connector/client/roles.go:14-20 | Of every string: parsing succeeds iff it is an optional sign followed by one or more of the characters 0 to 9 and the number is in the 64-bit range, and then gives that number; anything else is an error |
| Strconv.AtoiOfDigit | pkg/connector/client/roles.go:14-20 | A single character 0 to 9 parses to its distance from the character 0 |
| Strconv.AtoiOfLonger | pkg/connector/client/roles.go:14-20 | A further digit multiplies by ten and adds the digit, up to the largest 64-bit integer, beyond which parsing fails |
| Strconv.AtoiOfSigned | pkg/connector/client/roles.go:14-20 | A minus sign before digits negates, a plus sign changes nothing |
| Strconv.ItoaIsDecimal | pkg/connector/client/helpers.go:90-98 | A number below ten prints as one character, a larger one as its tenth followed by its last digit, a negative one as a minus sign and its opposite |
| Paging.NextTokenRoundTrips | pkg/connector/client/helpers.go:90-98 | From every page number, the next token is non-empty exactly when the page is full, and it parses back to the page plus one, or to the smallest 64-bit integer after the largest |
| Paging.GetPageMeaning | pkg/connector/client/roles.go:10-35 | Of every token: the empty one asks for page 0, one that parses for its number, any other is an invalid token; a failing page is the answer; the next token is the printed next page number after a full page and empty after any other |
| Paging.TokenChain | pkg/connector/client/roles.go:10-35 | Following tokens from the empty one visits pages 0 to last in order, and only the first failing or non-full page ends the chain |
| Paging.StopIsUnique | pkg/connector/role_cache.go:35-55 | A server has at most one page at which a drain stops |
| Paging.StopExists | pkg/connector/role_cache.go:35-55 | Every server that ever fails or gives a non-full page has a page at which the drain stops |
| Paging.FetchedHoldsPage | pkg/connector/role_cache.go:35-55 | Whatever the sizes of the pages, each page that does not fail stands whole and in its place in what a drain fetches |
| Paging.FetchedMeaning | pkg/connector/role_cache.go:35-55 | A drain fetches exactly the rows of its pages |
| Paging.StableListDrains | pkg/connector/role_cache.go:33-55 | Draining a fixed list fetches every row once and in order in exactly len/limit + 1 requests, the last page having len % limit rows |
| Paging.StableListStop | pkg/connector/role_cache.go:33-55 | Wherever a drain of a fixed list stops, that is page len/limit and everything has been fetched |
| Paging.OneBasedServerDrains | pkg/connector/client/roles.go:14-26 | Against a server numbering pages from 1 the drain is right iff the list is shorter than a page; otherwise the first page arrives twice |
| Client.WorkatoClient.GetCollaboratorPrivileges | pkg/connector/client/colaborator.go:23-38 | Returns the collaborator's table iff it exists and has exactly one row; without a table the request fails, and any other number of rows is an error of its own |
| Client.WorkatoClient.UpdateCollaboratorRoles | pkg/connector/client/colaborator.go:40-66 | Sends the given roles unchanged and in order; the workspace changes iff the server stores them, and the call fails iff the request is not taken for a success, independently of each other |
| Client.WorkatoClient.GetRoles | pkg/connector/client/roles.go:10-35 | One request for page 0 or for the decimal number the token stands for; an invalid token asks for nothing and is an error, a failing page is the answer, else the page and the next token |
| UCache.HashSet.Get | pkg/connector/ucache/ucache.go:13-20 | Finds a value iff it was set under that key and value key |
| UCache.HashSet.Set | pkg/connector/ucache/ucache.go:22-27 | Sets one entry and changes no other entry of any key |
| UCache.HashSet.GetAll | pkg/connector/ucache/ucache.go:29-39 | Returns each value under the key exactly once, in some order |
| CollaboratorCache.CollaboratorCache.constructor | pkg/connector/collaborator_cache.go:31-39 | A new cache answers every lookup with nothing |
| CollaboratorCache.CollaboratorCache.BuildCache | pkg/connector/collaborator_cache.go:41-99 | Whatever was cached before, the three indexes afterwards equal, for every key, a scan over exactly the collaborators before the first failed fetch, and the error is that of this fetch; after a failed listing they are empty and the error is the listing's |
| CollaboratorCache.CollaboratorCache.FilePrivileges | pkg/connector/collaborator_cache.go:71-78 | For every order of the groups, files the collaborator under exactly the ids of its privileges and leaves the rest of the index as it was |
| CollaboratorCache.CollaboratorCache.FileFolders | pkg/connector/collaborator_cache.go:80-83 | Files the collaborator under exactly the given folders |
| CollaboratorCache.CollaboratorCache.FileDetail | pkg/connector/collaborator_cache.go:66-84 | Files the collaborator under exactly the privileges and folders of its rows of the environment |
| CollaboratorCache.CollaboratorCache.FileRoles | pkg/connector/collaborator_cache.go:86-93 | Files the collaborator under exactly its role names of the environment |
| CollaboratorCache.CollaboratorCache.GetUsersByPrivilege | pkg/connector/collaborator_cache.go:137-139 | Enumerates what the index holds under the privilege key |
| CollaboratorCache.CollaboratorCache.GetUsersByFolder | pkg/connector/collaborator_cache.go:141-143 | Enumerates what the index holds under the folder |
| CollaboratorCache.CollaboratorCache.GetUsersByRole | pkg/connector/collaborator_cache.go:145-147 | Enumerates what the index holds under the role name |
| CollaboratorLookups.ScanFindsLastHolder | pkg/connector/collaborator_cache.go:55-94 | Duplicate ids included, an id is under a key iff some collaborator with that id holds it, and the value is the last such collaborator |
| CollaboratorLookups.LookupIsScan | pkg/connector/collaborator_cache.go:137-147 | With distinct ids a lookup is a permutation of the naive scan: every holder once, nobody else |
| CollaboratorLookups.LookupAfterBuild | pkg/connector/collaborator_cache.go:41-99 | After a successful build every lookup returns exactly the listed collaborators that hold the key, each once |
| CollaboratorLookups.LoadedPrefix | pkg/connector/collaborator_cache.go:50-64 | A build gets exactly to the longest prefix of the listing whose tables are fetched and have one row, and fails because the next collaborator has no table or has another number of rows |
| CollaboratorLookups.BuildSucceedsIff | pkg/connector/collaborator_cache.go:50-59 | A build succeeds iff the listing does and every listed collaborator has exactly one row |
| CollaboratorLookups.FolderAndRoleKeys | pkg/connector/collaborator_cache.go:66-93 | A folder is held by the users with an environment row listing it; a role name by the users listed with it in the environment |
| CollaboratorLookups.PrivilegeKeyMeaning | pkg/connector/collaborator_cache.go:71-78 | A privilege key is held iff some privilege of an environment row has that id |
| CollaboratorLookups.PrivilegeKeyIsExact | pkg/connector/collaborator_cache.go:71-78 | For all names, the key of a (group, privilege) pair is held by exactly the holders of that pair or of a pair shifted against it |
| CollaboratorLookups.PrivilegeKeyHyphenFree | pkg/connector/collaborator_cache.go:71-78 | Corollary: on privilege names without hyphens a key is held by exactly the holders of that very pair |
| Sequences.EnumerationsAgree | pkg/connector/ucache/ucache.go:29-39 | Two enumerations of one table are permutations of each other |
| CollaboratorLookups.RebuildChangesNoLookup | pkg/connector/collaborator_cache.go:41-99 | Two builds that load the same collaborators answer every lookup alike, as multisets |
| CollaboratorLookups.BuildTwice | pkg/connector/collaborator_cache.go:41-99 | Building one cache twice from unchanged data leaves a folder's lookup as it was |
| RoleCache.RoleCache.BuildCache | pkg/connector/role_cache.go:25-60 | Asks for pages 0 to last, each once and in order, and indexes exactly their rows whatever was cached before; a failing page ends it with the pages before it indexed |
| RoleCache.RoleCache.AddRole | pkg/connector/role_cache.go:41-48 | Indexes one more role on top of those fetched |
| RoleCache.RoleCache.GetRoleByFolder | pkg/connector/role_cache.go:62-69 | The folder's list, empty for an unknown folder |
| RoleCache.RoleCache.GetRoleById | pkg/connector/role_cache.go:71-78 | The role under the id, nothing for an unknown id |
| RoleCache.FolderRolesConcat | pkg/connector/role_cache.go:41-46 | A folder's list is in fetch order: fetching more only appends |
| RoleCache.FolderRolesCount | pkg/connector/role_cache.go:41-46 | A role is in a folder's list as often as it was fetched times the occurrences of the folder among its ids |
| RoleCache.LastRoleMeaning | pkg/connector/role_cache.go:47-48 | A lookup by id finds a role iff a fetched one has that id, and then the last such |
| RoleCache.FetchedRoleIsFound | pkg/connector/role_cache.go:71-78 | Every fetched role's id is found; with distinct ids the role found is that role |
| GenBag.BagIsStack | pkg/connector/cpagination/generic_bag.go:32-57 | On every bag without states below a missing current one, push, pop and current are those of a LIFO stack and keep the bag so |
| GenBag.PopUndoesPush | pkg/connector/cpagination/generic_bag.go:32-57 | Pop undoes push iff the bag has no states below a missing current one |
| GenBag.TokenRoundTrip | pkg/connector/cpagination/generic_bag.go:79-114 | Unmarshalling a marshalled bag restores its stack, gives the same bag iff it was proper, always a proper one, and the token is empty iff the stack is |
| GenBag.ImproperToken | pkg/connector/cpagination/generic_bag.go:79-97 | A token on which the stack fails: its state is hidden when it is unmarshalled and comes back after a push and a pop |
| GenBag.GenBag.Push | pkg/connector/cpagination/generic_bag.go:32-40 | The old current state, if any, goes on top of the slice and the new one becomes current, although this may append over the slot the current pointer aliases |
| GenBag.GenBag.Pop | pkg/connector/cpagination/generic_bag.go:42-57 | Returns a pointer to a fresh copy of the current state, and the last state of the slice becomes current, aliasing the slot behind the slice; without a current state nothing changes |
| GenBag.GenBag.Current | pkg/connector/cpagination/generic_bag.go:69-77 | A pointer to a fresh copy of the current state, nil iff there is none |
| GenBag.GenBag.Unmarshal | pkg/connector/cpagination/generic_bag.go:79-97 | The empty token empties the bag, one that decodes replaces it by the decoded value, and one that does not is an error and changes nothing |
| GenBag.GenBag.Marshal | pkg/connector/cpagination/generic_bag.go:99-114 | The empty token without a current state, else the encoding of the slice and the current state |
| GenBag.OnBagIsOnStack | pkg/connector/cpagination/generic_bag.go:32-114 | On a proper bag's value every operation, reload included, is the plain stack's and leaves it proper |
| GenBag.Perform | pkg/connector/cpagination/generic_bag.go:32-114 | Each use of the shared-array bag does to its value what the operation on values does, and changes no pointer returned before |
| GenBag.Run | pkg/connector/cpagination/generic_bag.go:32-114 | Every interleaving of push, pop, current and reload behaves as on a plain stack, and every pointer returned on the way still holds its value at the end |
| FolderBuilder.CallsFromStart | pkg/connector/folder.go:140-157 | From the empty token a run is three calls: plan, roles, collaborators |
| FolderBuilder.CallsNext | pkg/connector/folder.go:135-159 | A call does the first call the token stands for and its next token stands for the rest, empty iff nothing is left |
| FolderBuilder.CallCount | pkg/connector/folder.go:135-159 | A token with k pending states stands for k calls; one without a current state for the plan and two more than its states |
| FolderBuilder.AnswersMeaning | pkg/connector/folder.go:129-214 | Case by case: without a current state nothing is emitted and a role state on top of a collaborator state is put on what the bag holds; a role state emits a grant per role of the folder in order, a collaborator state one per collaborator in some order, both an error for a folder id that is no number, any other state nothing; then the state below is next, or the empty token |
| FolderBuilder.FolderBuilder.Grants | pkg/connector/folder.go:129-214 | Answers for the bag the token stands for as AnswersMeaning says; a token that does not decode is an error and nothing is emitted |
| FolderBuilder.FolderBuilder.Sync | pkg/connector/folder.go:129-214 | From any token the driver makes exactly the calls the token stands for, in order, or stops with an error at the first call that needs a numeric folder id it does not have |
| FolderBuilder.FullRun | pkg/connector/folder.go:129-214 | A full run is three pages: nothing, every role grant of the folder in order, and, without repeats, a collaborator grant for exactly the listed users that hold the folder |
| Privileges.PrivilegeIdSplits | pkg/connector/workato/privileges.go:18-24 | Splitting an id at its last hyphen gives the two names back iff the privilege name has no hyphen |
| Privileges.PrivilegeIdsEqual | pkg/connector/workato/privileges.go:18-24 | Two pairs have one id iff they are the same pair or one is shifted against the other across a hyphen |
| Privileges.PrivilegeIdInjective | pkg/connector/workato/privileges.go:18-24 | Corollary: ids of privileges without hyphens never collide, hyphens in group names notwithstanding |
| Privileges.PrivilegeIdCollides | pkg/connector/workato/privileges.go:18-24 | Two different, shifted pairs with one id |
| Privileges.FindRelatedPrivileges | pkg/connector/workato/privileges.go:477-501 | For every iteration order, each privilege is returned once per time its id is requested, if that id stands for it; the length is the number of known ids requested |
| Privileges.LengthsAgreeIffAllKnown | pkg/connector/workato/privileges.go:444-452 | The resolution is never longer than the request, and as long iff everything requested is in the catalogue |
| Privileges.FindRelatedPrivilegesErr | pkg/connector/workato/privileges.go:443-475 | Succeeds iff every requested pair is in the catalogue, whatever the orders; the third error never occurs; InvalidResource means some requested resource, possibly with an empty group, is not in the catalogue, and PrivilegeNotFound that some id of a listed resource is not |
| Privileges.EmptyGroupIsHarmless | pkg/connector/workato/privileges.go:453-469 | Adding an empty group, for a known or unknown resource, changes neither success nor result |
| Privileges.MultiplicityMeaning | pkg/connector/workato/privileges.go:477-501 | The multiplicity of an entry in a resolution: if it is the first of its resource with its id, the number of times the request lists that id under the resource, and otherwise zero |
| Privileges.ResolvedIsListed | pkg/connector/workato/privileges.go:480-497 | Everything resolved is in the catalogue and was requested |
| Privileges.AllCompoundPrivileges | pkg/connector/workato/privileges.go:428-441 | Lists every catalogue entry with its multiplicity, in any order |
| Privileges.CatalogueResolvesToItself | pkg/connector/workato/privileges.go:428-441 | Resolving the catalogue's own ids is a permutation of it iff within each resource an id stands for one privilege |
| RoleBuilder.RoleBuilder.List | pkg/connector/role.go:38-77 | One page of roles followed by the base roles; the empty token first rebuilds both caches, and any failure of a build is the answer, with both caches left as the builds leave them |
| RoleBuilder.RoleBuilder.ListAll | pkg/connector/role.go:38-77 | A listing run emits every page once, with both caches built and exactly two requests per page, or, on any failure, nothing |
| RoleBuilder.FullListing | pkg/connector/role.go:51-76 | Over a fixed list every role is emitted exactly once and in order under its name and printed id, and the base roles in order, under their names, close each of len/limit + 1 pages |
| RoleBuilder.RoleBuilder.Grants | pkg/connector/role.go:100-180 | The membership grants of the collaborators under the display name, then the base role's immutable or the custom role's resolved privileges; each failure with the grants returned beside it |
| RoleBuilder.ListingIndexesTheList | pkg/connector/role.go:39-49 | After a listing run over a fixed list the role cache is the index of exactly that list |
| RoleBuilder.ListedRoleHasGrants | pkg/connector/role.go:130-161 | On that index no listed role is "not found"; one with a distinct id has grants iff a base role has its name or its privileges are in the catalogue |
| RoleBuilder.ListedRolePrivileges | pkg/connector/role.go:130-177 | A listed role with a distinct id is answered with exactly its own resolved privileges iff no base role has its name, else with exactly the base role's, marked immutable |
| RoleBuilder.MembershipsAfterBuild | pkg/connector/role.go:102-128 | As a multiset, one grant per row with the role's name, in any environment, of exactly the holders in the configured one; no repeats when each user has one role per environment |
| RoleBuilder.MembershipsMeaning | pkg/connector/role.go:106-128 | A membership grant is emitted iff one of the enumerated users has a row with that name and environment |
| RoleBuilder.MembershipsCount | pkg/connector/role.go:106-128 | With distinct ids a (user, environment) pair is granted exactly once per listed row of the user with that name and environment |
| RoleBuilder.RoleBuilder.Grant | pkg/connector/role.go:182-249 | Does to the workspace exactly what the specification step does, with the same outcome; other resource types are refused |
| RoleBuilder.GrantThenGrants | pkg/connector/role.go:100-128 | After a stored one-row grant and the next sync, the answer of Grants for the granted resource contains the user in that environment iff the display name equals the resource id |
| RoleBuilder.CustomGrantIsInvisible | pkg/connector/role.go:187-202 | The custom role "Ops" with id 7 is written as "7", and the user is missing from what Grants answers for it |
| RoleAnswers.BaseRoleFoundIff | pkg/connector/workato/roles.go:18-40 | A base role is found iff one in the table has the name |
| RoleAnswers.NamedBaseRole | pkg/connector/workato/roles.go:18-40 | The base role found is the first one with the name |
| RoleAnswers.BaseRoleAnswer | pkg/connector/role.go:131-151 | A resource named like a base role is answered without error, and the answer is collaborators followed by exactly the privileges of the first base role of that name, in order, with their ids spelled out and marked immutable |
| RoleAnswers.CustomRoleAnswer | pkg/connector/role.go:152-177 | The answer for a listed role with a distinct id and no base role of its name has a privilege id iff it is a group, a hyphen and a privilege that the role lists in that group; none is marked immutable |
| RoleAnswers.ErrorAnswer | pkg/connector/role.go:152-161 | Without a base role of its name, a resource is "not found" iff no listed role has its id, and then only collaborators are answered; it fails with nothing at all iff the role with its id lists a pair that is not in the catalogue |
| RoleAnswers.MembersOfAnswer | pkg/connector/role.go:102-128 | In the answer of Grants after a build, a listed user that holds the name in the configured environment is granted once per row with the name and the given environment, and one that does not hold it never |
| RoleAnswers.StrangersAreNotInAnswer | pkg/connector/role.go:102-128 | No id that is not in the listing is in the answer of Grants |
| RoleAnswers.AnswerDoesNotRepeat | pkg/connector/role.go:102-128 | With one role per environment, a user is in the answer of Grants at most once per environment |
| GrantRuns.AssignAt | pkg/connector/role.go:214-222 | Overwriting the first row of the environment or else appending is the specification's assignment |
| GrantRuns.AssignChangesOneEnvironment | pkg/connector/role.go:214-222 | Rows of other environments keep their content and position, and a row is added iff the environment had none |
| GrantRuns.StepUpdatesMap | pkg/connector/role.go:200-222 | On any list the step is a map update iff the role, when already listed, is listed before every other row of its environment; with distinct environments always, and they stay distinct |
| GrantRuns.StepMissesHiddenRole | pkg/connector/role.go:193-211 | A list with two rows for an environment on which the list step changes nothing although another role comes first; the call itself fails on such a table |
| GrantRuns.GuardRejects | pkg/connector/client/colaborator.go:33-35 | Grant answers "not exactly one row", changing nothing, iff the collaborator's table exists and does not have exactly one row |
| GrantRuns.OutcomeMeaning | pkg/connector/role.go:182-249 | The outcome of every call: "already exists" iff the id parses and its table is one row with the configured environment and the granted name; written iff an update is sent and taken for a success; a failed request otherwise; an id that does not parse, a missing table and a table of another size each fail with their own error, changing nothing |
| GrantRuns.GrantAllKeepsLast | pkg/connector/role.go:198-222 | The list step alone, folded over any sequence of roles, leaves per environment the last one granted, else the old one; runs of calls end as RunClosedForm says |
| GrantRuns.WritesAreOneOrTwoRows | pkg/connector/role.go:193-227 | Every update sent, from any workspace, is one or two rows of distinct environments with the new role among them, two exactly when the old row is of another environment |
| GrantRuns.WrittenIsStoredIff | pkg/connector/client/helpers.go:71-87 | What a call reports as written is in the workspace iff the server stored it |
| GrantRuns.LostGrant | pkg/connector/client/helpers.go:83-87 | A grant reported as written that changes nothing |
| GrantRuns.StepFrame | pkg/connector/role.go:193-227 | Nothing changes unless an update is sent and stored, and then only that collaborator's table and its roles in the listing; every other listed collaborator keeps its own |
| GrantRuns.RegrantWritesNothing | pkg/connector/role.go:205-211 | After a stored update, granting again, however the user id is spelled, writes nothing: "already exists" after one row, an error after two |
| GrantRuns.GuardedRunClosedForm | pkg/connector/role.go:193-227 | From one row, any run of grants ends in the last grant of the row's environment followed by the first of another environment, if any |
| GrantRuns.OtherTablesAreFrozen | pkg/connector/client/colaborator.go:33-35 | A table without exactly one row is never changed by any run |
| GrantRuns.RunClosedForm | pkg/connector/role.go:182-249 | The same for every run over the whole workspace, to any users and from connectors of any environments |
| GrantRuns.SyncAfterRun | pkg/connector/collaborator_cache.go:50-59 | From any workspace and after any run of grants, the collaborator cache can be built iff the listing works, every listed user had one row, and no grant to it crossed to another environment |
| GrantRuns.CrossingGrantStopsSync | pkg/connector/role.go:213-227 | A workspace that syncs and one successful grant after which the build fails on two rows |
| GrantRuns.GrantShowsInNextSync | pkg/connector/collaborator_cache.go:86-93 | After a stored one-row grant the next build succeeds and indexes the user under the granted name |

## Left out

- HTTP requests, URLs, authentication, logging, configuration and `main`: a request is a value or an error. Which statuses `doRequest` takes for a success is not modelled; that it may take a failed update for one is a parameter of Grant.
- `encoding/json`: an abstract codec with decode-after-encode; null rows in a response are not modelled.
- Transient failures of the row fetch inside a run of grants: a collaborator whose table cannot be fetched is one without a table.
- Servers whose every page up to 2^63 is full: the drain loops then never end within the range of page numbers.
- Display fields, profiles, timestamps, descriptions and the metadata of grants other than the environment; resource and grant builders are reduced to the ids they carry, and their errors to none.
- The literal catalogue, the base-role table and environment names: parameters. `GetBaseRole` is a lookup in the base-role table, so its error does not occur.
- `GetAllFoldersRecur`: it has no caller, and on a non-empty listing it follows the empty token back to page 0 without end.
- Folder, project, collaborator and privilege listings, entitlements and Revoke: one loop or one branch each. The folder and project endpoints use the same tokens as the roles endpoint.
- The bodies of the two `buildCache` methods and of the two `Grants` methods are split into smaller methods, one per loop or part; the split itself models nothing.
- RoleBuilder.RoleBuilder.Grants: states no order among the collaborators or the resolved privileges beyond that of the map ranges, and which of the two resolution errors a failing request gets depends on the map order and is left open.
