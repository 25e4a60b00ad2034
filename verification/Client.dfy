/** The API client: the only component that talks to the workspace. */
module Client {
  import opened GoResult
  import opened Models
  import opened Paging
  import opened Strconv

  class WorkatoClient {
    const pageLimit: int
    const rolePages: Pages<Role>
    var remote: Remote
    /** The role pages asked for so far, in order. */
    ghost var askedRolePages: seq<int>

    constructor (remote: Remote, rolePages: Pages<Role>, pageLimit: int)
      ensures this.remote == remote && this.rolePages == rolePages && this.pageLimit == pageLimit
      ensures askedRolePages == []
    {
      this.remote := remote;
      this.rolePages := rolePages;
      this.pageLimit := pageLimit;
      askedRolePages := [];
    }

    method GetCollaborators() returns (r: Result<seq<Collaborator>>)
      ensures r == remote.members
    {
      r := remote.members;
    }

    /** Rejects every table that does not have exactly one row. */
    method GetCollaboratorPrivileges(id: int) returns (r: Result<seq<CollaboratorPrivilege>>)
      ensures r == remote.Privileges(id)
      ensures r.Ok? <==> id in remote.rows && |remote.rows[id]| == 1
      ensures id !in remote.rows ==> r == Err(RequestFailed)
      ensures id in remote.rows && |remote.rows[id]| != 1 ==> r == Err(NotExactlyOneRow)
      ensures r.Ok? ==> r.value == remote.rows[id]
    {
      if id !in remote.rows {
        return Err(RequestFailed);
      }
      var data := remote.rows[id];
      if |data| != 1 {
        return Err(NotExactlyOneRow);
      }
      r := Ok(data);
    }

    /**
     `stored` says whether the server stores the roles and `reported` whether the request is
     taken for a success. The two are independent: a connection can break after the store,
     and the client takes every answered status but 400 and 404 for a success.
     */
    method UpdateCollaboratorRoles(id: int, roles: seq<SimpleRole>, stored: bool, reported: bool)
      returns (error: Option<Error>)
      modifies this`remote
      ensures error == if reported then None else Some(RequestFailed)
      ensures remote == if stored then old(remote).Store(id, roles) else old(remote)
    {
      var request: seq<SimpleRole> := [];
      for i := 0 to |roles|
        invariant request == roles[..i]
      {
        request := request + [SimpleRole(roles[i].environmentType, roles[i].roleName)];
      }
      assert request == roles;
      if stored {
        remote := remote.Store(id, request);
      }
      error := if reported then None else Some(RequestFailed);
    }

    /** One request for the page the token stands for, unless the token does not parse. */
    method GetRoles(token: string) returns (r: Result<(seq<Role>, string)>)
      modifies this`askedRolePages
      ensures r == GetPage(rolePages, pageLimit, token)
      ensures askedRolePages ==
              old(askedRolePages) +
              if token == "" then [0] else if Atoi(token).Ok? then [Atoi(token).value] else []
      ensures token != "" && Atoi(token).Err? ==> r == Err(InvalidPaginationToken)
      ensures token == "" || Atoi(token).Ok? ==>
                var page := rolePages(if token == "" then 0 else Atoi(token).value);
                && r.Ok? == page.Ok? && (page.Err? ==> r == Err(page.error))
                && (page.Ok? ==> r.value.0 == page.value)
    {
      GetPageMeaning(rolePages, pageLimit, token);
      var page := PageOfToken(token);
      if page.Err? {
        return Err(page.error);
      }
      askedRolePages := askedRolePages + [page.value];
      var response := rolePages(page.value);
      if response.Err? {
        return Err(response.error);
      }
      r := Ok((response.value, NextToken(pageLimit, response.value, page.value)));
    }
  }
}
