/**
 The values the Workato API exchanges, with the fields the connector reads, and the
 remote workspace itself.
 */
module Models {
  import opened GoResult

  datatype SimpleRole = SimpleRole(environmentType: string, roleName: string)

  datatype Collaborator = Collaborator(id: int, roles: seq<SimpleRole>)

  datatype CollaboratorPrivilege = CollaboratorPrivilege(
    environmentType: string,
    name: string,
    privileges: map<string, seq<string>>,
    folderIDs: seq<int>)
  {
    function Simple(): SimpleRole {
      SimpleRole(environmentType, name)
    }
  }

  datatype Role = Role(
    id: int,
    name: string,
    folderIDs: seq<int>,
    privileges: map<string, seq<string>>)

  /**
   What the server answers. `members` answers the listing of collaborators; `rows[id]` is
   the table behind `api/members/{id}/privileges`, and an id without a table is a request
   that fails. `privilegesOf` and `foldersOf` are the details the server attaches to a
   role row it stores.
   */
  datatype Remote = Remote(
    members: Result<seq<Collaborator>>,
    rows: map<int, seq<CollaboratorPrivilege>>,
    privilegesOf: SimpleRole -> map<string, seq<string>>,
    foldersOf: SimpleRole -> seq<int>)
  {
    /** GetCollaboratorPrivileges: any table that does not have exactly one row is an error. */
    function Privileges(id: int): Result<seq<CollaboratorPrivilege>> {
      if id !in rows then Err(RequestFailed)
      else if |rows[id]| != 1 then Err(NotExactlyOneRow)
      else Ok(rows[id])
    }

    function RowFor(role: SimpleRole): CollaboratorPrivilege {
      CollaboratorPrivilege(role.environmentType, role.roleName, privilegesOf(role), foldersOf(role))
    }

    /** The workspace after the server stored `roles` as the roles of collaborator `id`. */
    function Store(id: int, roles: seq<SimpleRole>): Remote {
      this.(
        rows := rows[id := seq(|roles|, i requires 0 <= i < |roles| => RowFor(roles[i]))],
        members := match members
          case Err(e) => Err(e)
          case Ok(cs) => Ok(seq(|cs|, i requires 0 <= i < |cs| =>
              if cs[i].id == id then cs[i].(roles := roles) else cs[i])))
    }
  }
}
