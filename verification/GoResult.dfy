/** Go's (value, error) pairs and nil-able results, as values. */
module GoResult {

  datatype Option<+T> = None | Some(value: T)

  /** The errors the connector can return, one constructor per message. */
  datatype Error =
    | RequestFailed
    | NotExactlyOneRow
    | InvalidPaginationToken
    | CorruptPageToken
    | NotANumber
    | RoleNotFound
    | InvalidResource
    | PrivilegeNotFound
    | InvalidPrivileges
    | GrantNotImplemented

  datatype Result<+T> = Ok(value: T) | Err(error: Error)
}
