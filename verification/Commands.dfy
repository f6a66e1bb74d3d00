/** The commands the lock manager hands to Raft, and a small Option type. */
module Commands {

  type Client = string

  type Resource = string

  datatype LockType = Shared | Exclusive

  /** A logged command; any action other than the two known ones is ignored when applied. */
  datatype Command =
    | Acquire(client: Client, resource: Resource, lockType: LockType)
    | Release(client: Client, resource: Resource)
    | Other(action: string)

  datatype Option<+T> = None | Some(value: T)
}
