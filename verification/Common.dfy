/** Vocabulary shared by actiony, locky, registry and the mediator client. */
module Common {

  datatype Option<+T> = None | Some(value: T) {
    function GetOr(default: T): T {
      match this
      case Some(v) => v
      case None => default
    }
  }

  /** A call either returns a value or throws one of the errors below. */
  datatype Result<+T> = Success(value: T) | Failure(error: Error)

  datatype Error =
    | ServiceNotFound
    | ServiceAlreadyLocked
    | LockNotFound
    | ActiveBlockingActions
    | ServiceIsActive
    | ActionNotFound
    | ActionAlreadyClosed
    | ParallelismMismatch
    | RemoteFailure
    | NamespaceNotFound
    | EntityNotFound
    | BadInput

  // Generated keys are modelled by a counter: a fresh key is larger than every earlier one.
  type Id = nat

  datatype Parallelism = SINGLE | REPLACEABLE | MULTIPLE

  datatype ServiceType = PRODUCER | CONSUMER

  datatype ActionStatus = ACTIVE | COMPLETED | FAILED | CANCELED

  /** registry's flattened service, without names, type and times. */
  datatype FlatService = FlatService(
    serviceId: Id,
    namespaceId: nat,
    parallelism: Parallelism,
    serviceRotation: int,
    parent: Option<Id>,
    parentRotation: Option<int>,
    children: set<Id>,
    blockees: set<Id>)

  /** What one poll for active actions came back with. */
  datatype Reply = Idle | Busy | Unreachable
}
