/** Option and Result wrappers, and the exceptions the scrubber raises,
    as values. */
module Wrappers {

  datatype Option<+T> = None | Some(value: T)

  /** The exceptions that escape a component of the scrubber. */
  datatype Error =
    | UnsupportedDbms(dbms: string)        // the finder's constructor check
    | InstanceNotFound                     // no RDS instance matched the lookup
    | NoSnapshotsFound                     // describe_db_snapshots returned nothing
    | NameNotFound(hostname: string)       // NXDOMAIN from the resolver
    | OutsideRdsDomain(canonical: string)  // CNAME target not under rds.amazonaws.com.
    | Timeout(instanceIdentifier: string)  // a polling deadline passed
    | StillUnavailable(lastStatus: string) // the poll budget ran out
    | TypeError(reason: string)            // Python TypeError
    | KeyError(key: string)                // Python KeyError
    | AttributeError(name: string)         // Python AttributeError
    | TaskFailed(task: string)             // a scrub task body raised
    | NotViable(task: string)              // run_task on a task with no database
    | ShareFailed(snapshotIdentifier: string)

  datatype Result<+T> = Ok(value: T) | Err(error: Error) {
    predicate IsFailure() { Err? }

    function PropagateFailure<U>(): Result<U>
      requires Err?
    {
      Err(error)
    }

    function Extract(): T
      requires Ok?
    {
      value
    }
  }
}
