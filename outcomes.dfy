/** Failure-compatible result types and the errors the counter-cache library raises. */
module Outcomes {

  datatype Option<+T> = None | Some(value: T) {
    function GetOr(default: T): T {
      match this
      case Some(v) => v
      case None => default
    }
  }

  /** Every exception the modelled code can raise, one constructor per raise site. */
  datatype Error =
    | NotYetImplemented           // the base adapter has no inner counter
    | NilCount(key: string)       // `+= 1` or `-= 1` on a key the hash does not hold
    | NoAdapterSet                // `nil.to_sym` when no adapter name is configured
    | NoAdapterClass(name: string) // the adapter table has no class for the configured name
    | MissingAdapter(message: string) // the validated setter refused a name
    | UnknownAdapter(name: string) // reading a stored value with an unknown adapter
    | RedisNotModelled            // the networked backend is outside this model
    | ReconcileRequired           // `reconcile_on_missing` without `reconcile_logic`
    | UnknownCounter(name: string)
    | MissingLogic(name: string)
    | NilLogic                    // `send(nil)`: no reconcile method was registered
    | NoAssociation(name: string) // the child record has no such association
    | NoCounterMethod(name: string) // the parent record has no such counter accessor
    | NoDiscard                   // discard or undiscard on a type without that capability

  datatype Result<+T> = Ok(value: T) | Err(error: Error) {
    predicate IsFailure() {
      Err?
    }

    function PropagateFailure<U>(): Result<U>
      requires Err?
    {
      Err(error)
    }

    function Extract(): T
      requires Ok?
    {
      value
    }
  }
}
