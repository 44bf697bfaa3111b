/** Go error values as the tags that `errors.Is` can find in them. A nil error is the empty set,
    and `errors.Join` is set union. */
module Errors {

  datatype Tag =
    | ContainerCleanup
    | HostProcessCleanup
    | LogDelivery
    | OutputLimit
    | Cancelled
    | ContainerUnavailable
    | InvalidStep
    | InterpreterUnavailable
    | Conflict
    | Other

  type Error = set<Tag>

  const NIL: Error := {}
}
