/** The values that flow through the order aggregate: statuses, domain events,
    commands and the error kinds of the aggregate and of the event store. */
module Events {

  /** The order status. StatusPlaced is the zero value of the enumeration, so
      an order that was never placed reads as placed. */
  datatype Status = StatusPlaced | StatusActivated

  /** A domain event, tagged with the identifier of the order it belongs to.
      The shared destructor `orderId` is the event's ID() accessor. */
  datatype Event = Placed(orderId: string) | Activated(orderId: string)

  /** An order line carries no data; only how many there are matters. */
  datatype Line = Line

  /** The commands the handler routes. OtherCmd stands for any value that is
      neither a Place nor an Activate command and falls through the switch. */
  datatype Command =
    | PlaceCmd(orderId: string, lines: seq<Line>)
    | ActivateCmd(orderId: string)
    | OtherCmd

  /** Errors that the aggregate's Place operation reports. */
  datatype OrderError = AlreadyPlaced | EmptyOrderLine

  /** The error the event store reports when no event matches an identifier. */
  datatype StoreError = OrderNotFound

  datatype Option<T> = None | Some(value: T)

  datatype Result<T, E> = Success(value: T) | Failure(error: E)

  /** The status an event leaves its order in: the dispatch of `handle`. */
  function StatusAfter(e: Event): Status
  {
    match e
    case Placed(_) => StatusPlaced
    case Activated(_) => StatusActivated
  }

  function Last<T>(s: seq<T>): T
    requires s != []
  {
    s[|s| - 1]
  }
}
