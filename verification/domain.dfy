/**
 The value types of the cinema ticket service: the three ticket types, one
 request line (a type with a number of tickets), the purchase errors, and the
 fixed price table and ticket limit.
 */
module Domain {

  /** An absent value; stands for a Java `null` reference. */
  datatype Option<+T> = None | Some(value: T)

  /** Either a value or the reason the operation was refused. */
  datatype Result<+R, +E> = Success(value: R) | Failure(error: E)

  datatype TicketType = Adult | Child | Infant

  /**
   One request line. The count is a plain integer: the request type accepts
   any value, zero and negative counts included, and nothing later rejects them.
   */
  datatype TicketRequest = TicketRequest(ticketType: TicketType, noOfTickets: int)

  /**
   The distinct reasons an `InvalidPurchaseException` is raised. The limit that
   was exceeded travels with `MaxTicketLimitExceeded`, as in its message.
   */
  datatype PurchaseError =
    | InvalidAccount
    | NullRequest
    | MaxTicketLimitExceeded(limit: int)
    | NoAdultTicket
    | TooManyInfants

  /** The most tickets one purchase may hold, checked against every running total. */
  const MaxTicketLimit: int := 20

  const AdultTicketPrice: int := 20
  const ChildTicketPrice: int := 10
  const InfantTicketPrice: int := 0

  /** The unit price of a ticket type. */
  function Price(t: TicketType): int
  {
    match t
    case Adult => AdultTicketPrice
    case Child => ChildTicketPrice
    case Infant => InfantTicketPrice
  }

  /** Every request line asks for zero or more tickets. */
  predicate AllNonNegative(rs: seq<TicketRequest>)
  {
    forall i :: 0 <= i < |rs| ==> rs[i].noOfTickets >= 0
  }
}
