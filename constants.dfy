/** Ticket categories, requests, the frozen price table and the rejection
    reasons of the cinema ticket service. */
module TicketConstants {

  /** The category a request names. The service knows three; anything else a
      request may carry is kept, by name, so that the rejection can quote it. */
  datatype Category = Adult | Child | Infant | Unknown(name: string)

  predicate IsKnown(c: Category) {
    c.Adult? || c.Child? || c.Infant?
  }

  /** One ticket type request: a category and a signed ticket count. The
      request type itself does not insist that the count is positive; the
      service checks it. */
  datatype Request = Request(cat: Category, count: int)

  /** Why a purchase is rejected; one constructor per error message. */
  datatype Reason =
    | InvalidAccountId
    | TicketTypeMissingTickets
    | UnknownTicketType(ticketType: string)
    | TooManyTickets
    | NoAdultTickets
    | MoreInfantsThanAdults

  /** The cost of a number of tickets of one category under the frozen unit
      price table: adult 25, child 15, infant 0. The prices are written as
      literals so that the cost stays linear in the count; the specification
      functions of the service use the same two literals, 25 and 15, for the
      same table. */
  function CostOf(c: Category, count: int): int
    requires IsKnown(c)
  {
    match c
    case Adult => 25 * count
    case Child => 15 * count
    case Infant => 0
  }

  /** Adult and child tickets together may not exceed this many per purchase. */
  const MaxTicketsPerPurchase: int := 25
}
