# Cinema tickets: the purchase pipeline in Dafny

This project models the ticket purchase service of the cinema-tickets
repository. `TicketService.purchaseTickets` takes an account id and an
ordered list of ticket type requests. It runs four steps:

1. It validates the account id.
2. It walks the requests in order. It rejects the first request that has a
   non-positive count or an unknown category; within one request the count
   is checked first. It adds every other request to a running summary:
   adult, child and infant counts, tickets, cost and seats.
3. It checks the three business rules on the summary: at most 25 adult and
   child tickets, at least one adult, no more infants than adults. The first
   broken rule is reported.
4. Only then does it call the payment service with the total cost and the
   seat reservation service with the seat count.

Files:

- `constants.dfy` (module `TicketConstants`): ticket categories, requests,
  rejection reasons, the frozen price table applied to a ticket count by
  `CostOf` (adult 25, child 15, infant 0), and the 25-ticket cap.
- `ticket_service.dfy` (module `TicketService`): the pipeline.
  - The account check and the business rules are guard chains, modelled as
    functions.
  - The running summary holds the source's six fields. They are grouped into
    two records: `Counts` (adult, child and infant counts) and `Totals`
    (tickets, cost and seats).
  - The request loop has a specification function, `Summarise`. It is a
    left fold over prefixes, one `Step` per request. The imperative method
    `ValidateAndSummariseTicketRequests` mirrors the `for…of` loop that
    updates a local summary object. It is proved equal to `Summarise`.
  - `Purchase` states the whole pipeline as a value: an outcome and the
    ordered trace of collaborator calls. The method `PurchaseTickets` runs
    the steps and builds the trace by appending calls. It is proved equal to
    `Purchase`.
  - Independent reference definitions serve as partners:
    - `CountOf` / `Tally`: per-category sums and the summary they imply.
    - `FirstBad` / `RequestError`: the first ill-formed request and its reason.
    - `Violations`: every broken business rule, in priority order.
  - The lemmas connect each operation to its reference definition.

The count is checked before the category (src/pairtest/TicketService.js:46-48,
before the switch at 50-68), so a request with a zero count and an unknown
category is rejected with `TicketTypeMissingTickets`.

## Model

| member | source | states |
|---|---|---|
| `TicketService.ValidateAccountId` | src/pairtest/TicketService.js:26-30 | accepts exactly an integer id greater than zero; non-integers, zero and negatives are rejected with InvalidAccountId |
| `TicketService.FirstBad` | src/pairtest/TicketService.js:42-48 | when some request is ill-formed, names the earliest one: it is ill-formed and every request before it is well-formed |
| `TicketService.StepSpec` | src/pairtest/TicketService.js:43-68 | one request is rejected exactly when its count is non-positive or its category unknown; the count is checked first, and an unknown category is named in the reason; an accepted request keeps the bookkeeping (tickets = seats = adults + children, cost = 25·adults + 15·children), and only an infant request changes the infant count |
| `TicketService.SummariseConsistent` | src/pairtest/TicketService.js:32-72 | every summary the loop produces satisfies that bookkeeping and has non-negative counts |
| `TicketService.RejectionPersists` | src/pairtest/TicketService.js:42-69 | once a prefix of the requests is rejected, the whole list is rejected for the same reason; later requests are never looked at |
| `TicketService.SummariseAccepts` | src/pairtest/TicketService.js:42-69 | when every request is well-formed, the summary is the per-category totals, priced from the table in src/pairtest/constants/TicketPrices.js |
| `TicketService.SummariseRejects` | src/pairtest/TicketService.js:42-68 | when some request is ill-formed, the rejection is the reason of the first ill-formed request in list order |
| `TicketService.SummariseOkOnlyIfWellFormed` | src/pairtest/TicketService.js:46-68 | a list is summarised only if every request in it is well-formed |
| `TicketService.SummariseSpec` | src/pairtest/TicketService.js:42-69 | both cases together: the per-category totals, or the first ill-formed request's reason |
| `TicketService.ValidateAndSummariseTicketRequests` | src/pairtest/TicketService.js:32-72 | the imperative loop, with its early exits, returns exactly what the fold `Summarise` specifies |
| `TicketService.BusinessRulesSpec` | src/pairtest/TicketService.js:74-88 | the rules pass exactly when no rule is broken; otherwise the first broken rule is reported, in the order too-many-tickets, no-adults, more-infants-than-adults |
| `TicketService.PurchaseAllOrNothing` | src/pairtest/TicketService.js:12-24 | all or nothing: a rejection makes no call, and a success makes exactly two calls for the given account, payment first and reservation second |
| `TicketService.PurchaseTickets` | src/pairtest/TicketService.js:12-24 | the sequenced steps return the outcome and the call trace that `Purchase` specifies |
| `TicketService.PurchaseSpec` | src/pairtest/TicketService.js:12-24 | the first failing step decides the reason, with no calls: account, then first ill-formed request, then first broken rule; otherwise the account is charged 25 per adult plus 15 per child, then adults + children seats are reserved |
| `TicketService.SuccessfulPurchase` | src/pairtest/TicketService.js:17-23 | a successful purchase has a valid account and well-formed requests; at least one adult, no more infants than adults and at most 25 adult and child tickets; its trace is the payment then the reservation for those totals |
| `TicketService.EmptyRequestsRejected` | src/pairtest/TicketService.js:33-40 | an empty request list summarises to zeros and is rejected with NoAdultTickets |
| `TicketService.MixedPurchaseScenario` | test/TicketService.test.js:96-105 | 10 adults, 5 infants and 5 children for account 1 charge 325 and reserve 15 seats, in that order |
| `TicketService.TooManyTicketsScenario` | test/TicketService.test.js:68-74 | 26 adult tickets are rejected with TooManyTickets and no call is made |
| `TicketService.NoAdultScenario` | test/TicketService.test.js:76-82 | 5 child tickets alone are rejected with NoAdultTickets and no call is made |
| `TicketService.MoreInfantsScenario` | test/TicketService.test.js:84-92 | 10 adults with 15 infants are rejected with MoreInfantsThanAdults and no call is made |
| `TicketService.InvalidAccountScenarios` | test/TicketService.test.js:24-36 | a non-integer, a negative and a zero account id are rejected with InvalidAccountId, and no call is made |
| `TicketService.RequestValidationScenarios` | test/TicketService.test.js:41-64 | counts -1 and 0 are rejected with TicketTypeMissingTickets, even when the category is unknown too; a count of 1 passes that check; an unknown category with a positive count is rejected naming that category |

## Left out

- The payment and seat reservation services (src/thirdparty/…) are opaque external collaborators and are not part of this model. Each call is recorded as an entry of the returned trace, with its arguments, and has no behaviour. Their failures, and the missing rollback if the reservation fails after payment, are not modelled.
- `TicketTypeRequest` and `InvalidPurchaseException` (src/pairtest/lib/…) are not part of this model. A request is a plain record whose count is any integer. A rejection is a `Result` value carrying a `Reason`, not a thrown exception.
- JavaScript's dynamic typing of the account id (`'abc'`, `null`, `1.5`) and `Number.isInteger` are reduced to the datatype `AccountId = IntId(int) | NonInteger`.
- A ticket count is modelled as an unbounded integer. JavaScript's floating-point numbers (fractional counts, precision loss on very large sums) are not modelled.
- The English text of the error messages (src/pairtest/constants/ErrorMessages.js) is not modelled. Each message is a `Reason` constructor, and `UnknownTicketType` carries the offending category name.
- The Jest configuration and mocking machinery carry no logic and are not modelled.
- The `TicketService` class holds no fields, so its public and private methods are modelled as module-level members rather than a Dafny class. The payment and reservation service objects it creates on each call are not modelled beyond the trace entries above.
- A category is `Adult`, `Child` or `Infant` exactly when the request's ticket type is strictly equal (`===`) to the corresponding `TicketType` constant; src/pairtest/lib/TicketType.js is not part of this model. `Unknown(name)` stands only for a ticket type equal to none of the three constants, and `name` is the text the rejection quotes. The model does not exclude an `Unknown` whose name spells one of the constants (such as `Unknown("ADULT")`); such a value corresponds to no source input, since the source would accept that request as a known type.
