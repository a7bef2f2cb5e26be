# Cinema ticket purchase rules, modelled in Dafny

A model of the ticket service's `purchaseTickets` operation: the business rules
that accept or refuse a purchase of adult, child and infant tickets, the amount
to pay and seats to reserve for an accepted purchase, and the calls made on the
payment gateway and the seat booking service.

Modules, one file each:

- `Domain` (`domain.dfy`): ticket types, request lines (a type with an integer
  count), the purchase errors, the price table (adult 20, child 10, infant 0)
  and the limit of 20 tickets.
- `Totals` (`totals.dfy`): what one request line contributes. `TicketsOfType`
  models `calculateNoOfTicketsForEachType`, `AmountFor` models
  `calculateAmountForEachTicketType` and `SeatsFor` models `seatCalculator`.
  `Sum(rs, m)` is the running total of a measure after the lines of `rs`, so
  `Sum(rs[..k], m)` is the total after the first `k` lines.
- `Validation` (`validation.dfy`): `requestValidator` as the tail-recursive
  function `ValidateFrom`. It carries the loop's running totals and adult flag,
  uses `MaxTicketLimitChecker` after each line and `TicketTypeRequestValidator`
  after the pass. `RuleVerdict` states the same rules declaratively, in their
  precedence order:
  1. an empty list is a null request;
  2. some prefix has more than 20 tickets;
  3. no line has an adult count above 0;
  4. there are more infants than adults.
  `RequestValidator` is proved equal to `RuleVerdict`.
- `TicketService` (`ticket_service.dfy`): `AccountIdValidator`,
  `NullRequestChecker`, null filtering, and `PurchaseTickets`. The result is
  either a `Receipt` or a `PurchaseError`. It comes with the trace of
  collaborator calls (`MakePayment`, then `ReserveSeat`).
- `Scenarios` (`scenarios.dfy`): the unit-test purchases and some boundary
  cases, each with its outcome proved.

A null request array is `None`. A null entry in the array is a `None` element
of `seq<Option<TicketRequest>>`. The payment and reservation services become
events in the returned trace, so "nothing happens on failure" and "pay before
reserving" can be stated.

Counts are `int`: the `TicketTypeRequest` constructor accepts any integer
and nothing in the service checks the sign. Two consequences follow:

- With a negative count the order of the request lines matters, because the
  limit is checked against every running total
  (`OrderMattersWithNegativeCounts`). With non-negative counts it does not
  (`PurchaseOrderIrrelevantWhenNonNegative`).
- An adult line cancelled by a negative adult line still counts as "an adult
  is present" (`CancelledAdultIsAccepted`).

## Model

| member | source | states |
|---|---|---|
| TicketService.PurchaseTickets | src/main/java/uk/gov/dwp/uc/pairtest/TicketServiceImpl.java:46-68 | An account id below 1 fails with InvalidAccount whatever the requests, and a null array with NullRequest. Otherwise the purchase succeeds exactly when the declarative rules accept the non-null lines, and a failure carries the first rule they break. A failure makes no call. A success makes exactly two calls, payment then reservation, for the same account: the price table applied to the per-type totals (20 per adult, 10 per child, 0 per infant), and one seat per adult or child. |
| TicketService.FilterNonNull | src/main/java/uk/gov/dwp/uc/pairtest/TicketServiceImpl.java:50 | The filtered list holds exactly the non-null entries and is no longer than the array. It is empty exactly when every entry is null. |
| TicketService.FilterNonNullAppend | src/main/java/uk/gov/dwp/uc/pairtest/TicketServiceImpl.java:50 | Filtering distributes over concatenation, so the surviving entries keep their order. |
| TicketService.FilterNonNullKeepsPresent | src/main/java/uk/gov/dwp/uc/pairtest/TicketServiceImpl.java:50 | An array without null entries comes out of the filter unchanged. |
| TicketService.NullEntryIgnored | src/main/java/uk/gov/dwp/uc/pairtest/TicketServiceImpl.java:50-52 | Inserting a null entry anywhere in the request array does not change the outcome or the calls. |
| TicketService.PurchaseOrderIrrelevantWhenNonNegative | src/main/java/uk/gov/dwp/uc/pairtest/TicketServiceImpl.java:46-68 | With non-negative counts, any rearrangement of the non-null lines gives the same outcome and the same calls. |
| Validation.RequestValidator | src/main/java/uk/gov/dwp/uc/pairtest/TicketServiceImpl.java:116-143 | The validator's verdict equals the declarative rules. NullRequest iff the list is empty. MaxTicketLimitExceeded(20) iff some prefix has over 20 tickets. NoAdultTicket iff no prefix is over and no line has an adult count above 0. TooManyInfants iff those pass and infants outnumber adults. Acceptance iff all pass, equal counts included. |
| Validation.ValidateFrom | src/main/java/uk/gov/dwp/uc/pairtest/TicketServiceImpl.java:128-142 | Starting from the running state left by the first i lines (totals, adult flag, no prefix yet over the limit), the rest of the pass ends with the declarative verdict for the whole list. |
| Validation.LimitIffTotalWhenNonNegative | src/main/java/uk/gov/dwp/uc/pairtest/TicketServiceImpl.java:128-134 | With non-negative counts, the per-line limit check fails exactly when the whole purchase has more than 20 tickets. |
| Validation.HasAdultIffAdultTotalWhenNonNegative | src/main/java/uk/gov/dwp/uc/pairtest/TicketServiceImpl.java:136-139 | With non-negative counts, the adult flag is set exactly when the adult total is positive. |
| Validation.VerdictOrderIrrelevantWhenNonNegative | src/main/java/uk/gov/dwp/uc/pairtest/TicketServiceImpl.java:116-143 | With non-negative counts, any permutation of the lines gets the same verdict. |
| Validation.OrderMattersWithNegativeCounts | src/main/java/uk/gov/dwp/uc/pairtest/TicketServiceImpl.java:128-134 | The lines adult×21 and adult×−1 are over the limit in that order. In the reverse order they are accepted. |
| Totals.AmountByType | src/main/java/uk/gov/dwp/uc/pairtest/TicketServiceImpl.java:196-213 | The sum of the line prices is 20 × adult tickets + 10 × child tickets + 0 × infant tickets. |
| Totals.SeatsByType | src/main/java/uk/gov/dwp/uc/pairtest/TicketServiceImpl.java:100-108 | The seats to reserve are the adult tickets plus the child tickets; infants add none. |
| Totals.TicketsByType | src/main/java/uk/gov/dwp/uc/pairtest/TicketServiceImpl.java:181-188 | The running ticket total is the sum of the per-type totals. |
| Totals.SumPermutation | src/main/java/uk/gov/dwp/uc/pairtest/TicketServiceImpl.java:56-59 | Each summed quantity (tickets, per-type tickets, amount, seats) is independent of the order of the lines. |
| Totals.SumAppend | src/main/java/uk/gov/dwp/uc/pairtest/TicketServiceImpl.java:56-59 | The sum over two lists of lines, one after the other, is the sum of their sums. |
| Totals.TicketsOfType | src/main/java/uk/gov/dwp/uc/pairtest/TicketServiceImpl.java:181-188 | The count of a line if it has the given type, else 0. It has no contract of its own: `Totals.TicketsByType` characterises it, since the per-type totals add up to the all-ticket total. |
| Totals.AmountFor | src/main/java/uk/gov/dwp/uc/pairtest/TicketServiceImpl.java:196-213 | The price of one line: its count times its type's unit price. It has no contract of its own: `Totals.AmountByType` characterises it as the price table applied to the per-type totals. |
| Totals.SeatsFor | src/main/java/uk/gov/dwp/uc/pairtest/TicketServiceImpl.java:100-108 | The seats of one line: its count for an adult or child, 0 for an infant. It has no contract of its own: `Totals.SeatsByType` characterises it as adults plus children. |
| TicketService.AccountIdValidator | src/main/java/uk/gov/dwp/uc/pairtest/TicketServiceImpl.java:87-92 | Refuses an account id below 1. It has no contract of its own: the first ensures of `TicketService.PurchaseTickets` characterises it (InvalidAccount, no calls, whatever the requests). |
| TicketService.NullRequestChecker | src/main/java/uk/gov/dwp/uc/pairtest/TicketServiceImpl.java:75-80 | Refuses a null request array. It has no contract of its own: the second ensures of `TicketService.PurchaseTickets` characterises it (NullRequest, no calls, for a valid account). |
| Validation.MaxTicketLimitChecker | src/main/java/uk/gov/dwp/uc/pairtest/TicketServiceImpl.java:168-173 | Refuses a running total over 20. It has no contract of its own: `Validation.RequestValidator`'s equality with `RuleVerdict` characterises it (MaxTicketLimitExceeded(20) iff some prefix is over 20). |
| Validation.TicketTypeRequestValidator | src/main/java/uk/gov/dwp/uc/pairtest/TicketServiceImpl.java:152-160 | After the pass, refuses a purchase without an adult, then one with more infants than adults. It has no contract of its own: `Validation.RequestValidator`'s equality with `RuleVerdict` characterises it (NoAdultTicket, then TooManyInfants, in that order). |
| Scenarios.PurchaseSucceeds | src/test/java/uk/gov/dwp/uc/pairtest/TicketServiceImplTest.java:45-60 | Account 1 with 10 adults, 1 child and 9 infants pays 210, then reserves 11 seats. |
| Scenarios.TwentyOneTicketsExceedLimit | src/test/java/uk/gov/dwp/uc/pairtest/TicketServiceImplTest.java:62-73 | 10 adults, 5 children and 6 infants fail with MaxTicketLimitExceeded(20) and make no call. |
| Scenarios.ZeroAdultsIsNoAdult | src/test/java/uk/gov/dwp/uc/pairtest/TicketServiceImplTest.java:75-86 | An adult line of 0 with 5 children and 6 infants fails with NoAdultTicket. |
| Scenarios.MoreInfantsThanAdults | src/test/java/uk/gov/dwp/uc/pairtest/TicketServiceImplTest.java:88-99 | 5 adults, 5 children and 6 infants fail with TooManyInfants. |
| Scenarios.NullArrayIsNullRequest | src/test/java/uk/gov/dwp/uc/pairtest/TicketServiceImplTest.java:101-109 | A null request array fails with NullRequest. |
| Scenarios.AccountZeroIsInvalid | src/test/java/uk/gov/dwp/uc/pairtest/TicketServiceImplTest.java:111-120 | Account 0 fails with InvalidAccount. |
| Scenarios.AsManyInfantsAsAdults | src/main/java/uk/gov/dwp/uc/pairtest/TicketServiceImpl.java:156 | 5 adults and 5 infants are accepted: pay 100 and reserve 5 seats. |
| Scenarios.LimitBeforeNoAdult | src/main/java/uk/gov/dwp/uc/pairtest/TicketServiceImpl.java:128-142 | 21 children and no adult fail with MaxTicketLimitExceeded, not NoAdultTicket. |
| Scenarios.OnlyNullEntriesIsNullRequest | src/main/java/uk/gov/dwp/uc/pairtest/TicketServiceImpl.java:121-123 | An array of only null entries fails with NullRequest. |
| Scenarios.CancelledAdultIsAccepted | src/main/java/uk/gov/dwp/uc/pairtest/domain/TicketTypeRequest.java:16-19 | Adult×1 followed by adult×−1 is accepted. The purchase pays 0 and reserves 0 seats. |

## Left out

- The `default` branch of the pricing switch (`InvalidTicketType`): it cannot be reached with the closed `TicketType` datatype, so the error kind is not modelled.
- PurchaseTickets: does not model Java's 32-bit `int` overflow of the running totals, the amount multiplication or the sums. Totals are unbounded integers.
- PurchaseTickets: a request line whose type is null throws `NullPointerException` at the adult check (TicketServiceImpl.java:136), unless the limit check at :134 rejects that line or an earlier one first. Pricing is never reached with a null type. The closed `TicketType` has no null, so this input is not modelled.
- PurchaseTickets: does not model the `NullPointerException` raised when a null `Long` account id is unboxed. The account id is a plain integer, so it is never null and has no 64-bit bound.
- The payment and seat reservation services are outside this model. Only the calls made on them are recorded. Their failures are not modelled, and neither is compensation for a payment whose reservation then fails.
- Logging is left out; it has no effect on behaviour.
- The exception messages and their `String.format` text are left out. Errors are an enumeration, and the limit travels with `MaxTicketLimitExceeded`.
- `synchronized` on `purchaseTickets` is left out: concurrency is not modelled, and each call is treated as atomic.
- The price fields in `Constants.java` are mutable statics there. Here they are constants, as they are never assigned.
