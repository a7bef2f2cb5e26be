/**
 The purchase scenarios exercised by the service's unit tests, and a few
 boundary cases of the rules, each with the outcome it must have.
 */
module Scenarios {
  import opened Domain
  import opened Totals
  import opened Validation
  import opened TicketService

  function Line(t: TicketType, n: int): Option<TicketRequest>
  {
    Some(TicketRequest(t, n))
  }

  /** Ten adults, one child and nine infants on account 1: pay 210, reserve 11 seats. */
  lemma PurchaseSucceeds()
    ensures PurchaseTickets(1, Some([Line(Adult, 10), Line(Child, 1), Line(Infant, 9)]))
         == Outcome(Success(Receipt(210, 11)), [MakePayment(1, 210), ReserveSeat(1, 11)])
  {
    var xs := [Line(Adult, 10), Line(Child, 1), Line(Infant, 9)];
    var rs := [TicketRequest(Adult, 10), TicketRequest(Child, 1), TicketRequest(Infant, 9)];
    assert FilterNonNull(xs) == rs by {
      assert xs[1..][1..][1..] == [];
    }
    SucceedingLines(rs);
  }

  lemma SucceedingLines(rs: seq<TicketRequest>)
    requires rs == [TicketRequest(Adult, 10), TicketRequest(Child, 1), TicketRequest(Infant, 9)]
    ensures RequestValidator(rs) == None
    ensures Sum(rs, TicketsOf(Adult)) == 10 && Sum(rs, TicketsOf(Child)) == 1
  {
    assert rs[..0] == [] && rs[..3] == rs;
    SumPrefixStep(rs, 0, AllTickets); SumPrefixStep(rs, 1, AllTickets); SumPrefixStep(rs, 2, AllTickets);
    SumPrefixStep(rs, 0, TicketsOf(Infant)); SumPrefixStep(rs, 1, TicketsOf(Infant)); SumPrefixStep(rs, 2, TicketsOf(Infant));
    SumPrefixStep(rs, 0, TicketsOf(Adult)); SumPrefixStep(rs, 1, TicketsOf(Adult)); SumPrefixStep(rs, 2, TicketsOf(Adult));
    assert HasAdult(rs[..1]) by {
      assert rs[..1][0] == rs[0];
    }
    HasAdultStep(rs, 1);
    HasAdultStep(rs, 2);
    assert ValidateFrom(rs, 3, 20, 10, 9, true) == None;
    assert ValidateFrom(rs, 2, 11, 10, 0, true) == None;
    assert ValidateFrom(rs, 1, 10, 10, 0, true) == None;
    SumPrefixStep(rs, 0, TicketsOf(Child)); SumPrefixStep(rs, 1, TicketsOf(Child)); SumPrefixStep(rs, 2, TicketsOf(Child));
  }

  /** Twenty-one tickets in all: over the limit. */
  lemma TwentyOneTicketsExceedLimit()
    ensures PurchaseTickets(2, Some([Line(Adult, 10), Line(Child, 5), Line(Infant, 6)]))
         == Outcome(Failure(MaxTicketLimitExceeded(20)), [])
  {
  }

  /** An adult line with zero tickets is no adult. */
  lemma ZeroAdultsIsNoAdult()
    ensures PurchaseTickets(3, Some([Line(Adult, 0), Line(Child, 5), Line(Infant, 6)]))
         == Outcome(Failure(NoAdultTicket), [])
  {
  }

  /** Six infants and five adults: too many infants. */
  lemma MoreInfantsThanAdults()
    ensures PurchaseTickets(4, Some([Line(Adult, 5), Line(Child, 5), Line(Infant, 6)]))
         == Outcome(Failure(TooManyInfants), [])
  {
  }

  /** As many infants as adults is accepted; the infants pay nothing and take no seat. */
  lemma AsManyInfantsAsAdults()
    ensures PurchaseTickets(4, Some([Line(Adult, 5), Line(Infant, 5)]))
         == Outcome(Success(Receipt(100, 5)), [MakePayment(4, 100), ReserveSeat(4, 5)])
  {
    var xs := [Line(Adult, 5), Line(Infant, 5)];
    var rs := [TicketRequest(Adult, 5), TicketRequest(Infant, 5)];
    assert FilterNonNull(xs) == rs by {
      assert xs[1..][1..] == [];
    }
    assert rs[..1] == [rs[0]] && rs[..2] == rs;
    assert RequestValidator(rs) == None;
    assert rs[..0] == [];
    SumPrefixStep(rs, 0, Amount); SumPrefixStep(rs, 1, Amount);
    SumPrefixStep(rs, 0, Seats); SumPrefixStep(rs, 1, Seats);
  }

  /** The limit is checked before the adult rule: 21 children alone are over the limit. */
  lemma LimitBeforeNoAdult()
    ensures PurchaseTickets(6, Some([Line(Child, 21)])) == Outcome(Failure(MaxTicketLimitExceeded(20)), [])
  {
  }

  /** A request array of null entries only is a null request. */
  lemma OnlyNullEntriesIsNullRequest()
    ensures PurchaseTickets(7, Some([None, None])) == Outcome(Failure(NullRequest), [])
  {
  }

  /** A null request array is a null request. */
  lemma NullArrayIsNullRequest()
    ensures PurchaseTickets(5, None) == Outcome(Failure(NullRequest), [])
  {
  }

  /** Account 0 is refused, whatever the requests. */
  lemma AccountZeroIsInvalid()
    ensures PurchaseTickets(0, Some([Line(Adult, 5), Line(Child, 5)])) == Outcome(Failure(InvalidAccount), [])
  {
  }

  /**
   Counts are never checked for sign: an adult line cancelled by a negative
   adult line still counts as an adult, and the purchase goes through with
   nothing to pay and no seat to reserve.
   */
  lemma CancelledAdultIsAccepted()
    ensures PurchaseTickets(1, Some([Line(Adult, 1), Line(Adult, -1)]))
         == Outcome(Success(Receipt(0, 0)), [MakePayment(1, 0), ReserveSeat(1, 0)])
  {
    var xs := [Line(Adult, 1), Line(Adult, -1)];
    var rs := [TicketRequest(Adult, 1), TicketRequest(Adult, -1)];
    assert FilterNonNull(xs) == rs by {
      assert xs[1..][1..] == [];
    }
    assert rs[..0] == [] && rs[..1] == [rs[0]] && rs[..2] == rs;
    assert RequestValidator(rs) == None;
    SumPrefixStep(rs, 0, TicketsOf(Adult)); SumPrefixStep(rs, 1, TicketsOf(Adult));
    SumPrefixStep(rs, 0, TicketsOf(Child)); SumPrefixStep(rs, 1, TicketsOf(Child));
  }
}
