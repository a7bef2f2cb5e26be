/**
 The request validator: one pass over the (non-null) request lines that keeps
 running totals of all tickets, adult tickets and infant tickets, fails at the
 first line that takes the running ticket total over the limit, and after the
 pass rejects a purchase without an adult ticket or with more infants than
 adults.

 `RuleVerdict` states the same business rules declaratively, in their order
 of precedence, without any running state; `RequestValidator` is proved to
 agree with it on every input.
 */
module Validation {
  import opened Domain
  import opened Totals

  /** Some request line asks for at least one adult ticket. */
  ghost predicate HasAdult(rs: seq<TicketRequest>)
  {
    exists i :: 0 <= i < |rs| && rs[i].ticketType == Adult && rs[i].noOfTickets > 0
  }

  /** Some non-empty prefix of the request lines holds more tickets than the limit. */
  ghost predicate LimitExceededWithin(rs: seq<TicketRequest>)
  {
    exists k :: 0 < k <= |rs| && Sum(rs[..k], AllTickets) > MaxTicketLimit
  }

  /** The business rules for a list of request lines, the first violated one winning. */
  ghost function RuleVerdict(rs: seq<TicketRequest>): Option<PurchaseError>
  {
    if rs == [] then Some(NullRequest) else PassVerdict(rs)
  }

  /** The rules checked by and after the pass over the request lines. */
  ghost function PassVerdict(rs: seq<TicketRequest>): Option<PurchaseError>
  {
    if LimitExceededWithin(rs) then Some(MaxTicketLimitExceeded(MaxTicketLimit))
    else if !HasAdult(rs) then Some(NoAdultTicket)
    else if Sum(rs, TicketsOf(Infant)) > Sum(rs, TicketsOf(Adult)) then Some(TooManyInfants)
    else None
  }

  /** Fails when a running ticket total is over the limit. */
  function MaxTicketLimitChecker(totalNoOfAllTickets: int): Option<PurchaseError>
  {
    if totalNoOfAllTickets > MaxTicketLimit then Some(MaxTicketLimitExceeded(MaxTicketLimit)) else None
  }

  /** The checks made once the pass is over: an adult must be present, then infants may not outnumber adults. */
  function TicketTypeRequestValidator(hasAdultTicket: bool, totalNoOfAdultTickets: int, totalNoOfInfantTickets: int)
    : Option<PurchaseError>
  {
    if !hasAdultTicket then Some(NoAdultTicket)
    else if totalNoOfInfantTickets > totalNoOfAdultTickets then Some(TooManyInfants)
    else None
  }

  /**
   The pass over the request lines from position `i` on, given the running
   state the first `i` lines left behind.
   */
  function ValidateFrom(rs: seq<TicketRequest>, i: int, totalNoOfAllTickets: int, totalNoOfAdultTickets: int,
                        totalNoOfInfantTickets: int, hasAdultTicket: bool): (r: Option<PurchaseError>)
    requires 0 <= i <= |rs|
    requires totalNoOfAllTickets == Sum(rs[..i], AllTickets)
    requires totalNoOfAdultTickets == Sum(rs[..i], TicketsOf(Adult))
    requires totalNoOfInfantTickets == Sum(rs[..i], TicketsOf(Infant))
    requires hasAdultTicket == HasAdult(rs[..i])
    requires forall k :: 0 < k <= i ==> Sum(rs[..k], AllTickets) <= MaxTicketLimit
    ensures r == PassVerdict(rs)
    decreases |rs| - i
  {
    if i == |rs| then
      assert rs[..i] == rs;
      TicketTypeRequestValidator(hasAdultTicket, totalNoOfAdultTickets, totalNoOfInfantTickets)
    else
      var r := rs[i];
      var total := totalNoOfAllTickets + r.noOfTickets;
      var adults := totalNoOfAdultTickets + TicketsOfType(r, Adult);
      var infants := totalNoOfInfantTickets + TicketsOfType(r, Infant);
      SumPrefixStep(rs, i, AllTickets);
      SumPrefixStep(rs, i, TicketsOf(Adult));
      SumPrefixStep(rs, i, TicketsOf(Infant));
      match MaxTicketLimitChecker(total)
      case Some(e) =>
        assert LimitExceededWithin(rs) by {
          assert 0 < i + 1 <= |rs| && Sum(rs[..i + 1], AllTickets) > MaxTicketLimit;
        }
        Some(e)
      case None =>
        var hasAdult := hasAdultTicket || (r.ticketType == Adult && r.noOfTickets > 0);
        HasAdultStep(rs, i);
        ValidateFrom(rs, i + 1, total, adults, infants, hasAdult)
  }

  /** Extending the prefix by one line adds that line's own adult ticket, if any. */
  lemma HasAdultStep(rs: seq<TicketRequest>, i: int)
    requires 0 <= i < |rs|
    ensures HasAdult(rs[..i + 1]) <==> HasAdult(rs[..i]) || (rs[i].ticketType == Adult && rs[i].noOfTickets > 0)
  {
  }

  /**
   Validates the non-null request lines: an empty list is a null request;
   otherwise the pass decides, starting from zero totals and no adult seen.
   */
  function RequestValidator(rs: seq<TicketRequest>): (r: Option<PurchaseError>)
    ensures r == RuleVerdict(rs)
    ensures r == Some(NullRequest) <==> rs == []
    ensures r == Some(MaxTicketLimitExceeded(MaxTicketLimit)) <==> rs != [] && LimitExceededWithin(rs)
    ensures r == Some(NoAdultTicket) <==> rs != [] && !LimitExceededWithin(rs) && !HasAdult(rs)
    ensures r == Some(TooManyInfants)
        <==> rs != [] && !LimitExceededWithin(rs) && HasAdult(rs)
             && Sum(rs, TicketsOf(Infant)) > Sum(rs, TicketsOf(Adult))
    ensures r == None
        <==> rs != [] && !LimitExceededWithin(rs) && HasAdult(rs)
             && Sum(rs, TicketsOf(Infant)) <= Sum(rs, TicketsOf(Adult))
  {
    if rs == [] then Some(NullRequest)
    else
      assert rs[..0] == [];
      ValidateFrom(rs, 0, 0, 0, 0, false)
  }

  /**
   With no negative counts the prefix check is a check of the total alone:
   some prefix is over the limit exactly when the whole purchase is.
   */
  lemma LimitIffTotalWhenNonNegative(rs: seq<TicketRequest>)
    requires AllNonNegative(rs)
    ensures LimitExceededWithin(rs) <==> Sum(rs, AllTickets) > MaxTicketLimit
  {
    if LimitExceededWithin(rs) {
      var k :| 0 < k <= |rs| && Sum(rs[..k], AllTickets) > MaxTicketLimit;
      PrefixTotalAtMostTotal(rs, k);
    }
    if Sum(rs, AllTickets) > MaxTicketLimit {
      assert rs[..|rs|] == rs;
      assert 0 < |rs|;
    }
  }

  /** With no negative counts, an adult is present exactly when the adult total is positive. */
  lemma HasAdultIffAdultTotalWhenNonNegative(rs: seq<TicketRequest>)
    requires AllNonNegative(rs)
    ensures HasAdult(rs) <==> Sum(rs, TicketsOf(Adult)) > 0
  {
    if HasAdult(rs) {
      var i :| 0 <= i < |rs| && rs[i].ticketType == Adult && rs[i].noOfTickets > 0;
      PositiveLineMakesPositiveTotal(rs, i, Adult);
    } else {
      NoAdultLineMeansNoAdults(rs);
    }
  }

  lemma {:induction false} NoAdultLineMeansNoAdults(rs: seq<TicketRequest>)
    requires !HasAdult(rs)
    ensures Sum(rs, TicketsOf(Adult)) <= 0
    decreases |rs|
  {
    if rs != [] {
      var front := rs[..|rs| - 1];
      assert forall j :: 0 <= j < |front| ==> front[j] == rs[j];
      NoAdultLineMeansNoAdults(front);
    }
  }

  /**
   With no negative counts the order of the request lines does not matter:
   any rearrangement of them gets the same verdict.
   */
  lemma VerdictOrderIrrelevantWhenNonNegative(rs: seq<TicketRequest>, ss: seq<TicketRequest>)
    requires multiset(rs) == multiset(ss)
    requires AllNonNegative(rs)
    ensures RuleVerdict(rs) == RuleVerdict(ss)
  {
    assert |rs| == |multiset(rs)| == |multiset(ss)| == |ss|;
    assert AllNonNegative(ss) by {
      forall i | 0 <= i < |ss|
        ensures ss[i].noOfTickets >= 0
      {
        assert ss[i] in multiset(rs);
        var j :| 0 <= j < |rs| && rs[j] == ss[i];
      }
    }
    SumPermutation(rs, ss, AllTickets);
    SumPermutation(rs, ss, TicketsOf(Adult));
    SumPermutation(rs, ss, TicketsOf(Infant));
    LimitIffTotalWhenNonNegative(rs);
    LimitIffTotalWhenNonNegative(ss);
    HasAdultIffAdultTotalWhenNonNegative(rs);
    HasAdultIffAdultTotalWhenNonNegative(ss);
  }

  /**
   With a negative count the order does matter: the same two lines are over
   the limit in one order and accepted in the other.
   */
  lemma OrderMattersWithNegativeCounts()
    ensures RequestValidator([TicketRequest(Adult, 21), TicketRequest(Adult, -1)])
         == Some(MaxTicketLimitExceeded(MaxTicketLimit))
    ensures RequestValidator([TicketRequest(Adult, -1), TicketRequest(Adult, 21)]) == None
  {
    var rs := [TicketRequest(Adult, -1), TicketRequest(Adult, 21)];
    assert rs[..1] == [rs[0]] && rs[..2] == rs;
  }
}
