/**
 The purchase operation: validate the account and the requests, add up the
 amount to pay and the seats to reserve, then ask the payment gateway to take
 the payment and the seat booking service to reserve the seats.

 The two collaborators are not modelled beyond the calls made to them: each
 call is appended to a trace, so that what reaches them, and in what order,
 can be stated.
 */
module TicketService {
  import opened Domain
  import opened Totals
  import opened Validation

  /** A call made on a collaborator. */
  datatype Call =
    | MakePayment(accountId: int, totalAmountToPay: int)
    | ReserveSeat(accountId: int, totalSeatsToAllocate: int)

  /** The totals of a successful purchase. */
  datatype Receipt = Receipt(totalAmountToPay: int, totalSeatsToAllocate: int)

  /** What a purchase returns or raises, and the calls it made on the way. */
  datatype Outcome = Outcome(result: Result<Receipt, PurchaseError>, calls: seq<Call>)

  /** Account ids start at 1. */
  function AccountIdValidator(accountId: int): Option<PurchaseError>
  {
    if accountId < 1 then Some(InvalidAccount) else None
  }

  /** The request array itself must not be null. */
  function NullRequestChecker(requests: Option<seq<Option<TicketRequest>>>): Option<PurchaseError>
  {
    if requests.None? then Some(NullRequest) else None
  }

  /** Drops the null entries of the request array, keeping the others in order. */
  function FilterNonNull(xs: seq<Option<TicketRequest>>): (rs: seq<TicketRequest>)
    ensures |rs| <= |xs|
    ensures forall r :: r in rs <==> Some(r) in xs
    ensures rs == [] <==> forall i :: 0 <= i < |xs| ==> xs[i].None?
  {
    if xs == [] then []
    else
      var rest := FilterNonNull(xs[1..]);
      assert forall r :: Some(r) in xs <==> Some(r) == xs[0] || Some(r) in xs[1..];
      match xs[0]
      case None => rest
      case Some(r) => [r] + rest
  }

  /** Filtering splits over concatenation, so it keeps the order of the entries. */
  lemma {:induction false} FilterNonNullAppend(xs: seq<Option<TicketRequest>>, ys: seq<Option<TicketRequest>>)
    ensures FilterNonNull(xs + ys) == FilterNonNull(xs) + FilterNonNull(ys)
    decreases |xs|
  {
    if xs == [] {
      assert xs + ys == ys;
    } else {
      assert (xs + ys)[0] == xs[0];
      assert (xs + ys)[1..] == xs[1..] + ys;
      FilterNonNullAppend(xs[1..], ys);
    }
  }

  /** An array without null entries passes through the filter unchanged. */
  lemma {:induction false} FilterNonNullKeepsPresent(rs: seq<TicketRequest>)
    ensures FilterNonNull(seq(|rs|, i requires 0 <= i < |rs| => Some(rs[i]))) == rs
    decreases |rs|
  {
    var xs := seq(|rs|, i requires 0 <= i < |rs| => Some(rs[i]));
    if rs != [] {
      assert xs[1..] == seq(|rs[1..]|, i requires 0 <= i < |rs[1..]| => Some(rs[1..][i]));
      FilterNonNullKeepsPresent(rs[1..]);
      assert rs == [rs[0]] + rs[1..];
    }
  }

  /**
   purchaseTickets: the account is checked first, then that the request array
   is present; the null entries are dropped, the remaining lines validated,
   and only then are the totals computed, the payment taken and the seats
   reserved, in that order.
   */
  function PurchaseTickets(accountId: int, requests: Option<seq<Option<TicketRequest>>>): (o: Outcome)
    ensures accountId < 1 ==> o == Outcome(Failure(InvalidAccount), [])
    ensures accountId >= 1 && requests.None? ==> o == Outcome(Failure(NullRequest), [])
    ensures accountId >= 1 && requests.Some? ==>
              var rs := FilterNonNull(requests.value);
              && (o.result.Success? <==> RuleVerdict(rs) == None)
              && (o.result.Failure? ==> Some(o.result.error) == RuleVerdict(rs))
    ensures o.result.Failure? <==> o.calls == []
    ensures o.result.Success? ==>
              var rs := FilterNonNull(requests.value);
              && o.result.value.totalAmountToPay
                 == AdultTicketPrice * Sum(rs, TicketsOf(Adult)) + ChildTicketPrice * Sum(rs, TicketsOf(Child))
                    + InfantTicketPrice * Sum(rs, TicketsOf(Infant))
              && o.result.value.totalSeatsToAllocate == Sum(rs, TicketsOf(Adult)) + Sum(rs, TicketsOf(Child))
              && o.calls == [MakePayment(accountId, o.result.value.totalAmountToPay),
                             ReserveSeat(accountId, o.result.value.totalSeatsToAllocate)]
  {
    match AccountIdValidator(accountId)
    case Some(e) => Outcome(Failure(e), [])
    case None =>
      match NullRequestChecker(requests)
      case Some(e) => Outcome(Failure(e), [])
      case None =>
        var rs := FilterNonNull(requests.value);
        match RequestValidator(rs)
        case Some(e) => Outcome(Failure(e), [])
        case None =>
          var totalAmountToPay := Sum(rs, Amount);
          var totalSeatsToAllocate := Sum(rs, Seats);
          AmountByType(rs);
          SeatsByType(rs);
          Outcome(Success(Receipt(totalAmountToPay, totalSeatsToAllocate)),
                  [MakePayment(accountId, totalAmountToPay), ReserveSeat(accountId, totalSeatsToAllocate)])
  }

  /** A null entry anywhere in the request array changes nothing. */
  lemma NullEntryIgnored(accountId: int, xs: seq<Option<TicketRequest>>, ys: seq<Option<TicketRequest>>)
    ensures PurchaseTickets(accountId, Some(xs + [None] + ys)) == PurchaseTickets(accountId, Some(xs + ys))
  {
    var absent: seq<Option<TicketRequest>> := [None];
    FilterNonNullAppend(xs, absent);
    FilterNonNullAppend(xs + absent, ys);
    FilterNonNullAppend(xs, ys);
    assert FilterNonNull(absent) == [] by {
      assert absent[1..] == [];
    }
    assert FilterNonNull(xs) + [] == FilterNonNull(xs);
  }

  /**
   With no negative counts, rearranging the non-null request lines changes
   neither the verdict, the totals nor the calls made.
   */
  lemma PurchaseOrderIrrelevantWhenNonNegative(accountId: int, xs: seq<Option<TicketRequest>>,
                                               ys: seq<Option<TicketRequest>>)
    requires multiset(FilterNonNull(xs)) == multiset(FilterNonNull(ys))
    requires AllNonNegative(FilterNonNull(xs))
    ensures PurchaseTickets(accountId, Some(xs)) == PurchaseTickets(accountId, Some(ys))
  {
    var rs, ss := FilterNonNull(xs), FilterNonNull(ys);
    VerdictOrderIrrelevantWhenNonNegative(rs, ss);
    SumPermutation(rs, ss, TicketsOf(Adult));
    SumPermutation(rs, ss, TicketsOf(Child));
    var o, p := PurchaseTickets(accountId, Some(xs)), PurchaseTickets(accountId, Some(ys));
    if accountId >= 1 {
      assert o.result.Success? <==> p.result.Success?;
      if o.result.Success? {
        assert o.result.value == p.result.value;
      } else {
        assert o.result.error == p.result.error;
      }
    }
  }
}
