/**
 What a single request line contributes to the purchase (its ticket count,
 its count of one type, its price, its seats), and the running sums of those
 contributions over a list of request lines.
 */
module Totals {
  import opened Domain

  /** The number of tickets of type `t` a request asks for: its count if it is of that type, else 0. */
  function TicketsOfType(r: TicketRequest, t: TicketType): int
  {
    if r.ticketType == t then r.noOfTickets else 0
  }

  /** The price of one request line: its count times the unit price of its type. */
  function AmountFor(r: TicketRequest): int
  {
    r.noOfTickets * Price(r.ticketType)
  }

  /** The seats one request line occupies: adults and children sit, infants do not. */
  function SeatsFor(r: TicketRequest): int
  {
    if r.ticketType == Adult || r.ticketType == Child then r.noOfTickets else 0
  }

  /** The quantities the service accumulates over the request lines. */
  datatype Measure = AllTickets | TicketsOf(t: TicketType) | Amount | Seats

  function Contribution(m: Measure, r: TicketRequest): int
  {
    match m
    case AllTickets => r.noOfTickets
    case TicketsOf(t) => TicketsOfType(r, t)
    case Amount => AmountFor(r)
    case Seats => SeatsFor(r)
  }

  /**
   The running total of measure `m` after the request lines of `rs` have been
   visited in order; `Sum(rs[..k], m)` is the total after the first `k` lines.
   */
  function Sum(rs: seq<TicketRequest>, m: Measure): int
    decreases |rs|
  {
    if rs == [] then 0 else Sum(rs[..|rs| - 1], m) + Contribution(m, rs[|rs| - 1])
  }

  /** Visiting one more request line adds exactly its contribution. */
  lemma SumPrefixStep(rs: seq<TicketRequest>, i: int, m: Measure)
    requires 0 <= i < |rs|
    ensures Sum(rs[..i + 1], m) == Sum(rs[..i], m) + Contribution(m, rs[i])
  {
    assert rs[..i + 1][..i] == rs[..i];
  }

  /** Running sums split over concatenation. */
  lemma {:induction false} SumAppend(xs: seq<TicketRequest>, ys: seq<TicketRequest>, m: Measure)
    ensures Sum(xs + ys, m) == Sum(xs, m) + Sum(ys, m)
    decreases |ys|
  {
    if ys == [] {
      assert xs + ys == xs;
    } else {
      var zs := ys[..|ys| - 1];
      assert (xs + ys)[..|xs + ys| - 1] == xs + zs;
      SumAppend(xs, zs, m);
    }
  }

  /** Taking out one request line removes its contribution and nothing else. */
  lemma RemoveLine(ys: seq<TicketRequest>, j: int, m: Measure)
    requires 0 <= j < |ys|
    ensures multiset(ys[..j] + ys[j + 1..]) == multiset(ys) - multiset{ys[j]}
    ensures Sum(ys, m) == Sum(ys[..j] + ys[j + 1..], m) + Contribution(m, ys[j])
  {
    var before, after := ys[..j], ys[j + 1..];
    assert ys == before + [ys[j]] + after;
    assert multiset(ys) == multiset(before) + multiset{ys[j]} + multiset(after);
    SumAppend(before, after, m);
    SumAppend(before + [ys[j]], after, m);
    SumAppend(before, [ys[j]], m);
    assert [ys[j]][..0] == [];
  }

  /** The order in which the request lines are visited does not change any sum. */
  lemma {:induction false} SumPermutation(xs: seq<TicketRequest>, ys: seq<TicketRequest>, m: Measure)
    requires multiset(xs) == multiset(ys)
    ensures Sum(xs, m) == Sum(ys, m)
    decreases |xs|
  {
    if xs == [] {
      assert |ys| == |multiset(ys)| == 0;
    } else {
      var n := |xs| - 1;
      var x := xs[n];
      assert x in multiset(ys) by {
        assert x in multiset(xs);
      }
      var j :| 0 <= j < |ys| && ys[j] == x;
      RemoveLine(xs, n, m);
      RemoveLine(ys, j, m);
      assert xs[..n] + xs[n + 1..] == xs[..n];
      SumPermutation(xs[..n], ys[..j] + ys[j + 1..], m);
    }
  }

  /** Every ticket is an adult, a child or an infant ticket. */
  lemma {:induction false} TicketsByType(rs: seq<TicketRequest>)
    ensures Sum(rs, AllTickets) == Sum(rs, TicketsOf(Adult)) + Sum(rs, TicketsOf(Child)) + Sum(rs, TicketsOf(Infant))
    decreases |rs|
  {
    if rs != [] {
      TicketsByType(rs[..|rs| - 1]);
    }
  }

  /** The amount to pay is the price table applied to the ticket count of each type. */
  lemma {:induction false} AmountByType(rs: seq<TicketRequest>)
    ensures Sum(rs, Amount)
         == AdultTicketPrice * Sum(rs, TicketsOf(Adult))
          + ChildTicketPrice * Sum(rs, TicketsOf(Child))
          + InfantTicketPrice * Sum(rs, TicketsOf(Infant))
    decreases |rs|
  {
    if rs != [] {
      AmountByType(rs[..|rs| - 1]);
    }
  }

  /** The seats to reserve are the adult and child tickets; infants take none. */
  lemma {:induction false} SeatsByType(rs: seq<TicketRequest>)
    ensures Sum(rs, Seats) == Sum(rs, TicketsOf(Adult)) + Sum(rs, TicketsOf(Child))
    decreases |rs|
  {
    if rs != [] {
      SeatsByType(rs[..|rs| - 1]);
    }
  }

  /** With no negative counts, the running ticket total never decreases, so no prefix exceeds the whole. */
  lemma {:induction false} PrefixTotalAtMostTotal(rs: seq<TicketRequest>, k: int)
    requires AllNonNegative(rs)
    requires 0 <= k <= |rs|
    ensures Sum(rs[..k], AllTickets) <= Sum(rs, AllTickets)
    decreases |rs|
  {
    if k == |rs| {
      assert rs[..|rs|] == rs;
    } else {
      var front := rs[..|rs| - 1];
      assert front[..k] == rs[..k];
      PrefixTotalAtMostTotal(front, k);
    }
  }

  /** With no negative counts, the total of type `t` is at least the count of any one line of that type. */
  lemma {:induction false} PositiveLineMakesPositiveTotal(rs: seq<TicketRequest>, i: int, t: TicketType)
    requires AllNonNegative(rs)
    requires 0 <= i < |rs| && rs[i].ticketType == t
    ensures Sum(rs, TicketsOf(t)) >= rs[i].noOfTickets
    decreases |rs|
  {
    var front := rs[..|rs| - 1];
    NonNegativeSum(front, TicketsOf(t));
    if i < |rs| - 1 {
      PositiveLineMakesPositiveTotal(front, i, t);
    }
  }

  /** With no negative counts, no per-type total is negative. */
  lemma {:induction false} NonNegativeSum(rs: seq<TicketRequest>, m: Measure)
    requires AllNonNegative(rs)
    requires m.TicketsOf? || m == AllTickets
    ensures Sum(rs, m) >= 0
    decreases |rs|
  {
    if rs != [] {
      NonNegativeSum(rs[..|rs| - 1], m);
    }
  }
}
