/** The condition under which a session starts solvent is needed: a client whose attempts are negative is let past
    its balance. */
module Overdrafts {
  import opened Domain
  import opened Reference
  import opened TripleBuffer
  import opened Funds
  import opened RiskCheck
  import Priority
  import opened Solvency

  lemma {:induction false} OccursFirst(x: System, e: Event, rest: seq<Event>)
    requires Happens(x, e) && Occurs(After(x, e), rest)
    ensures Occurs(x, [e] + rest) && Played(x, [e] + rest) == Played(After(x, e), rest)
  {
    assert ([e] + rest)[1..] == rest;
  }

  lemma {:induction false} OccursThen(x: System, a: seq<Event>, b: seq<Event>)
    requires Occurs(x, a) && Occurs(Played(x, a), b)
    ensures Occurs(x, a + b) && Played(x, a + b) == Played(Played(x, a), b)
    decreases |a|
  {
    if a == [] {
      assert a + b == b;
    } else {
      assert (a + b)[0] == a[0] && (a + b)[1..] == a[1..] + b;
      assert Occurs(After(x, a[0]), a[1..]) && Played(x, a) == Played(After(x, a[0]), a[1..]);
      OccursThen(After(x, a[0]), a[1..], b);
    }
  }

  /** Submitted, processed and one report delivered: what one order does to an idle desk. */
  function Through(fd: nat, k: nat, o: Order, i: nat): seq<Event> {
    [Submit(fd, k, o, i)] + ([Process(k, true)] + ([Deliver(k)] + []))
  }

  lemma {:induction false} GoesThrough(x: System, fd: nat, k: nat, o: Order, i: nat, out: Outcome)
    requires Happens(x, Submit(fd, k, o, i)) && x.desks[k].inbox == [] && x.desks[k].outbox == []
    requires out == Step(x.desks[k].engine, o, true) && out.reports != [] && out.reports[0].client == fd
    requires forall c: nat {:trigger x.seats[c]} :: c < |x.seats| ==> ShapedCopy(x.seats[c].state)
    ensures Occurs(x, Through(fd, k, o, i))
    ensures var y := Played(x, Through(fd, k, o, i));
            && |y.seats| == |x.seats| && |y.desks| == |x.desks|
            && y.desks[k] == Desk(out.engine, [], out.reports[1..])
            && y.seats[fd].state == GatewayStates.Settled(x.seats[fd].state, out.reports[0])
            && forall c: nat {:trigger y.seats[c]} :: c < |x.seats| && c != fd ==> y.seats[c] == x.seats[c]
  {
    var e1, e2, e3 := Submit(fd, k, o, i), Process(k, true), Deliver(k);
    var x1 := After(x, e1);
    assert x1.desks[k].inbox == [o] && x1.desks[k].engine == x.desks[k].engine;
    var x2 := After(x1, e2);
    assert [o][1..] == [] && [] + out.reports == out.reports;
    assert x2.desks[k] == Desk(out.engine, [], out.reports);
    assert x2.seats == x1.seats;
    assert x1.seats[fd].state == x.seats[fd].state;
    assert forall c: nat {:trigger x2.seats[c]} :: c < |x2.seats| ==> ShapedCopy(x2.seats[c].state);
    OccursFirst(x2, e3, []);
    OccursFirst(x1, e2, [e3] + []);
    OccursFirst(x, e1, [e2] + ([e3] + []));
  }

  function Offer(c: nat, a: nat, price: int): Order { Order(price, 1, c, 1, a, Limit, Sell, Execute) }

  function Bid(c: nat, a: nat, price: int): Order { Order(price, 2, c, 1, a, Limit, Buy, Execute) }

  /** On an empty book a unit offered rests. */
  lemma {:induction false} OfferRests(a: nat, capacity: nat, c: nat, price: int)
    requires capacity > 0
    ensures var out := Step(Engine(a, capacity, [], []), Offer(c, a, price), true);
            && out.engine == Engine(a, capacity, [], [Offer(c, a, price)])
            && out.reports == [AttemptReport(a, Offer(c, a, price), 1, Added)]
  {
    var o := Offer(c, a, price);
    assert Sweep(a, o, []) == Swept([], [], [], 1, []);
    assert o.(amount := 1) == o;
    assert Insert(Sell, [], o) == [o];
  }

  /** A bid for it at its price pays that price. */
  lemma {:induction false} BidPays(a: nat, capacity: nat, seller: nat, c: nat, price: int)
    ensures var out := Step(Engine(a, capacity, [], [Offer(seller, a, price)]), Bid(c, a, price), true);
            out.reports != [] && out.reports[0] == Report(1, -price, -price, c, 2, a, CASH, Filled)
  {
    var m, o := Offer(seller, a, price), Bid(c, a, price);
    Priority.SweepUnfold(a, o, [m]);
    assert Sweep(a, o, [m]).reports[0] == LegReport(a, o, 1, price, 0);
  }

  /** Some client can offer a unit of a desk's asset. */
  ghost predicate Offers(x: System, k: nat, seller: nat, j: nat)
    requires WellFormed(x)
  {
    && k < |x.desks| && x.desks[k].engine.capacity > 0 && seller < |x.seats|
    && FirstHolding(x.seats[seller].state.assets, j) && x.seats[seller].state.assets[j] == x.desks[k].engine.asset
    && Available(x.seats[seller].state, x.seats[seller].local, j) >= 1
  }

  /** With negative attempts, a client can buy the unit at a price its balance does not cover. */
  lemma {:induction false} NegativeAttemptOverdraws(x: System, c: nat, i: nat, k: nat, seller: nat, j: nat)
    returns (events: seq<Event>)
    requires WellFormed(x) && Idle(x) && c < |x.seats| && c != seller && Offers(x, k, seller, j)
    requires FirstHolding(x.seats[c].state.assets, i) && x.seats[c].state.assets[i] == CASH
    requires x.seats[c].state.funds.confirmed[i] >= 0
    requires x.seats[c].state.funds.attempt[i] + x.seats[c].local.attempt[i] < 0
    ensures Occurs(x, events) && c < |Played(x, events).seats|
    ensures var s := Played(x, events).seats[c].state; ShapedCopy(s) && s.funds.confirmed[i] < 0
  {
    var a, n := x.desks[k].engine.asset, x.desks[k].engine.capacity;
    var price := Available(x.seats[c].state, x.seats[c].local, i);
    var m, o := Offer(seller, a, price), Bid(c, a, price);
    assert x.desks[k].engine == Engine(a, n, [], []);
    OfferRests(a, n, seller, price);
    GoesThrough(x, seller, k, m, j, Step(x.desks[k].engine, m, true));
    var y := Played(x, Through(seller, k, m, j));
    assert y.seats[c] == x.seats[c];
    BidPays(a, n, seller, c, price);
    var out := Step(y.desks[k].engine, o, true);
    GoesThrough(y, c, k, o, i, out);
    SettledAt(y.seats[c].state, out.reports[0], i);
    OccursThen(x, Through(seller, k, m, j), Through(c, k, o, i));
    events := Through(seller, k, m, j) + Through(c, k, o, i);
  }

  /** No run takes the balance below zero. */
  ghost predicate Solvent(x: System, c: nat, i: nat) {
    forall events {:trigger Occurs(x, events)} :: Occurs(x, events) ==>
      var y := Played(x, events);
      c < |y.seats| && ShapedCopy(y.seats[c].state) && i < MAX_POSITIONS && y.seats[c].state.funds.confirmed[i] >= 0
  }

  /** At the start of a session, with anybody there to sell: a client's cash can never go below zero if, and only
      if, its attempts and local reservations together are not negative. */
  lemma {:induction false} SolventIff(x: System, c: nat, i: nat, k: nat, seller: nat, j: nat)
    requires WellFormed(x) && Idle(x) && c < |x.seats| && c != seller && Offers(x, k, seller, j)
    requires FirstHolding(x.seats[c].state.assets, i) && x.seats[c].state.assets[i] == CASH
    requires x.seats[c].state.funds.confirmed[i] >= 0
    ensures Solvent(x, c, i) <==> x.seats[c].state.funds.attempt[i] + x.seats[c].local.attempt[i] >= 0
  {
    if x.seats[c].state.funds.attempt[i] + x.seats[c].local.attempt[i] >= 0 {
      forall events | Occurs(x, events)
        ensures var y := Played(x, events);
                c < |y.seats| && ShapedCopy(y.seats[c].state) && y.seats[c].state.funds.confirmed[i] >= 0
      {
        FreshSessionIsSolvent(x, events, c, i);
      }
    } else {
      var events := NegativeAttemptOverdraws(x, c, i, k, seller, j);
    }
  }
}
