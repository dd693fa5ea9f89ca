/** What one engine does to the funds one client has committed in one asset. */
module Reserves {
  import opened Domain
  import opened Reference
  import opened Priority
  import opened Sums
  import opened Lifetime

  /** Value locked by a resting order of client `c` paying with asset `a` in the engine of `asset`. */
  function LockedBy(asset: nat, c: nat, a: nat): Order -> int {
    (o: Order) => if o.client == c && PaysWith(o.side, asset) == a then Value(o.side, o.amount, o.price) else 0
  }

  /** What a report takes off the client's attempts: everything but the positive amounts. */
  function TakenBy(c: nat, a: nat): Report -> int {
    (r: Report) =>
      if r.client == c && r.soldAsset == a && !r.state.Added? && r.attempt < 0 then -r.attempt else 0
  }

  /** Orders lie in the book of their side, at prices that are not negative. */
  predicate DecentBook(side: Side, book: seq<Order>) {
    OnSide(side, book) && forall i :: 0 <= i < |book| ==> book[i].price >= 0
  }

  predicate Decent(e: Engine) { DecentBook(Buy, e.bids) && DecentBook(Sell, e.asks) }

  // ---------------------------------------------------------------- preserved

  lemma {:induction false} RestKeepsDecent(e: Engine, o: Order)
    requires Decent(e) && o.price >= 0
    ensures Decent(Rest(e, o).engine)
  {
    var book := Insert(o.side, e.Book(o.side), o);
    assert DecentBook(o.side, book) by {
      forall i | 0 <= i < |book| ensures book[i].side == o.side && book[i].price >= 0 {
        InsertAt(o.side, e.Book(o.side), o, i);
      }
    }
  }

  lemma {:induction false} CancelKeepsDecent(e: Engine, o: Order)
    requires Decent(e)
    ensures Decent(CancelOrder(e, o).engine)
  {
    var book, k := e.Book(o.side), Find(e.Book(o.side), o.amount);
    if k < |book| { assert DecentBook(o.side, Without(book, k)); }
  }

  lemma {:induction false} SweepKeepsDecent(asset: nat, o: Order, book: seq<Order>)
    requires DecentBook(o.side.Opposite(), book)
    ensures DecentBook(o.side.Opposite(), Sweep(asset, o, book).book)
  {
    var d := SweepLeaves(asset, o, book);
  }

  lemma {:induction false} ExecuteKeepsDecent(e: Engine, o: Order)
    requires Decent(e) && o.price >= 0
    ensures Decent(ExecuteOrder(e, o).engine)
  {
    var s := Sweep(e.asset, o, e.Book(o.side.Opposite()));
    var e1 := e.WithBook(o.side.Opposite(), s.book);
    SweepKeepsDecent(e.asset, o, e.Book(o.side.Opposite()));
    assert Decent(e1);
    RestKeepsDecent(e1, o.(amount := s.rest));
  }

  lemma {:induction false} StepKeepsDecent(e: Engine, o: Order, eager: bool)
    requires Decent(e) && o.price >= 0
    ensures Decent(Step(e, o, eager).engine)
  {
    if o.action.Cancel? {
      CancelKeepsDecent(e, o);
    } else if o.amount > 0 {
      ExecuteKeepsDecent(e, o);
    } else {
      RestKeepsDecent(e, o);
    }
  }

  lemma {:induction false} StepKeepsAsset(e: Engine, o: Order, eager: bool)
    ensures Step(e, o, eager).engine.asset == e.asset
  {
  }

  // ---------------------------------------------------------------- no report debits what it does not release

  /** A report never debits more than it takes off the attempts, and never credits a negative amount. */
  predicate Honest(r: Report) {
    r.bought >= 0 && (r.sold < 0 ==> r.attempt <= r.sold && !r.state.Added?)
  }

  predicate AllHonest(rs: seq<Report>) { forall i :: 0 <= i < |rs| ==> Honest(rs[i]) }

  lemma {:induction false} LegHonest(asset: nat, party: Order, q: uint32, price: int, left: uint32)
    requires price >= 0
    ensures Honest(LegReport(asset, party, q, price, left))
  {
    assert q * price >= 0;
  }

  lemma {:induction false} SweepHonest(asset: nat, o: Order, book: seq<Order>)
    requires DecentBook(o.side.Opposite(), book)
    ensures AllHonest(Sweep(asset, o, book).reports)
    decreases o.amount + |book|
  {
    if !Done(o, book) {
      var m, q := book[0], Min(o.amount, book[0].amount);
      SweepUnfold(asset, o, book);
      LegHonest(asset, o, q, m.price, o.amount - q);
      LegHonest(asset, m, q, m.price, m.amount - q);
      SweepHonest(asset, TakerLeft(o, m), AfterMatch(o, book));
    }
  }

  lemma {:induction false} StepHonest(e: Engine, o: Order, eager: bool)
    requires Decent(e)
    ensures AllHonest(Step(e, o, eager).reports)
  {
    if o.action.Execute? && o.amount > 0 {
      SweepHonest(e.asset, o, e.Book(o.side.Opposite()));
    }
  }

  // ---------------------------------------------------------------- committed funds

  lemma {:induction false} MatchTakes(asset: nat, o: Order, book: seq<Order>, c: nat, a: nat)
    requires asset != CASH && book != [] && DecentBook(o.side.Opposite(), book)
    ensures var q := Min(o.amount, book[0].amount);
            Sum(MatchReports(asset, o, book[0]), TakenBy(c, a)) + Sum(AfterMatch(o, book), LockedBy(asset, c, a))
            == Sum(book, LockedBy(asset, c, a))
               + (if o.client == c && PaysWith(o.side, asset) == a then Value(o.side, q, book[0].price) else 0)
  {
    var m, q := book[0], Min(o.amount, book[0].amount);
    var rs, f := MatchReports(asset, o, m), LockedBy(asset, c, a);
    SumTwo(rs[0], rs[1], TakenBy(c, a));
    assert q * m.price >= 0;
    var m' := MakerLeft(o, m);
    assert ([m'] + book[1..])[1..] == book[1..];
    assert m'.amount == 0 ==> f(m') == 0;
    ValueSplit(m.side, m.amount, q, m.price);
  }

  lemma {:induction false} SweepTakes(asset: nat, o: Order, book: seq<Order>, c: nat, a: nat)
    requires asset != CASH && DecentBook(o.side.Opposite(), book)
    ensures var s := Sweep(asset, o, book);
            Sum(s.reports, TakenBy(c, a)) + Sum(s.book, LockedBy(asset, c, a))
            == Sum(book, LockedBy(asset, c, a))
               + (if o.client == c && PaysWith(o.side, asset) == a then Spent(o.side, s.trades) else 0)
    decreases o.amount + |book|
  {
    if !Done(o, book) {
      var o', book' := TakerLeft(o, book[0]), AfterMatch(o, book);
      var r := Sweep(asset, o', book');
      SweepUnfold(asset, o, book);
      MatchTakes(asset, o, book, c, a);
      SweepTakes(asset, o', book', c, a);
      SumConcat(MatchReports(asset, o, book[0]), r.reports, TakenBy(c, a));
      SpentHead(o.side, Trade(book[0], Min(o.amount, book[0].amount)), r.trades);
    }
  }

  lemma {:induction false} RestTakes(e: Engine, o: Order, c: nat, a: nat)
    requires o.price >= 0
    ensures var out := Rest(e, o);
            Sum(out.reports, TakenBy(c, a)) + Held(out.engine, LockedBy(e.asset, c, a))
            <= Held(e, LockedBy(e.asset, c, a)) + LockedBy(e.asset, c, a)(o)
  {
    var out := Rest(e, o);
    RestTally(e, o, LockedBy(e.asset, c, a));
    ValueSigns(o);
    if out.reports != [] { SumOne(out.reports[0], TakenBy(c, a)); }
  }

  lemma {:induction false} FinishTakes(e: Engine, o: Order, s: Swept, c: nat, a: nat)
    requires o.price >= 0
    requires Spent(o.side, s.trades) + Value(o.side, s.rest, o.price) <= Value(o.side, o.amount, o.price)
    ensures var out := Finish(e, o, s);
            Sum(out.reports, TakenBy(c, a)) + Held(out.engine, LockedBy(e.asset, c, a))
            <= Held(e, LockedBy(e.asset, c, a))
               + (if o.client == c && PaysWith(o.side, e.asset) == a
                  then Value(o.side, o.amount, o.price) - Spent(o.side, s.trades) else 0)
  {
    var out := Finish(e, o, s);
    ValueSigns(o.(amount := s.rest));
    if s.rest > 0 && o.kind.Limit? {
      RestTakes(e, o.(amount := s.rest), c, a);
    } else if s.rest > 0 {
      SumOne(out.reports[0], TakenBy(c, a));
    }
  }

  lemma {:induction false} ExecuteTakes(e: Engine, o: Order, c: nat, a: nat)
    requires e.asset != CASH && Decent(e) && o.price >= 0
    ensures var out := ExecuteOrder(e, o);
            Sum(out.reports, TakenBy(c, a)) + Held(out.engine, LockedBy(e.asset, c, a))
            <= Held(e, LockedBy(e.asset, c, a)) + LockedBy(e.asset, c, a)(o)
  {
    var opp := o.side.Opposite();
    var s := Sweep(e.asset, o, e.Book(opp));
    var e1 := e.WithBook(opp, s.book);
    SweepTakes(e.asset, o, e.Book(opp), c, a);
    SweepWithinReserve(e.asset, o, e.Book(opp));
    FinishTakes(e1, o, s, c, a);
    SumConcat(s.reports, Finish(e1, o, s).reports, TakenBy(c, a));
  }

  lemma {:induction false} CancelTakes(e: Engine, o: Order, c: nat, a: nat)
    requires Decent(e)
    ensures var out := CancelOrder(e, o);
            Sum(out.reports, TakenBy(c, a)) + Held(out.engine, LockedBy(e.asset, c, a))
            <= Held(e, LockedBy(e.asset, c, a))
  {
    var out := CancelOrder(e, o);
    var book, k := e.Book(o.side), Find(e.Book(o.side), o.amount);
    CancelTally(e, o, LockedBy(e.asset, c, a));
    if k < |book| { ValueSigns(book[k]); }
    SumOne(out.reports[0], TakenBy(c, a));
  }

  /** A message releases and leaves locked no more of a client's funds in an asset than were locked there
      before plus what the risk check reserved for the message. */
  lemma {:induction false} StepTakes(e: Engine, o: Order, eager: bool, c: nat, a: nat)
    requires e.asset != CASH && Decent(e) && o.price >= 0
    ensures var out := Step(e, o, eager);
            Sum(out.reports, TakenBy(c, a)) + Held(out.engine, LockedBy(e.asset, c, a))
            <= Held(e, LockedBy(e.asset, c, a)) + LockedBy(e.asset, c, a)(o)
  {
    ValueSigns(o);
    if o.action.Cancel? {
      CancelTakes(e, o, c, a);
    } else if o.amount > 0 {
      ExecuteTakes(e, o, c, a);
    } else {
      RestTakes(e, o, c, a);
    }
  }

  lemma {:induction false} HeldIsPositive(e: Engine, c: nat, a: nat)
    requires Decent(e)
    ensures Held(e, LockedBy(e.asset, c, a)) >= 0
  {
    forall i | 0 <= i < |e.bids| ensures LockedBy(e.asset, c, a)(e.bids[i]) >= 0 { ValueSigns(e.bids[i]); }
    forall i | 0 <= i < |e.asks| ensures LockedBy(e.asset, c, a)(e.asks[i]) >= 0 { ValueSigns(e.asks[i]); }
    SumNonNegative(e.bids, LockedBy(e.asset, c, a));
    SumNonNegative(e.asks, LockedBy(e.asset, c, a));
  }
}
