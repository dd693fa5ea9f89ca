/** Every message the engine sends, field by field, and what a fill's state says of the order. */
module Messages {
  import opened Domain
  import opened Reference
  import opened Priority
  import opened Lifetime
  import opened Sealing

  // ---------------------------------------------------------------- matches

  /** A party's report of a match, field by field: a buyer gets the quantity for cash, a seller cash for the
      quantity, and the reservation shrinks by what is paid. */
  predicate Told(r: Report, asset: nat, side: Side, client: nat, id: uint32, q: int, price: int, state: OrderState) {
    && (side.Buy? ==> r == Report(q, -(q * price), -(q * price), client, id, asset, CASH, state))
    && (side.Sell? ==> r == Report(q * price, -q, -q, client, id, CASH, asset, state))
  }

  /** The `k`-th match of a walk sends the taker's report, then the maker's, each with what changed hands at the
      maker's price, and the maker's price is published. A report says Filled exactly when nothing of its order is
      left. */
  predicate Described(s: Swept, asset: nat, o: Order, k: nat) {
    && k < |s.trades| && |s.reports| == 2 * |s.trades| && |s.updates| == |s.trades|
    && var m, q := s.trades[k].maker, s.trades[k].quantity;
       && Told(s.reports[2 * k], asset, o.side, o.client, o.id, q, m.price,
               if Quantity(s.trades[..k + 1]) == o.amount then Filled else PartiallyFilled)
       && Told(s.reports[2 * k + 1], asset, m.side, m.client, m.id, q, m.price,
               if q == m.amount then Filled else PartiallyFilled)
       && s.updates[k].side == o.side.Opposite() && s.updates[k].price == m.price
  }

  lemma {:induction false} SweepLengths(asset: nat, o: Order, book: seq<Order>)
    ensures var s := Sweep(asset, o, book); |s.reports| == 2 * |s.trades| && |s.updates| == |s.trades|
    decreases o.amount + |book|
  {
    if !Done(o, book) {
      SweepUnfold(asset, o, book);
      SweepLengths(asset, TakerLeft(o, book[0]), AfterMatch(o, book));
    }
  }

  lemma {:induction false} FirstMatch(asset: nat, o: Order, book: seq<Order>)
    requires !Done(o, book)
    ensures Described(Sweep(asset, o, book), asset, o, 0)
  {
    var s, m := Sweep(asset, o, book), book[0];
    SweepLengths(asset, o, book);
    SweepUnfold(asset, o, book);
    assert s.trades[..1] == [s.trades[0]];
    assert Quantity(s.trades[..1]) == s.trades[0].quantity;
    assert s.reports[0] == MatchReports(asset, o, m)[0] && s.reports[1] == MatchReports(asset, o, m)[1];
  }

  /** What a longer walk says of a match is what the rest of it says. */
  lemma {:induction false} LaterMatch(s: Swept, r: Swept, asset: nat, o: Order, o': Order, k: nat)
    requires Described(r, asset, o', k) && s.trades != [] && s.trades[1..] == r.trades
    requires |s.reports| == 2 + |r.reports| && s.reports[2..] == r.reports
    requires |s.updates| == 1 + |r.updates| && s.updates[1..] == r.updates
    requires o' == o.(amount := o'.amount) && o.amount == o'.amount + s.trades[0].quantity
    ensures Described(s, asset, o, k + 1)
  {
    assert s.trades[k + 1] == r.trades[k] && s.updates[k + 1] == r.updates[k];
    assert s.reports[2 * k + 2] == r.reports[2 * k] && s.reports[2 * k + 3] == r.reports[2 * k + 1];
    assert s.trades[..k + 2][1..] == r.trades[..k + 1];
  }

  lemma {:induction false} RestOfWalk(asset: nat, o: Order, book: seq<Order>)
    requires !Done(o, book)
    ensures var s, r := Sweep(asset, o, book), Sweep(asset, TakerLeft(o, book[0]), AfterMatch(o, book));
            && s.trades != [] && s.trades[1..] == r.trades && s.trades[0].quantity == Min(o.amount, book[0].amount)
            && |s.reports| == 2 + |r.reports| && s.reports[2..] == r.reports
            && |s.updates| == 1 + |r.updates| && s.updates[1..] == r.updates
  {
    SweepUnfold(asset, o, book);
  }

  lemma {:induction false} MatchMessages(asset: nat, o: Order, book: seq<Order>, k: nat)
    requires k < |Sweep(asset, o, book).trades|
    ensures Described(Sweep(asset, o, book), asset, o, k)
    decreases o.amount + |book|
  {
    if k == 0 {
      FirstMatch(asset, o, book);
    } else {
      var o', book' := TakerLeft(o, book[0]), AfterMatch(o, book);
      RestOfWalk(asset, o, book);
      MatchMessages(asset, o', book', k - 1);
      LaterMatch(Sweep(asset, o, book), Sweep(asset, o', book'), asset, o, o', k - 1);
    }
  }

  // ---------------------------------------------------------------- everything else

  /** An order that comes to rest is reported once, with the value it locks, in the paying asset. */
  lemma {:induction false} RestMessages(e: Engine, o: Order)
    requires e.Resting() < e.capacity
    ensures var locked := if o.side.Buy? then o.amount * o.price else o.amount as int;
            Rest(e, o).reports
            == [if o.side.Buy? then Report(0, 0, locked, o.client, o.id, e.asset, CASH, Added)
                else Report(0, 0, locked, o.client, o.id, CASH, e.asset, Added)]
    ensures |Rest(e, o).updates| == 1 && Rest(e, o).updates[0].side == o.side && Rest(e, o).updates[0].price == o.price
  {
  }

  /** A market order's remainder is reported cancelled, with what it reserved and did not spend given back. */
  lemma {:induction false} RemainderMessages(e: Engine, o: Order, s: Swept)
    requires o.kind.Market? && s.rest > 0
    ensures var unspent := (if o.side.Buy? then o.amount * o.price else o.amount as int) - Spent(o.side, s.trades);
            Finish(e, o, s)
            == Outcome(e, [if o.side.Buy? then Report(0, 0, -unspent, o.client, o.id, e.asset, CASH, Cancelled)
                           else Report(0, 0, -unspent, o.client, o.id, CASH, e.asset, Cancelled)], [])
  {
  }

  /** A cancel request that does not hit is rejected, to its sender, and changes nothing; one that hits reports its
      target cancelled, with what the target still locks. */
  lemma {:induction false} CancelMessages(e: Engine, o: Order)
    requires Coherent(e) && o.action.Cancel?
    ensures !Hits(e, o) ==>
              CancelOrder(e, o) == Outcome(e, [Report(0, 0, 0, o.client, o.id, 0, 0, Rejected)], [])
    ensures Hits(e, o) ==>
              var t := e.Book(o.side)[Find(e.Book(o.side), o.amount)];
              && t.id == o.amount && t.client == o.client
              && CancelOrder(e, o).reports
                 == [if o.side.Buy? then Report(0, 0, t.amount * t.price, t.client, t.id, e.asset, CASH, Cancelled)
                     else Report(0, 0, t.amount, t.client, t.id, CASH, e.asset, Cancelled)]
              && |CancelOrder(e, o).updates| == 1
              && CancelOrder(e, o).updates[0].side == o.side && CancelOrder(e, o).updates[0].price == t.price
  {
  }

  // ---------------------------------------------------------------- filled orders are gone

  lemma {:induction false} RestLive(e: Engine, o: Order, id: uint32)
    requires !Live(e, id) && id != o.id
    ensures !Live(Rest(e, o).engine, id)
  {
    InsertedIds(o.side, e.Book(o.side), o, id);
  }

  /** Whoever rests after a message rested before it or came with it. */
  lemma {:induction false} StepLive(e: Engine, i: Input, id: uint32)
    requires Coherent(e) && Live(Step(e, i.order, i.eager).engine, id)
    ensures Live(e, id) || Enters(i, id)
  {
    var o := i.order;
    if o.action.Execute? && o.id != id && !Live(e, id) {
      var opp := o.side.Opposite();
      var s := Sweep(e.asset, o, e.Book(opp));
      assert !Live(e.WithBook(opp, s.book), id) by { SweepKeepsBook(e.asset, o, e.Book(opp)); }
      RestLive(e.WithBook(opp, s.book), o.(amount := s.rest), id);
      RestLive(e, o, id);
    }
  }

  lemma {:induction false} QuantitySplit(trades: seq<Trade>, k: nat)
    requires k <= |trades|
    ensures Quantity(trades) == Quantity(trades[..k]) + Quantity(trades[k..])
  {
    if k > 0 {
      QuantitySplit(trades[1..], k - 1);
      assert trades[..k][1..] == trades[1..][..k - 1] && trades[1..][k - 1..] == trades[k..];
    } else {
      assert trades[0..] == trades;
    }
  }

  /** A taker reported Filled has nothing left. */
  lemma {:induction false} FilledTaker(asset: nat, o: Order, book: seq<Order>, k: nat)
    requires k < |Sweep(asset, o, book).trades| && Quantity(Sweep(asset, o, book).trades[..k + 1]) == o.amount
    ensures Sweep(asset, o, book).rest == 0
  {
    SweepTrades(asset, o, book);
    QuantitySplit(Sweep(asset, o, book).trades, k + 1);
  }

  /** A maker reported Filled is out of the book. */
  lemma {:induction false} FilledMaker(asset: nat, o: Order, book: seq<Order>, k: nat)
    requires DistinctIds(book) && k < |Sweep(asset, o, book).trades|
    requires var t := Sweep(asset, o, book).trades[k]; t.quantity == t.maker.amount
    ensures var s := Sweep(asset, o, book);
            k < |book| && s.trades[k].maker == book[k] && FreshId(s.book, book[k].id)
  {
    var s := Sweep(asset, o, book);
    assert |s.trades| <= |book| && s.trades[k].maker == book[k] by { SweepTrades(asset, o, book); }
    assert Remainder(book, s.trades, s.book) by { SweepBook(asset, o, book); }
    NotInRemainder(book, s.trades, s.book, k);
  }

  lemma {:induction false} NotInRemainder(book: seq<Order>, trades: seq<Trade>, left: seq<Order>, k: nat)
    requires DistinctIds(book) && k < |trades| <= |book| && Remainder(book, trades, left)
    requires trades[k].quantity == book[k].amount
    ensures FreshId(left, book[k].id)
  {
    var n := |trades|;
    if n > 0 && trades[n - 1].quantity < book[n - 1].amount {
      assert k < n - 1;
      forall i | 0 <= i < |left| ensures left[i].id != book[k].id { assert left[i].id == book[n - 1 + i].id; }
    } else {
      forall i | 0 <= i < |left| ensures left[i].id != book[k].id { assert left[i] == book[n + i]; }
    }
  }

  /** The id is the taker's, with nothing left of it, or a maker's, no longer in the book. */
  predicate UsedUp(s: Swept, o: Order, book: seq<Order>, id: uint32) {
    (id == o.id && s.rest == 0) || (!FreshId(book, id) && FreshId(s.book, id))
  }

  lemma {:induction false} FilledPair(asset: nat, o: Order, book: seq<Order>, k: nat)
    requires DistinctIds(book) && k < |Sweep(asset, o, book).trades|
    ensures var s := Sweep(asset, o, book);
            && |s.reports| == 2 * |s.trades|
            && (s.reports[2 * k].state.Filled? ==> UsedUp(s, o, book, s.reports[2 * k].orderId))
            && (s.reports[2 * k + 1].state.Filled? ==> UsedUp(s, o, book, s.reports[2 * k + 1].orderId))
  {
    var s := Sweep(asset, o, book);
    MatchMessages(asset, o, book, k);
    if Quantity(s.trades[..k + 1]) == o.amount { FilledTaker(asset, o, book, k); }
    if s.trades[k].quantity == s.trades[k].maker.amount { FilledMaker(asset, o, book, k); }
  }

  lemma {:induction false} FilledInSweep(asset: nat, o: Order, book: seq<Order>, j: nat)
    requires DistinctIds(book) && j < |Sweep(asset, o, book).reports| && Sweep(asset, o, book).reports[j].state.Filled?
    ensures UsedUp(Sweep(asset, o, book), o, book, Sweep(asset, o, book).reports[j].orderId)
  {
    SweepLengths(asset, o, book);
    var k := j / 2;
    FilledPair(asset, o, book, k);
    assert j == 2 * k || j == 2 * k + 1;
  }

  lemma {:induction false} NoOtherFilled(e: Engine, o: Order, s: Swept)
    ensures forall j :: 0 <= j < |Finish(e, o, s).reports| ==> !Finish(e, o, s).reports[j].state.Filled?
  {
  }

  /** A message whose reports say Filled of an id leaves no order with that id resting. */
  lemma {:induction false} FilledIsGone(e: Engine, i: Input, j: nat)
    requires Coherent(e) && Admissible(e, i) && j < |Step(e, i.order, i.eager).reports|
    requires Step(e, i.order, i.eager).reports[j].state.Filled?
    ensures !Live(Step(e, i.order, i.eager).engine, Step(e, i.order, i.eager).reports[j].orderId)
  {
    var o, out := i.order, Step(e, i.order, i.eager);
    assert o.action.Execute? && o.amount > 0;
    var opp := o.side.Opposite();
    var s := Sweep(e.asset, o, e.Book(opp));
    var e1 := e.WithBook(opp, s.book);
    NoOtherFilled(e1, o, s);
    assert j < |s.reports| && out.reports[j] == s.reports[j];
    FilledInSweep(e.asset, o, e.Book(opp), j);
    FinishedIds(e, o, s.reports[j].orderId);
  }

  /** An id that a walk has used up does not come back with the remainder. */
  lemma {:induction false} FinishedIds(e: Engine, o: Order, id: uint32)
    requires Coherent(e) && FreshId(e.bids, o.id) && FreshId(e.asks, o.id)
    requires var book := e.Book(o.side.Opposite()); UsedUp(Sweep(e.asset, o, book), o, book, id)
    ensures !Live(ExecuteOrder(e, o).engine, id)
  {
    var opp := o.side.Opposite();
    var s := Sweep(e.asset, o, e.Book(opp));
    SweepKeepsBook(e.asset, o, e.Book(opp));
    if id != o.id { InsertedIds(o.side, e.Book(o.side), o.(amount := s.rest), id); }
  }

  predicate SaysFilled(rs: seq<Report>, id: uint32) {
    exists j :: 0 <= j < |rs| && rs[j].state.Filled? && rs[j].orderId == id
  }

  predicate FilledAt(e: Engine, i: Input, id: uint32) { SaysFilled(Step(e, i.order, i.eager).reports, id) }

  lemma {:induction false} SaidFilledIsGone(e: Engine, i: Input, id: uint32)
    requires Coherent(e) && Admissible(e, i) && FilledAt(e, i, id)
    ensures !Live(Step(e, i.order, i.eager).engine, id)
  {
    var rs := Step(e, i.order, i.eager).reports;
    var j :| 0 <= j < |rs| && rs[j].state.Filled? && rs[j].orderId == id;
    FilledIsGone(e, i, j);
  }

  /** The last message of a run reports the id Filled. */
  predicate FilledLast(e: Engine, inputs: seq<Input>, id: uint32)
    requires inputs != []
  {
    FilledAt(Run(e, inputs[..|inputs| - 1]).engine, inputs[|inputs| - 1], id)
  }

  lemma {:induction false} GoneAtFill(e: Engine, inputs: seq<Input>, id: uint32)
    requires Coherent(e) && AdmissibleRun(e, inputs) && inputs != [] && FilledLast(e, inputs, id)
    ensures !Live(Run(e, inputs).engine, id)
  {
    LastStep(e, inputs);
    SaidFilledIsGone(Run(e, inputs[..|inputs| - 1]).engine, inputs[|inputs| - 1], id);
  }

  lemma {:induction false} GoneAfterwards(e: Engine, inputs: seq<Input>, id: uint32)
    requires Coherent(e) && AdmissibleRun(e, inputs) && inputs != [] && !Enters(inputs[|inputs| - 1], id)
    requires !Live(Run(e, inputs[..|inputs| - 1]).engine, id)
    ensures !Live(Run(e, inputs).engine, id)
  {
    LastStep(e, inputs);
    GoneStays(Run(e, inputs[..|inputs| - 1]).engine, inputs[|inputs| - 1], id);
  }

  /** Message `n` of a run reports the id Filled, and no later one brings it in again. */
  ghost predicate FilledOnce(e: Engine, inputs: seq<Input>, n: nat, id: uint32) {
    && Coherent(e) && AdmissibleRun(e, inputs) && n < |inputs| && FilledLast(e, inputs[..n + 1], id)
    && forall m {:trigger Enters(inputs[m], id)} :: n < m < |inputs| ==> !Enters(inputs[m], id)
  }

  /** `FilledOnce`, folded. */
  ghost predicate SealedFill(e: Engine, inputs: seq<Input>, n: nat, id: uint32) {
    forall k {:trigger Key(Lock.Fill, k)} :: Key(Lock.Fill, k) ==> FilledOnce(e, inputs, n, id)
  }

  lemma {:induction false} Shorter(e: Engine, inputs: seq<Input>, n: nat, id: uint32)
    requires SealedFill(e, inputs, n, id) && n < |inputs| - 1
    ensures SealedFill(e, inputs[..|inputs| - 1], n, id)
  {
    assert Key(Lock.Fill, 0);
    var before := inputs[..|inputs| - 1];
    assert before[..n + 1] == inputs[..n + 1];
    forall m {:trigger Enters(before[m], id)} | n < m < |before| ensures !Enters(before[m], id) {
      assert before[m] == inputs[m];
    }
  }

  lemma {:induction false} FilledLater(e: Engine, inputs: seq<Input>, n: nat, id: uint32)
    requires SealedFill(e, inputs, n, id) && n < |inputs|
    requires n < |inputs| - 1 ==> !Live(Run(e, inputs[..|inputs| - 1]).engine, id)
    ensures !Live(Run(e, inputs).engine, id)
  {
    assert Key(Lock.Fill, 0);
    if n == |inputs| - 1 {
      assert inputs[..n + 1] == inputs;
      GoneAtFill(e, inputs, id);
    } else {
      GoneAfterwards(e, inputs, id);
    }
  }

  lemma {:induction false} FilledFold(e: Engine, inputs: seq<Input>, n: nat, id: uint32)
    requires SealedFill(e, inputs, n, id) && n < |inputs|
    ensures !Live(Run(e, inputs).engine, id)
    decreases |inputs|
  {
    if n < |inputs| - 1 {
      Shorter(e, inputs, n, id);
      FilledFold(e, inputs[..|inputs| - 1], n, id);
    }
    FilledLater(e, inputs, n, id);
  }

  /** So over any run: once an id is reported Filled, no order with it rests until one comes in with it again. */
  lemma {:induction false} FilledStaysGone(e: Engine, inputs: seq<Input>, n: nat, id: uint32)
    requires FilledOnce(e, inputs, n, id)
    ensures !Live(Run(e, inputs).engine, id)
  {
    FilledFold(e, inputs, n, id);
  }

  lemma {:induction false} GoneStays(e: Engine, i: Input, id: uint32)
    requires Coherent(e) && !Live(e, id) && !Enters(i, id)
    ensures !Live(Step(e, i.order, i.eager).engine, id)
  {
    if Live(Step(e, i.order, i.eager).engine, id) { StepLive(e, i, id); }
  }

  lemma {:induction false} LastStep(e: Engine, inputs: seq<Input>)
    requires Coherent(e) && AdmissibleRun(e, inputs) && inputs != []
    ensures var n := |inputs| - 1;
            && AdmissibleRun(e, inputs[..n]) && Coherent(Run(e, inputs[..n]).engine)
            && Admissible(Run(e, inputs[..n]).engine, inputs[n])
            && Run(e, inputs).engine == Step(Run(e, inputs[..n]).engine, inputs[n].order, inputs[n].eager).engine
  {
    RunKeepsCoherent(e, inputs[..|inputs| - 1]);
  }
}
