/** The life of one order across a run: where its quantity went, what it paid, what it still locks. */
module Lifetime {
  import opened Domain
  import opened Reference
  import opened Priority
  import opened Sums
  import opened Books

  // ---------------------------------------------------------------- tallies over reports

  /** Quantity a fill report says changed hands. */
  function LegQuantity(r: Report): int {
    if r.state != Filled && r.state != PartiallyFilled then 0
    else if r.boughtAsset != CASH then r.bought else -r.sold
  }

  function TradedBy(id: uint32): Report -> int { (r: Report) => if r.orderId == id then LegQuantity(r) else 0 }
  function PaidBy(id: uint32): Report -> int { (r: Report) => if r.orderId == id then -r.sold else 0 }
  function AttemptBy(id: uint32): Report -> int { (r: Report) => if r.orderId == id then r.attempt else 0 }
  /** What a market remainder hands back; a resting cancel hands back nothing. */
  function FreedBy(id: uint32): Report -> int {
    (r: Report) => if r.orderId == id && r.state.Cancelled? && r.attempt < 0 then -r.attempt else 0
  }

  function AmountOf(id: uint32): Order -> int { (o: Order) => if o.id == id then o.amount as int else 0 }
  function ValueOf(id: uint32): Order -> int {
    (o: Order) => if o.id == id then Value(o.side, o.amount, o.price) else 0
  }

  function Held(e: Engine, f: Order -> int): int { Sum(e.bids, f) + Sum(e.asks, f) }

  /** Running sum of the attempt deltas of one order from its ADD report on. */
  function SinceAdded(reports: seq<Report>, id: uint32): int {
    if reports == [] then 0
    else
      var r := reports[|reports| - 1];
      if r.orderId == id && r.state.Added? then r.attempt
      else AttemptBy(id)(r) + SinceAdded(reports[..|reports| - 1], id)
  }

  lemma {:induction false} SinceAddedAppend(x: seq<Report>, y: seq<Report>, id: uint32)
    requires forall i :: 0 <= i < |y| ==> y[i].orderId != id || !y[i].state.Added?
    ensures SinceAdded(x + y, id) == SinceAdded(x, id) + Sum(y, AttemptBy(id))
    decreases |y|
  {
    if y == [] {
      assert x + y == x;
    } else {
      var n := |y| - 1;
      assert x + y == (x + y[..n]) + [y[n]];
      assert (x + y)[..|x + y| - 1] == x + y[..n];
      SinceAddedAppend(x, y[..n], id);
      assert y == y[..n] + [y[n]];
      SumConcat(y[..n], [y[n]], AttemptBy(id));
      SumOne(y[n], AttemptBy(id));
    }
  }

  // ---------------------------------------------------------------- one sweep

  predicate IsFill(r: Report) { r.state == Filled || r.state == PartiallyFilled }

  /** Fill reports release exactly what they debit. */
  predicate FillsOnly(rs: seq<Report>) {
    forall i :: 0 <= i < |rs| ==> IsFill(rs[i]) && rs[i].attempt == rs[i].sold
  }

  lemma {:induction false} SweepFills(asset: nat, o: Order, book: seq<Order>)
    ensures FillsOnly(Sweep(asset, o, book).reports)
    decreases o.amount + |book|
  {
    if !Done(o, book) {
      SweepUnfold(asset, o, book);
      SweepFills(asset, TakerLeft(o, book[0]), AfterMatch(o, book));
    }
  }

  lemma {:induction false} FillsAttempt(rs: seq<Report>, id: uint32)
    requires FillsOnly(rs)
    ensures Sum(rs, AttemptBy(id)) == -Sum(rs, PaidBy(id))
  {
    if rs != [] { FillsAttempt(rs[1..], id); }
  }

  /** One match moves its quantity, and its value at the maker's price, out of the book. */
  lemma {:induction false} MatchTally(asset: nat, o: Order, book: seq<Order>, id: uint32)
    requires asset != CASH && book != [] && book[0].side == o.side.Opposite()
    ensures var q := Min(o.amount, book[0].amount);
            var rs, book' := MatchReports(asset, o, book[0]), AfterMatch(o, book);
            && Sum(rs, TradedBy(id)) + Sum(book', AmountOf(id))
               == Sum(book, AmountOf(id)) + (if o.id == id then q else 0)
            && Sum(rs, PaidBy(id)) + Sum(book', ValueOf(id))
               == Sum(book, ValueOf(id)) + (if o.id == id then Value(o.side, q, book[0].price) else 0)
  {
    var m, q := book[0], Min(o.amount, book[0].amount);
    var rs := MatchReports(asset, o, m);
    SumTwo(rs[0], rs[1], TradedBy(id));
    SumTwo(rs[0], rs[1], PaidBy(id));
    var m' := MakerLeft(o, m);
    assert ([m'] + book[1..])[1..] == book[1..];
    assert m'.amount == 0 ==> AmountOf(id)(m') == 0 && ValueOf(id)(m') == 0;
    ValueSplit(m.side, m.amount, q, m.price);
  }

  lemma {:induction false} SweepTally(asset: nat, o: Order, book: seq<Order>, id: uint32)
    requires asset != CASH && OnSide(o.side.Opposite(), book)
    ensures var s := Sweep(asset, o, book);
            && Sum(s.reports, TradedBy(id)) + Sum(s.book, AmountOf(id))
               == Sum(book, AmountOf(id)) + (if o.id == id then o.amount - s.rest else 0)
            && Sum(s.reports, PaidBy(id)) + Sum(s.book, ValueOf(id))
               == Sum(book, ValueOf(id)) + (if o.id == id then Spent(o.side, s.trades) else 0)
    decreases o.amount + |book|
  {
    if !Done(o, book) {
      var o', book' := TakerLeft(o, book[0]), AfterMatch(o, book);
      var r := Sweep(asset, o', book');
      SweepUnfold(asset, o, book);
      MatchTally(asset, o, book, id);
      SweepTally(asset, o', book', id);
      SumConcat(MatchReports(asset, o, book[0]), r.reports, TradedBy(id));
      SumConcat(MatchReports(asset, o, book[0]), r.reports, PaidBy(id));
      SpentHead(o.side, Trade(book[0], Min(o.amount, book[0].amount)), r.trades);
    }
  }

  lemma {:induction false} ScaleMonotone(q: int, a: int, b: int)
    requires q >= 0 && a <= b
    ensures q * a <= q * b
  {
    assert q * (b - a) >= 0;
  }

  lemma {:induction false} ValueSplit(side: Side, amount: int, q: int, price: int)
    ensures Value(side, amount, price) == Value(side, amount - q, price) + Value(side, q, price)
  {
    assert (amount - q) * price == amount * price - q * price;
  }

  lemma {:induction false} PaysNoMore(o: Order, m: Order, q: uint32)
    requires Crosses(o, m)
    ensures Value(o.side, q, m.price) <= Value(o.side, q, o.price)
  {
    if o.side.Buy? { ScaleMonotone(q, m.price, o.price); }
  }

  lemma {:induction false} SpentHead(side: Side, t: Trade, rest: seq<Trade>)
    ensures Spent(side, [t] + rest) == Value(side, t.quantity, t.maker.price) + Spent(side, rest)
  {
    assert ([t] + rest)[1..] == rest;
  }

  /** What trades came to at the taker's own price less what it paid: its price improvement. */
  function Improved(side: Side, price: int, trades: seq<Trade>): int {
    if trades == [] then 0
    else
      var t := trades[0];
      Value(side, t.quantity, price) - Value(side, t.quantity, t.maker.price) + Improved(side, price, trades[1..])
  }

  /** What a taker paid, its price improvement and its remainder at its own price make up its value at
      submission, and the improvement is not negative: it never pays more than its own price. */
  lemma {:induction false} SweepWithinReserve(asset: nat, o: Order, book: seq<Order>)
    ensures var s := Sweep(asset, o, book);
            && Spent(o.side, s.trades) + Improved(o.side, o.price, s.trades) + Value(o.side, s.rest, o.price)
               == Value(o.side, o.amount, o.price)
            && Improved(o.side, o.price, s.trades) >= 0
    decreases o.amount + |book|
  {
    if !Done(o, book) {
      var o', q := TakerLeft(o, book[0]), Min(o.amount, book[0].amount);
      var r := Sweep(asset, o', AfterMatch(o, book));
      SweepUnfold(asset, o, book);
      SweepWithinReserve(asset, o', AfterMatch(o, book));
      PaysNoMore(o, book[0], q);
      ValueSplit(o.side, o.amount, q, o.price);
      SpentHead(o.side, Trade(book[0], q), r.trades);
      assert Sweep(asset, o, book).trades[1..] == r.trades;
    }
  }

  // ---------------------------------------------------------------- one message

  /** Bids rest at non-negative prices, so that every resting order locks a non-negative value. */
  predicate NonNegative(e: Engine) {
    forall i :: 0 <= i < |e.bids| ==> e.bids[i].price >= 0
  }

  lemma {:induction false} ValueSigns(o: Order)
    requires o.price >= 0 || o.side.Sell?
    ensures Value(o.side, o.amount, o.price) >= 0
  {
    if o.side.Buy? { assert o.amount * o.price >= 0; }
  }

  /** The quantity of an id that a message removes without trading it: a cancelled resting order, the
      remainder of a market order, or a remainder that found no free order node. */
  function DroppedBy(e: Engine, i: Input, id: uint32): int {
    var o := i.order;
    if o.action.Cancel? then
      var book := e.Book(o.side);
      var k := Find(book, o.amount);
      if k < |book| && book[k].client == o.client then AmountOf(id)(book[k]) else 0
    else if o.id == id && o.amount > 0 then
      var s := Sweep(e.asset, o, e.Book(o.side.Opposite()));
      var e1 := e.WithBook(o.side.Opposite(), s.book);
      if o.kind.Market? || e1.Resting() >= e1.capacity then s.rest else 0
    else 0
  }

  /** The part of an id's reservation that a message leaves reserved for good, with nothing resting behind it: a
      cancelled order's value, the price improvement of an order that is not a market order with a remainder, and
      the value of a remainder that found no free order node. */
  function KeptBy(e: Engine, i: Input, id: uint32): int {
    var o := i.order;
    if o.action.Cancel? then
      var book := e.Book(o.side);
      var k := Find(book, o.amount);
      if k < |book| && book[k].client == o.client then ValueOf(id)(book[k]) else 0
    else if o.id == id && o.amount > 0 then
      var s := Sweep(e.asset, o, e.Book(o.side.Opposite()));
      var e1 := e.WithBook(o.side.Opposite(), s.book);
      if o.kind.Market? && s.rest > 0 then 0
      else
        Improved(o.side, o.price, s.trades)
        + if o.kind.Limit? && e1.Resting() >= e1.capacity then Value(o.side, s.rest, o.price) else 0
    else 0
  }

  function Enters(i: Input, id: uint32): bool { i.order.action.Execute? && i.order.id == id }

  lemma {:induction false} RestTally(e: Engine, o: Order, f: Order -> int)
    ensures Held(Rest(e, o).engine, f) == Held(e, f) + (if e.Resting() >= e.capacity then 0 else f(o))
  {
    SumInsert(o.side, e.Book(o.side), o, f);
  }

  lemma {:induction false} RestReports(e: Engine, o: Order, id: uint32)
    ensures Sum(Rest(e, o).reports, TradedBy(id)) == 0
    ensures Sum(Rest(e, o).reports, PaidBy(id)) == 0
    ensures Sum(Rest(e, o).reports, FreedBy(id)) == 0
  {
    if e.Resting() < e.capacity {
      var r := Rest(e, o).reports[0];
      SumOne(r, TradedBy(id));
      SumOne(r, PaidBy(id));
      SumOne(r, FreedBy(id));
    }
  }

  lemma {:induction false} CancelTally(e: Engine, o: Order, f: Order -> int)
    ensures var book, k := e.Book(o.side), Find(e.Book(o.side), o.amount);
            Held(CancelOrder(e, o).engine, f)
            == Held(e, f) - (if k < |book| && book[k].client == o.client then f(book[k]) else 0)
  {
    var book, k := e.Book(o.side), Find(e.Book(o.side), o.amount);
    if k < |book| { SumSplit(book, k, f); }
  }

  /** No fill moves through a cancel request, and a cancelled order's reservation is never negative. */
  lemma {:induction false} CancelReports(e: Engine, o: Order, id: uint32)
    requires NonNegative(e) && OnSide(Buy, e.bids) && OnSide(Sell, e.asks)
    ensures Sum(CancelOrder(e, o).reports, TradedBy(id)) == 0
    ensures Sum(CancelOrder(e, o).reports, PaidBy(id)) == 0
    ensures Sum(CancelOrder(e, o).reports, FreedBy(id)) == 0
  {
    var r := CancelOrder(e, o).reports[0];
    var book, k := e.Book(o.side), Find(e.Book(o.side), o.amount);
    if k < |book| { ValueSigns(book[k]); }
    SumOne(r, TradedBy(id));
    SumOne(r, PaidBy(id));
    SumOne(r, FreedBy(id));
  }

  lemma {:induction false} FinishQuantity(e: Engine, o: Order, s: Swept, id: uint32)
    ensures var out := Finish(e, o, s);
            && Sum(out.reports, TradedBy(id)) == 0
            && Held(out.engine, AmountOf(id)) == Held(e, AmountOf(id))
               + (if o.id == id && o.kind.Limit? && e.Resting() < e.capacity then s.rest else 0)
  {
    var out := Finish(e, o, s);
    if s.rest > 0 {
      RestTally(e, o.(amount := s.rest), AmountOf(id));
      RestReports(e, o.(amount := s.rest), id);
      if o.kind.Market? { SumOne(out.reports[0], TradedBy(id)); }
    }
  }

  lemma {:induction false} ExecuteQuantity(e: Engine, o: Order, id: uint32)
    requires e.asset != CASH && OnSide(Buy, e.bids) && OnSide(Sell, e.asks) && o.action.Execute? && o.amount > 0
    ensures var out := ExecuteOrder(e, o);
            Sum(out.reports, TradedBy(id)) + Held(out.engine, AmountOf(id)) + DroppedBy(e, Input(o, true), id)
            == Held(e, AmountOf(id)) + (if o.id == id then o.amount else 0)
  {
    var opp := o.side.Opposite();
    var s := Sweep(e.asset, o, e.Book(opp));
    var e1 := e.WithBook(opp, s.book);
    SweepTally(e.asset, o, e.Book(opp), id);
    FinishQuantity(e1, o, s, id);
    SumConcat(s.reports, Finish(e1, o, s).reports, TradedBy(id));
  }

  /** Quantity is conserved by every message: what an id traded, still rests and lost adds up to what
      it had resting before plus what it brought in. */
  lemma {:induction false} StepQuantity(e: Engine, i: Input, id: uint32)
    requires e.asset != CASH && OnSide(Buy, e.bids) && OnSide(Sell, e.asks) && NonNegative(e)
    ensures var out := Step(e, i.order, i.eager);
            Sum(out.reports, TradedBy(id)) + Held(out.engine, AmountOf(id)) + DroppedBy(e, i, id)
            == Held(e, AmountOf(id)) + (if Enters(i, id) then i.order.amount else 0)
  {
    var o, f := i.order, AmountOf(id);
    if o.action.Cancel? {
      CancelTally(e, o, f);
      CancelReports(e, o, id);
    } else if o.amount > 0 {
      ExecuteQuantity(e, o, id);
    } else {
      RestTally(e, o, f);
      RestReports(e, o, id);
    }
  }

  lemma {:induction false} FinishValue(e: Engine, o: Order, s: Swept, id: uint32)
    requires Spent(o.side, s.trades) <= Value(o.side, o.amount, o.price)
    ensures var out := Finish(e, o, s);
            && Sum(out.reports, PaidBy(id)) == 0
            && Held(out.engine, ValueOf(id)) == Held(e, ValueOf(id))
               + (if o.id == id && o.kind.Limit? && e.Resting() < e.capacity then Value(o.side, s.rest, o.price) else 0)
            && Sum(out.reports, FreedBy(id))
               == if o.id == id && o.kind.Market? && s.rest > 0
                  then Value(o.side, o.amount, o.price) - Spent(o.side, s.trades) else 0
  {
    var out := Finish(e, o, s);
    if s.rest > 0 {
      RestTally(e, o.(amount := s.rest), ValueOf(id));
      RestReports(e, o.(amount := s.rest), id);
      if o.kind.Market? {
        SumOne(out.reports[0], PaidBy(id));
        SumOne(out.reports[0], FreedBy(id));
      }
    }
  }

  lemma {:induction false} FillsHandBackNothing(rs: seq<Report>, id: uint32)
    requires FillsOnly(rs)
    ensures Sum(rs, FreedBy(id)) == 0
  {
    SumZero(rs, FreedBy(id));
  }

  lemma {:induction false} ExecuteValue(e: Engine, o: Order, id: uint32)
    requires e.asset != CASH && OnSide(Buy, e.bids) && OnSide(Sell, e.asks)
    requires o.action.Execute? && o.amount > 0 && (o.price >= 0 || o.side.Sell?)
    ensures var out := ExecuteOrder(e, o);
            Sum(out.reports, PaidBy(id)) + Held(out.engine, ValueOf(id)) + Sum(out.reports, FreedBy(id))
            + KeptBy(e, Input(o, true), id)
            == Held(e, ValueOf(id)) + (if o.id == id then Value(o.side, o.amount, o.price) else 0)
    ensures KeptBy(e, Input(o, true), id) >= 0
  {
    var opp := o.side.Opposite();
    var s := Sweep(e.asset, o, e.Book(opp));
    var e1 := e.WithBook(opp, s.book);
    var tail := Finish(e1, o, s).reports;
    SweepTally(e.asset, o, e.Book(opp), id);
    SweepWithinReserve(e.asset, o, e.Book(opp));
    SweepFills(e.asset, o, e.Book(opp));
    FillsHandBackNothing(s.reports, id);
    ValueSigns(o.(amount := s.rest));
    assert KeptBy(e, Input(o, true), id)
           == if o.id != id || (o.kind.Market? && s.rest > 0) then 0
              else Improved(o.side, o.price, s.trades)
                   + if o.kind.Limit? && e1.Resting() >= e1.capacity then Value(o.side, s.rest, o.price) else 0;
    FinishValue(e1, o, s, id);
    SumConcat(s.reports, tail, PaidBy(id));
    SumConcat(s.reports, tail, FreedBy(id));
    assert ExecuteOrder(e, o).reports == s.reports + tail && ExecuteOrder(e, o).engine == Finish(e1, o, s).engine;
  }

  /** What an id pays, keeps locked, gets handed back and leaves reserved for good is exactly what it had locked
      before plus what the risk check reserves for what it brought in. */
  lemma {:induction false} StepValue(e: Engine, i: Input, id: uint32)
    requires e.asset != CASH && OnSide(Buy, e.bids) && OnSide(Sell, e.asks) && NonNegative(e)
    requires i.order.price >= 0 || i.order.side.Sell?
    ensures var out := Step(e, i.order, i.eager);
            Sum(out.reports, PaidBy(id)) + Held(out.engine, ValueOf(id)) + Sum(out.reports, FreedBy(id))
            + KeptBy(e, i, id)
            == Held(e, ValueOf(id))
               + (if Enters(i, id) then Value(i.order.side, i.order.amount, i.order.price) else 0)
    ensures KeptBy(e, i, id) >= 0
  {
    var o := i.order;
    if o.action.Cancel? {
      CancelValue(e, o, id);
    } else if o.amount > 0 {
      ExecuteValue(e, o, id);
    } else {
      RestTally(e, o, ValueOf(id));
      RestReports(e, o, id);
    }
  }

  lemma {:induction false} CancelValue(e: Engine, o: Order, id: uint32)
    requires o.action.Cancel? && OnSide(Buy, e.bids) && OnSide(Sell, e.asks) && NonNegative(e)
    ensures var out, kept := CancelOrder(e, o), KeptBy(e, Input(o, true), id);
            && Sum(out.reports, PaidBy(id)) + Held(out.engine, ValueOf(id)) + Sum(out.reports, FreedBy(id)) + kept
               == Held(e, ValueOf(id))
            && kept >= 0
  {
    CancelTally(e, o, ValueOf(id));
    CancelReports(e, o, id);
    var book, k := e.Book(o.side), Find(e.Book(o.side), o.amount);
    if k < |book| { ValueSigns(book[k]); }
  }

  // ---------------------------------------------------------------- whole runs

  function Submitted(inputs: seq<Input>, id: uint32): int {
    if inputs == [] then 0
    else
      var n := |inputs| - 1;
      Submitted(inputs[..n], id) + (if Enters(inputs[n], id) then inputs[n].order.amount else 0)
  }

  /** What the gateway reserved for the orders submitted under an id. */
  function Reserved(inputs: seq<Input>, id: uint32): int {
    if inputs == [] then 0
    else
      var n := |inputs| - 1;
      var o := inputs[n].order;
      Reserved(inputs[..n], id) + (if Enters(inputs[n], id) then Value(o.side, o.amount, o.price) else 0)
  }

  function Dropped(e: Engine, inputs: seq<Input>, id: uint32): int {
    if inputs == [] then 0
    else
      var n := |inputs| - 1;
      Dropped(e, inputs[..n], id) + DroppedBy(Run(e, inputs[..n]).engine, inputs[n], id)
  }

  /** What stays reserved under an id with nothing resting behind it. */
  function Kept(e: Engine, inputs: seq<Input>, id: uint32): int {
    if inputs == [] then 0
    else
      var n := |inputs| - 1;
      Kept(e, inputs[..n], id) + KeptBy(Run(e, inputs[..n]).engine, inputs[n], id)
  }

  predicate PricedInputs(inputs: seq<Input>) {
    forall i :: 0 <= i < |inputs| ==> inputs[i].order.price >= 0 || inputs[i].order.side.Sell?
  }

  lemma {:induction false} RestKeepsPrices(e: Engine, o: Order)
    requires NonNegative(e) && (o.price >= 0 || o.side.Sell?)
    ensures NonNegative(Rest(e, o).engine)
  {
    var e' := Rest(e, o).engine;
    if o.side.Buy? && e' != e {
      forall i | 0 <= i < |e'.bids| ensures e'.bids[i].price >= 0 { InsertAt(Buy, e.bids, o, i); }
    }
  }

  lemma {:induction false} SweepKeepsPrices(e: Engine, o: Order)
    requires NonNegative(e)
    ensures NonNegative(e.WithBook(o.side.Opposite(), Sweep(e.asset, o, e.Book(o.side.Opposite())).book))
  {
    var d := SweepLeaves(e.asset, o, e.Book(o.side.Opposite()));
  }

  lemma {:induction false} StepKeepsPrices(e: Engine, i: Input)
    requires NonNegative(e) && (i.order.price >= 0 || i.order.side.Sell?)
    ensures NonNegative(Step(e, i.order, i.eager).engine)
  {
    var o := i.order;
    if o.action.Execute? && o.amount > 0 {
      var s := Sweep(e.asset, o, e.Book(o.side.Opposite()));
      SweepKeepsPrices(e, o);
      RestKeepsPrices(e.WithBook(o.side.Opposite(), s.book), o.(amount := s.rest));
    } else if o.action.Execute? {
      RestKeepsPrices(e, o);
    }
  }

  /** Over any run, every unit submitted under an id is traded, still resting, or dropped; and everything reserved
      for the id has been paid, is still locked, was handed back, or stays reserved with nothing behind it. */
  lemma {:induction false} RunAccounts(e: Engine, inputs: seq<Input>, id: uint32)
    requires e.asset != CASH && Coherent(e) && AdmissibleRun(e, inputs)
    requires NonNegative(e) && PricedInputs(inputs)
    ensures var out := Run(e, inputs);
            && NonNegative(out.engine)
            && Sum(out.reports, TradedBy(id)) + Held(out.engine, AmountOf(id)) + Dropped(e, inputs, id)
               == Held(e, AmountOf(id)) + Submitted(inputs, id)
            && Sum(out.reports, PaidBy(id)) + Held(out.engine, ValueOf(id)) + Sum(out.reports, FreedBy(id))
               + Kept(e, inputs, id) == Held(e, ValueOf(id)) + Reserved(inputs, id)
            && Kept(e, inputs, id) >= 0
  {
    if inputs != [] {
      var n := |inputs| - 1;
      var a, i := Run(e, inputs[..n]), inputs[n];
      var b := Step(a.engine, i.order, i.eager);
      RunAccounts(e, inputs[..n], id);
      RunKeepsCoherent(e, inputs[..n]);
      StepKeepsPrices(a.engine, i);
      StepQuantity(a.engine, i, id);
      StepValue(a.engine, i, id);
      SumConcat(a.reports, b.reports, TradedBy(id));
      SumConcat(a.reports, b.reports, PaidBy(id));
      SumConcat(a.reports, b.reports, FreedBy(id));
    }
  }

  predicate Live(e: Engine, id: uint32) { !FreshId(e.bids, id) || !FreshId(e.asks, id) }

  /** From its ADD report on, an order's attempt deltas add up to the value it still locks. */
  ghost predicate LocksMatch(e: Engine, reports: seq<Report>) {
    forall id :: Live(e, id) ==> SinceAdded(reports, id) == Held(e, ValueOf(id))
  }

  lemma {:induction false} FreshHoldsNothing(e: Engine, id: uint32)
    requires !Live(e, id)
    ensures Held(e, ValueOf(id)) == 0 && Held(e, AmountOf(id)) == 0
  {
    SumZero(e.bids, ValueOf(id));
    SumZero(e.asks, ValueOf(id));
    SumZero(e.bids, AmountOf(id));
    SumZero(e.asks, AmountOf(id));
  }

  lemma {:induction false} SinceAddedOne(x: seq<Report>, r: Report, id: uint32)
    ensures SinceAdded(x + [r], id)
            == if r.orderId == id && r.state.Added? then r.attempt else AttemptBy(id)(r) + SinceAdded(x, id)
  {
    assert (x + [r])[..|x|] == x;
  }

  lemma {:induction false} RestLocks(e: Engine, o: Order, reports: seq<Report>)
    requires LocksMatch(e, reports) && !Live(e, o.id)
    ensures LocksMatch(Rest(e, o).engine, reports + Rest(e, o).reports)
  {
    var out := Rest(e, o);
    if e.Resting() < e.capacity {
      forall id | Live(out.engine, id)
        ensures SinceAdded(reports + out.reports, id) == Held(out.engine, ValueOf(id))
      {
        SinceAddedOne(reports, out.reports[0], id);
        RestTally(e, o, ValueOf(id));
        if id == o.id {
          FreshHoldsNothing(e, id);
        } else {
          InsertedIds(o.side, e.Book(o.side), o, id);
        }
      }
    } else {
      assert reports + out.reports == reports;
    }
  }

  lemma {:induction false} InsertedIds(side: Side, book: seq<Order>, o: Order, id: uint32)
    requires id != o.id
    ensures FreshId(book, id) ==> FreshId(Insert(side, book, o), id)
  {
    forall i | 0 <= i < |Insert(side, book, o)| && FreshId(book, id) ensures Insert(side, book, o)[i].id != id {
      InsertAt(side, book, o, i);
    }
  }

  lemma {:induction false} CancelLocks(e: Engine, o: Order, reports: seq<Report>)
    requires Coherent(e) && LocksMatch(e, reports)
    ensures LocksMatch(CancelOrder(e, o).engine, reports + CancelOrder(e, o).reports)
  {
    var out := CancelOrder(e, o);
    var book, k := e.Book(o.side), Find(e.Book(o.side), o.amount);
    forall id | Live(out.engine, id)
      ensures SinceAdded(reports + out.reports, id) == Held(out.engine, ValueOf(id))
    {
      SinceAddedOne(reports, out.reports[0], id);
      CancelTally(e, o, ValueOf(id));
      assert Live(e, id);
      if k < |book| && book[k].client == o.client { CancelledIsGone(e, o.side, k); }
    }
  }

  lemma {:induction false} CancelledIsGone(e: Engine, side: Side, k: nat)
    requires Coherent(e) && k < |e.Book(side)|
    ensures !Live(e.WithBook(side, Without(e.Book(side), k)), e.Book(side)[k].id)
  {
  }

  /** A sweep releases from each maker exactly what it debits. */
  lemma {:induction false} SweepLocks(e: Engine, o: Order, reports: seq<Report>)
    requires e.asset != CASH && Coherent(e) && LocksMatch(e, reports) && !Live(e, o.id)
    ensures var opp := o.side.Opposite();
            var s := Sweep(e.asset, o, e.Book(opp));
            LocksMatch(e.WithBook(opp, s.book), reports + s.reports) && !Live(e.WithBook(opp, s.book), o.id)
  {
    var opp := o.side.Opposite();
    var s := Sweep(e.asset, o, e.Book(opp));
    SweepFills(e.asset, o, e.Book(opp));
    SweepKeepsBook(e.asset, o, e.Book(opp));
    forall id | Live(e.WithBook(opp, s.book), id)
      ensures SinceAdded(reports + s.reports, id) == Held(e.WithBook(opp, s.book), ValueOf(id))
    {
      assert Live(e, id);
      SinceAddedAppend(reports, s.reports, id);
      FillsAttempt(s.reports, id);
      SweepTally(e.asset, o, e.Book(opp), id);
    }
  }

  lemma {:induction false} StepLocks(e: Engine, i: Input, reports: seq<Report>)
    requires e.asset != CASH && Coherent(e) && Admissible(e, i) && LocksMatch(e, reports)
    ensures LocksMatch(Step(e, i.order, i.eager).engine, reports + Step(e, i.order, i.eager).reports)
  {
    var o := i.order;
    if o.action.Cancel? {
      CancelLocks(e, o, reports);
    } else if o.amount > 0 {
      var opp := o.side.Opposite();
      var s := Sweep(e.asset, o, e.Book(opp));
      var e1 := e.WithBook(opp, s.book);
      var f := Finish(e1, o, s);
      SweepLocks(e, o, reports);
      assert reports + (s.reports + f.reports) == (reports + s.reports) + f.reports;
      if s.rest > 0 && o.kind.Limit? {
        RestLocks(e1, o.(amount := s.rest), reports + s.reports);
      } else if s.rest > 0 {
        forall id | Live(e1, id) ensures SinceAdded((reports + s.reports) + f.reports, id) == Held(e1, ValueOf(id)) {
          SinceAddedOne(reports + s.reports, f.reports[0], id);
        }
      } else {
        assert (reports + s.reports) + f.reports == reports + s.reports;
      }
    } else if o.kind.Limit? && !i.eager {
      RestLocks(e, o, reports);
    } else {
      assert reports + Step(e, o, i.eager).reports == reports;
    }
  }

  /** In every state of every run, the attempt deltas of a resting order since its ADD report add up to
      exactly the value it still locks. */
  lemma {:induction false} RunLocks(e: Engine, inputs: seq<Input>)
    requires e.asset != CASH && e.bids == [] && e.asks == [] && AdmissibleRun(e, inputs)
    ensures LocksMatch(Run(e, inputs).engine, Run(e, inputs).reports)
  {
    if inputs != [] {
      var n := |inputs| - 1;
      RunLocks(e, inputs[..n]);
      RunKeepsCoherent(e, inputs[..n]);
      StepLocks(Run(e, inputs[..n]).engine, inputs[n], Run(e, inputs[..n]).reports);
    }
  }

  /** A cancel request that finds its target. */
  predicate Hits(e: Engine, o: Order) {
    var book, k := e.Book(o.side), Find(e.Book(o.side), o.amount);
    o.action.Cancel? && k < |book| && book[k].client == o.client
  }

  lemma {:induction false} TargetHoldsAll(e: Engine, o: Order)
    requires Coherent(e) && Hits(e, o)
    ensures Live(e, o.amount)
    ensures CancelOrder(e, o).reports[0].attempt == Held(e, ValueOf(o.amount))
  {
    var book, k := e.Book(o.side), Find(e.Book(o.side), o.amount);
    CancelTally(e, o, ValueOf(o.amount));
    CancelledIsGone(e, o.side, k);
    FreshHoldsNothing(CancelOrder(e, o).engine, o.amount);
  }

  /** After any run a successful cancel reports exactly the sum of its target's attempt deltas since its ADD
      report. */
  lemma {:induction false} CancelReportsLock(e: Engine, inputs: seq<Input>, o: Order)
    requires e.asset != CASH && e.bids == [] && e.asks == [] && AdmissibleRun(e, inputs)
    requires Hits(Run(e, inputs).engine, o)
    ensures CancelOrder(Run(e, inputs).engine, o).reports[0].attempt == SinceAdded(Run(e, inputs).reports, o.amount)
  {
    RunLocks(e, inputs);
    RunKeepsCoherent(e, inputs);
    TargetHoldsAll(Run(e, inputs).engine, o);
  }
}
