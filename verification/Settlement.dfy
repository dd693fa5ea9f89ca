/** What the report stream of a run adds up to: confirmed balances are conserved per asset, and the
    dashboard's trade tape decodes to exactly one print per match. */
module Settlement {
  import opened Domain
  import opened Reference
  import opened Priority
  import opened Sums
  import opened Modular

  // ---------------------------------------------------------------- conservation

  /** Change of confirmed holdings of one asset by one report. */
  function Moved(r: Report, a: nat): int {
    (if r.boughtAsset == a then r.bought else 0) + (if r.soldAsset == a then r.sold else 0)
  }

  function MovedOf(a: nat): Report -> int { (r: Report) => Moved(r, a) }

  function AssetDelta(reports: seq<Report>, a: nat): int { Sum(reports, MovedOf(a)) }

  lemma {:induction false} MatchConserves(asset: nat, o: Order, m: Order, a: nat)
    requires m.side == o.side.Opposite()
    ensures AssetDelta(MatchReports(asset, o, m), a) == 0
  {
    var rs := MatchReports(asset, o, m);
    SumTwo(rs[0], rs[1], MovedOf(a));
  }

  lemma {:induction false} SweepConserves(asset: nat, o: Order, book: seq<Order>, a: nat)
    requires OnSide(o.side.Opposite(), book)
    ensures AssetDelta(Sweep(asset, o, book).reports, a) == 0
    decreases o.amount + |book|
  {
    if !Done(o, book) {
      var m := book[0];
      SweepUnfold(asset, o, book);
      SweepConserves(asset, TakerLeft(o, m), AfterMatch(o, book), a);
      MatchConserves(asset, o, m, a);
      SumConcat(MatchReports(asset, o, m), Sweep(asset, TakerLeft(o, m), AfterMatch(o, book)).reports, MovedOf(a));
    }
  }

  lemma {:induction false} StepConserves(e: Engine, o: Order, eager: bool, a: nat)
    requires OnSide(Buy, e.bids) && OnSide(Sell, e.asks)
    ensures AssetDelta(Step(e, o, eager).reports, a) == 0
  {
    if o.action.Execute? && o.amount > 0 {
      var s := Sweep(e.asset, o, e.Book(o.side.Opposite()));
      SweepConserves(e.asset, o, e.Book(o.side.Opposite()), a);
      var tail := Finish(e.WithBook(o.side.Opposite(), s.book), o, s).reports;
      SumConcat(s.reports, tail, MovedOf(a));
      SumZero(tail, MovedOf(a));
    } else {
      SumZero(Step(e, o, eager).reports, MovedOf(a));
    }
  }

  /** Over any run, the confirmed deltas of all emitted reports sum to zero in every asset. */
  lemma {:induction false} RunConserves(e: Engine, inputs: seq<Input>, a: nat)
    requires Coherent(e) && AdmissibleRun(e, inputs)
    ensures AssetDelta(Run(e, inputs).reports, a) == 0
  {
    if inputs != [] {
      var n := |inputs| - 1;
      var before := Run(e, inputs[..n]);
      RunConserves(e, inputs[..n], a);
      RunKeepsCoherent(e, inputs[..n]);
      StepConserves(before.engine, inputs[n].order, inputs[n].eager, a);
      SumConcat(before.reports, Step(before.engine, inputs[n].order, inputs[n].eager).reports, MovedOf(a));
    }
  }

  // ---------------------------------------------------------------- trade tape

  datatype Print = Print(asset: nat, price: int, quantity: uint32)

  datatype Option<T> = None | Some(value: T)

  /** C++ division truncates toward zero. */
  function TruncDiv(a: int, b: int): int
    requires b > 0
  {
    if a >= 0 then a / b else -((-a) / b)
  }

  /** The dashboard takes only the buyer's leg of a fill; the price is cash over quantity. */
  function DecodeTrade(r: Report): Option<Print> {
    if r.state != Filled && r.state != PartiallyFilled then None
    else if r.boughtAsset == 0 || r.soldAsset != 0 || r.bought <= 0 || r.sold >= 0 then None
    else Some(Print(r.boughtAsset, TruncDiv(-r.sold, r.bought), r.bought % U32))
  }

  function Tape(reports: seq<Report>): seq<Print> {
    if reports == [] then []
    else
      var d := DecodeTrade(reports[0]);
      (if d.Some? then [d.value] else []) + Tape(reports[1..])
  }

  /** The matches of a run, in order; a match of quantity 0 (a resting order of amount 0) or at a
      price that is not positive leaves no print. */
  function Prints(asset: nat, trades: seq<Trade>): seq<Print> {
    if trades == [] then []
    else
      var t := trades[0];
      (if t.quantity > 0 && t.maker.price > 0 then [Print(asset, t.maker.price, t.quantity)] else [])
      + Prints(asset, trades[1..])
  }

  function StepTrades(e: Engine, o: Order): seq<Trade> {
    if o.action.Execute? && o.amount > 0 then Sweep(e.asset, o, e.Book(o.side.Opposite())).trades else []
  }

  function RunTrades(e: Engine, inputs: seq<Input>): seq<Trade> {
    if inputs == [] then []
    else
      var n := |inputs| - 1;
      RunTrades(e, inputs[..n]) + StepTrades(Run(e, inputs[..n]).engine, inputs[n].order)
  }

  lemma {:induction false} TapeConcat(x: seq<Report>, y: seq<Report>)
    ensures Tape(x + y) == Tape(x) + Tape(y)
  {
    if x == [] {
      assert x + y == y;
    } else {
      var z := x + y;
      assert z[0] == x[0] && z[1..] == x[1..] + y;
      TapeConcat(x[1..], y);
      var d := DecodeTrade(x[0]);
      var head := if d.Some? then [d.value] else [];
      assert Tape(z) == head + Tape(z[1..]);
      assert head + (Tape(x[1..]) + Tape(y)) == (head + Tape(x[1..])) + Tape(y);
    }
  }

  lemma {:induction false} PrintsConcat(asset: nat, x: seq<Trade>, y: seq<Trade>)
    ensures Prints(asset, x + y) == Prints(asset, x) + Prints(asset, y)
  {
    if x == [] {
      assert x + y == y;
    } else {
      assert (x + y)[1..] == x[1..] + y;
      PrintsConcat(asset, x[1..], y);
    }
  }

  lemma {:induction false} DivideBack(q: int, p: int)
    requires q > 0
    ensures (q * p) / q == p
  {
    RemainderUnique(q * p, q, p, 0);
  }

  /** A leg decodes to its match exactly when it is the buyer's and the match moved something for
      a positive price. */
  lemma {:induction false} LegDecodes(asset: nat, party: Order, q: uint32, price: int, left: uint32)
    requires asset > 0
    ensures DecodeTrade(LegReport(asset, party, q, price, left))
            == if party.side.Buy? && q > 0 && price > 0 then Some(Print(asset, price, q)) else None
  {
    if q > 0 {
      DivideBack(q, price);
      if price > 0 { assert q * price > 0; } else { assert q * price <= 0; }
    }
  }

  lemma {:induction false} MatchPrints(asset: nat, o: Order, m: Order)
    requires asset > 0 && m.side == o.side.Opposite()
    ensures Tape(MatchReports(asset, o, m)) == Prints(asset, [Trade(m, Min(o.amount, m.amount))])
  {
    var q := Min(o.amount, m.amount);
    var rs := MatchReports(asset, o, m);
    LegDecodes(asset, o, q, m.price, o.amount - q);
    LegDecodes(asset, m, q, m.price, m.amount - q);
    TapeConcat([rs[0]], [rs[1]]);
    assert rs == [rs[0]] + [rs[1]];
  }

  lemma {:induction false} SweepPrints(asset: nat, o: Order, book: seq<Order>)
    requires asset > 0 && OnSide(o.side.Opposite(), book)
    ensures Tape(Sweep(asset, o, book).reports) == Prints(asset, Sweep(asset, o, book).trades)
    decreases o.amount + |book|
  {
    if !Done(o, book) {
      var m := book[0];
      var r := Sweep(asset, TakerLeft(o, m), AfterMatch(o, book));
      SweepUnfold(asset, o, book);
      SweepPrints(asset, TakerLeft(o, m), AfterMatch(o, book));
      MatchPrints(asset, o, m);
      TapeConcat(MatchReports(asset, o, m), r.reports);
      PrintsConcat(asset, [Trade(m, Min(o.amount, m.amount))], r.trades);
    }
  }

  lemma {:induction false} StepPrints(e: Engine, o: Order, eager: bool)
    requires e.asset > 0 && OnSide(Buy, e.bids) && OnSide(Sell, e.asks)
    ensures Tape(Step(e, o, eager).reports) == Prints(e.asset, StepTrades(e, o))
  {
    if o.action.Execute? && o.amount > 0 {
      var s := Sweep(e.asset, o, e.Book(o.side.Opposite()));
      var tail := Finish(e.WithBook(o.side.Opposite(), s.book), o, s).reports;
      SweepPrints(e.asset, o, e.Book(o.side.Opposite()));
      assert |tail| <= 1 && Tape(tail) == [];
      TapeConcat(s.reports, tail);
      assert Step(e, o, eager).reports == s.reports + tail;
    }
  }

  /** Decoding the report stream of any run yields exactly one print per match, in match order, with
      the traded quantity and the resting price, whichever side was the aggressor. */
  lemma {:induction false} RunPrints(e: Engine, inputs: seq<Input>)
    requires e.asset > 0 && Coherent(e) && AdmissibleRun(e, inputs)
    ensures Tape(Run(e, inputs).reports) == Prints(e.asset, RunTrades(e, inputs))
  {
    if inputs != [] {
      var n := |inputs| - 1;
      var before := Run(e, inputs[..n]);
      RunPrints(e, inputs[..n]);
      RunKeepsCoherent(e, inputs[..n]);
      StepPrints(before.engine, inputs[n].order, inputs[n].eager);
      TapeConcat(before.reports, Step(before.engine, inputs[n].order, inputs[n].eager).reports);
      PrintsConcat(e.asset, RunTrades(e, inputs[..n]), StepTrades(before.engine, inputs[n].order));
    }
  }
}
