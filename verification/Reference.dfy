/** The reference engine: each side of the book is one sequence of resting orders in price-time
    priority, and matching is a plain walk from the front of the opposite side. */
module Reference {
  import opened Domain

  datatype Engine = Engine(asset: nat, capacity: nat, bids: seq<Order>, asks: seq<Order>) {
    function Book(side: Side): seq<Order> { if side.Buy? then bids else asks }

    function WithBook(side: Side, book: seq<Order>): Engine {
      if side.Buy? then this.(bids := book) else this.(asks := book)
    }

    function Resting(): nat { |bids| + |asks| }
  }

  datatype Outcome = Outcome(engine: Engine, reports: seq<Report>, updates: seq<Update>)

  /** One match: `maker` as it stood just before it. */
  datatype Trade = Trade(maker: Order, quantity: uint32)

  datatype Swept = Swept(trades: seq<Trade>, reports: seq<Report>, updates: seq<Update>,
                         rest: uint32, book: seq<Order>)

  // ---------------------------------------------------------------- priority

  /** Priority of a price on one side: smaller is better. */
  function Rank(side: Side, price: int): int { if side.Sell? then price else -price }

  predicate Sorted(side: Side, book: seq<Order>) {
    forall i, j :: 0 <= i < j < |book| ==> Rank(side, book[i].price) <= Rank(side, book[j].price)
  }

  /** A taker meets a maker whose price is no worse than its own, whatever the taker's type. */
  predicate Crosses(taker: Order, maker: Order) {
    if taker.side.Buy? then maker.price <= taker.price else taker.price <= maker.price
  }

  /** The place a new order takes: behind everything at least as good. */
  function Slot(side: Side, book: seq<Order>, price: int): (k: nat)
    ensures k <= |book|
    ensures forall i :: 0 <= i < k ==> Rank(side, book[i].price) <= Rank(side, price)
    ensures k < |book| ==> Rank(side, price) < Rank(side, book[k].price)
  {
    if book == [] || Rank(side, price) < Rank(side, book[0].price) then 0
    else 1 + Slot(side, book[1..], price)
  }

  function Insert(side: Side, book: seq<Order>, o: Order): seq<Order> {
    var k := Slot(side, book, o.price);
    book[..k] + [o] + book[k..]
  }

  /** Total quantity resting at a price. */
  function Depth(book: seq<Order>, price: int): nat {
    if book == [] then 0
    else (if book[0].price == price then book[0].amount else 0) + Depth(book[1..], price)
  }

  /** Position of an order id in a book, or the book's length. */
  function Find(book: seq<Order>, id: uint32): (k: nat)
    ensures k <= |book|
    ensures k < |book| ==> book[k].id == id
    ensures forall i :: 0 <= i < k ==> book[i].id != id
  {
    if book == [] || book[0].id == id then 0 else 1 + Find(book[1..], id)
  }

  function Without(book: seq<Order>, k: nat): seq<Order>
    requires k < |book|
  {
    book[..k] + book[k + 1..]
  }

  // ---------------------------------------------------------------- messages

  function FillState(left: uint32): OrderState { if left > 0 then PartiallyFilled else Filled }

  /** One party's report of a match of `q` at `price`, with `left` of its order remaining. */
  function LegReport(asset: nat, party: Order, q: uint32, price: int, left: uint32): Report {
    if party.side.Buy? then
      Report(q, -(q * price), -(q * price), party.client, party.id, asset, CASH, FillState(left))
    else
      Report(q * price, -(q as int), -(q as int), party.client, party.id, CASH, asset, FillState(left))
  }

  /** A report that moves no confirmed balance, only the reservation of the paying asset. */
  function AttemptReport(asset: nat, party: Order, attempt: int, state: OrderState): Report {
    if party.side.Buy? then
      Report(0, 0, attempt, party.client, party.id, asset, CASH, state)
    else
      Report(0, 0, attempt, party.client, party.id, CASH, asset, state)
  }

  function RejectReport(o: Order): Report {
    Report(0, 0, 0, o.client, o.id, 0, 0, Rejected)
  }

  function DepthUpdate(side: Side, book: seq<Order>, price: int): Update {
    Update(side, price, Depth(book, price) % U32)
  }

  // ---------------------------------------------------------------- matching

  /** What one match leaves of the taker. */
  function TakerLeft(o: Order, m: Order): Order { o.(amount := o.amount - Min(o.amount, m.amount)) }

  function MakerLeft(o: Order, m: Order): Order { m.(amount := m.amount - Min(o.amount, m.amount)) }

  /** The opposite book after one match with its first order. */
  function AfterMatch(o: Order, book: seq<Order>): seq<Order>
    requires book != []
  {
    var m := MakerLeft(o, book[0]);
    if m.amount == 0 then book[1..] else [m] + book[1..]
  }

  function MatchReports(asset: nat, o: Order, m: Order): seq<Report> {
    var q := Min(o.amount, m.amount);
    [LegReport(asset, o, q, m.price, o.amount - q), LegReport(asset, m, q, m.price, m.amount - q)]
  }

  predicate Done(o: Order, book: seq<Order>) {
    o.amount == 0 || book == [] || !Crosses(o, book[0])
  }

  /** The walk: trade with the first opposite order while it crosses. */
  function Sweep(asset: nat, o: Order, book: seq<Order>): Swept
    decreases o.amount + |book|
  {
    if Done(o, book) then Swept([], [], [], o.amount, book)
    else
      var m := book[0];
      var book' := AfterMatch(o, book);
      var r := Sweep(asset, TakerLeft(o, m), book');
      Swept([Trade(m, Min(o.amount, m.amount))] + r.trades,
            MatchReports(asset, o, m) + r.reports,
            [DepthUpdate(o.side.Opposite(), book', m.price)] + r.updates,
            r.rest, r.book)
  }

  /** What a taker paid over a list of trades. */
  function Spent(side: Side, trades: seq<Trade>): int {
    if trades == [] then 0
    else Value(side, trades[0].quantity, trades[0].maker.price) + Spent(side, trades[1..])
  }

  /** Rest an order in its own book; with every order node in use the order is silently dropped. */
  function Rest(e: Engine, o: Order): Outcome {
    if e.Resting() >= e.capacity then Outcome(e, [], [])
    else
      var book := Insert(o.side, e.Book(o.side), o);
      Outcome(e.WithBook(o.side, book),
              [AttemptReport(e.asset, o, Value(o.side, o.amount, o.price), Added)],
              [DepthUpdate(o.side, book, o.price)])
  }

  /** What happens to the remainder after a sweep: a limit order rests, a market order is cancelled. */
  function Finish(e: Engine, o: Order, s: Swept): Outcome {
    if s.rest == 0 then Outcome(e, [], [])
    else if o.kind.Limit? then Rest(e, o.(amount := s.rest))
    else
      var locked := Value(o.side, o.amount, o.price) - Spent(o.side, s.trades);
      Outcome(e, [AttemptReport(e.asset, o, -locked, Cancelled)], [])
  }

  function ExecuteOrder(e: Engine, o: Order): Outcome {
    var opp := o.side.Opposite();
    var s := Sweep(e.asset, o, e.Book(opp));
    var f := Finish(e.WithBook(opp, s.book), o, s);
    Outcome(f.engine, s.reports + f.reports, s.updates + f.updates)
  }

  /** A cancel request names its target in the amount field and its book in the side field. */
  function CancelOrder(e: Engine, o: Order): Outcome {
    var book := e.Book(o.side);
    var k := Find(book, o.amount);
    if k == |book| || book[k].client != o.client then Outcome(e, [RejectReport(o)], [])
    else
      var t := book[k];
      var book' := Without(book, k);
      Outcome(e.WithBook(o.side, book'),
              [AttemptReport(e.asset, t, Value(t.side, t.amount, t.price), Cancelled)],
              [DepthUpdate(o.side, book', t.price)])
  }

  /** One message of the execution loop. An order of amount 0 is the one case where the cached best
      price decides: `eager` says whether the cache called it marketable. */
  function Step(e: Engine, o: Order, eager: bool): Outcome {
    if o.action.Cancel? then CancelOrder(e, o)
    else if o.amount > 0 then ExecuteOrder(e, o)
    else if o.kind.Market? || eager then Outcome(e, [], [])
    else Rest(e, o)
  }
}
