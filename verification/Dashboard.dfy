/** The dashboard's depth view and its replay of the engine's book updates. */
module Dashboard {
  import opened Domain
  import opened Reference
  import opened Priority
  import opened Books

  datatype Depths = Depths(bids: map<int, uint32>, asks: map<int, uint32>) {
    function Of(side: Side): map<int, uint32> { if side.Buy? then bids else asks }

    /** Depth shown at a price; a price not in the map shows 0. */
    function Shown(side: Side, price: int): uint32 {
      if price in Of(side) then Of(side)[price] else 0
    }

    /** Every update is absolute; depth 0 removes the level. */
    function Apply(u: Update): Depths {
      var m := Of(u.side);
      var m' := if u.depth == 0 then m - {u.price} else m[u.price := u.depth];
      if u.side.Buy? then this.(bids := m') else this.(asks := m')
    }

    function Replay(us: seq<Update>): Depths
      decreases |us|
    {
      if us == [] then this else Apply(us[0]).Replay(us[1..])
    }
  }

  class DepthView {
    var bids: map<int, uint32>
    var asks: map<int, uint32>

    constructor ()
      ensures bids == map[] && asks == map[]
    {
      bids, asks := map[], map[];
    }

    ghost function View(): Depths
      reads this
    {
      Depths(bids, asks)
    }

    /** Returns the signed depth change at the price. */
    method Apply(u: Update) returns (delta: int)
      modifies this
      ensures View() == old(View()).Apply(u)
      ensures delta == View().Shown(u.side, u.price) - old(View()).Shown(u.side, u.price)
      ensures forall s, p :: s != u.side || p != u.price ==> View().Shown(s, p) == old(View()).Shown(s, p)
    {
      if u.side == Buy {
        var before := if u.price in bids then bids[u.price] else 0;
        if u.depth == 0 { bids := bids - {u.price}; } else { bids := bids[u.price := u.depth]; }
        delta := u.depth - before;
      } else {
        var before := if u.price in asks then asks[u.price] else 0;
        if u.depth == 0 { asks := asks - {u.price}; } else { asks := asks[u.price := u.depth]; }
        delta := u.depth - before;
      }
    }
  }

  // ---------------------------------------------------------------- replay

  /** The view shows, at every price of a side, the resting quantity modulo 2^32, and stores no
      zero. */
  ghost predicate Mirrors(d: Depths, side: Side, book: seq<Order>) {
    && (forall p :: d.Shown(side, p) == Depth(book, p) % U32)
    && (forall p :: p in d.Of(side) ==> d.Of(side)[p] != 0)
  }

  ghost predicate MirrorsEngine(d: Depths, e: Engine) {
    Mirrors(d, Buy, e.bids) && Mirrors(d, Sell, e.asks)
  }

  lemma {:induction false} EmptyMirrors(e: Engine)
    requires e.bids == [] && e.asks == []
    ensures MirrorsEngine(Depths(map[], map[]), e)
  {
  }

  /** One update repairs the view when the book changed at that update's price only. */
  lemma {:induction false} ApplyMirrors(d: Depths, side: Side, book: seq<Order>, book': seq<Order>, price: int)
    requires Mirrors(d, side, book)
    requires forall p :: p != price ==> Depth(book', p) == Depth(book, p)
    ensures Mirrors(d.Apply(DepthUpdate(side, book', price)), side, book')
    ensures d.Apply(DepthUpdate(side, book', price)).Of(side.Opposite()) == d.Of(side.Opposite())
  {
  }

  lemma {:induction false} ReplayConcat(d: Depths, x: seq<Update>, y: seq<Update>)
    ensures d.Replay(x + y) == d.Replay(x).Replay(y)
    decreases |x|
  {
    if x == [] {
      assert x + y == y;
    } else {
      assert (x + y)[1..] == x[1..] + y;
      ReplayConcat(d.Apply(x[0]), x[1..], y);
    }
  }

  lemma {:induction false} SweepReplays(asset: nat, o: Order, book: seq<Order>, d: Depths)
    requires Mirrors(d, o.side.Opposite(), book)
    ensures var s := Sweep(asset, o, book);
            && Mirrors(d.Replay(s.updates), o.side.Opposite(), s.book)
            && d.Replay(s.updates).Of(o.side) == d.Of(o.side)
    decreases o.amount + |book|
  {
    if !Done(o, book) {
      var opp, m, book' := o.side.Opposite(), book[0], AfterMatch(o, book);
      SweepUnfold(asset, o, book);
      forall p | p != m.price ensures Depth(book', p) == Depth(book, p) { DepthAfterMatch(o, book, p); }
      ApplyMirrors(d, opp, book, book', m.price);
      SweepReplays(asset, TakerLeft(o, m), book', d.Apply(DepthUpdate(opp, book', m.price)));
    }
  }

  lemma {:induction false} RestReplays(e: Engine, o: Order, d: Depths)
    requires MirrorsEngine(d, e)
    ensures MirrorsEngine(d.Replay(Rest(e, o).updates), Rest(e, o).engine)
  {
    if e.Resting() < e.capacity {
      var book := e.Book(o.side);
      var book' := Insert(o.side, book, o);
      forall p ensures p != o.price ==> Depth(book', p) == Depth(book, p) { DepthInsert(o.side, book, o, p); }
      ApplyMirrors(d, o.side, book, book', o.price);
      ReplayOne(d, DepthUpdate(o.side, book', o.price));
    }
  }

  lemma {:induction false} ReplayOne(d: Depths, u: Update)
    ensures d.Replay([u]) == d.Apply(u)
  {
    assert [u][1..] == [];
    assert d.Apply(u).Replay([]) == d.Apply(u);
  }

  lemma {:induction false} CancelReplays(e: Engine, o: Order, d: Depths)
    requires MirrorsEngine(d, e)
    ensures MirrorsEngine(d.Replay(CancelOrder(e, o).updates), CancelOrder(e, o).engine)
  {
    var book := e.Book(o.side);
    var k := Find(book, o.amount);
    if k < |book| && book[k].client == o.client {
      var book' := Without(book, k);
      var price := book[k].price;
      forall p ensures p != price ==> Depth(book', p) == Depth(book, p) { DepthWithout(book, k, p); }
      ApplyMirrors(d, o.side, book, book', price);
      ReplayOne(d, DepthUpdate(o.side, book', price));
    }
  }

  lemma {:induction false} ExecuteReplays(e: Engine, o: Order, d: Depths)
    requires MirrorsEngine(d, e)
    ensures MirrorsEngine(d.Replay(ExecuteOrder(e, o).updates), ExecuteOrder(e, o).engine)
  {
    var opp := o.side.Opposite();
    var s := Sweep(e.asset, o, e.Book(opp));
    var e1 := e.WithBook(opp, s.book);
    var d1 := d.Replay(s.updates);
    SweepReplays(e.asset, o, e.Book(opp), d);
    OneSideMirrors(d, d1, e, opp, s.book);
    RestReplays(e1, o.(amount := s.rest), d1);
    ReplayConcat(d, s.updates, Finish(e1, o, s).updates);
  }

  lemma {:induction false} OneSideMirrors(d: Depths, d': Depths, e: Engine, side: Side, book: seq<Order>)
    requires MirrorsEngine(d, e) && Mirrors(d', side, book) && d'.Of(side.Opposite()) == d.Of(side.Opposite())
    ensures MirrorsEngine(d', e.WithBook(side, book))
  {
    var opp := side.Opposite();
    forall p
      ensures d'.Shown(opp, p) == Depth(e.Book(opp), p) % U32
    {
      assert d.Shown(opp, p) == Depth(e.Book(opp), p) % U32;
    }
  }

  lemma {:induction false} StepReplays(e: Engine, o: Order, eager: bool, d: Depths)
    requires MirrorsEngine(d, e)
    ensures MirrorsEngine(d.Replay(Step(e, o, eager).updates), Step(e, o, eager).engine)
  {
    if o.action.Cancel? {
      CancelReplays(e, o, d);
    } else if o.amount > 0 {
      ExecuteReplays(e, o, d);
    } else {
      RestReplays(e, o, d);
    }
  }

  /** Applying every update of any run, in order, keeps the view equal to the engine's resting
      quantities modulo 2^32. */
  lemma {:induction false} RunReplays(e: Engine, inputs: seq<Input>, d: Depths)
    requires MirrorsEngine(d, e)
    ensures MirrorsEngine(d.Replay(Run(e, inputs).updates), Run(e, inputs).engine)
  {
    if inputs != [] {
      var n := |inputs| - 1;
      var before := Run(e, inputs[..n]);
      RunReplays(e, inputs[..n], d);
      StepReplays(before.engine, inputs[n].order, inputs[n].eager, d.Replay(before.updates));
      ReplayConcat(d, before.updates, Step(before.engine, inputs[n].order, inputs[n].eager).updates);
    }
  }

  /** The view is exact precisely while every level total fits 32 bits. */
  lemma {:induction false} MirrorIsExactIffTotalsFit(d: Depths, side: Side, book: seq<Order>)
    requires Mirrors(d, side, book)
    ensures (forall p :: d.Shown(side, p) == Depth(book, p)) <==> (forall p :: Depth(book, p) < U32)
  {
    forall p ensures d.Shown(side, p) == Depth(book, p) <==> Depth(book, p) < U32 {
      assert d.Shown(side, p) == Depth(book, p) % U32;
    }
  }
}
