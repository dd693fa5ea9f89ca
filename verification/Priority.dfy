/** Price-time priority and the shape of the book in every reachable state. */
module Priority {
  import opened Domain
  import opened Reference

  // ---------------------------------------------------------------- the walk

  function Quantity(trades: seq<Trade>): nat {
    if trades == [] then 0 else trades[0].quantity + Quantity(trades[1..])
  }

  /** The trades hit a prefix of the book in order, each maker at a price the taker accepts, and
      every maker but the last in full. */
  predicate PrefixTrades(o: Order, book: seq<Order>, trades: seq<Trade>) {
    && |trades| <= |book|
    && (forall i :: 0 <= i < |trades| ==>
          trades[i].maker == book[i] && trades[i].quantity <= book[i].amount && Crosses(o, book[i]))
    && (forall i :: 0 <= i < |trades| - 1 ==> trades[i].quantity == book[i].amount)
  }

  /** What the trades leave of the book: the untouched tail, behind the last maker if it has some left. */
  predicate Remainder(book: seq<Order>, trades: seq<Trade>, left: seq<Order>)
    requires |trades| <= |book|
  {
    var n := |trades|;
    if n > 0 && trades[n - 1].quantity < book[n - 1].amount
    then left == [book[n - 1].(amount := book[n - 1].amount - trades[n - 1].quantity)] + book[n..]
    else left == book[n..]
  }

  lemma {:induction false} SweepUnfold(asset: nat, o: Order, book: seq<Order>)
    requires !Done(o, book)
    ensures var s, r := Sweep(asset, o, book), Sweep(asset, TakerLeft(o, book[0]), AfterMatch(o, book));
            && s.trades == [Trade(book[0], Min(o.amount, book[0].amount))] + r.trades
            && s.reports == MatchReports(asset, o, book[0]) + r.reports
            && s.updates == [DepthUpdate(o.side.Opposite(), AfterMatch(o, book), book[0].price)] + r.updates
            && s.rest == r.rest && s.book == r.book
  {
  }

  lemma {:induction false} SweepTrades(asset: nat, o: Order, book: seq<Order>)
    ensures PrefixTrades(o, book, Sweep(asset, o, book).trades)
    ensures Quantity(Sweep(asset, o, book).trades) + Sweep(asset, o, book).rest == o.amount
    decreases o.amount + |book|
  {
    if !Done(o, book) {
      SweepUnfold(asset, o, book);
      SweepTrades(asset, TakerLeft(o, book[0]), AfterMatch(o, book));
    }
  }

  lemma {:induction false} SweepBook(asset: nat, o: Order, book: seq<Order>)
    ensures |Sweep(asset, o, book).trades| <= |book|
    ensures Remainder(book, Sweep(asset, o, book).trades, Sweep(asset, o, book).book)
    decreases o.amount + |book|
  {
    if !Done(o, book) {
      var o', book' := TakerLeft(o, book[0]), AfterMatch(o, book);
      var r := Sweep(asset, o', book');
      assert && Sweep(asset, o, book).trades == [Trade(book[0], Min(o.amount, book[0].amount))] + r.trades
             && Sweep(asset, o, book).book == r.book by { SweepUnfold(asset, o, book); }
      SweepBook(asset, o', book');
      if MakerLeft(o, book[0]).amount == 0 {
        assert book'[|r.trades|..] == book[|r.trades| + 1..];
      } else {
        assert r.trades == [] && r.book == book';
      }
    }
  }

  /** What is left of the taker finds nothing more to trade with. */
  lemma {:induction false} SweepStops(asset: nat, o: Order, book: seq<Order>)
    ensures var s := Sweep(asset, o, book);
            && |s.trades| <= |book|
            && (s.rest > 0 ==> s.book == book[|s.trades|..] && (s.book == [] || !Crosses(o, s.book[0])))
    decreases o.amount + |book|
  {
    if !Done(o, book) {
      var o', book' := TakerLeft(o, book[0]), AfterMatch(o, book);
      SweepUnfold(asset, o, book);
      SweepStops(asset, o', book');
      var r := Sweep(asset, o', book');
      if MakerLeft(o, book[0]).amount == 0 { assert book'[|r.trades|..] == book[|r.trades| + 1..]; }
    }
  }

  /** The walk is price-time priority: trades with a prefix of the priority order, never at a price
      worse than the taker's, all but the last maker in full; quantity is conserved; and if anything
      is left over, everything that crossed is gone and nothing that remains crosses. */
  lemma {:induction false} SweepIsPriceTimePriority(asset: nat, o: Order, book: seq<Order>)
    requires Sorted(o.side.Opposite(), book)
    ensures var s := Sweep(asset, o, book);
            && PrefixTrades(o, book, s.trades)
            && Quantity(s.trades) + s.rest == o.amount
            && Remainder(book, s.trades, s.book)
            && (s.rest > 0 ==> forall i :: 0 <= i < |s.book| ==> !Crosses(o, s.book[i]))
            && (s.rest > 0 ==> forall i :: 0 <= i < |book| && Crosses(o, book[i]) ==> i < |s.trades|)
  {
    SweepTrades(asset, o, book);
    SweepBook(asset, o, book);
    SweepStops(asset, o, book);
    var s := Sweep(asset, o, book);
    if s.rest > 0 { TailDoesNotCross(o, book, |s.trades|); }
  }

  /** In a sorted book everything behind an order that does not cross does not cross either. */
  lemma {:induction false} TailDoesNotCross(o: Order, book: seq<Order>, n: nat)
    requires Sorted(o.side.Opposite(), book) && n <= |book|
    requires book[n..] == [] || !Crosses(o, book[n..][0])
    ensures forall i :: 0 <= i < |book[n..]| ==> !Crosses(o, book[n..][i])
    ensures forall i :: 0 <= i < |book| && Crosses(o, book[i]) ==> i < n
  {
    forall i | n <= i < |book| ensures !Crosses(o, book[i]) {
      assert book[n] == book[n..][0];
    }
  }

  // ---------------------------------------------------------------- coherence

  predicate OnSide(side: Side, book: seq<Order>) {
    forall i :: 0 <= i < |book| ==> book[i].side == side
  }

  predicate DistinctIds(book: seq<Order>) {
    forall i, j :: 0 <= i < j < |book| ==> book[i].id != book[j].id
  }

  predicate DisjointIds(a: seq<Order>, b: seq<Order>) {
    forall i, j :: 0 <= i < |a| && 0 <= j < |b| ==> a[i].id != b[j].id
  }

  predicate FreshId(book: seq<Order>, id: uint32) {
    forall i :: 0 <= i < |book| ==> book[i].id != id
  }

  /** Every bid is strictly below every ask. */
  predicate Uncrossed(bids: seq<Order>, asks: seq<Order>) {
    forall i, j :: 0 <= i < |bids| && 0 <= j < |asks| ==> bids[i].price < asks[j].price
  }

  predicate BookCoherent(side: Side, book: seq<Order>) {
    Sorted(side, book) && OnSide(side, book) && DistinctIds(book)
  }

  predicate Coherent(e: Engine) {
    && BookCoherent(Buy, e.bids) && BookCoherent(Sell, e.asks)
    && DisjointIds(e.bids, e.asks)
    && Uncrossed(e.bids, e.asks)
    && e.Resting() <= e.capacity
  }

  datatype Input = Input(order: Order, eager: bool)

  /** What the engine's callers guarantee: a live id is not reused, a cancel names the side its
      target rests on, and an amount-0 order the cache calls unmarketable does not cross. */
  predicate Admissible(e: Engine, i: Input) {
    var o := i.order;
    var opp := e.Book(o.side.Opposite());
    if o.action.Cancel? then
      var k := Find(opp, o.amount);
      k == |opp| || opp[k].client != o.client
    else
      && FreshId(e.bids, o.id) && FreshId(e.asks, o.id)
      && (o.amount == 0 && o.kind.Limit? && !i.eager ==> opp == [] || !Crosses(o, opp[0]))
  }

  /** Each order left by the walk is one of the book's, at most reduced in amount. */
  lemma {:induction false} SweepLeaves(asset: nat, o: Order, book: seq<Order>) returns (d: nat)
    ensures var s := Sweep(asset, o, book);
            && |s.book| + d == |book|
            && forall i :: 0 <= i < |s.book| ==> s.book[i] == book[i + d].(amount := s.book[i].amount)
  {
    SweepBook(asset, o, book);
    var s := Sweep(asset, o, book);
    d := |book| - |s.book|;
  }

  lemma {:induction false} SweepKeepsBook(asset: nat, o: Order, book: seq<Order>)
    requires BookCoherent(o.side.Opposite(), book)
    ensures BookCoherent(o.side.Opposite(), Sweep(asset, o, book).book)
    ensures forall id :: FreshId(book, id) ==> FreshId(Sweep(asset, o, book).book, id)
  {
    var d := SweepLeaves(asset, o, book);
  }

  lemma {:induction false} InsertAt(side: Side, book: seq<Order>, o: Order, i: nat)
    requires i <= |book|
    ensures |Insert(side, book, o)| == |book| + 1
    ensures var k := Slot(side, book, o.price);
            Insert(side, book, o)[i] == if i < k then book[i] else if i == k then o else book[i - 1]
  {
  }

  lemma {:induction false} InsertSorted(side: Side, book: seq<Order>, o: Order)
    requires Sorted(side, book) && OnSide(side, book) && o.side == side
    ensures Sorted(side, Insert(side, book, o)) && OnSide(side, Insert(side, book, o))
  {
    var r := Insert(side, book, o);
    forall i, j | 0 <= i < j < |r| ensures Rank(side, r[i].price) <= Rank(side, r[j].price) {
      InsertAt(side, book, o, i);
      InsertAt(side, book, o, j);
    }
    forall i | 0 <= i < |r| ensures r[i].side == side { InsertAt(side, book, o, i); }
  }

  lemma {:induction false} InsertKeepsBook(side: Side, book: seq<Order>, o: Order)
    requires BookCoherent(side, book) && o.side == side && FreshId(book, o.id)
    ensures BookCoherent(side, Insert(side, book, o))
  {
    InsertSorted(side, book, o);
    var r := Insert(side, book, o);
    forall i, j | 0 <= i < j < |r| ensures r[i].id != r[j].id {
      InsertAt(side, book, o, i);
      InsertAt(side, book, o, j);
    }
  }

  lemma {:induction false} WithoutSorted(side: Side, book: seq<Order>, k: nat)
    requires Sorted(side, book) && OnSide(side, book) && k < |book|
    ensures Sorted(side, Without(book, k)) && OnSide(side, Without(book, k))
  {
    var r := Without(book, k);
    assert forall i :: 0 <= i < |r| ==> r[i] == book[if i < k then i else i + 1];
  }

  predicate Clear(e: Engine, o: Order) {
    forall m :: m in e.Book(o.side.Opposite()) ==> !Crosses(o, m)
  }

  lemma {:induction false} RestKeepsCoherent(e: Engine, o: Order)
    requires Coherent(e) && Clear(e, o)
    requires FreshId(e.bids, o.id) && FreshId(e.asks, o.id)
    ensures Coherent(Rest(e, o).engine)
  {
    InsertKeepsBook(o.side, e.Book(o.side), o);
    InsertKeepsApart(e, o);
  }

  /** The inserted order stays apart from the other side, in price and in id. */
  lemma {:induction false} InsertKeepsApart(e: Engine, o: Order)
    requires Coherent(e) && Clear(e, o) && FreshId(e.bids, o.id) && FreshId(e.asks, o.id)
    ensures var e' := e.WithBook(o.side, Insert(o.side, e.Book(o.side), o));
            DisjointIds(e'.bids, e'.asks) && Uncrossed(e'.bids, e'.asks)
  {
    var r, opp := Insert(o.side, e.Book(o.side), o), e.Book(o.side.Opposite());
    forall i, j | 0 <= i < |r| && 0 <= j < |opp|
      ensures r[i].id != opp[j].id
      ensures if o.side.Buy? then r[i].price < opp[j].price else opp[j].price < r[i].price
    {
      InsertAt(o.side, e.Book(o.side), o, i);
      assert opp[j] in opp;
    }
  }

  /** Dropping `d` orders from position `k` and changing amounts keeps an engine coherent. */
  /** `book` is `before` without the `d` orders from `k` on, amounts aside. */
  predicate Thinned(before: seq<Order>, book: seq<Order>, k: nat, d: nat) {
    && k + d <= |before| && |book| + d == |before|
    && forall i :: 0 <= i < |book| ==> book[i] == before[if i < k then i else i + d].(amount := book[i].amount)
  }

  lemma {:induction false} ThinnedCoherent(side: Side, before: seq<Order>, book: seq<Order>, k: nat, d: nat)
    requires BookCoherent(side, before) && Thinned(before, book, k, d)
    ensures BookCoherent(side, book)
  {
    forall i, j | 0 <= i < j < |book|
      ensures Rank(side, book[i].price) <= Rank(side, book[j].price) && book[i].id != book[j].id
    {
      var i', j' := if i < k then i else i + d, if j < k then j else j + d;
      assert Rank(side, before[i'].price) <= Rank(side, before[j'].price) && before[i'].id != before[j'].id;
    }
  }

  lemma {:induction false} ThinnedApart(before: seq<Order>, book: seq<Order>, k: nat, d: nat, other: seq<Order>)
    requires Thinned(before, book, k, d)
    ensures DisjointIds(before, other) ==> DisjointIds(book, other)
    ensures DisjointIds(other, before) ==> DisjointIds(other, book)
    ensures Uncrossed(before, other) ==> Uncrossed(book, other)
    ensures Uncrossed(other, before) ==> Uncrossed(other, book)
  {
  }

  lemma {:induction false} ShrinkKeepsCoherent(e: Engine, side: Side, book: seq<Order>, k: nat, d: nat)
    requires Coherent(e) && Thinned(e.Book(side), book, k, d)
    ensures Coherent(e.WithBook(side, book))
  {
    ThinnedCoherent(side, e.Book(side), book, k, d);
    ThinnedApart(e.Book(side), book, k, d, e.Book(side.Opposite()));
  }

  lemma {:induction false} SweepKeepsCoherent(e: Engine, o: Order)
    requires Coherent(e)
    ensures var opp := o.side.Opposite();
            var s := Sweep(e.asset, o, e.Book(opp));
            && Coherent(e.WithBook(opp, s.book))
            && (s.rest > 0 ==> Clear(e.WithBook(opp, s.book), o))
  {
    var opp := o.side.Opposite();
    SweepIsPriceTimePriority(e.asset, o, e.Book(opp));
    var d := SweepLeaves(e.asset, o, e.Book(opp));
    ShrinkKeepsCoherent(e, opp, Sweep(e.asset, o, e.Book(opp)).book, 0, d);
  }

  lemma {:induction false} CancelKeepsCoherent(e: Engine, o: Order)
    requires Coherent(e)
    ensures Coherent(CancelOrder(e, o).engine)
  {
    var book := e.Book(o.side);
    var k := Find(book, o.amount);
    if k < |book| { ShrinkKeepsCoherent(e, o.side, Without(book, k), k, 1); }
  }

  /** Every message keeps both books sorted, the ids distinct and the spread open. */
  lemma {:induction false} StepKeepsCoherent(e: Engine, i: Input)
    requires Coherent(e) && Admissible(e, i)
    ensures Coherent(Step(e, i.order, i.eager).engine)
  {
    var o := i.order;
    if o.action.Cancel? {
      CancelKeepsCoherent(e, o);
    } else if o.amount > 0 {
      var opp := o.side.Opposite();
      var s := Sweep(e.asset, o, e.Book(opp));
      SweepKeepsCoherent(e, o);
      SweepKeepsBook(e.asset, o, e.Book(opp));
      if s.rest > 0 && o.kind.Limit? { RestKeepsCoherent(e.WithBook(opp, s.book), o.(amount := s.rest)); }
    } else if o.kind.Limit? && !i.eager {
      ClearFromFirst(e, o);
      RestKeepsCoherent(e, o);
    }
  }

  lemma {:induction false} ClearFromFirst(e: Engine, o: Order)
    requires Coherent(e)
    requires var b := e.Book(o.side.Opposite()); b == [] || !Crosses(o, b[0])
    ensures Clear(e, o)
  {
  }

  // ---------------------------------------------------------------- runs

  function Run(e: Engine, inputs: seq<Input>): Outcome {
    if inputs == [] then Outcome(e, [], [])
    else
      var n := |inputs| - 1;
      var a := Run(e, inputs[..n]);
      var b := Step(a.engine, inputs[n].order, inputs[n].eager);
      Outcome(b.engine, a.reports + b.reports, a.updates + b.updates)
  }

  predicate AdmissibleRun(e: Engine, inputs: seq<Input>) {
    inputs != [] ==>
      var n := |inputs| - 1;
      AdmissibleRun(e, inputs[..n]) && Admissible(Run(e, inputs[..n]).engine, inputs[n])
  }

  /** The book is never crossed, in any state any run reaches. */
  lemma {:induction false} RunKeepsCoherent(e: Engine, inputs: seq<Input>)
    requires Coherent(e) && AdmissibleRun(e, inputs)
    ensures Coherent(Run(e, inputs).engine)
    ensures Run(e, inputs).engine.asset == e.asset && Run(e, inputs).engine.capacity == e.capacity
  {
    if inputs != [] {
      var n := |inputs| - 1;
      RunKeepsCoherent(e, inputs[..n]);
      StepKeepsCoherent(Run(e, inputs[..n]).engine, inputs[n]);
    }
  }
}
