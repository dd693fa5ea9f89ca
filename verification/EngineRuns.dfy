/** Whole runs of the concrete engine: everything proved of the reference engine's runs holds of the streams
    the concrete one sends. */
module EngineRuns {
  import opened Domain
  import opened Reference
  import opened Priority
  import opened Sums
  import Settlement
  import Dashboard
  import Lifetime
  import Messages
  import opened MatchingEngine

  /** The engine got where it is, and sent what it sent, by the messages `history` from the empty book. */
  ghost predicate Traced(b: BidAsk, history: seq<Input>)
    reads b, b.store, b.bid, b.ask
  {
    var e0 := Engine(b.asset, |b.store.nodes|, [], []);
    AdmissibleRun(e0, history) && Run(e0, history) == Outcome(b.Abs(), b.reports, b.updates)
  }

  /** A new engine has the empty history. */
  method Start(asset: nat, initialPrice: int, firstReport: uint32, firstUpdate: uint32, nodeCount: nat, levelCount: nat,
               idBuckets: nat, buckets: nat, lowest: int, highest: int, maxLevel: nat, skipNodes: nat, blank: Order)
    returns (b: BidAsk)
    requires lowest < highest && skipNodes >= 2 && nodeCount < 16 * idBuckets && levelCount < 16 * buckets
    ensures fresh(b) && b.Valid() && b.asset == asset && |b.store.nodes| == nodeCount && Traced(b, [])
  {
    b := new BidAsk(asset, initialPrice, firstReport, firstUpdate, nodeCount, levelCount, idBuckets, buckets,
                    lowest, highest, maxLevel, skipNodes, blank);
  }

  lemma {:induction false} ExtendRun(e: Engine, h: seq<Input>, i: Input)
    requires AdmissibleRun(e, h) && Admissible(Run(e, h).engine, i)
    ensures AdmissibleRun(e, h + [i])
    ensures var a := Run(e, h); var r := Step(a.engine, i.order, i.eager);
            Run(e, h + [i]) == Outcome(r.engine, a.reports + r.reports, a.updates + r.updates)
  {
    assert (h + [i])[..|h|] == h;
  }

  /** Each handled message extends the trace. */
  method Process(b: BidAsk, o: Order, ghost history: seq<Input>) returns (ghost history': seq<Input>)
    requires b.Valid() && b.Accepts(o) && Traced(b, history)
    modifies b, b.store, b.bid, b.ask, b.bid.bestPrices, b.ask.bestPrices, b.store.ids, b.bid.prices, b.ask.prices
    ensures b.Valid() && Traced(b, history')
    ensures history' == history + [Input(o, old(b.IsMarketable(o)))]
  {
    ghost var i := Input(o, b.IsMarketable(o));
    ghost var e0, a := Engine(b.asset, |b.store.nodes|, [], []), b.Abs();
    b.Handle(o);
    ExtendRun(e0, history, i);
    StepKeepsSize(a, o, i.eager);
    history' := history + [i];
  }

  lemma {:induction false} StepKeepsSize(e: Engine, o: Order, eager: bool)
    ensures Step(e, o, eager).engine.capacity == e.capacity && Step(e, o, eager).engine.asset == e.asset
  {
  }

  /** In every reachable state of the concrete engine: the book is sorted and not crossed; the reports move
      no asset in or out; their buyer legs are the trades; the depth messages replay to the book; every resting
      order's reservation is what its reports say, and a cancel reports just that. */
  lemma {:induction false} ReachableStates(b: BidAsk, history: seq<Input>, a: nat)
    requires Traced(b, history) && b.asset > 0
    ensures Coherent(b.Abs())
    ensures Settlement.AssetDelta(b.reports, a) == 0
    ensures Settlement.Tape(b.reports)
            == Settlement.Prints(b.asset, Settlement.RunTrades(Engine(b.asset, |b.store.nodes|, [], []), history))
    ensures Dashboard.MirrorsEngine(Dashboard.Depths(map[], map[]).Replay(b.updates), b.Abs())
    ensures Lifetime.LocksMatch(b.Abs(), b.reports)
    ensures forall o :: Lifetime.Hits(b.Abs(), o) ==>
              CancelOrder(b.Abs(), o).reports[0].attempt == Lifetime.SinceAdded(b.reports, o.amount)
  {
    var e0 := Engine(b.asset, |b.store.nodes|, [], []);
    RunFacts(e0, history, a);
    RunFeeds(e0, history);
    forall o | Lifetime.Hits(b.Abs(), o)
      ensures CancelOrder(b.Abs(), o).reports[0].attempt == Lifetime.SinceAdded(b.reports, o.amount)
    {
      Lifetime.CancelReportsLock(e0, history, o);
    }
  }

  /** In every reachable state an order's amount is what its reports traded plus what rests plus what was
      dropped, and what it reserved it has paid, still locks, got back, or keeps reserved with nothing behind it. */
  lemma {:induction false} ReachableAccounts(b: BidAsk, history: seq<Input>, id: uint32)
    requires Traced(b, history) && b.asset > 0 && Lifetime.PricedInputs(history)
    ensures var e0 := Engine(b.asset, |b.store.nodes|, [], []);
            Sum(b.reports, Lifetime.TradedBy(id)) + Lifetime.Held(b.Abs(), Lifetime.AmountOf(id))
            + Lifetime.Dropped(e0, history, id) == Lifetime.Submitted(history, id)
    ensures var e0 := Engine(b.asset, |b.store.nodes|, [], []);
            && Sum(b.reports, Lifetime.PaidBy(id)) + Lifetime.Held(b.Abs(), Lifetime.ValueOf(id))
               + Sum(b.reports, Lifetime.FreedBy(id)) + Lifetime.Kept(e0, history, id) == Lifetime.Reserved(history, id)
            && Lifetime.Kept(e0, history, id) >= 0
  {
    RunSums(Engine(b.asset, |b.store.nodes|, [], []), history, id);
  }

  lemma {:induction false} RunSums(e0: Engine, history: seq<Input>, id: uint32)
    requires e0.bids == [] && e0.asks == [] && e0.asset > 0 && AdmissibleRun(e0, history)
    requires Lifetime.PricedInputs(history)
    ensures var out := Run(e0, history);
            && Sum(out.reports, Lifetime.TradedBy(id)) + Lifetime.Held(out.engine, Lifetime.AmountOf(id))
               + Lifetime.Dropped(e0, history, id) == Lifetime.Submitted(history, id)
            && Sum(out.reports, Lifetime.PaidBy(id)) + Lifetime.Held(out.engine, Lifetime.ValueOf(id))
               + Sum(out.reports, Lifetime.FreedBy(id)) + Lifetime.Kept(e0, history, id)
               == Lifetime.Reserved(history, id)
            && Lifetime.Kept(e0, history, id) >= 0
  {
    assert Coherent(e0);
    assert Lifetime.Held(e0, Lifetime.AmountOf(id)) == 0 && Lifetime.Held(e0, Lifetime.ValueOf(id)) == 0;
    Lifetime.RunAccounts(e0, history, id);
  }

  /** In every reachable state: an order reported Filled is gone, unless another has come in with its id since. */
  lemma {:induction false} ReachableFills(b: BidAsk, history: seq<Input>, n: nat, id: uint32)
    requires Traced(b, history) && n < |history|
    requires Messages.FilledLast(Engine(b.asset, |b.store.nodes|, [], []), history[..n + 1], id)
    requires forall m {:trigger Lifetime.Enters(history[m], id)} :: n < m < |history| ==>
               !Lifetime.Enters(history[m], id)
    ensures !Lifetime.Live(b.Abs(), id)
  {
    var e0 := Engine(b.asset, |b.store.nodes|, [], []);
    assert Coherent(e0);
    assert Messages.FilledOnce(e0, history, n, id);
    Messages.FilledStaysGone(e0, history, n, id);
  }

  lemma {:induction false} RunFacts(e0: Engine, history: seq<Input>, a: nat)
    requires e0.bids == [] && e0.asks == [] && e0.asset > 0 && AdmissibleRun(e0, history)
    ensures Coherent(Run(e0, history).engine)
    ensures Settlement.AssetDelta(Run(e0, history).reports, a) == 0
    ensures Lifetime.LocksMatch(Run(e0, history).engine, Run(e0, history).reports)
  {
    assert Coherent(e0);
    RunKeepsCoherent(e0, history);
    Settlement.RunConserves(e0, history, a);
    Lifetime.RunLocks(e0, history);
  }

  lemma {:induction false} RunFeeds(e0: Engine, history: seq<Input>)
    requires e0.bids == [] && e0.asks == [] && e0.asset > 0 && AdmissibleRun(e0, history)
    ensures Settlement.Tape(Run(e0, history).reports) == Settlement.Prints(e0.asset, Settlement.RunTrades(e0, history))
    ensures var out := Run(e0, history);
            Dashboard.MirrorsEngine(Dashboard.Depths(map[], map[]).Replay(out.updates), out.engine)
  {
    assert Coherent(e0);
    Settlement.RunPrints(e0, history);
    Dashboard.EmptyMirrors(e0);
    Dashboard.RunReplays(e0, history, Dashboard.Depths(map[], map[]));
  }
}
