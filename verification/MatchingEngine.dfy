/** The matching engine of one asset: BidAsk over two order books and shared pools. */
module MatchingEngine {
  import opened Domain
  import opened Reference
  import opened Priority
  import opened Seqs
  import opened Books
  import opened Words
  import opened PriceLevels
  import opened OrderBooks
  import opened Pools
  import opened Sealing
  import Settlement

  // ---------------------------------------------------------------- the untouched side

  lemma {:induction false} OtherChained(nodes: seq<OrderNode>, nodes': seq<OrderNode>, own: seq<int>, other: seq<int>,
                                        book: seq<Order>)
    requires Chained(nodes, other, book) && NodesKept(nodes, nodes', own)
    requires forall i :: 0 <= i < |other| ==> other[i] !in own
    ensures Chained(nodes', other, book)
  {
    forall i {:trigger Placed(nodes', other, book, i)} | 0 <= i < |book| ensures Placed(nodes', other, book, i) {
      assert Placed(nodes, other, book, i);
    }
  }

  lemma {:induction false} OtherLevels(levels: seq<PriceLevel>, levels': seq<PriceLevel>, l: int, fast: map<int, int>,
                                       ptrs: seq<int>, book: seq<Order>)
    requires LevelsOk(levels, fast, ptrs, book) && OnlyLevel(levels, levels', l) && !Uses(fast, l)
    ensures LevelsOk(levels', fast, ptrs, book)
  {
    forall i {:trigger Ends(levels', fast, ptrs, book, i)} | 0 <= i < |book|
      ensures Ends(levels', fast, ptrs, book, i)
    {
      assert Ends(levels, fast, ptrs, book, i);
    }
    forall p {:trigger Tallied(levels', fast, book, p)} ensures Tallied(levels', fast, book, p) {
      assert Tallied(levels, fast, book, p);
    }
  }

  /** A change confined to one side's nodes and one of its levels leaves the other side well formed. */
  lemma {:induction false} OtherKept(nodes: seq<OrderNode>, nodes': seq<OrderNode>, free: seq<int>, own: seq<int>,
                                     levels: seq<PriceLevel>, levels': seq<PriceLevel>, l: int,
                                     fast: map<int, int>, other: seq<int>, book: seq<Order>)
    requires Chained(nodes, other, book) && LevelsOk(levels, fast, other, book)
    requires NodesKept(nodes, nodes', own) && NodesOnce(|nodes'|, free, own, other)
    requires OnlyLevel(levels, levels', l) && !Uses(fast, l)
    ensures Chained(nodes', other, book) && LevelsOk(levels', fast, other, book)
  {
    forall i | 0 <= i < |other| ensures other[i] !in own {
      assert Placed(nodes, other, book, i) && other[i] in other;
      assert Once(free, own, other, other[i]);
    }
    OtherChained(nodes, nodes', own, other, book);
    OtherLevels(levels, levels', l, fast, other, book);
  }

  // ---------------------------------------------------------------- the two sides together

  /** Both sides are well formed, every node and level is owned once, and the id map holds exactly the
      resting orders. */
  ghost predicate Sound(store: Store, own: OrderBook, other: OrderBook)
    reads store, own, other, own.bestPrices, other.bestPrices, store.ids, own.prices, other.prices
  {
    && own.store == store && other.store == store && own != other && own.bestPrices != other.bestPrices
    && own.prices != other.prices && store.ids != own.prices && store.ids != other.prices
    && own.side == other.side.Opposite()
    && own.Valid() && other.Valid()
    && NodesOnce(|store.nodes|, store.nodeFree, own.ptrs, other.ptrs)
    && LevelsOnce(store.levels, store.levelFree, own.fastMap, other.fastMap)
    && IdsOk(store.orderMap, own.ptrs, own.book, other.ptrs, other.book)
    && store.ids.Ready() && store.ids.contents == store.orderMap && |store.nodes| < store.ids.Capacity()
  }

  /** `Sound`, folded. */
  ghost predicate Sealed(store: Store, own: OrderBook, other: OrderBook)
    reads store, own, other, own.bestPrices, other.bestPrices, store.ids, own.prices, other.prices
  {
    forall k {:trigger Key(Lock.Sides, k)} :: Key(Lock.Sides, k) ==> Sound(store, own, other)
  }

  lemma {:induction false} Unseal(store: Store, own: OrderBook, other: OrderBook)
    requires Sealed(store, own, other)
    ensures Sound(store, own, other)
  {
    assert Key(Lock.Sides, 0);
  }

  /** `Coherent`, folded. */
  ghost predicate SealedCoherent(e: Engine) {
    forall k {:trigger Key(Lock.Coherence, k)} :: Key(Lock.Coherence, k) ==> Coherent(e)
  }

  lemma {:induction false} UnsealCoherent(e: Engine)
    requires SealedCoherent(e)
    ensures Coherent(e)
  {
    assert Key(Lock.Coherence, 0);
  }

  lemma {:induction false} RestSealed(e: Engine, o: Order)
    requires SealedCoherent(e) && Clear(e, o)
    requires FreshId(e.bids, o.id) && FreshId(e.asks, o.id)
    ensures SealedCoherent(Rest(e, o).engine)
  {
    UnsealCoherent(e);
    RestKeepsCoherent(e, o);
  }

  lemma {:induction false} SealedSwap(store: Store, own: OrderBook, other: OrderBook)
    requires Sealed(store, own, other)
    ensures Sealed(store, other, own)
  {
    Unseal(store, own, other);
    NodesOnceSwap(|store.nodes|, store.nodeFree, own.ptrs, other.ptrs);
    LevelsOnceSwap(store.levels, store.levelFree, own.fastMap, other.fastMap);
  }

  lemma {:induction false} PtrsInRange(nodes: seq<OrderNode>, ptrs: seq<int>, book: seq<Order>)
    requires Chained(nodes, ptrs, book)
    ensures InRange(ptrs, |nodes|) && NoRepeats(ptrs) && |ptrs| == |book|
  {
    forall i | 0 <= i < |ptrs| ensures 0 <= ptrs[i] < |nodes| { assert Placed(nodes, ptrs, book, i); }
  }

  lemma {:induction false} FreeLevelsAvailable(store: Store, own: OrderBook, other: OrderBook)
    requires Sound(store, own, other)
    ensures own.LevelsAvailable()
  {
    forall i | 0 <= i < |store.levelFree|
      ensures var x := store.levelFree[i];
              && 0 <= x < |store.levels| && store.levels[x].head == NULL
              && forall p :: p in own.fastMap ==> own.fastMap[p] != x
    {
      var x := store.levelFree[i];
      assert x in store.levelFree;
      assert LevelOnce(store.levels, store.levelFree, own.fastMap, other.fastMap, x);
    }
  }

  /** There is room for a new level at this price in the level pool and in the skip list, and the hash map
      takes the price. */
  ghost predicate HasRoom(store: Store, book: OrderBook, price: int)
    reads store, book, book.bestPrices, book.prices
  {
    price in book.fastMap || (store.levelFree != [] && book.bestPrices.free != [] && book.prices.Takes(price))
  }

  /** Acquire a node, register its id and put it in its side's book; with no node free, do nothing. */
  method Place(store: Store, own: OrderBook, ghost other: OrderBook, o: Order) returns (n: int, l: int)
    requires Sealed(store, own, other) && own.store == store && own != other && o.side == own.side
    requires FreshId(own.book, o.id) && FreshId(other.book, o.id)
    requires own.InPriceRange(o.price) && HasRoom(store, own, o.price) && store.ids.Takes(o.id)
    modifies store, own, own.bestPrices, store.ids, own.prices
    ensures Sealed(store, own, other)
    ensures |store.nodes| == old(|store.nodes|)
    ensures n == NULL <==> old(|own.book| + |other.book|) >= |store.nodes|
    ensures n == NULL ==> own.book == old(own.book)
    ensures n != NULL ==>
              && own.book == Insert(own.side, old(own.book), o)
              && 0 <= l < |store.levels| && store.levels[l].price == o.price
              && Congruent(store.levels[l].total, Depth(own.book, o.price))
  {
    l := NULL;
    Unseal(store, own, other);
    FreeLevelsAvailable(store, own, other);
    ghost var free := store.nodeFree;
    n := store.AcquireNode();
    if free != [] { assert free[|free| - 1] == n; }
    if n == NULL {
      return;
    }
    assert free == store.nodeFree + [n];
    l := PlaceNode(store, own, other, n, o);
  }

  /** A change to a node that is on neither side leaves both chained. */
  lemma {:induction false} SetOrderKeeps(nodes: seq<OrderNode>, n: int, o: Order, ptrs: seq<int>, book: seq<Order>)
    requires Chained(nodes, ptrs, book) && 0 <= n < |nodes| && n !in ptrs
    ensures Chained(nodes[n := nodes[n].(order := o)], ptrs, book)
  {
    OtherChained(nodes, nodes[n := nodes[n].(order := o)], [n], ptrs, book);
  }

  /** Write the order into its node and enter its id. */
  method Register(store: Store, ghost own: OrderBook, ghost other: OrderBook, n: int, o: Order)
    requires own.store == store && other.store == store && own.Valid() && other.Valid()
    requires store.ids != own.prices && store.ids != other.prices
    requires 0 <= n < |store.nodes| && n !in own.ptrs && n !in other.ptrs
    requires store.ids.Ready() && store.ids.contents == store.orderMap
    requires o.id !in store.orderMap && store.ids.Takes(o.id)
    modifies store`nodes, store`orderMap, store.ids
    ensures own.Valid() && other.Valid()
    ensures store.nodes == old(store.nodes)[n := old(store.nodes)[n].(order := o)]
    ensures store.orderMap == old(store.orderMap)[o.id := n]
    ensures store.ids.Ready() && store.ids.contents == store.orderMap
  {
    SetOrderKeeps(store.nodes, n, o, own.ptrs, own.book);
    SetOrderKeeps(store.nodes, n, o, other.ptrs, other.book);
    store.nodes := store.nodes[n := store.nodes[n].(order := o)];
    store.ids.Insert(o.id, n);
    store.orderMap := store.orderMap[o.id := n];
  }

  method PlaceNode(store: Store, own: OrderBook, ghost other: OrderBook, n: int, o: Order) returns (l: int)
    requires own.store == store && other.store == store && own != other && own.bestPrices != other.bestPrices
    requires own.prices != other.prices && store.ids != own.prices && store.ids != other.prices
    requires own.side == other.side.Opposite() && own.Valid() && other.Valid()
    requires store.ids.Ready() && store.ids.contents == store.orderMap && |store.nodes| < store.ids.Capacity()
    requires NodesOnce(|store.nodes|, store.nodeFree + [n], own.ptrs, other.ptrs)
    requires LevelsOnce(store.levels, store.levelFree, own.fastMap, other.fastMap)
    requires IdsOk(store.orderMap, own.ptrs, own.book, other.ptrs, other.book)
    requires own.LevelsAvailable() && o.side == own.side
    requires FreshId(own.book, o.id) && FreshId(other.book, o.id)
    requires own.InPriceRange(o.price) && HasRoom(store, own, o.price) && store.ids.Takes(o.id)
    modifies store, own, own.bestPrices, store.ids, own.prices
    ensures Sound(store, own, other)
    ensures |store.nodes| == old(|store.nodes|)
    ensures own.book == Insert(own.side, old(own.book), o)
    ensures 0 <= l < |store.levels| && store.levels[l].price == o.price
    ensures Congruent(store.levels[l].total, Depth(own.book, o.price))
  {
    ghost var k := Slot(own.side, own.book, o.price);
    PtrsInRange(store.nodes, own.ptrs, own.book);
    PtrsInRange(store.nodes, other.ptrs, other.book);
    TakeNode(|store.nodes|, store.nodeFree, n, own.ptrs, other.ptrs, k);
    AddId(store.orderMap, own.ptrs, own.book, other.ptrs, other.book, k, n, o);
    Register(store, own, other, n, o);
    l := Enter(store, own, other, n, o);
  }

  /** Put the node into its side's book; the other side is untouched. */
  method Enter(store: Store, own: OrderBook, ghost other: OrderBook, n: int, o: Order) returns (l: int)
    requires own.store == store && other.store == store && own != other && own.bestPrices != other.bestPrices
    requires own.prices != other.prices && own.Valid() && other.Valid()
    requires 0 <= n < |store.nodes| && n !in own.ptrs && store.nodes[n].order == o && o.side == own.side
    requires Slot(own.side, own.book, o.price) <= |own.ptrs|
    requires NodesOnce(|store.nodes|, store.nodeFree, Spliced(own.ptrs, Slot(own.side, own.book, o.price), n),
                       other.ptrs)
    requires LevelsOnce(store.levels, store.levelFree, own.fastMap, other.fastMap)
    requires own.LevelsAvailable() && own.InPriceRange(o.price) && HasRoom(store, own, o.price)
    modifies own, store`nodes, store`levels, store`levelFree, store`nodeFree, own.bestPrices, own.prices
    ensures own.Valid() && other.Valid() && |store.nodes| == old(|store.nodes|)
    ensures own.book == Insert(own.side, old(own.book), o)
    ensures own.ptrs == Spliced(old(own.ptrs), Slot(own.side, old(own.book), o.price), n)
    ensures NodesOnce(|store.nodes|, store.nodeFree, own.ptrs, other.ptrs)
    ensures LevelsOnce(store.levels, store.levelFree, own.fastMap, other.fastMap)
    ensures 0 <= l < |store.levels| && store.levels[l].price == o.price
    ensures Congruent(store.levels[l].total, Depth(own.book, o.price))
  {
    ghost var levels, free, fast, nodes := store.levels, store.levelFree, own.fastMap, store.nodes;
    l := own.AddLimitOrder(n);
    LevelsAfterPlace(levels, store.levels, free, store.levelFree, fast, own.fastMap, other.fastMap, o.price, l);
    OtherKept(nodes, store.nodes, store.nodeFree, own.ptrs, levels, store.levels, l, other.fastMap, other.ptrs,
              other.book);
  }

  lemma {:induction false} LevelsAfterPlace(levels: seq<PriceLevel>, levels': seq<PriceLevel>, free: seq<int>,
                                            free': seq<int>, own: map<int, int>, own': map<int, int>,
                                            other: map<int, int>, p: int, l: int)
    requires LevelsOnce(levels, free, own, other) && OnlyLevel(levels, levels', l) && 0 <= l < |levels|
    requires p in own ==> own' == own && free' == free && own[p] == l
    requires p !in own ==> own' == own[p := l] && free == free' + [l]
    ensures LevelsOnce(levels', free', own', other) && !Uses(other, l)
  {
    if p in own {
      assert Uses(own, l);
      ChangeLevel(levels, levels', free, own, other, l);
    } else {
      TakeLevel(levels, levels', free', l, own, other, p);
      assert own'[p] == l && Uses(own', l);
    }
    assert LevelOnce(levels', free', own', other, l);
  }

  lemma {:induction false} LevelsAfterWithdraw(levels: seq<PriceLevel>, levels': seq<PriceLevel>, free: seq<int>,
                                               free': seq<int>, own: map<int, int>, own': map<int, int>,
                                               other: map<int, int>, book: seq<Order>, p: int)
    requires LevelsOnce(levels, free, own, other) && p in own && 0 <= own[p] < |levels|
             && OnlyLevel(levels, levels', own[p])
    requires forall q {:trigger Tallied(levels, own, book, q)} :: Tallied(levels, own, book, q)
    requires || (own' == own && free' == free)
             || (own' == own - {p} && free' == free + [own[p]] && levels'[own[p]].head == NULL)
    ensures LevelsOnce(levels', free', own', other) && !Uses(other, own[p])
  {
    var l := own[p];
    assert Uses(own, l);
    assert LevelOnce(levels, free, own, other, l);
    if own' == own && free' == free {
      ChangeLevel(levels, levels', free, own, other, l);
    } else {
      forall q | q in own && own[q] == l ensures q == p {
        assert Tallied(levels, own, book, q) && Tallied(levels, own, book, p);
      }
      ReturnLevel(levels, levels', free, own, other, p);
    }
  }

  predicate NoneAt(book: seq<Order>, p: int) { forall i :: 0 <= i < |book| ==> book[i].price != p }

  lemma {:induction false} NoLevelNoOrders(levels: seq<PriceLevel>, fast: map<int, int>, ptrs: seq<int>,
                                           book: seq<Order>, p: int)
    requires LevelsOk(levels, fast, ptrs, book) && p !in fast
    ensures NoneAt(book, p)
  {
    forall i | 0 <= i < |book| ensures book[i].price != p { assert Ends(levels, fast, ptrs, book, i); }
  }

  /** There are no fewer free levels than there were, and no home bucket of the id map has lost its room. */
  twostate predicate RoomKept(store: Store)
    reads store, store.ids
  {
    && |store.levelFree| >= old(|store.levelFree|)
    && old(store.ids.HomesWithRoom()) <= store.ids.HomesWithRoom()
  }

  /** Delete the order at position `k` of a side. */
  method Withdraw(store: Store, own: OrderBook, ghost other: OrderBook, n: int, ghost k: nat) returns (l: int)
    requires Sealed(store, own, other) && own.store == store && own != other
    requires k < |own.ptrs| && own.ptrs[k] == n && k < |own.book|
    requires DistinctIds(own.book) && FreshId(other.book, own.book[k].id)
    modifies store, own, own.bestPrices, store.ids, own.prices
    ensures Sealed(store, own, other)
    ensures |store.nodes| == old(|store.nodes|)
    ensures own.book == Without(old(own.book), k) && own.ptrs == Cut(old(own.ptrs), k)
    ensures own.fastMap == if l == NULL then old(own.fastMap) - {old(own.book)[k].price} else old(own.fastMap)
    ensures RoomKept(store)
    ensures l == NULL ==> NoneAt(own.book, old(own.book)[k].price)
    ensures l != NULL ==>
              0 <= l < |store.levels| && Congruent(store.levels[l].total, Depth(own.book, old(own.book)[k].price))
  {
    Unseal(store, own, other);
    PtrsInRange(store.nodes, own.ptrs, own.book);
    PtrsInRange(store.nodes, other.ptrs, other.book);
    assert Ends(store.levels, own.fastMap, own.ptrs, own.book, k);
    ReturnNode(|store.nodes|, store.nodeFree, own.ptrs, other.ptrs, k);
    DropId(store.orderMap, own.ptrs, own.book, other.ptrs, other.book, k);
    ghost var levels, free, fast, nodes, book := store.levels, store.levelFree, own.fastMap, store.nodes, own.book;
    assert own.fastMap != map[] && |own.fastMap| > 0;
    assert |own.fastMap| <= |store.levels| && |store.orderMap| <= |store.nodes|;
    l := own.DeleteOrder(n, k);
    LevelsAfterWithdraw(levels, store.levels, free, store.levelFree, fast, own.fastMap, other.fastMap, book,
                        book[k].price);
    OtherKept(nodes, store.nodes, store.nodeFree, own.ptrs, levels, store.levels, fast[book[k].price], other.fastMap,
              other.ptrs, other.book);
    if l == NULL { NoLevelNoOrders(store.levels, own.fastMap, own.ptrs, own.book, book[k].price); }
  }

  /** One match's writes to the maker's side. */
  method TradeFirst(store: Store, own: OrderBook, ghost other: OrderBook, l: int, n: int, traded: uint32)
    requires Sealed(store, own, other) && own.store == store && own != other && own.book != [] && own.ptrs != []
    requires traded <= own.book[0].amount && n == own.ptrs[0]
    requires own.book[0].price in own.fastMap && l == own.fastMap[own.book[0].price]
    modifies store`nodes, store`levels, own`book
    ensures Sealed(store, own, other)
    ensures |store.nodes| == old(|store.nodes|)
    ensures own.book == old(own.book)[0 := old(own.book)[0].(amount := old(own.book)[0].amount - traded)]
    ensures 0 <= l < |store.levels| && store.levels[l].price == own.book[0].price
    ensures Congruent(store.levels[l].total, Depth(own.book, own.book[0].price))
  {
    Unseal(store, own, other);
    ghost var nodes, levels, book := store.nodes, store.levels, own.book;
    ReducedIds(store.orderMap, own.ptrs, book, other.ptrs, other.book, book[0].(amount := book[0].amount - traded));
    own.ReduceFirstOrder(l, n, traded);
    LevelsAfterPlace(levels, store.levels, store.levelFree, store.levelFree, own.fastMap, own.fastMap, other.fastMap,
                     book[0].price, l);
    OtherKept(nodes, store.nodes, store.nodeFree, own.ptrs, levels, store.levels, l, other.fastMap, other.ptrs,
              other.book);
  }

  lemma {:induction false} ReducedIds(ids: map<int, int>, ptrs: seq<int>, book: seq<Order>, ptrs2: seq<int>,
                                      book2: seq<Order>, m: Order)
    requires IdsOk(ids, ptrs, book, ptrs2, book2) && book != [] && m.id == book[0].id
    ensures IdsOk(ids, ptrs, book[0 := m], ptrs2, book2)
  {
    forall id | Has(book, id) ensures Has(book[0 := m], id) {
      var i :| 0 <= i < |book| && book[i].id == id;
      assert book[0 := m][i].id == id;
    }
  }

  lemma {:induction false} AllFree(size: nat, free: seq<int>)
    requires |free| == size && forall i :: 0 <= i < size ==> free[i] == i
    ensures NodesOnce(size, free, [], [])
  {
    forall x {:trigger Once(free, [], [], x)} | 0 <= x < size ensures Once(free, [], [], x) { assert free[x] == x; }
  }

  lemma {:induction false} AllLevelsFree(levels: seq<PriceLevel>, free: seq<int>)
    requires |free| == |levels| && forall i :: 0 <= i < |free| ==> free[i] == i && levels[i].head == NULL
    ensures LevelsOnce(levels, free, map[], map[])
  {
    forall x {:trigger LevelOnce(levels, free, map[], map[], x)} | 0 <= x < |levels|
      ensures LevelOnce(levels, free, map[], map[], x)
    {
      assert free[x] == x;
    }
  }

  /** Two empty books over one fresh store. */
  method EmptySides(nodeCount: nat, levelCount: nat, idBuckets: nat, buckets: nat, lowest: int, highest: int,
                    maxLevel: nat, skipNodes: nat, blank: Order)
    returns (s: Store, b: OrderBook, a: OrderBook)
    requires lowest < highest && skipNodes >= 2 && nodeCount < 16 * idBuckets && levelCount < 16 * buckets
    ensures Sealed(s, b, a) && b.store == s && a.store == s && a != b && a.bestPrices != b.bestPrices
    ensures a.prices != b.prices && s.ids != a.prices && s.ids != b.prices
    ensures b.side == Buy && a.side == Sell && b.book == [] && a.book == [] && |s.nodes| == nodeCount
    ensures b.bestPrices.lowest == a.bestPrices.lowest == lowest
            && b.bestPrices.highest == a.bestPrices.highest == highest
  {
    s := new Store(nodeCount, levelCount, idBuckets, blank);
    b := new OrderBook(Buy, s, lowest, highest, maxLevel, skipNodes, buckets);
    a := new OrderBook(Sell, s, lowest, highest, maxLevel, skipNodes, buckets);
    AllFree(nodeCount, s.nodeFree);
    AllLevelsFree(s.levels, s.levelFree);
  }

  /** The first order in priority and its level, or null. */
  method BestOffer(store: Store, own: OrderBook, ghost other: OrderBook) returns (l: int, n: int)
    requires Sealed(store, own, other) && own.store == store
    ensures |own.ptrs| == |own.book|
    ensures own.book == [] ==> l == NULL
    ensures own.book != [] ==>
              && own.book[0].price in own.fastMap && l == own.fastMap[own.book[0].price] && 0 <= l < |store.levels|
              && store.levels[l].price == own.book[0].price
              && n == own.ptrs[0] && 0 <= n < |store.nodes| && store.nodes[n].order == own.book[0]
  {
    Unseal(store, own, other);
    l := own.GetBestLevel();
    n := NULL;
    if l != NULL {
      assert Placed(store.nodes, own.ptrs, own.book, 0);
      n := store.levels[l].head;
    }
  }

  /** Look an id up in the id map: it is there exactly when an order with it rests on one of the sides. */
  method FindOrder(store: Store, id: uint32, ghost own: OrderBook, ghost other: OrderBook)
    returns (found: bool, n: int, ghost mine: bool, ghost k: nat)
    requires Sealed(store, own, other)
    ensures !found ==> FreshId(own.book, id) && FreshId(other.book, id)
    ensures found ==> 0 <= n < |store.nodes| && store.nodes[n].order.id == id
    ensures found && mine ==>
              k < |own.book| && k < |own.ptrs| && own.ptrs[k] == n && store.nodes[n].order == own.book[k]
    ensures found && !mine ==> k < |other.book| && store.nodes[n].order == other.book[k]
  {
    Unseal(store, own, other);
    mine, k := true, 0;
    found, n := store.ids.Lookup(id);
    if found {
      if Has(own.book, id) {
        ghost var i :| 0 <= i < |own.book| && own.book[i].id == id;
        k := i;
        assert Placed(store.nodes, own.ptrs, own.book, k);
      } else {
        ghost var i :| 0 <= i < |other.book| && other.book[i].id == id;
        mine, k := false, i;
        assert Placed(store.nodes, other.ptrs, other.book, k);
      }
    }
  }

  /** The order a cancel request may cancel: found under its id and owned by the requesting client. */
  method Target(store: Store, ghost own: OrderBook, ghost other: OrderBook, o: Order, ghost e: Engine)
    returns (accepted: bool, n: int, t: Order, ghost k: nat)
    requires Sealed(store, own, other) && SealedCoherent(e) && o.action.Cancel? && Admissible(e, Input(o, true))
    requires e.Book(o.side) == own.book && e.Book(o.side.Opposite()) == other.book
    ensures k == Find(own.book, o.amount)
    ensures !accepted ==> k == |own.book| || own.book[k].client != o.client
    ensures accepted ==>
              && k < |own.book| && k < |own.ptrs| && own.ptrs[k] == n
              && t == own.book[k] && t.client == o.client && t.side == o.side
  {
    var found, m, mine, at := FindOrder(store, o.amount, own, other);
    CancelTarget(e, o, found, mine, at);
    k := Find(own.book, o.amount);
    n, t := m, o;
    accepted := found && store.nodes[m].order.client == o.client;
    if accepted { t := store.nodes[m].order; }
  }

  /** With distinct ids an order is found where it stands, and an id resting on one side is not on the other. */
  lemma {:induction false} FindDistinct(e: Engine, side: Side, k: nat)
    requires Coherent(e) && k < |e.Book(side)|
    ensures Find(e.Book(side), e.Book(side)[k].id) == k
    ensures DistinctIds(e.Book(side)) && FreshId(e.Book(side.Opposite()), e.Book(side)[k].id)
  {
    var book := e.Book(side);
    assert forall i :: 0 <= i < k ==> book[i].id != book[k].id;
  }

  lemma {:induction false} FindNone(book: seq<Order>, id: uint32)
    requires FreshId(book, id)
    ensures Find(book, id) == |book|
  {
  }

  lemma {:induction false} CancelSealed(e: Engine, o: Order)
    requires SealedCoherent(e)
    ensures SealedCoherent(CancelOrder(e, o).engine)
  {
    UnsealCoherent(e);
    CancelKeepsCoherent(e, o);
  }

  /** The first order of a side and the node behind it at the same price. */
  method ReadFirst(store: Store, own: OrderBook, ghost other: OrderBook, n: int) returns (order: Order, next: int)
    requires Sealed(store, own, other) && own.store == store && own.ptrs != [] && n == own.ptrs[0]
    ensures own.book != [] && |own.ptrs| == |own.book| && order == own.book[0]
    ensures next == if SamePrice(own.book, 0, 1) then own.ptrs[1] else NULL
  {
    Unseal(store, own, other);
    assert Placed(store.nodes, own.ptrs, own.book, 0);
    order := store.nodes[n].order;
    next := store.nodes[n].next;
  }

  /** Reducing a side's first order, and dropping it once it is used up, keeps the engine coherent. */
  lemma {:induction false} ReduceSealed(e: Engine, side: Side, traded: uint32)
    requires SealedCoherent(e) && e.Book(side) != [] && traded <= e.Book(side)[0].amount
    ensures var book := e.Book(side);
            && SealedCoherent(e.WithBook(side, book[0 := book[0].(amount := book[0].amount - traded)]))
            && SealedCoherent(e.WithBook(side, Without(book[0 := book[0].(amount := book[0].amount - traded)], 0)))
  {
    UnsealCoherent(e);
    var book := e.Book(side);
    var book' := book[0 := book[0].(amount := book[0].amount - traded)];
    ShrinkKeepsCoherent(e, side, book', 0, 0);
    ShrinkKeepsCoherent(e, side, Without(book', 0), 0, 1);
  }

  /** The book after one match, by way of the maker's reduced order. */
  lemma {:induction false} AfterMatchSteps(o: Order, book: seq<Order>)
    requires book != []
    ensures var m := MakerLeft(o, book[0]);
            var book' := book[0 := m];
            && AfterMatch(o, book) == (if m.amount == 0 then Without(book', 0) else book')
            && Depth(AfterMatch(o, book), m.price) == Depth(book', m.price)
  {
    var m := MakerLeft(o, book[0]);
    var book' := book[0 := m];
    assert book' == [m] + book[1..];
    assert Without(book', 0) == book[1..];
    assert book'[1..] == book[1..];
  }

  /** The market price, which follows trades of a positive quantity, and the cached best price of the side walked. */
  datatype Quote = Quote(market: int, best: int)

  function Quoted(q: Quote, trades: seq<Trade>): Quote
    decreases trades
  {
    if trades == [] then q
    else
      var t := trades[0];
      Quoted(Quote(if t.quantity > 0 then t.maker.price else q.market, t.maker.price), trades[1..])
  }

  /** The market price is that of the last trade of a positive quantity, if there is one. */
  lemma {:induction false} MarketIsLastTrade(q: Quote, trades: seq<Trade>, k: nat)
    requires k <= |trades| && forall i :: k <= i < |trades| ==> trades[i].quantity == 0
    requires k > 0 ==> trades[k - 1].quantity > 0
    ensures Quoted(q, trades).market == if k == 0 then q.market else trades[k - 1].maker.price
    decreases trades
  {
    if trades != [] {
      var t := trades[0];
      MarketIsLastTrade(Quote(if t.quantity > 0 then t.maker.price else q.market, t.maker.price), trades[1..],
                        if k == 0 then 0 else k - 1);
    }
  }

  /** The cached price is that of the last trade, if there is one. */
  lemma {:induction false} BestIsLastTrade(q: Quote, trades: seq<Trade>)
    ensures Quoted(q, trades).best == if trades == [] then q.best else trades[|trades| - 1].maker.price
    decreases trades
  {
    if trades != [] {
      var t := trades[0];
      BestIsLastTrade(Quote(if t.quantity > 0 then t.maker.price else q.market, t.maker.price), trades[1..]);
    }
  }

  function MarketAfter(p: int, trades: seq<Trade>): int { Quoted(Quote(p, 0), trades).market }

  lemma {:induction false} MarketAlone(p: int, best: int, trades: seq<Trade>)
    ensures Quoted(Quote(p, best), trades).market == MarketAfter(p, trades)
    decreases trades
  {
    if trades != [] {
      var t := trades[0];
      var p' := if t.quantity > 0 then t.maker.price else p;
      MarketAlone(p', t.maker.price, trades[1..]);
    }
  }

  /** The cached best prices. */
  datatype Caches = Caches(ask: int, bid: int)

  /** A resting order can only improve its side's cached price. */
  function CachesAfterRest(c: Caches, e: Engine, o: Order): Caches {
    if e.Resting() >= e.capacity then c
    else if o.side.Buy? then c.(bid := if o.price > c.bid then o.price else c.bid)
    else c.(ask := if o.price < c.ask then o.price else c.ask)
  }

  /** A walk leaves the opposite side's cached price at the best one left if the order was not used up, otherwise at
      the last one traded at; the remainder then rests. */
  function CachesAfterFill(c: Caches, e: Engine, o: Order): Caches {
    var opp := o.side.Opposite();
    var s := Sweep(e.asset, o, e.Book(opp));
    var best := if s.rest > 0 && s.book != [] then s.book[0].price
                else Quoted(Quote(0, if opp.Sell? then c.ask else c.bid), s.trades).best;
    var c1 := if opp.Sell? then c.(ask := best) else c.(bid := best);
    if s.rest > 0 && o.kind.Limit? then CachesAfterRest(c1, e.WithBook(opp, s.book), o) else c1
  }

  function CachesAfter(c: Caches, e: Engine, o: Order): Caches {
    if o.action.Cancel? then c
    else if o.kind.Market? || (if o.side.Buy? then o.price >= c.ask else o.price <= c.bid) then CachesAfterFill(c, e, o)
    else CachesAfterRest(c, e, o)
  }

  lemma {:induction false} BestAlone(p: int, p': int, best: int, trades: seq<Trade>)
    ensures Quoted(Quote(p, best), trades).best == Quoted(Quote(p', best), trades).best
  {
    BestIsLastTrade(Quote(p, best), trades);
    BestIsLastTrade(Quote(p', best), trades);
  }

  /** A walk of `order` over `book0`, begun with the streams `rs0` and `us0` and the quote `q0`, has got to
      `o` and `book` with the streams `rs` and `us` and the quote `q`, and has paid `spent`: what is left of it
      completes the reference sweep. */
  ghost predicate Walked(asset: nat, order: Order, book0: seq<Order>, rs0: seq<Report>, us0: seq<Update>, q0: Quote,
                         o: Order, book: seq<Order>, rs: seq<Report>, us: seq<Update>, q: Quote, spent: int)
  {
    var s, r := Sweep(asset, order, book0), Sweep(asset, o, book);
    && o == order.(amount := o.amount)
    && rs + r.reports == rs0 + s.reports && us + r.updates == us0 + s.updates
    && r.rest == s.rest && r.book == s.book
    && Quoted(q, r.trades) == Quoted(q0, s.trades)
    && spent + Spent(order.side, r.trades) == Spent(order.side, s.trades)
  }

  /** `Walked`, folded. */
  ghost predicate SealedWalk(asset: nat, order: Order, book0: seq<Order>, rs0: seq<Report>, us0: seq<Update>, q0: Quote,
                             o: Order, book: seq<Order>, rs: seq<Report>, us: seq<Update>, q: Quote, spent: int)
  {
    && o == order.(amount := o.amount)
    && forall k {:trigger Key(Lock.Sweeping, k)} :: Key(Lock.Sweeping, k) ==>
         Walked(asset, order, book0, rs0, us0, q0, o, book, rs, us, q, spent)
  }

  lemma {:induction false} WalkStart(asset: nat, order: Order, book0: seq<Order>, rs0: seq<Report>, us0: seq<Update>,
                                     q0: Quote)
    ensures SealedWalk(asset, order, book0, rs0, us0, q0, order, book0, rs0, us0, q0, 0)
  {
  }

  lemma {:induction false} WalkMatch(asset: nat, order: Order, book0: seq<Order>, rs0: seq<Report>, us0: seq<Update>,
                                     q0: Quote, o: Order, book: seq<Order>, rs: seq<Report>, us: seq<Update>, q: Quote,
                                     spent: int)
    requires SealedWalk(asset, order, book0, rs0, us0, q0, o, book, rs, us, q, spent) && !Done(o, book)
    ensures SealedWalk(asset, order, book0, rs0, us0, q0, TakerLeft(o, book[0]), AfterMatch(o, book),
                       rs + MatchReports(asset, o, book[0]),
                       us + [DepthUpdate(o.side.Opposite(), AfterMatch(o, book), book[0].price)],
                       Quote(if Min(o.amount, book[0].amount) > 0 then book[0].price else q.market, book[0].price),
                       spent + Value(o.side, Min(o.amount, book[0].amount), book[0].price))
  {
    assert Key(Lock.Sweeping, 0);
    var o', book' := TakerLeft(o, book[0]), AfterMatch(o, book);
    var r := Sweep(asset, o', book');
    var mr, mu := MatchReports(asset, o, book[0]), [DepthUpdate(o.side.Opposite(), book', book[0].price)];
    SweepUnfold(asset, o, book);
    assert Sweep(asset, o, book).trades[1..] == r.trades;
    Reassociate(rs, mr, r.reports);
    Reassociate(us, mu, r.updates);
    assert Walked(asset, order, book0, rs0, us0, q0, o', book', rs + mr, us + mu,
                  Quote(if Min(o.amount, book[0].amount) > 0 then book[0].price else q.market, book[0].price),
                  spent + Value(o.side, Min(o.amount, book[0].amount), book[0].price));
  }

  /** A finished walk accounts for the whole sweep. */
  lemma {:induction false} WalkDone(asset: nat, order: Order, book0: seq<Order>, rs0: seq<Report>, us0: seq<Update>,
                                    q0: Quote, o: Order, book: seq<Order>, rs: seq<Report>, us: seq<Update>, q: Quote,
                                    spent: int)
    requires SealedWalk(asset, order, book0, rs0, us0, q0, o, book, rs, us, q, spent) && Done(o, book)
    ensures var s := Sweep(asset, order, book0);
            && rs == rs0 + s.reports && us == us0 + s.updates && s.rest == o.amount && s.book == book
            && q == Quoted(q0, s.trades) && Spent(order.side, s.trades) == spent
  {
    assert Key(Lock.Sweeping, 0);
    assert rs + [] == rs && us + [] == us;
  }

  lemma {:induction false} MatchShrinks(o: Order, book: seq<Order>)
    requires book != [] && o.amount > 0
    ensures TakerLeft(o, book[0]).amount + |AfterMatch(o, book)| < o.amount + |book|
    ensures o.amount - TakerLeft(o, book[0]).amount == Min(o.amount, book[0].amount)
  {
  }

  /** After a walk that leaves something over, nothing left in the opposite book crosses the order. */
  lemma {:induction false} ClearAfterWalk(e: Engine, order: Order)
    requires SealedCoherent(e)
    ensures var s := Sweep(e.asset, order, e.Book(order.side.Opposite()));
            s.rest > 0 ==> Clear(e.WithBook(order.side.Opposite(), s.book), order)
  {
    UnsealCoherent(e);
    SweepKeepsCoherent(e, order);
  }

  lemma {:induction false} Reassociate<T>(a: seq<T>, b: seq<T>, c: seq<T>)
    ensures (a + b) + c == a + (b + c)
  {
  }

  predicate StillFresh(e: Engine, order: Order, book: seq<Order>) {
    FreshId(e.Book(order.side.Opposite()), order.id) ==> FreshId(book, order.id)
  }

  lemma {:induction false} FreshAfterWalk(e: Engine, order: Order)
    requires SealedCoherent(e)
    ensures StillFresh(e, order, Sweep(e.asset, order, e.Book(order.side.Opposite())).book)
  {
    UnsealCoherent(e);
    SweepKeepsBook(e.asset, order, e.Book(order.side.Opposite()));
  }

  lemma {:induction false} FirstIsBest(e: Engine, side: Side)
    requires SealedCoherent(e) && e.Book(side) != []
    ensures forall i :: 0 <= i < |e.Book(side)| ==>
              Rank(side, e.Book(side)[0].price) <= Rank(side, e.Book(side)[i].price)
  {
    UnsealCoherent(e);
  }

  // ---------------------------------------------------------------- the engine

  /** A message as it leaves the engine, with the channel's running 32-bit sequence number. */
  datatype Sequenced<T> = Sequenced(sequenceId: uint32, body: T)

  ghost predicate InSequence<T>(sent: seq<Sequenced<T>>, bodies: seq<T>, first: uint32, next: uint32) {
    && |sent| == |bodies|
    && (forall i :: 0 <= i < |sent| ==> sent[i] == Sequenced((first + i) % U32, bodies[i]))
    && next == (first + |sent|) % U32
  }

  /** `InSequence`, folded. */
  ghost predicate Numbered<T>(sent: seq<Sequenced<T>>, bodies: seq<T>, first: uint32, next: uint32) {
    forall k {:trigger Key(Lock.Stream, k)} :: Key(Lock.Stream, k) ==> InSequence(sent, bodies, first, next)
  }

  lemma {:induction false} SendNext<T>(sent: seq<Sequenced<T>>, bodies: seq<T>, first: uint32, next: uint32, x: T)
    requires Numbered(sent, bodies, first, next)
    ensures Numbered(sent + [Sequenced(next, x)], bodies + [x], first, (next + 1) % U32)
  {
    assert Key(Lock.Stream, 0);
  }

  lemma {:induction false} NothingSent<T>(first: uint32)
    ensures Numbered<T>([], [], first, first)
  {
  }

  lemma {:induction false} NothingRests(asset: nat, capacity: nat)
    ensures SealedCoherent(Engine(asset, capacity, [], []))
  {
  }

  /** No order of the side's book has a better price. */
  ghost predicate Bounds(side: Side, book: seq<Order>, bound: int) {
    forall i :: 0 <= i < |book| ==> Rank(side, bound) <= Rank(side, book[i].price)
  }

  class BidAsk {
    const asset: nat
    const store: Store
    const bid: OrderBook
    const ask: OrderBook
    const firstReport: uint32
    const firstUpdate: uint32
    var marketPrice: int
    var bestAskPrice: int
    var bestBidPrice: int
    var reportSequenceId: uint32
    var orderBookSequenceId: uint32
    var outgoingOrders: seq<Sequenced<Report>>
    var outgoingBook: seq<Sequenced<Update>>
    ghost var reports: seq<Report>
    ghost var updates: seq<Update>

    constructor (asset: nat, initialPrice: int, firstReport: uint32, firstUpdate: uint32, nodeCount: nat,
                 levelCount: nat, idBuckets: nat, buckets: nat, lowest: int, highest: int, maxLevel: nat,
                 skipNodes: nat, blank: Order)
      requires lowest < highest && skipNodes >= 2 && nodeCount < 16 * idBuckets && levelCount < 16 * buckets
      ensures Valid()
      ensures Abs() == Engine(asset, nodeCount, [], []) && reports == [] && updates == []
      ensures marketPrice == initialPrice && bestAskPrice == highest && bestBidPrice == lowest
    {
      this.asset, this.firstReport, this.firstUpdate := asset, firstReport, firstUpdate;
      var s, b, a := EmptySides(nodeCount, levelCount, idBuckets, buckets, lowest, highest, maxLevel, skipNodes, blank);
      store, bid, ask := s, b, a;
      marketPrice, bestAskPrice, bestBidPrice := initialPrice, highest, lowest;
      reportSequenceId, orderBookSequenceId := firstReport, firstUpdate;
      outgoingOrders, outgoingBook, reports, updates := [], [], [], [];
      NothingSent<Report>(firstReport);
      NothingSent<Update>(firstUpdate);
      NothingRests(asset, nodeCount);
    }

    ghost function Abs(): Engine
      reads this, store, bid, ask
    {
      Engine(asset, |store.nodes|, bid.book, ask.book)
    }

    ghost function Cached(): Caches
      reads this
    {
      Caches(bestAskPrice, bestBidPrice)
    }

    /** The cached best prices may be stale but never on the wrong side: the cached ask is a lower bound
        of every ask, the cached bid an upper bound of every bid. */
    ghost predicate CachesBound()
      reads this, bid, ask
    {
      Bounds(Sell, ask.book, bestAskPrice) && Bounds(Buy, bid.book, bestBidPrice)
    }

    ghost predicate Sent()
      reads this
    {
      && Numbered(outgoingOrders, reports, firstReport, reportSequenceId)
      && Numbered(outgoingBook, updates, firstUpdate, orderBookSequenceId)
    }

    ghost predicate Valid()
      reads this, store, bid, ask, bid.bestPrices, ask.bestPrices, store.ids, bid.prices, ask.prices
    {
      && bid.side == Buy && ask.side == Sell
      && bid.bestPrices.lowest == ask.bestPrices.lowest && bid.bestPrices.highest == ask.bestPrices.highest
      && bid.store == store && ask.store == store && bid != ask && bid.bestPrices != ask.bestPrices
      && bid.prices != ask.prices && store.ids != bid.prices && store.ids != ask.prices
      && Sealed(store, bid, ask)
      && SealedCoherent(Abs())
      && CachesBound() && Sent()
    }

    /** Decided on the cached opposite best price; a market order always is. */
    predicate IsMarketable(o: Order)
      reads this
    {
      o.kind.Market? || (if o.side.Buy? then o.price >= bestAskPrice else o.price <= bestBidPrice)
    }

    method Emit(r: Report)
      requires Valid()
      modifies this`outgoingOrders, this`reportSequenceId, this`reports
      ensures Valid() && reports == old(reports) + [r]
    {
      SendNext(outgoingOrders, reports, firstReport, reportSequenceId, r);
      outgoingOrders := outgoingOrders + [Sequenced(reportSequenceId, r)];
      reportSequenceId := (reportSequenceId + 1) % U32;
      reports := reports + [r];
    }

    method Publish(u: Update)
      requires Valid()
      modifies this`outgoingBook, this`orderBookSequenceId, this`updates
      ensures Valid() && updates == old(updates) + [u]
    {
      SendNext(outgoingBook, updates, firstUpdate, orderBookSequenceId, u);
      outgoingBook := outgoingBook + [Sequenced(orderBookSequenceId, u)];
      orderBookSequenceId := (orderBookSequenceId + 1) % U32;
      updates := updates + [u];
    }

    /** An order that rests as it is: its id is not in use, its price lies between the sentinels, there is room
        for its level, and both hash maps take it. */
    ghost predicate Placeable(o: Order)
      reads this, store, bid, ask, bid.bestPrices, ask.bestPrices, store.ids, bid.prices, ask.prices
    {
      && FreshId(bid.book, o.id) && FreshId(ask.book, o.id)
      && bid.InPriceRange(o.price)
      && HasRoom(store, if o.side.Buy? then bid else ask, o.price)
      && store.ids.Takes(o.id)
    }

    /** Whether something of the order comes to rest. */
    ghost predicate Rests(o: Order)
      reads this, store, bid, ask
    {
      o.kind.Limit? && (IsMarketable(o) ==> Sweep(asset, o, Abs().Book(o.side.Opposite())).rest > 0)
    }

    /** An order the engine is handed: its id is not in use and, if something of it comes to rest, it is
        placeable. The deletions of a walk keep room in the id's home bucket but may undo a clear walk to it. */
    ghost predicate Acceptable(o: Order)
      reads this, store, bid, ask, bid.bestPrices, ask.bestPrices, store.ids, bid.prices, ask.prices
    {
      && FreshId(bid.book, o.id) && FreshId(ask.book, o.id)
      && (Rests(o) ==> Placeable(o) && (IsMarketable(o) ==> o.id in store.ids.HomesWithRoom()))
    }

    /** For a buy order that does not cross. */
    method AddBuyLimitOrder(o: Order)
      requires Valid() && Placeable(o) && Clear(Abs(), o) && o.side == Buy
      modifies this, store, bid, bid.bestPrices, store.ids, bid.prices
      ensures Valid() && marketPrice == old(marketPrice) && bestAskPrice == old(bestAskPrice)
      ensures bestBidPrice == if old(Abs().Resting()) < |store.nodes| && o.price > old(bestBidPrice) then o.price
                              else old(bestBidPrice)
      ensures var r := Rest(old(Abs()), o);
              Abs() == r.engine && reports == old(reports) + r.reports && updates == old(updates) + r.updates
    {
      RestSealed(Abs(), o);
      var n, l := PlaceBid(o);
      if n != NULL {
        Emit(AttemptReport(asset, o, o.amount * o.price, Added));
        Publish(Update(Buy, store.levels[l].price, store.levels[l].total % U32));
      }
    }

    /** For a sell order that does not cross. */
    method AddSellLimitOrder(o: Order)
      requires Valid() && Placeable(o) && Clear(Abs(), o) && o.side == Sell
      modifies this, store, ask, ask.bestPrices, store.ids, ask.prices
      ensures Valid() && marketPrice == old(marketPrice) && bestBidPrice == old(bestBidPrice)
      ensures bestAskPrice == if old(Abs().Resting()) < |store.nodes| && o.price < old(bestAskPrice) then o.price
                              else old(bestAskPrice)
      ensures var r := Rest(old(Abs()), o);
              Abs() == r.engine && reports == old(reports) + r.reports && updates == old(updates) + r.updates
    {
      RestSealed(Abs(), o);
      var n, l := PlaceAsk(o);
      if n != NULL {
        Emit(AttemptReport(asset, o, o.amount, Added));
        Publish(Update(Sell, store.levels[l].price, store.levels[l].total % U32));
      }
    }

    method AddLimitOrder(o: Order)
      requires Valid() && Placeable(o) && Clear(Abs(), o)
      modifies this, store, bid, ask, bid.bestPrices, ask.bestPrices, store.ids, bid.prices, ask.prices
      ensures Valid()
      ensures marketPrice == old(marketPrice) && Cached() == CachesAfterRest(old(Cached()), old(Abs()), o)
      ensures var r := Rest(old(Abs()), o);
              Abs() == r.engine && reports == old(reports) + r.reports && updates == old(updates) + r.updates
    {
      if o.side.Buy? {
        AddBuyLimitOrder(o);
      } else {
        AddSellLimitOrder(o);
      }
    }

    /** A cancel request: reject an unknown id or another client's, otherwise report what the order still
        locks, delete it and publish what is left at its price. */
    method CancelOrder(o: Order)
      requires Valid() && o.action.Cancel? && Admissible(Abs(), Input(o, true))
      modifies this, store, bid, ask, bid.bestPrices, ask.bestPrices, store.ids, bid.prices, ask.prices
      ensures Valid()
      ensures marketPrice == old(marketPrice)
      ensures bestAskPrice == old(bestAskPrice) && bestBidPrice == old(bestBidPrice)
      ensures var r := Reference.CancelOrder(old(Abs()), o);
              Abs() == r.engine && reports == old(reports) + r.reports && updates == old(updates) + r.updates
    {
      if o.side.Buy? {
        CancelBid(o);
      } else {
        CancelAsk(o);
      }
    }

    method CancelBid(o: Order)
      requires Valid() && o.action.Cancel? && o.side == Buy && Admissible(Abs(), Input(o, true))
      modifies this, store, bid, bid.bestPrices, store.ids, bid.prices
      ensures Valid()
      ensures marketPrice == old(marketPrice) && bestAskPrice == old(bestAskPrice) && bestBidPrice == old(bestBidPrice)
      ensures var r := Reference.CancelOrder(old(Abs()), o);
              Abs() == r.engine && reports == old(reports) + r.reports && updates == old(updates) + r.updates
    {
      CancelSealed(Abs(), o);
      var accepted, n, t, k := Target(store, bid, ask, o, Abs());
      if !accepted {
        Emit(RejectReport(o));
        return;
      }
      DeleteBid(n, t, k);
    }

    method DeleteBid(n: int, t: Order, ghost k: nat)
      requires Valid() && k < |bid.book| && k < |bid.ptrs| && bid.ptrs[k] == n && t == bid.book[k] && t.side == Buy
      requires SealedCoherent(Abs().WithBook(Buy, Without(bid.book, k)))
      modifies this, store, bid, bid.bestPrices, store.ids, bid.prices
      ensures Valid() && Abs() == old(Abs()).WithBook(Buy, Without(old(bid.book), k))
      ensures marketPrice == old(marketPrice) && bestAskPrice == old(bestAskPrice) && bestBidPrice == old(bestBidPrice)
      ensures reports == old(reports) + [AttemptReport(asset, t, Value(t.side, t.amount, t.price), Cancelled)]
      ensures updates == old(updates) + [DepthUpdate(Buy, Without(old(bid.book), k), t.price)]
    {
      Emit(AttemptReport(asset, t, t.amount * t.price, Cancelled));
      var l := WithdrawBid(n, k);
      if l == NULL { NoneAtPrice(bid.book, t.price); }
      Publish(Update(Buy, t.price, if l != NULL then store.levels[l].total % U32 else 0));
    }

    method CancelAsk(o: Order)
      requires Valid() && o.action.Cancel? && o.side == Sell && Admissible(Abs(), Input(o, true))
      modifies this, store, ask, ask.bestPrices, store.ids, ask.prices
      ensures Valid()
      ensures marketPrice == old(marketPrice) && bestAskPrice == old(bestAskPrice) && bestBidPrice == old(bestBidPrice)
      ensures var r := Reference.CancelOrder(old(Abs()), o);
              Abs() == r.engine && reports == old(reports) + r.reports && updates == old(updates) + r.updates
    {
      CancelSealed(Abs(), o);
      SealedSwap(store, bid, ask);
      var accepted, n, t, k := Target(store, ask, bid, o, Abs());
      if !accepted {
        Emit(RejectReport(o));
        return;
      }
      DeleteAsk(n, t, k);
    }

    method DeleteAsk(n: int, t: Order, ghost k: nat)
      requires Valid() && k < |ask.book| && k < |ask.ptrs| && ask.ptrs[k] == n && t == ask.book[k] && t.side == Sell
      requires SealedCoherent(Abs().WithBook(Sell, Without(ask.book, k)))
      modifies this, store, ask, ask.bestPrices, store.ids, ask.prices
      ensures Valid() && Abs() == old(Abs()).WithBook(Sell, Without(old(ask.book), k))
      ensures marketPrice == old(marketPrice) && bestAskPrice == old(bestAskPrice) && bestBidPrice == old(bestBidPrice)
      ensures reports == old(reports) + [AttemptReport(asset, t, Value(t.side, t.amount, t.price), Cancelled)]
      ensures updates == old(updates) + [DepthUpdate(Sell, Without(old(ask.book), k), t.price)]
    {
      Emit(AttemptReport(asset, t, t.amount, Cancelled));
      var l := WithdrawAsk(n, k);
      if l == NULL { NoneAtPrice(ask.book, t.price); }
      Publish(Update(Sell, t.price, if l != NULL then store.levels[l].total % U32 else 0));
    }

    method WithdrawBid(n: int, ghost k: nat) returns (l: int)
      requires Valid() && k < |bid.book| && k < |bid.ptrs| && bid.ptrs[k] == n
      requires SealedCoherent(Abs().WithBook(Buy, Without(bid.book, k)))
      modifies store, bid, bid.bestPrices, store.ids, bid.prices
      ensures Valid() && Abs() == old(Abs()).WithBook(Buy, Without(old(bid.book), k))
      ensures bid.ptrs == Cut(old(bid.ptrs), k) && RoomKept(store)
      ensures bid.fastMap == if l == NULL then old(bid.fastMap) - {old(bid.book)[k].price} else old(bid.fastMap)
      ensures l == NULL ==> NoneAt(bid.book, old(bid.book)[k].price)
      ensures l != NULL ==>
                0 <= l < |store.levels| && Congruent(store.levels[l].total, Depth(bid.book, old(bid.book)[k].price))
    {
      assert DistinctIds(bid.book) && FreshId(ask.book, bid.book[k].id) by {
        UnsealCoherent(Abs());
        FindDistinct(Abs(), Buy, k);
      }
      l := Withdraw(store, bid, ask, n, k);
    }

    method WithdrawAsk(n: int, ghost k: nat) returns (l: int)
      requires Valid() && k < |ask.book| && k < |ask.ptrs| && ask.ptrs[k] == n
      requires SealedCoherent(Abs().WithBook(Sell, Without(ask.book, k)))
      modifies store, ask, ask.bestPrices, store.ids, ask.prices
      ensures Valid() && Abs() == old(Abs()).WithBook(Sell, Without(old(ask.book), k))
      ensures ask.ptrs == Cut(old(ask.ptrs), k) && RoomKept(store)
      ensures ask.fastMap == if l == NULL then old(ask.fastMap) - {old(ask.book)[k].price} else old(ask.fastMap)
      ensures l == NULL ==> NoneAt(ask.book, old(ask.book)[k].price)
      ensures l != NULL ==>
                0 <= l < |store.levels| && Congruent(store.levels[l].total, Depth(ask.book, old(ask.book)[k].price))
    {
      assert DistinctIds(ask.book) && FreshId(bid.book, ask.book[k].id) by {
        UnsealCoherent(Abs());
        FindDistinct(Abs(), Sell, k);
      }
      SealedSwap(store, bid, ask);
      l := Withdraw(store, ask, bid, n, k);
      SealedSwap(store, ask, bid);
    }

    /** Where a match leaves the walk: at the first order of the level at hand, or past the level. */
    ghost predicate AtLevel(own: OrderBook, price: int, l: int, n: int)
      reads own
    {
      |own.ptrs| == |own.book| &&
      (n != NULL ==>
         && own.book != [] && n == own.ptrs[0] && own.book[0].price == price
         && price in own.fastMap && l == own.fastMap[price])
    }

    method ReduceAsk(l: int, n: int, traded: uint32)
      requires Valid() && n != NULL && AtLevel(ask, bestAskPrice, l, n) && traded <= ask.book[0].amount
      modifies store`nodes, store`levels, ask`book
      ensures Valid()
      ensures Abs()
              == old(Abs()).WithBook(Sell, old(ask.book)[0 :=
                   old(ask.book)[0].(amount := old(ask.book)[0].amount - traded)])
      ensures 0 <= l < |store.levels| && Congruent(store.levels[l].total, Depth(ask.book, bestAskPrice))
    {
      ReduceSealed(Abs(), Sell, traded);
      SealedSwap(store, bid, ask);
      TradeFirst(store, ask, bid, l, n, traded);
      SealedSwap(store, ask, bid);
    }

    method ReduceBid(l: int, n: int, traded: uint32)
      requires Valid() && n != NULL && AtLevel(bid, bestBidPrice, l, n) && traded <= bid.book[0].amount
      modifies store`nodes, store`levels, bid`book
      ensures Valid()
      ensures Abs()
              == old(Abs()).WithBook(Buy, old(bid.book)[0 :=
                   old(bid.book)[0].(amount := old(bid.book)[0].amount - traded)])
      ensures 0 <= l < |store.levels| && Congruent(store.levels[l].total, Depth(bid.book, bestBidPrice))
    {
      ReduceSealed(Abs(), Buy, traded);
      TradeFirst(store, bid, ask, l, n, traded);
    }

    /** The trade of one turn: the maker's order reduced, both reports sent, the level's new depth published. */
    method TradeAsk(o: Order, l: int, n: int) returns (o': Order, usedUp: bool, behind: int)
      requires Valid() && o.side == Buy && n != NULL && AtLevel(ask, bestAskPrice, l, n)
      modifies this`outgoingOrders, this`reportSequenceId, this`reports, this`outgoingBook, this`orderBookSequenceId,
               this`updates, this`marketPrice, store`nodes, store`levels, ask`book
      ensures Valid() && AtLevel(ask, bestAskPrice, l, n)
      ensures o' == TakerLeft(o, old(ask.book)[0])
      ensures marketPrice == if Min(o.amount, old(ask.book)[0].amount) > 0 then old(ask.book)[0].price
                             else old(marketPrice)
      ensures Abs() == old(Abs()).WithBook(Sell, old(ask.book)[0 := MakerLeft(o, old(ask.book)[0])])
      ensures reports == old(reports) + MatchReports(asset, o, old(ask.book)[0])
      ensures updates == old(updates) + [DepthUpdate(Sell, ask.book, old(ask.book)[0].price)]
      ensures usedUp <==> ask.book[0].amount == 0
      ensures behind == if SamePrice(ask.book, 0, 1) then ask.ptrs[1] else NULL
      ensures SealedCoherent(Abs().WithBook(Sell, Without(ask.book, 0)))
    {
      SealedSwap(store, bid, ask);
      var offer;
      offer, behind := ReadFirst(store, ask, bid, n);
      var traded := Min(o.amount, offer.amount);
      ReduceSealed(Abs(), Sell, traded);
      o' := o.(amount := o.amount - traded);
      usedUp := offer.amount == traded;
      ReduceAsk(l, n, traded);
      Report(o, offer, traded, bestAskPrice, l);
    }

    /** One turn of the inner loop of FillBuyOrder. */
    method MatchAsk(o: Order, l: int, n: int) returns (o': Order, next: int)
      requires Valid() && o.side == Buy && n != NULL && AtLevel(ask, bestAskPrice, l, n)
      modifies this, store, ask, ask.bestPrices, store.ids, ask.prices
      ensures Valid() && bestAskPrice == old(bestAskPrice) && bestBidPrice == old(bestBidPrice)
      ensures o' == TakerLeft(o, old(ask.book)[0])
      ensures marketPrice == if Min(o.amount, old(ask.book)[0].amount) > 0 then old(ask.book)[0].price
                             else old(marketPrice)
      ensures Abs() == old(Abs()).WithBook(Sell, AfterMatch(o, old(ask.book)))
      ensures reports == old(reports) + MatchReports(asset, o, old(ask.book)[0])
      ensures updates == old(updates) + [DepthUpdate(Sell, ask.book, old(ask.book)[0].price)]
      ensures AtLevel(ask, bestAskPrice, l, next) && RoomKept(store)
    {
      AfterMatchSteps(o, ask.book);
      var usedUp, behind;
      o', usedUp, behind := TradeAsk(o, l, n);
      next := n;
      if usedUp {
        next := behind;
        DropAsk(l, n, behind);
      }
    }

    /** Both parties' reports of a match and the maker level's new depth. */
    method Report(o: Order, offer: Order, traded: uint32, price: int, l: int)
      requires Valid() && traded == Min(o.amount, offer.amount) && price == offer.price && 0 <= l < |store.levels|
      modifies this`outgoingOrders, this`reportSequenceId, this`reports, this`outgoingBook, this`orderBookSequenceId,
               this`updates, this`marketPrice
      ensures Valid()
      ensures reports == old(reports) + MatchReports(asset, o, offer)
      ensures updates == old(updates) + [Update(o.side.Opposite(), price, store.levels[l].total % U32)]
      ensures marketPrice == if traded > 0 then price else old(marketPrice)
    {
      marketPrice := if traded > 0 then offer.price else marketPrice;
      Emit(LegReport(asset, o, traded, price, o.amount - traded));
      Emit(LegReport(asset, offer, traded, price, offer.amount - traded));
      Publish(Update(o.side.Opposite(), price, store.levels[l].total % U32));
    }

    /** Delete the first ask and move to the order behind it. */
    method DropAsk(l: int, n: int, behind: int)
      requires Valid() && n != NULL && AtLevel(ask, bestAskPrice, l, n)
      requires behind == if SamePrice(ask.book, 0, 1) then ask.ptrs[1] else NULL
      requires SealedCoherent(Abs().WithBook(Sell, Without(ask.book, 0)))
      modifies store, ask, ask.bestPrices, store.ids, ask.prices
      ensures Valid() && Abs() == old(Abs()).WithBook(Sell, Without(old(ask.book), 0))
      ensures AtLevel(ask, bestAskPrice, l, behind) && RoomKept(store)
    {
      ghost var book, ptrs := ask.book, ask.ptrs;
      var left := WithdrawAsk(n, 0);
      SamePriceStays(book, ptrs, ask.fastMap, left, bestAskPrice);
    }

    /** The trade of one turn: the maker's order reduced, both reports sent, the level's new depth published. */
    method TradeBid(o: Order, l: int, n: int) returns (o': Order, usedUp: bool, behind: int)
      requires Valid() && o.side == Sell && n != NULL && AtLevel(bid, bestBidPrice, l, n)
      modifies this`outgoingOrders, this`reportSequenceId, this`reports, this`outgoingBook, this`orderBookSequenceId,
               this`updates, this`marketPrice, store`nodes, store`levels, bid`book
      ensures Valid() && AtLevel(bid, bestBidPrice, l, n)
      ensures o' == TakerLeft(o, old(bid.book)[0])
      ensures marketPrice == if Min(o.amount, old(bid.book)[0].amount) > 0 then old(bid.book)[0].price
                             else old(marketPrice)
      ensures Abs() == old(Abs()).WithBook(Buy, old(bid.book)[0 := MakerLeft(o, old(bid.book)[0])])
      ensures reports == old(reports) + MatchReports(asset, o, old(bid.book)[0])
      ensures updates == old(updates) + [DepthUpdate(Buy, bid.book, old(bid.book)[0].price)]
      ensures usedUp <==> bid.book[0].amount == 0
      ensures behind == if SamePrice(bid.book, 0, 1) then bid.ptrs[1] else NULL
      ensures SealedCoherent(Abs().WithBook(Buy, Without(bid.book, 0)))
    {
      var offer;
      offer, behind := ReadFirst(store, bid, ask, n);
      var traded := Min(o.amount, offer.amount);
      ReduceSealed(Abs(), Buy, traded);
      o' := o.(amount := o.amount - traded);
      usedUp := offer.amount == traded;
      ReduceBid(l, n, traded);
      Report(o, offer, traded, bestBidPrice, l);
    }

    /** One turn of the inner loop of FillSellOrder. */
    method MatchBid(o: Order, l: int, n: int) returns (o': Order, next: int)
      requires Valid() && o.side == Sell && n != NULL && AtLevel(bid, bestBidPrice, l, n)
      modifies this, store, bid, bid.bestPrices, store.ids, bid.prices
      ensures Valid() && bestAskPrice == old(bestAskPrice) && bestBidPrice == old(bestBidPrice)
      ensures o' == TakerLeft(o, old(bid.book)[0])
      ensures marketPrice == if Min(o.amount, old(bid.book)[0].amount) > 0 then old(bid.book)[0].price
                             else old(marketPrice)
      ensures Abs() == old(Abs()).WithBook(Buy, AfterMatch(o, old(bid.book)))
      ensures reports == old(reports) + MatchReports(asset, o, old(bid.book)[0])
      ensures updates == old(updates) + [DepthUpdate(Buy, bid.book, old(bid.book)[0].price)]
      ensures AtLevel(bid, bestBidPrice, l, next) && RoomKept(store)
    {
      AfterMatchSteps(o, bid.book);
      var usedUp, behind;
      o', usedUp, behind := TradeBid(o, l, n);
      next := n;
      if usedUp {
        next := behind;
        DropBid(l, n, behind);
      }
    }

    /** Delete the first bid and move to the order behind it. */
    method DropBid(l: int, n: int, behind: int)
      requires Valid() && n != NULL && AtLevel(bid, bestBidPrice, l, n)
      requires behind == if SamePrice(bid.book, 0, 1) then bid.ptrs[1] else NULL
      requires SealedCoherent(Abs().WithBook(Buy, Without(bid.book, 0)))
      modifies store, bid, bid.bestPrices, store.ids, bid.prices
      ensures Valid() && Abs() == old(Abs()).WithBook(Buy, Without(old(bid.book), 0))
      ensures AtLevel(bid, bestBidPrice, l, behind) && RoomKept(store)
    {
      ghost var book, ptrs := bid.book, bid.ptrs;
      var left := WithdrawBid(n, 0);
      SamePriceStays(book, ptrs, bid.fastMap, left, bestBidPrice);
    }

    /** The inner loop of FillBuyOrder: trade along one level while the order lasts. */
    method SweepAskLevel(o1: Order, l: int, first: int, spent1: int, ghost order: Order, ghost e0: Engine,
                         ghost rs0: seq<Report>, ghost us0: seq<Update>, ghost q0: Quote,
                         ghost c1: int) returns (o: Order, spent: int, ghost c: int)
      requires Valid() && order.side == Buy && o1.amount > 0 && bestAskPrice <= o1.price
      requires first != NULL && AtLevel(ask, bestAskPrice, l, first)
      requires SealedWalk(asset, order, e0.asks, rs0, us0, q0, o1, ask.book, reports, updates,
                          Quote(marketPrice, c1), spent1)
      requires Abs() == e0.WithBook(Sell, ask.book)
      modifies this, store, ask, ask.bestPrices, store.ids, ask.prices
      ensures Valid() && bestAskPrice == old(bestAskPrice) && RoomKept(store)
      ensures bestBidPrice == old(bestBidPrice)
      ensures SealedWalk(asset, order, e0.asks, rs0, us0, q0, o, ask.book, reports, updates,
                         Quote(marketPrice, c), spent)
      ensures c == bestAskPrice
      ensures Abs() == e0.WithBook(Sell, ask.book)
      ensures o.amount + |ask.book| < o1.amount + old(|ask.book|)
    {
      o, spent, c := o1, spent1, c1;
      var n := first;
      while o.amount > 0 && IsMarketable(o) && n != NULL
        invariant Valid() && bestAskPrice == old(bestAskPrice) && AtLevel(ask, bestAskPrice, l, n)
        invariant RoomKept(store) && bestBidPrice == old(bestBidPrice)
        invariant SealedWalk(asset, order, e0.asks, rs0, us0, q0, o, ask.book, reports, updates,
                             Quote(marketPrice, c), spent)
        invariant c == bestAskPrice || (o == o1 && n == first && ask.book == old(ask.book))
        invariant Abs() == e0.WithBook(Sell, ask.book)
        invariant o.amount + |ask.book| < o1.amount + old(|ask.book|)
                  || (o == o1 && n == first && ask.book == old(ask.book))
        decreases o.amount + |ask.book|
      {
        MatchShrinks(o, ask.book);
        WalkMatch(asset, order, e0.asks, rs0, us0, q0, o, ask.book, reports, updates, Quote(marketPrice, c), spent);
        ghost var o2, book := o, ask.book;
        var before := o.amount;
        o, n := MatchAsk(o, l, n);
        c := bestAskPrice;
        assert ask.book == AfterMatch(o2, book) && o2.side.Opposite() == Sell && bestAskPrice == book[0].price;
        assert (before - o.amount) * bestAskPrice == Value(o2.side, Min(o2.amount, book[0].amount), book[0].price);
        spent := spent + (before - o.amount) * bestAskPrice;
      }
    }

    /** Walk the asks from the best, then rest a limit order's remainder or cancel a market order's. */
    method FillBuyOrder(order: Order)
      requires Valid() && order.side == Buy && Acceptable(order) && IsMarketable(order)
      modifies this, store, bid, ask, bid.bestPrices, ask.bestPrices, store.ids, bid.prices, ask.prices
      ensures Valid()
      ensures marketPrice == MarketAfter(old(marketPrice), Sweep(asset, order, old(Abs()).asks).trades)
      ensures Cached() == CachesAfterFill(old(Cached()), old(Abs()), order)
      ensures var r := Reference.ExecuteOrder(old(Abs()), order);
              Abs() == r.engine && reports == old(reports) + r.reports && updates == old(updates) + r.updates
    {
      ghost var e, rs, us, q, c0 := Abs(), reports, updates, Quote(marketPrice, bestAskPrice), Cached();
      ClearAfterWalk(e, order);
      var o, spent, c := WalkAsks(order);
      WalkDone(asset, order, e.asks, rs, us, q, o, ask.book, reports, updates, Quote(marketPrice, c), spent);
      ghost var s := Sweep(asset, order, e.asks);
      ghost var f := Reference.Finish(Abs(), order, s);
      Reassociate(rs, s.reports, f.reports);
      Reassociate(us, s.updates, f.updates);
      assert StillFresh(e, order, s.book) by { FreshAfterWalk(e, order); }
      if s.rest > 0 && order.kind.Limit? { store.ids.RoomIsTaken(order.id); }
      BestAlone(q.market, 0, q.best, s.trades);
      MarketAlone(q.market, q.best, s.trades);
      Finish(order, o, spent, s);
    }

    /** What the fill methods do with the remainder: `totalLocked` is what the order reserved less what it
        paid. */
    method Finish(order: Order, o: Order, spent: int, ghost s: Swept)
      requires Valid() && o == order.(amount := s.rest) && spent == Spent(order.side, s.trades)
      requires s.rest > 0 && order.kind.Limit? ==> Clear(Abs(), order) && Placeable(order)
      modifies this, store, bid, ask, bid.bestPrices, ask.bestPrices, store.ids, bid.prices, ask.prices
      ensures Valid()
      ensures marketPrice == old(marketPrice)
      ensures Cached() == if s.rest > 0 && order.kind.Limit? then CachesAfterRest(old(Cached()), old(Abs()), order)
                          else old(Cached())
      ensures var f := Reference.Finish(old(Abs()), order, s);
              Abs() == f.engine && reports == old(reports) + f.reports && updates == old(updates) + f.updates
    {
      if o.amount > 0 {
        if o.kind.Limit? {
          AddLimitOrder(o);
        } else {
          var totalLocked := Value(order.side, order.amount, order.price) - spent;
          Emit(AttemptReport(asset, order, -totalLocked, Cancelled));
        }
      }
    }

    /** The outer loop of FillBuyOrder. */
    method WalkAsks(order: Order) returns (o: Order, spent: int, ghost c: int)
      requires Valid() && order.side == Buy && IsMarketable(order)
      modifies this, store, ask, ask.bestPrices, store.ids, ask.prices
      ensures Valid() && Abs() == old(Abs()).WithBook(Sell, ask.book) && RoomKept(store)
      ensures SealedWalk(asset, order, old(ask.book), old(reports), old(updates),
                         Quote(old(marketPrice), old(bestAskPrice)), o, ask.book, reports, updates,
                         Quote(marketPrice, c), spent)
      ensures bestBidPrice == old(bestBidPrice)
      ensures Done(o, ask.book)
      ensures bestAskPrice == if o.amount > 0 && ask.book != [] then ask.book[0].price else c
    {
      o, spent := order, 0;
      c := bestAskPrice;
      WalkStart(asset, order, ask.book, reports, updates, Quote(marketPrice, c));
      while o.amount > 0 && IsMarketable(o)
        invariant Valid() && Abs() == old(Abs()).WithBook(Sell, ask.book) && RoomKept(store)
        invariant SealedWalk(asset, order, old(ask.book), old(reports), old(updates),
                             Quote(old(marketPrice), old(bestAskPrice)), o, ask.book, reports, updates,
                             Quote(marketPrice, c), spent)
        invariant c == bestAskPrice
        invariant bestBidPrice == old(bestBidPrice)
        invariant IsMarketable(o)
        decreases o.amount + |ask.book|
      {
        SealedSwap(store, bid, ask);
        var l, n := BestOffer(store, ask, bid);
        if l == NULL {
          return;
        }
        SetBestAsk(store.levels[l].price);
        if bestAskPrice > o.price {
          return;
        }
        o, spent, c := SweepAskLevel(o, l, n, spent, order, old(Abs()), old(reports), old(updates),
                                       Quote(old(marketPrice), old(bestAskPrice)), c);
      }
    }

    method SetBestAsk(price: int)
      requires Valid() && ask.book != [] && price == ask.book[0].price
      modifies this`bestAskPrice
      ensures Valid() && bestAskPrice == price
    {
      FirstIsBest(Abs(), Sell);
      bestAskPrice := price;
    }

    /** The inner loop of FillSellOrder: trade along one level while the order lasts. */
    method SweepBidLevel(o1: Order, l: int, first: int, spent1: int, ghost order: Order, ghost e0: Engine,
                         ghost rs0: seq<Report>, ghost us0: seq<Update>, ghost q0: Quote,
                         ghost c1: int) returns (o: Order, spent: int, ghost c: int)
      requires Valid() && order.side == Sell && o1.amount > 0 && o1.price <= bestBidPrice
      requires first != NULL && AtLevel(bid, bestBidPrice, l, first)
      requires SealedWalk(asset, order, e0.bids, rs0, us0, q0, o1, bid.book, reports, updates,
                          Quote(marketPrice, c1), spent1)
      requires Abs() == e0.WithBook(Buy, bid.book)
      modifies this, store, bid, bid.bestPrices, store.ids, bid.prices
      ensures Valid() && bestBidPrice == old(bestBidPrice) && RoomKept(store)
      ensures bestAskPrice == old(bestAskPrice)
      ensures SealedWalk(asset, order, e0.bids, rs0, us0, q0, o, bid.book, reports, updates,
                         Quote(marketPrice, c), spent)
      ensures c == bestBidPrice
      ensures Abs() == e0.WithBook(Buy, bid.book)
      ensures o.amount + |bid.book| < o1.amount + old(|bid.book|)
    {
      o, spent, c := o1, spent1, c1;
      var n := first;
      while o.amount > 0 && IsMarketable(o) && n != NULL
        invariant Valid() && bestBidPrice == old(bestBidPrice) && AtLevel(bid, bestBidPrice, l, n)
        invariant RoomKept(store) && bestAskPrice == old(bestAskPrice)
        invariant SealedWalk(asset, order, e0.bids, rs0, us0, q0, o, bid.book, reports, updates,
                             Quote(marketPrice, c), spent)
        invariant c == bestBidPrice || (o == o1 && n == first && bid.book == old(bid.book))
        invariant Abs() == e0.WithBook(Buy, bid.book)
        invariant o.amount + |bid.book| < o1.amount + old(|bid.book|)
                  || (o == o1 && n == first && bid.book == old(bid.book))
        decreases o.amount + |bid.book|
      {
        MatchShrinks(o, bid.book);
        WalkMatch(asset, order, e0.bids, rs0, us0, q0, o, bid.book, reports, updates, Quote(marketPrice, c), spent);
        ghost var o2, book := o, bid.book;
        var before := o.amount;
        o, n := MatchBid(o, l, n);
        c := bestBidPrice;
        assert bid.book == AfterMatch(o2, book) && o2.side.Opposite() == Buy && bestBidPrice == book[0].price;
        assert before - o.amount == Value(o2.side, Min(o2.amount, book[0].amount), book[0].price);
        spent := spent + (before - o.amount);
      }
    }

    /** Walk the bids from the best, then rest a limit order's remainder or cancel a market order's. */
    method FillSellOrder(order: Order)
      requires Valid() && order.side == Sell && Acceptable(order) && IsMarketable(order)
      modifies this, store, bid, ask, bid.bestPrices, ask.bestPrices, store.ids, bid.prices, ask.prices
      ensures Valid()
      ensures marketPrice == MarketAfter(old(marketPrice), Sweep(asset, order, old(Abs()).bids).trades)
      ensures Cached() == CachesAfterFill(old(Cached()), old(Abs()), order)
      ensures var r := Reference.ExecuteOrder(old(Abs()), order);
              Abs() == r.engine && reports == old(reports) + r.reports && updates == old(updates) + r.updates
    {
      ghost var e, rs, us, q, c0 := Abs(), reports, updates, Quote(marketPrice, bestBidPrice), Cached();
      ClearAfterWalk(e, order);
      var o, spent, c := WalkBids(order);
      WalkDone(asset, order, e.bids, rs, us, q, o, bid.book, reports, updates, Quote(marketPrice, c), spent);
      ghost var s := Sweep(asset, order, e.bids);
      ghost var f := Reference.Finish(Abs(), order, s);
      Reassociate(rs, s.reports, f.reports);
      Reassociate(us, s.updates, f.updates);
      assert StillFresh(e, order, s.book) by { FreshAfterWalk(e, order); }
      if s.rest > 0 && order.kind.Limit? { store.ids.RoomIsTaken(order.id); }
      BestAlone(q.market, 0, q.best, s.trades);
      MarketAlone(q.market, q.best, s.trades);
      Finish(order, o, spent, s);
    }

    /** The outer loop of FillSellOrder. */
    method WalkBids(order: Order) returns (o: Order, spent: int, ghost c: int)
      requires Valid() && order.side == Sell && IsMarketable(order)
      modifies this, store, bid, bid.bestPrices, store.ids, bid.prices
      ensures Valid() && Abs() == old(Abs()).WithBook(Buy, bid.book) && RoomKept(store)
      ensures SealedWalk(asset, order, old(bid.book), old(reports), old(updates),
                         Quote(old(marketPrice), old(bestBidPrice)), o, bid.book, reports, updates,
                         Quote(marketPrice, c), spent)
      ensures bestAskPrice == old(bestAskPrice)
      ensures Done(o, bid.book)
      ensures bestBidPrice == if o.amount > 0 && bid.book != [] then bid.book[0].price else c
    {
      o, spent := order, 0;
      c := bestBidPrice;
      WalkStart(asset, order, bid.book, reports, updates, Quote(marketPrice, c));
      while o.amount > 0 && IsMarketable(o)
        invariant Valid() && Abs() == old(Abs()).WithBook(Buy, bid.book) && RoomKept(store)
        invariant SealedWalk(asset, order, old(bid.book), old(reports), old(updates),
                             Quote(old(marketPrice), old(bestBidPrice)), o, bid.book, reports, updates,
                             Quote(marketPrice, c), spent)
        invariant c == bestBidPrice
        invariant bestAskPrice == old(bestAskPrice)
        invariant IsMarketable(o)
        decreases o.amount + |bid.book|
      {
        var l, n := BestOffer(store, bid, ask);
        if l == NULL {
          return;
        }
        SetBestBid(store.levels[l].price);
        if bestBidPrice < o.price {
          return;
        }
        o, spent, c := SweepBidLevel(o, l, n, spent, order, old(Abs()), old(reports), old(updates),
                                       Quote(old(marketPrice), old(bestBidPrice)), c);
      }
    }

    method SetBestBid(price: int)
      requires Valid() && bid.book != [] && price == bid.book[0].price
      modifies this`bestBidPrice
      ensures Valid() && bestBidPrice == price
    {
      FirstIsBest(Abs(), Buy);
      bestBidPrice := price;
    }

    method FillOrder(o: Order)
      requires Valid() && Acceptable(o) && IsMarketable(o)
      modifies this, store, bid, ask, bid.bestPrices, ask.bestPrices, store.ids, bid.prices, ask.prices
      ensures Valid()
      ensures marketPrice == MarketAfter(old(marketPrice), Sweep(asset, o, old(Abs()).Book(o.side.Opposite())).trades)
      ensures Cached() == CachesAfterFill(old(Cached()), old(Abs()), o)
      ensures var r := Reference.ExecuteOrder(old(Abs()), o);
              Abs() == r.engine && reports == old(reports) + r.reports && updates == old(updates) + r.updates
    {
      if o.side.Buy? {
        FillBuyOrder(o);
      } else {
        FillSellOrder(o);
      }
    }

    /** Match a marketable order, rest any other. Going by a stale cached price makes no difference: the
        outcome is the reference engine's, which has no cache; only for amount 0 does the cache decide. */
    method ExecuteOrder(o: Order)
      requires Valid() && o.action.Execute? && Acceptable(o)
      modifies this, store, bid, ask, bid.bestPrices, ask.bestPrices, store.ids, bid.prices, ask.prices
      ensures Valid()
      ensures marketPrice == MarketAfter(old(marketPrice), Settlement.StepTrades(old(Abs()), o))
      ensures Cached() == CachesAfter(old(Cached()), old(Abs()), o)
      ensures var r := Step(old(Abs()), o, old(IsMarketable(o)));
              Abs() == r.engine && reports == old(reports) + r.reports && updates == old(updates) + r.updates
      ensures o.amount == 0 ==>
                if o.kind.Market? || (o.side.Buy? && o.price >= old(bestAskPrice))
                   || (o.side.Sell? && o.price <= old(bestBidPrice))
                then Abs() == old(Abs()) && reports == old(reports) && updates == old(updates)
                else Abs() == Rest(old(Abs()), o).engine
    {
      ghost var e := Abs();
      if IsMarketable(o) {
        MarketableStep(e, o);
        FillOrder(o);
      } else {
        ClearByCache(o);
        ClearStep(e, o);
        AddLimitOrder(o);
      }
    }

    /** The cached bounds make an order that is not marketable by them cross nothing. */
    lemma {:induction false} ClearByCache(o: Order)
      requires Valid() && !IsMarketable(o)
      ensures o.kind.Limit? && Clear(Abs(), o)
    {
      forall m | m in Abs().Book(o.side.Opposite()) ensures !Crosses(o, m) {
        var i :| 0 <= i < |Abs().Book(o.side.Opposite())| && Abs().Book(o.side.Opposite())[i] == m;
      }
    }

    /** What callers guarantee for a message. */
    ghost predicate Accepts(o: Order)
      reads this, store, bid, ask, bid.bestPrices, ask.bestPrices, store.ids, bid.prices, ask.prices
    {
      if o.action.Execute? then Acceptable(o) else Admissible(Abs(), Input(o, true))
    }

    /** One message of the execution loop. */
    method Handle(o: Order)
      requires Valid() && Accepts(o)
      modifies this, store, bid, ask, bid.bestPrices, ask.bestPrices, store.ids, bid.prices, ask.prices
      ensures Valid()
      ensures marketPrice == MarketAfter(old(marketPrice), Settlement.StepTrades(old(Abs()), o))
      ensures Cached() == CachesAfter(old(Cached()), old(Abs()), o)
      ensures var r := Step(old(Abs()), o, old(IsMarketable(o)));
              Abs() == r.engine && reports == old(reports) + r.reports && updates == old(updates) + r.updates
      ensures old(Admissible(Abs(), Input(o, IsMarketable(o))))
    {
      if !IsMarketable(o) { ClearByCache(o); ClearNeedsNoFirst(Abs(), o); }
      if o.action.Execute? {
        ExecuteOrder(o);
      } else {
        CancelOrder(o);
      }
    }

    method PlaceBid(o: Order) returns (n: int, l: int)
      requires Valid() && Placeable(o) && o.side == Buy && SealedCoherent(Rest(Abs(), o).engine)
      modifies this`bestBidPrice, store, bid, bid.bestPrices, store.ids, bid.prices
      ensures Valid() && Abs() == Rest(old(Abs()), o).engine
      ensures bestBidPrice == if n != NULL && o.price > old(bestBidPrice) then o.price else old(bestBidPrice)
      ensures n == NULL <==> old(Abs().Resting()) >= |store.nodes|
      ensures n != NULL ==>
                && 0 <= l < |store.levels| && store.levels[l].price == o.price
                && Congruent(store.levels[l].total, Depth(Insert(Buy, old(bid.book), o), o.price))
    {
      n, l := Place(store, bid, ask, o);
      if n != NULL {
        CachedBound(Buy, old(bid.book), o, bestBidPrice);
        bestBidPrice := if o.price > bestBidPrice then o.price else bestBidPrice;
      }
    }

    method PlaceAsk(o: Order) returns (n: int, l: int)
      requires Valid() && Placeable(o) && o.side == Sell && SealedCoherent(Rest(Abs(), o).engine)
      modifies this`bestAskPrice, store, ask, ask.bestPrices, store.ids, ask.prices
      ensures Valid() && Abs() == Rest(old(Abs()), o).engine
      ensures bestAskPrice == if n != NULL && o.price < old(bestAskPrice) then o.price else old(bestAskPrice)
      ensures n == NULL <==> old(Abs().Resting()) >= |store.nodes|
      ensures n != NULL ==>
                && 0 <= l < |store.levels| && store.levels[l].price == o.price
                && Congruent(store.levels[l].total, Depth(Insert(Sell, old(ask.book), o), o.price))
    {
      SealedSwap(store, bid, ask);
      n, l := Place(store, ask, bid, o);
      SealedSwap(store, ask, bid);
      if n != NULL {
        CachedBound(Sell, old(ask.book), o, bestAskPrice);
        bestAskPrice := if o.price < bestAskPrice then o.price else bestAskPrice;
      }
    }
  }

  /** If a second order stands at the first order's price, the price keeps its level and that order leads. */
  lemma {:induction false} SamePriceStays(book: seq<Order>, ptrs: seq<int>, fast: map<int, int>, left: int, price: int)
    requires book != [] && |ptrs| == |book| && book[0].price == price
    requires left == NULL ==> NoneAt(Without(book, 0), price)
    ensures |Cut(ptrs, 0)| == |Without(book, 0)|
    ensures SamePrice(book, 0, 1) ==>
              left != NULL && Without(book, 0) != [] && Without(book, 0)[0].price == price && Cut(ptrs, 0)[0] == ptrs[1]
  {
    if SamePrice(book, 0, 1) { assert Without(book, 0)[0] == book[1]; }
  }

  lemma {:induction false} ClearNeedsNoFirst(e: Engine, o: Order)
    requires Clear(e, o)
    ensures var b := e.Book(o.side.Opposite()); b == [] || !Crosses(o, b[0])
  {
  }

  /** An order that crosses nothing just rests. */
  lemma {:induction false} ClearStep(e: Engine, o: Order)
    requires o.action.Execute? && o.kind.Limit? && Clear(e, o)
    ensures Step(e, o, false) == Rest(e, o) && Settlement.StepTrades(e, o) == []
  {
    ClearNeedsNoFirst(e, o);
    if o.amount > 0 {
      var opp := o.side.Opposite();
      assert Sweep(e.asset, o, e.Book(opp)) == Swept([], [], [], o.amount, e.Book(opp));
      assert e.WithBook(opp, e.Book(opp)) == e && o.(amount := o.amount) == o;
      var r := Rest(e, o);
      assert [] + r.reports == r.reports && [] + r.updates == r.updates;
    }
  }

  /** An order of amount 0 taken to be marketable trades nothing and leaves nothing. */
  lemma {:induction false} MarketableStep(e: Engine, o: Order)
    requires o.action.Execute?
    ensures Step(e, o, true) == ExecuteOrder(e, o)
    ensures Settlement.StepTrades(e, o) == Sweep(e.asset, o, e.Book(o.side.Opposite())).trades
  {
    if o.amount == 0 {
      var opp := o.side.Opposite();
      assert Sweep(e.asset, o, e.Book(opp)) == Swept([], [], [], 0, e.Book(opp));
      assert e.WithBook(opp, e.Book(opp)) == e;
    }
  }

  /** What a lookup of a cancel's target means for the reference: found on its own side at `k`, or not there. */
  lemma {:induction false} CancelTarget(e: Engine, o: Order, found: bool, mine: bool, k: nat)
    requires SealedCoherent(e) && o.action.Cancel? && Admissible(e, Input(o, true))
    requires !found ==> FreshId(e.Book(o.side), o.amount)
    requires found && mine ==> k < |e.Book(o.side)| && e.Book(o.side)[k].id == o.amount
    requires found && !mine ==> k < |e.Book(o.side.Opposite())| && e.Book(o.side.Opposite())[k].id == o.amount
    ensures !found ==> Find(e.Book(o.side), o.amount) == |e.Book(o.side)|
    ensures found && mine ==> Find(e.Book(o.side), o.amount) == k && e.Book(o.side)[k].side == o.side
    ensures found && !mine ==>
              Find(e.Book(o.side), o.amount) == |e.Book(o.side)| && e.Book(o.side.Opposite())[k].client != o.client
  {
    UnsealCoherent(e);
    if !found {
      FindNone(e.Book(o.side), o.amount);
    } else if mine {
      FindDistinct(e, o.side, k);
    } else {
      FindDistinct(e, o.side.Opposite(), k);
      FindNone(e.Book(o.side), o.amount);
    }
  }

  /** A cached bound widened to a new order's price bounds the book with that order. */
  lemma {:induction false} CachedBound(side: Side, book: seq<Order>, o: Order, bound: int)
    requires Bounds(side, book, bound)
    ensures Bounds(side, Insert(side, book, o), if Rank(side, o.price) < Rank(side, bound) then o.price else bound)
  {
    forall i | 0 <= i < |Insert(side, book, o)|
      ensures || Rank(side, bound) <= Rank(side, Insert(side, book, o)[i].price)
              || Rank(side, o.price) <= Rank(side, Insert(side, book, o)[i].price)
    {
      InsertAt(side, book, o, i);
    }
  }
}
