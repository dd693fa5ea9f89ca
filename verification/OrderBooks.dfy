/** One side of the book over shared pools: a hash map of prices, a skip list of best prices, price levels and
    order nodes; and the hash map of order ids both sides share. */
module OrderBooks {
  import opened Domain
  import opened Reference
  import opened Priority
  import opened Seqs
  import opened Books
  import opened Words
  import opened PriceLevels
  import FlatHashMaps
  import SkipList

  // ---------------------------------------------------------------- shared storage

  /** Order nodes, price levels, their free lists and the hash map of order ids, shared by both sides.
      `orderMap` is what the hash map holds. */
  class Store {
    var nodes: seq<OrderNode>
    var nodeFree: seq<int>
    var levels: seq<PriceLevel>
    var levelFree: seq<int>
    const ids: FlatHashMaps.FlatHashMap<int>
    ghost var orderMap: map<int, int>

    constructor (nodeCount: nat, levelCount: nat, idBuckets: nat, blank: Order)
      requires idBuckets > 0
      ensures |nodes| == |nodeFree| == nodeCount && |levels| == |levelFree| == levelCount
      ensures orderMap == map[] && fresh(ids) && ids.Ready() && ids.contents == map[] && ids.size == idBuckets
      ensures forall i :: 0 <= i < nodeCount ==> nodeFree[i] == i
      ensures forall i :: 0 <= i < levelCount ==> levelFree[i] == i && levels[i].head == NULL
    {
      nodes := seq(nodeCount, _ => OrderNode(NULL, NULL, blank));
      nodeFree := seq(nodeCount, i => i);
      levels := seq(levelCount, _ => PriceLevel(0, 0, 0, NULL, NULL));
      levelFree := seq(levelCount, i => i);
      ids := new FlatHashMaps.FlatHashMap(idBuckets, NULL);
      orderMap := map[];
    }

    /** The pool hands out the node freed last, or null. */
    method AcquireNode() returns (n: int)
      modifies this`nodeFree
      ensures old(nodeFree) == [] ==> n == NULL && nodeFree == []
      ensures old(nodeFree) != [] ==> old(nodeFree) == nodeFree + [n]
    {
      if |nodeFree| > 0 {
        n := nodeFree[|nodeFree| - 1];
        nodeFree := nodeFree[..|nodeFree| - 1];
      } else {
        n := NULL;
      }
    }

    method ReleaseNode(n: int) returns (released: bool)
      modifies this`nodeFree
      ensures released <==> n != NULL && |old(nodeFree)| < |nodes|
      ensures nodeFree == if released then old(nodeFree) + [n] else old(nodeFree)
    {
      released := n != NULL && |nodeFree| < |nodes|;
      if released { nodeFree := nodeFree + [n]; }
    }

    /** PriceLevel::AddOrder. */
    method LevelAddOrder(l: int, n: int)
      requires 0 <= l < |levels| && 0 <= n < |nodes|
      requires levels[l].head != NULL ==> 0 <= levels[l].tail < |nodes|
      modifies this`nodes, this`levels
      ensures nodes == Appended(old(nodes), if old(levels[l].head) == NULL then NULL else old(levels[l].tail), n)
      ensures levels == old(levels)[l := Grown(old(levels[l]), n, old(nodes[n].order.amount))]
    {
      var level := levels[l];
      if level.head == NULL {
        level := level.(head := n, tail := n);
        nodes := nodes[n := nodes[n].(prev := NULL, next := NULL)];
      } else {
        nodes := nodes[level.tail := nodes[level.tail].(next := n)];
        nodes := nodes[n := nodes[n].(prev := level.tail, next := NULL)];
        level := level.(tail := n);
      }
      level := level.(size := level.size + 1, total := Wrap64(level.total + nodes[n].order.amount));
      levels := levels[l := level];
    }

    /** PriceLevel::DeleteOrder; the order is taken to be in the level. */
    method LevelDeleteOrder(l: int, n: int) returns (emptied: bool)
      requires 0 <= l < |levels| && 0 <= n < |nodes|
      requires -1 <= nodes[n].prev < |nodes| && -1 <= nodes[n].next < |nodes|
      requires nodes[n].prev != n && nodes[n].next != n
      modifies this`nodes, this`levels
      ensures nodes == Detached(old(nodes), n)
      ensures levels == old(levels)[l := Shrunk(old(levels[l]), old(nodes[n]))]
      ensures emptied <==> levels[l].size == 0
    {
      var level, node := levels[l], nodes[n];
      level := level.(size := level.size - 1, total := Wrap64(level.total - node.order.amount));
      if node.prev != NULL {
        nodes := nodes[node.prev := nodes[node.prev].(next := node.next)];
      } else {
        level := level.(head := node.next);
      }
      if node.next != NULL {
        nodes := nodes[node.next := nodes[node.next].(prev := node.prev)];
      } else {
        level := level.(tail := node.prev);
      }
      levels := levels[l := level];
      emptied := level.size == 0;
    }

    /** PriceLevel::ClearPriceLevel: release whatever chain hangs off the level's head. */
    method ClearPriceLevel(l: int, ghost chain: seq<int>)
      requires 0 <= l < |levels| && InRange(chain, |nodes|)
      requires levels[l].head == if chain == [] then NULL else chain[0]
      requires forall i :: 0 <= i < |chain| ==> nodes[chain[i]].next == if i + 1 < |chain| then chain[i + 1] else NULL
      requires |nodeFree| + |chain| <= |nodes|
      modifies this`nodeFree, this`levels
      ensures nodeFree == old(nodeFree) + chain
      ensures levels == old(levels)[l := PriceLevel(old(levels[l].price), 0, 0, NULL, NULL)]
    {
      var cur := levels[l].head;
      ghost var i := 0;
      while cur != NULL
        invariant 0 <= i <= |chain| && cur == if i < |chain| then chain[i] else NULL
        invariant nodeFree == old(nodeFree) + chain[..i] && levels == old(levels)
        decreases |chain| - i
      {
        var toRelease := cur;
        cur := nodes[cur].next;
        var released := ReleaseNode(toRelease);
        i := i + 1;
      }
      levels := levels[l := levels[l].(size := 0, total := 0, head := NULL, tail := NULL)];
    }
  }

  // ---------------------------------------------------------------- positions in a sorted book

  /** A sorted book takes a new order at its slot without splitting a price group, and the order joins the
      group before it exactly when its price has a level. */
  lemma {:induction false} SlotFits(side: Side, levels: seq<PriceLevel>, fast: map<int, int>, ptrs: seq<int>,
                                    book: seq<Order>, o: Order)
    requires Sorted(side, book) && LevelsOk(levels, fast, ptrs, book)
    ensures var k := Slot(side, book, o.price);
            && FitsAt(book, k, o)
            && (k > 0 && book[k - 1].price == o.price <==> o.price in fast)
  {
    var k := Slot(side, book, o.price);
    if o.price in fast {
      assert exists i :: 0 <= i < |book| && book[i].price == o.price by {
        assert Tallied(levels, fast, book, o.price);
        CountIsPositive(book, o.price);
      }
      var i :| 0 <= i < |book| && book[i].price == o.price;
      LastOfPrice(side, book, o.price, i);
    } else if k > 0 {
      assert book[k - 1].price != o.price by { assert Ends(levels, fast, ptrs, book, k - 1); }
    }
  }

  /** In a sorted book with an order at a price, the one before the price's slot is at that price. */
  lemma {:induction false} LastOfPrice(side: Side, book: seq<Order>, price: int, i: nat)
    requires Sorted(side, book) && i < |book| && book[i].price == price
    ensures var k := Slot(side, book, price); k > 0 && book[k - 1].price == price
  {
    var k := Slot(side, book, price);
    assert i < k;
    assert Rank(side, book[i].price) <= Rank(side, book[k - 1].price);
  }

  lemma {:induction false} SortedCutsClean(side: Side, book: seq<Order>, k: nat)
    requires Sorted(side, book) && k < |book|
    ensures CutsClean(book, k)
  {
  }

  lemma {:induction false} AppendKeeps(nodes: seq<OrderNode>, ptrs: seq<int>, k: nat, tail: int, n: int)
    requires 0 <= n < |nodes| && k <= |ptrs| && -1 <= tail < |nodes| && (tail == NULL || tail in ptrs)
    ensures NodesKept(nodes, Appended(nodes, tail, n), Spliced(ptrs, k, n))
  {
    SplicedMembers(ptrs, k, n, n);
    SplicedMembers(ptrs, k, n, tail);
  }

  lemma {:induction false} DetachKeeps(nodes: seq<OrderNode>, ptrs: seq<int>, book: seq<Order>, k: nat)
    requires Chained(nodes, ptrs, book) && k < |book|
    ensures 0 <= ptrs[k] < |nodes|
    ensures var n := ptrs[k];
            && -1 <= nodes[n].prev < |nodes| && -1 <= nodes[n].next < |nodes|
            && nodes[n].prev != n && nodes[n].next != n
            && NodesKept(nodes, Detached(nodes, n), Cut(ptrs, k))
  {
    assert Placed(nodes, ptrs, book, k);
    if k > 0 { assert Placed(nodes, ptrs, book, k - 1) && Differ(ptrs, k - 1, k); CutMembers(ptrs, k, ptrs[k - 1]); }
    if k + 1 < |book| {
      assert Placed(nodes, ptrs, book, k + 1) && Differ(ptrs, k, k + 1);
      CutMembers(ptrs, k, ptrs[k + 1]);
    }
  }

  // ---------------------------------------------------------------- one side

  /** Nodes that are not on this side are left alone. */
  ghost predicate NodesKept(before: seq<OrderNode>, after: seq<OrderNode>, ptrs: seq<int>) {
    && |after| == |before|
    && forall i {:trigger after[i]} :: 0 <= i < |after| && i !in ptrs ==> after[i] == before[i]
  }

  ghost predicate OnlyLevel(before: seq<PriceLevel>, after: seq<PriceLevel>, l: int) {
    && |after| == |before|
    && forall i {:trigger after[i]} :: 0 <= i < |after| && i != l ==> after[i] == before[i]
  }

  class OrderBook {
    const side: Side
    const store: Store
    const bestPrices: SkipList.SkipList
    const prices: FlatHashMaps.FlatHashMap<int>
    ghost var fastMap: map<int, int>
    ghost var ptrs: seq<int>
    ghost var book: seq<Order>

    /** The hash map and the skip list hold the same levels, each level chains exactly the orders at its price,
        and the orders stand in price-time priority. The hash map has more slots than there are levels. */
    ghost predicate Valid()
      reads this, store, bestPrices, prices
    {
      && Sorted(side, book) && OnSide(side, book)
      && Chained(store.nodes, ptrs, book)
      && LevelsOk(store.levels, fastMap, ptrs, book)
      && bestPrices.Valid() && bestPrices.descending == side.Buy?
      && bestPrices.contents == fastMap
      && prices.Ready() && prices.contents == fastMap && |store.levels| < prices.Capacity()
      && forall p :: p in fastMap ==> InPriceRange(p)
    }

    /** Prices lie strictly between the skip list's sentinels. */
    ghost predicate InPriceRange(p: int) { bestPrices.lowest < p < bestPrices.highest }

    constructor (side: Side, store: Store, lowest: int, highest: int, maxLevel: nat, size: nat, buckets: nat)
      requires lowest < highest && size >= 2 && |store.levels| < 16 * buckets
      ensures Valid() && book == [] && ptrs == [] && fastMap == map[]
      ensures this.side == side && this.store == store && fresh(bestPrices) && fresh(prices)
      ensures bestPrices.lowest == lowest && bestPrices.highest == highest
    {
      this.side := side;
      this.store := store;
      bestPrices := new SkipList.SkipList(side.Buy?, maxLevel, lowest, highest, size);
      prices := new FlatHashMaps.FlatHashMap(buckets, NULL);
      fastMap, ptrs, book := map[], [], [];
    }

    /** The level of the first order in priority, or null for an empty side. */
    method GetBestLevel() returns (l: int)
      requires Valid()
      ensures book == [] ==> l == NULL
      ensures book != [] ==> book[0].price in fastMap && l == fastMap[book[0].price] && 0 <= l < |store.levels|
      ensures book != [] ==> store.levels[l].price == book[0].price && store.levels[l].head == ptrs[0]
    {
      l := bestPrices.GetHead();
      if book == [] {
        forall p | p in fastMap ensures false {
          assert Tallied(store.levels, fastMap, book, p);
          CountIsPositive(book, p);
        }
        assert fastMap == map[];
      } else {
        assert Ends(store.levels, fastMap, ptrs, book, 0) && Tallied(store.levels, fastMap, book, book[0].price);
        ghost var k :| k in fastMap && l == fastMap[k]
                       && forall x :: x in fastMap ==> SkipList.Rank(side.Buy?, k) <= SkipList.Rank(side.Buy?, x);
        assert Tallied(store.levels, fastMap, book, k);
        CountIsPositive(book, k);
        ghost var i :| 0 <= i < |book| && book[i].price == k;
        assert Rank(side, book[0].price) <= Rank(side, book[i].price);
      }
    }

    /** Free levels belong to no price and carry no chain. */
    ghost predicate LevelsAvailable()
      reads this, store
    {
      forall i :: 0 <= i < |store.levelFree| ==>
        && 0 <= store.levelFree[i] < |store.levels|
        && store.levels[store.levelFree[i]].head == NULL
        && forall p :: p in fastMap ==> fastMap[p] != store.levelFree[i]
    }

    /** Put a node behind the last order at its price, opening the level if the price has none. */
    method AddLimitOrder(n: int) returns (l: int)
      requires Valid() && LevelsAvailable()
      requires 0 <= n < |store.nodes| && n !in ptrs && store.nodes[n].order.side == side
      requires InPriceRange(store.nodes[n].order.price)
      requires store.nodes[n].order.price in fastMap
               || (store.levelFree != [] && bestPrices.free != [] && prices.Takes(store.nodes[n].order.price))
      requires |store.nodeFree| <= |store.nodes|
      modifies this, store`nodes, store`levels, store`levelFree, store`nodeFree, bestPrices, prices
      ensures Valid()
      ensures var o := old(store.nodes[n].order);
              && book == Insert(side, old(book), o)
              && ptrs == Spliced(old(ptrs), Slot(side, old(book), o.price), n)
              && o.price in fastMap && l == fastMap[o.price] && 0 <= l < |store.levels|
              && store.levels[l].price == o.price
              && Congruent(store.levels[l].total, Depth(book, o.price))
              && (o.price in old(fastMap) ==> fastMap == old(fastMap) && store.levelFree == old(store.levelFree))
              && (o.price !in old(fastMap) ==>
                    fastMap == old(fastMap)[o.price := l] && old(store.levelFree) == store.levelFree + [l])
      ensures store.nodeFree == old(store.nodeFree)
      ensures NodesKept(old(store.nodes), store.nodes, ptrs)
      ensures OnlyLevel(old(store.levels), store.levels, l)
    {
      var o := store.nodes[n].order;
      ghost var k := Slot(side, book, o.price);
      assert Sorted(side, Insert(side, book, o)) && OnSide(side, Insert(side, book, o)) by {
        InsertSorted(side, book, o);
      }
      assert FitsAt(book, k, o) && (k > 0 && book[k - 1].price == o.price <==> o.price in fastMap) by {
        SlotFits(side, store.levels, fastMap, ptrs, book, o);
      }
      var found;
      found, l := prices.Lookup(o.price);
      if found {
        Join(l, n, k);
      } else {
        l := Open(n, k);
        prices.Insert(o.price, l);
        bestPrices.AddNode(o.price, l);
      }
    }

    /** The price has a level: append to it. */
    method Join(l: int, n: int, ghost k: nat)
      requires Chained(store.nodes, ptrs, book) && LevelsOk(store.levels, fastMap, ptrs, book)
      requires 0 <= n < |store.nodes| && n !in ptrs
      requires FitsAt(book, k, store.nodes[n].order) && k > 0 && book[k - 1].price == store.nodes[n].order.price
      requires store.nodes[n].order.price in fastMap && l == fastMap[store.nodes[n].order.price]
      modifies this`ptrs, this`book, store`nodes, store`levels
      ensures Chained(store.nodes, ptrs, book) && LevelsOk(store.levels, fastMap, ptrs, book)
      ensures ptrs == Spliced(old(ptrs), k, n) && book == Spliced(old(book), k, old(store.nodes[n].order))
      ensures 0 <= l < |store.levels| && store.levels[l].price == old(store.nodes[n].order.price)
      ensures Congruent(store.levels[l].total, Depth(book, old(store.nodes[n].order.price)))
      ensures NodesKept(old(store.nodes), store.nodes, ptrs)
      ensures OnlyLevel(old(store.levels), store.levels, l)
    {
      ghost var o := store.nodes[n].order;
      ghost var levels, nodes := store.levels, store.nodes;
      LevelHasHead(levels, fastMap, nodes, ptrs, book, o.price);
      assert Ends(levels, fastMap, ptrs, book, k - 1) && Placed(nodes, ptrs, book, k - 1);
      AppendChained(nodes, ptrs, book, k, n);
      JoinLevel(levels, fastMap, ptrs, book, k, n, o);
      AppendKeeps(nodes, ptrs, k, ptrs[k - 1], n);
      store.LevelAddOrder(l, n);
      ptrs, book := Spliced(ptrs, k, n), Spliced(book, k, o);
      assert Tallied(store.levels, fastMap, book, o.price);
    }

    /** The price has no level: take one from the pool, clear it and put the order in. */
    method Open(n: int, ghost k: nat) returns (l: int)
      requires Chained(store.nodes, ptrs, book) && LevelsOk(store.levels, fastMap, ptrs, book) && LevelsAvailable()
      requires 0 <= n < |store.nodes| && n !in ptrs && |store.nodeFree| <= |store.nodes|
      requires FitsAt(book, k, store.nodes[n].order) && !(k > 0 && book[k - 1].price == store.nodes[n].order.price)
      requires store.nodes[n].order.price !in fastMap && store.levelFree != []
      modifies this`ptrs, this`book, this`fastMap, store`nodes, store`levels, store`levelFree, store`nodeFree
      ensures Chained(store.nodes, ptrs, book) && LevelsOk(store.levels, fastMap, ptrs, book)
      ensures ptrs == Spliced(old(ptrs), k, n) && book == Spliced(old(book), k, old(store.nodes[n].order))
      ensures 0 <= l < |store.levels| && store.levels[l].price == old(store.nodes[n].order.price)
      ensures Congruent(store.levels[l].total, Depth(book, old(store.nodes[n].order.price)))
      ensures fastMap == old(fastMap)[old(store.nodes[n].order.price) := l]
      ensures old(store.levelFree) == store.levelFree + [l] && store.nodeFree == old(store.nodeFree)
      ensures NodesKept(old(store.nodes), store.nodes, ptrs)
      ensures OnlyLevel(old(store.levels), store.levels, l)
    {
      var key := store.nodes[n].order.price;
      ghost var o := store.nodes[n].order;
      ghost var levels, nodes := store.levels, store.nodes;
      l := store.levelFree[|store.levelFree| - 1];
      store.levelFree := store.levelFree[..|store.levelFree| - 1];
      store.ClearPriceLevel(l, []);
      store.levels := store.levels[l := store.levels[l].(price := key)];
      fastMap := fastMap[key := l];
      AppendChained(nodes, ptrs, book, k, n);
      StartLevel(levels, old(fastMap), ptrs, book, k, n, o, l);
      AppendKeeps(nodes, ptrs, k, NULL, n);
      store.LevelAddOrder(l, n);
      assert store.levels == levels[l := PriceLevel(key, 1, o.amount, n, n)];
      ptrs, book := Spliced(ptrs, k, n), Spliced(book, k, o);
      assert Tallied(store.levels, fastMap, book, key);
    }

    /** Take the order at `k` out of its level, the id map and, with its last order, the level out of both
        price indexes; node and level go back to their pools. The price always has a level here. */
    method DeleteOrder(n: int, ghost k: nat) returns (l: int)
      requires Valid()
      requires k < |ptrs| && ptrs[k] == n
      requires |store.nodeFree| < |store.nodes| && |store.levelFree| < |store.levels|
      requires store.ids.Ready() && store.ids.contents == store.orderMap && |store.orderMap| < store.ids.Capacity()
      requires |fastMap| <= |store.levels| && store.ids != prices
      modifies this, store, bestPrices, store.ids, prices
      ensures Valid()
      ensures book == Without(old(book), k) && ptrs == Cut(old(ptrs), k)
      ensures store.orderMap == old(store.orderMap) - {old(book)[k].id}
      ensures store.ids.Ready() && store.ids.contents == store.orderMap
      ensures old(store.ids.HomesWithRoom()) <= store.ids.HomesWithRoom()
      ensures store.nodeFree == old(store.nodeFree) + [n]
      ensures NodesKept(old(store.nodes), store.nodes, ptrs)
      ensures var p := old(book)[k].price;
              && p in old(fastMap) && OnlyLevel(old(store.levels), store.levels, old(fastMap)[p])
              && (l == NULL ==>
                    && fastMap == old(fastMap) - {p} && store.levelFree == old(store.levelFree) + [old(fastMap)[p]]
                    && 0 <= old(fastMap)[p] < |store.levels| && store.levels[old(fastMap)[p]].head == NULL
                    && Depth(book, p) == 0)
              && (l != NULL ==>
                    && fastMap == old(fastMap) && store.levelFree == old(store.levelFree)
                    && 0 <= l < |store.levels| && Congruent(store.levels[l].total, Depth(book, p)))
    {
      assert Placed(store.nodes, ptrs, book, k);
      store.ids.Erase(store.nodes[n].order.id);
      store.orderMap := store.orderMap - {store.nodes[n].order.id};
      l := Leave(n, k);
      var released := store.ReleaseNode(n);
    }

    /** Take the order at `k` out of its level and, with its last order, the level out of both price indexes. */
    method Leave(n: int, ghost k: nat) returns (l: int)
      requires Valid() && k < |ptrs| && ptrs[k] == n && |fastMap| <= |store.levels|
      modifies this, store`nodes, store`levels, store`levelFree, bestPrices, prices
      ensures Valid()
      ensures book == Without(old(book), k) && ptrs == Cut(old(ptrs), k)
      ensures NodesKept(old(store.nodes), store.nodes, ptrs)
      ensures var p := old(book)[k].price;
              && p in old(fastMap) && OnlyLevel(old(store.levels), store.levels, old(fastMap)[p])
              && (l == NULL ==>
                    && fastMap == old(fastMap) - {p} && store.levelFree == old(store.levelFree) + [old(fastMap)[p]]
                    && 0 <= old(fastMap)[p] < |store.levels| && store.levels[old(fastMap)[p]].head == NULL
                    && Depth(book, p) == 0)
              && (l != NULL ==>
                    && fastMap == old(fastMap) && store.levelFree == old(store.levelFree)
                    && 0 <= l < |store.levels| && Congruent(store.levels[l].total, Depth(book, p)))
    {
      assert Placed(store.nodes, ptrs, book, k) && Ends(store.levels, fastMap, ptrs, book, k);
      var key := store.nodes[n].order.price;
      SortedCutsClean(side, book, k);
      WithoutSorted(side, book, k);
      var _, cur := prices.Lookup(key);
      var emptied := Unlink(cur, n, k);
      if emptied {
        prices.Erase(key);
        bestPrices.DeleteNode(key);
        store.levelFree := store.levelFree + [cur];
        l := NULL;
      } else {
        l := cur;
      }
    }

    /** The writes of one match to the maker's side: the first order's amount and its level's total, the
        latter by a 32-bit negation widened to 64 bits. */
    method ReduceFirstOrder(l: int, n: int, traded: uint32)
      requires Valid() && book != [] && ptrs != []
      requires traded <= book[0].amount && n == ptrs[0]
      requires book[0].price in fastMap && l == fastMap[book[0].price]
      modifies store`nodes, store`levels, this`book
      ensures Valid()
      ensures book == old(book)[0 := old(book)[0].(amount := old(book)[0].amount - traded)]
      ensures NodesKept(old(store.nodes), store.nodes, ptrs)
      ensures 0 <= l < |store.levels| && OnlyLevel(old(store.levels), store.levels, l)
      ensures store.levels[l].price == book[0].price && Congruent(store.levels[l].total, Depth(book, book[0].price))
    {
      ghost var m := book[0].(amount := book[0].amount - traded);
      ReduceFirst(store.levels, fastMap, store.nodes, ptrs, book, traded);
      assert Placed(store.nodes, ptrs, book, 0) && ptrs[0] in ptrs;
      var order := store.nodes[n].order;
      store.nodes := store.nodes[n := store.nodes[n].(order := order.(amount := order.amount - traded))];
      store.levels := store.levels[l := store.levels[l].(total := Wrap64(store.levels[l].total + Negate32(traded)))];
      book := book[0 := m];
      assert Tallied(store.levels, fastMap, book, m.price);
    }

    /** Detach node `n` from level `l`, dropping the level from the price map when that empties it. */
    method Unlink(l: int, n: int, ghost k: nat) returns (emptied: bool)
      requires Chained(store.nodes, ptrs, book) && LevelsOk(store.levels, fastMap, ptrs, book)
      requires k < |ptrs| && ptrs[k] == n && CutsClean(book, k)
      requires book[k].price in fastMap && l == fastMap[book[k].price]
      modifies this`ptrs, this`book, this`fastMap, store`nodes, store`levels
      ensures Chained(store.nodes, ptrs, book) && LevelsOk(store.levels, fastMap, ptrs, book)
      ensures book == Cut(old(book), k) && ptrs == Cut(old(ptrs), k)
      ensures NodesKept(old(store.nodes), store.nodes, ptrs)
      ensures 0 <= l < |store.levels| && OnlyLevel(old(store.levels), store.levels, l)
      ensures fastMap == if emptied then old(fastMap) - {old(book)[k].price} else old(fastMap)
      ensures emptied ==> store.levels[l].head == NULL && Depth(book, old(book)[k].price) == 0
      ensures !emptied ==> Congruent(store.levels[l].total, Depth(book, old(book)[k].price))
    {
      ghost var nodes, levels, p := store.nodes, store.levels, book[k].price;
      DetachKeeps(nodes, ptrs, book, k);
      DetachChained(nodes, ptrs, book, k);
      LeaveLevel(levels, fastMap, nodes, ptrs, book, k);
      assert Placed(nodes, ptrs, book, k);
      var key := store.nodes[n].order.price;
      emptied := store.LevelDeleteOrder(l, n);
      ghost var before := book;
      if emptied {
        EmptiedHasNoNeighbours(levels, fastMap, nodes, ptrs, book, k);
        fastMap := fastMap - {key};
      }
      ptrs, book := Cut(ptrs, k), Cut(book, k);
      assert Tallied(store.levels, fastMap, book, p);
    }
  }

  /** A level's last order stands alone, and its price is then gone from the book. */
  lemma {:induction false} EmptiedHasNoNeighbours(levels: seq<PriceLevel>, fast: map<int, int>, nodes: seq<OrderNode>,
                                                  ptrs: seq<int>, book: seq<Order>, k: nat)
    requires Chained(nodes, ptrs, book) && LevelsOk(levels, fast, ptrs, book) && k < |book|
    requires book[k].price in fast && 0 <= fast[book[k].price] < |levels| && levels[fast[book[k].price]].size == 1
    ensures PrevOf(ptrs, book, k) == NULL && NextOf(ptrs, book, k) == NULL
    ensures Depth(Cut(book, k), book[k].price) == 0
  {
    var p, book' := book[k].price, Cut(book, k);
    assert Tallied(levels, fast, book, p);
    SumWithout(book, k, AtPrice(p));
    CountIsPositive(book', p);
    assert Count(book', p) == 0;
    NoneAtPrice(book', p);
    if k > 0 { assert book'[k - 1] == book[k - 1]; }
    if k + 1 < |book| { assert book'[k] == book[k + 1]; }
  }
}
