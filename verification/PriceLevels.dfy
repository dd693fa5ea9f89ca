/** The storage behind one side of the book: order nodes chained into one list per price level. A pointer
    is an index into a pool's storage, -1 is null. `ptrs` lists a side's nodes in priority order and `book`
    the orders they carry. */
module PriceLevels {
  import opened Domain
  import opened Reference
  import opened Seqs
  import opened Books
  import opened Words

  const NULL: int := -1

  datatype OrderNode = OrderNode(prev: int, next: int, order: Order)

  datatype PriceLevel = PriceLevel(price: int, size: int, total: int, head: int, tail: int)

  // ---------------------------------------------------------------- chained nodes

  predicate SamePrice(book: seq<Order>, i: int, j: int) {
    0 <= i < |book| && 0 <= j < |book| && book[i].price == book[j].price
  }

  /** A node's neighbours are the adjacent orders of the same price. */
  ghost function PrevOf(ptrs: seq<int>, book: seq<Order>, i: nat): int
    requires |ptrs| == |book| && i < |book|
  {
    if SamePrice(book, i - 1, i) then ptrs[i - 1] else NULL
  }

  ghost function NextOf(ptrs: seq<int>, book: seq<Order>, i: nat): int
    requires |ptrs| == |book| && i < |book|
  {
    if SamePrice(book, i, i + 1) then ptrs[i + 1] else NULL
  }

  ghost predicate Placed(nodes: seq<OrderNode>, ptrs: seq<int>, book: seq<Order>, i: nat)
    requires |ptrs| == |book| && i < |book|
  {
    0 <= ptrs[i] < |nodes| && nodes[ptrs[i]] == OrderNode(PrevOf(ptrs, book, i), NextOf(ptrs, book, i), book[i])
  }

  ghost predicate Chained(nodes: seq<OrderNode>, ptrs: seq<int>, book: seq<Order>) {
    && |ptrs| == |book| && NoRepeats(ptrs)
    && forall i {:trigger Placed(nodes, ptrs, book, i)} :: 0 <= i < |book| ==> Placed(nodes, ptrs, book, i)
  }

  /** The node writes of PriceLevel::AddOrder: `n` goes behind the level's tail, or starts a level. */
  ghost function Appended(nodes: seq<OrderNode>, tail: int, n: int): seq<OrderNode>
    requires 0 <= n < |nodes| && -1 <= tail < |nodes|
  {
    if tail == NULL then nodes[n := nodes[n].(prev := NULL, next := NULL)]
    else
      var linked := nodes[tail := nodes[tail].(next := n)];
      linked[n := linked[n].(prev := tail, next := NULL)]
  }

  /** The node writes of PriceLevel::DeleteOrder. */
  ghost function Detached(nodes: seq<OrderNode>, n: int): seq<OrderNode>
    requires 0 <= n < |nodes|
    requires -1 <= nodes[n].prev < |nodes| && -1 <= nodes[n].next < |nodes|
  {
    var p, q := nodes[n].prev, nodes[n].next;
    var nodes1 := if p == NULL then nodes else nodes[p := nodes[p].(next := q)];
    if q == NULL then nodes1 else nodes1[q := nodes1[q].(prev := p)]
  }

  /** Order `o` may stand at `k`: it closes its price group, and `k` splits no group. */
  predicate FitsAt(book: seq<Order>, k: nat, o: Order) {
    && k <= |book|
    && (k < |book| ==> book[k].price != o.price)
    && !SamePrice(book, k - 1, k)
  }

  lemma {:induction false} AppendPlaced(nodes: seq<OrderNode>, ptrs: seq<int>, book: seq<Order>, k: nat, n: int, i: nat)
    requires Chained(nodes, ptrs, book) && 0 <= n < |nodes| && n !in ptrs && FitsAt(book, k, nodes[n].order)
    requires i < |book| && Placed(nodes, ptrs, book, i)
    ensures var o := nodes[n].order;
            var tail := if k > 0 && book[k - 1].price == o.price then ptrs[k - 1] else NULL;
            -1 <= tail < |nodes| &&
            Placed(Appended(nodes, tail, n), Spliced(ptrs, k, n), Spliced(book, k, o), if i < k then i else i + 1)
  {
    if k > 0 {
      assert Placed(nodes, ptrs, book, k - 1);
      if i < k - 1 { assert Differ(ptrs, i, k - 1); } else if i > k - 1 { assert Differ(ptrs, k - 1, i); }
    }
    assert ptrs[i] in ptrs;
  }

  lemma {:induction false} AppendChained(nodes: seq<OrderNode>, ptrs: seq<int>, book: seq<Order>, k: nat, n: int)
    requires Chained(nodes, ptrs, book) && 0 <= n < |nodes| && n !in ptrs && FitsAt(book, k, nodes[n].order)
    ensures var o := nodes[n].order;
            var tail := if k > 0 && book[k - 1].price == o.price then ptrs[k - 1] else NULL;
            && -1 <= tail < |nodes|
            && Chained(Appended(nodes, tail, n), Spliced(ptrs, k, n), Spliced(book, k, o))
  {
    var o := nodes[n].order;
    var tail := if k > 0 && book[k - 1].price == o.price then ptrs[k - 1] else NULL;
    var ptrs', book' := Spliced(ptrs, k, n), Spliced(book, k, o);
    if k > 0 { assert Placed(nodes, ptrs, book, k - 1) && ptrs[k - 1] in ptrs; }
    SplicedDistinct(ptrs, k, n);
    var nodes' := Appended(nodes, tail, n);
    forall i {:trigger Placed(nodes', ptrs', book', i)} | 0 <= i < |book'| ensures Placed(nodes', ptrs', book', i) {
      if i < k {
        assert Placed(nodes, ptrs, book, i);
        AppendPlaced(nodes, ptrs, book, k, n, i);
      } else if i > k {
        assert Placed(nodes, ptrs, book, i - 1);
        AppendPlaced(nodes, ptrs, book, k, n, i - 1);
      }
    }
  }

  /** Cutting `k` joins no two groups. */
  predicate CutsClean(book: seq<Order>, k: nat) {
    k < |book| && (SamePrice(book, k - 1, k + 1) ==> SamePrice(book, k - 1, k))
  }

  lemma {:induction false} DetachPlaced(nodes: seq<OrderNode>, ptrs: seq<int>, book: seq<Order>, k: nat, i: nat)
    requires Chained(nodes, ptrs, book) && CutsClean(book, k) && i < |book| && i != k
    requires Placed(nodes, ptrs, book, i) && Placed(nodes, ptrs, book, k)
    requires k > 0 ==> Placed(nodes, ptrs, book, k - 1)
    requires k + 1 < |book| ==> Placed(nodes, ptrs, book, k + 1)
    ensures var n := ptrs[k];
            -1 <= nodes[n].prev < |nodes| && -1 <= nodes[n].next < |nodes| &&
            Placed(Detached(nodes, n), Cut(ptrs, k), Cut(book, k), if i < k then i else i - 1)
  {
    if k > 0 && i != k - 1 { assert if i < k - 1 then Differ(ptrs, i, k - 1) else Differ(ptrs, k - 1, i); }
    if k + 1 < |book| && i != k + 1 { assert if i < k + 1 then Differ(ptrs, i, k + 1) else Differ(ptrs, k + 1, i); }
  }

  lemma {:induction false} DetachChained(nodes: seq<OrderNode>, ptrs: seq<int>, book: seq<Order>, k: nat)
    requires Chained(nodes, ptrs, book) && CutsClean(book, k)
    ensures var n := ptrs[k];
            && 0 <= n < |nodes| && -1 <= nodes[n].prev < |nodes| && -1 <= nodes[n].next < |nodes|
            && Chained(Detached(nodes, n), Cut(ptrs, k), Cut(book, k))
  {
    assert Placed(nodes, ptrs, book, k);
    if k > 0 { assert Placed(nodes, ptrs, book, k - 1); }
    if k + 1 < |book| { assert Placed(nodes, ptrs, book, k + 1); }
    CutDistinct(ptrs, k);
    var nodes', ptrs', book' := Detached(nodes, ptrs[k]), Cut(ptrs, k), Cut(book, k);
    forall i {:trigger Placed(nodes', ptrs', book', i)} | 0 <= i < |book'| ensures Placed(nodes', ptrs', book', i) {
      var o := if i < k then i else i + 1;
      assert Placed(nodes, ptrs, book, o);
      DetachPlaced(nodes, ptrs, book, k, o);
    }
  }

  // ---------------------------------------------------------------- price levels

  /** The level of order `i`'s price starts at the group's first node and ends at its last. */
  ghost predicate Ends(levels: seq<PriceLevel>, fast: map<int, int>, ptrs: seq<int>, book: seq<Order>, i: nat)
    requires |ptrs| == |book| && i < |book|
  {
    var p := book[i].price;
    && p in fast && 0 <= fast[p] < |levels|
    && (!SamePrice(book, i - 1, i) ==> levels[fast[p]].head == ptrs[i])
    && (!SamePrice(book, i, i + 1) ==> levels[fast[p]].tail == ptrs[i])
  }

  /** A level in the price map counts its orders; its 64-bit total is right modulo 2^32. */
  ghost predicate Tallied(levels: seq<PriceLevel>, fast: map<int, int>, book: seq<Order>, p: int) {
    p in fast ==>
      && 0 <= fast[p] < |levels|
      && levels[fast[p]].price == p
      && levels[fast[p]].size == Count(book, p) > 0
      && Congruent(levels[fast[p]].total, Depth(book, p))
  }

  ghost predicate LevelsOk(levels: seq<PriceLevel>, fast: map<int, int>, ptrs: seq<int>, book: seq<Order>) {
    && |ptrs| == |book|
    && (forall i {:trigger Ends(levels, fast, ptrs, book, i)} :: 0 <= i < |book| ==> Ends(levels, fast, ptrs, book, i))
    && (forall p {:trigger Tallied(levels, fast, book, p)} :: Tallied(levels, fast, book, p))
  }

  ghost function FirstAt(book: seq<Order>, p: int): (i: nat)
    ensures i <= |book|
    ensures i < |book| ==> book[i].price == p
    ensures forall j :: 0 <= j < i ==> book[j].price != p
  {
    if book == [] || book[0].price == p then 0 else 1 + FirstAt(book[1..], p)
  }

  /** A level in the price map is never empty. */
  lemma {:induction false} LevelHasHead(levels: seq<PriceLevel>, fast: map<int, int>, nodes: seq<OrderNode>,
                                        ptrs: seq<int>, book: seq<Order>, p: int)
    requires Chained(nodes, ptrs, book) && LevelsOk(levels, fast, ptrs, book) && p in fast
    ensures 0 <= fast[p] < |levels| && 0 <= levels[fast[p]].head < |nodes|
  {
    var i := FirstAt(book, p);
    assert Tallied(levels, fast, book, p);
    CountIsPositive(book, p);
    assert i < |book|;
    assert Ends(levels, fast, ptrs, book, i) && Placed(nodes, ptrs, book, i);
  }

  /** The level writes of AddOrder. */
  ghost function Grown(level: PriceLevel, n: int, amount: uint32): PriceLevel {
    level.(size := level.size + 1, total := Wrap64(level.total + amount),
           head := if level.head == NULL then n else level.head, tail := n)
  }

  /** The level writes of DeleteOrder for a node with these neighbours. */
  ghost function Shrunk(level: PriceLevel, node: OrderNode): PriceLevel {
    level.(size := level.size - 1, total := Wrap64(level.total - node.order.amount),
           head := if node.prev == NULL then node.next else level.head,
           tail := if node.next == NULL then node.prev else level.tail)
  }

  lemma {:induction false} JoinTallied(levels: seq<PriceLevel>, fast: map<int, int>, book: seq<Order>, k: nat, n: int,
                                       o: Order, q: int)
    requires o.price in fast && k <= |book|
    requires Tallied(levels, fast, book, o.price) && Tallied(levels, fast, book, q)
    ensures Tallied(levels[fast[o.price] := Grown(levels[fast[o.price]], n, o.amount)], fast, Spliced(book, k, o), q)
  {
    DepthSpliced(book, k, o, q);
    SumSpliced(book, k, o, AtPrice(q));
    if q == o.price { WrappedSum(levels[fast[q]].total, Depth(book, q), o.amount, o.amount); }
  }

  lemma {:induction false} JoinEnds(levels: seq<PriceLevel>, fast: map<int, int>, ptrs: seq<int>, book: seq<Order>,
                                    k: nat, n: int, o: Order, i: nat)
    requires LevelsOk(levels, fast, ptrs, book) && NoRepeats(ptrs)
    requires FitsAt(book, k, o) && k > 0 && book[k - 1].price == o.price
    requires i < |book| && Ends(levels, fast, ptrs, book, i) && Ends(levels, fast, ptrs, book, k - 1)
    requires levels[fast[o.price]].head != NULL
    ensures Ends(levels[fast[o.price] := Grown(levels[fast[o.price]], n, o.amount)], fast,
                 Spliced(ptrs, k, n), Spliced(book, k, o), if i < k then i else i + 1)
  {
    assert Tallied(levels, fast, book, o.price) && Tallied(levels, fast, book, book[i].price);
    if i != k - 1 { assert if i < k - 1 then Differ(ptrs, i, k - 1) else Differ(ptrs, k - 1, i); }
  }

  /** An order joins its price's level. */
  lemma {:induction false} JoinLevel(levels: seq<PriceLevel>, fast: map<int, int>, ptrs: seq<int>, book: seq<Order>,
                                     k: nat, n: int, o: Order)
    requires LevelsOk(levels, fast, ptrs, book) && NoRepeats(ptrs)
    requires FitsAt(book, k, o) && k > 0 && book[k - 1].price == o.price
    requires o.price in fast && 0 <= fast[o.price] < |levels| && levels[fast[o.price]].head != NULL
    ensures LevelsOk(levels[fast[o.price] := Grown(levels[fast[o.price]], n, o.amount)], fast,
                     Spliced(ptrs, k, n), Spliced(book, k, o))
  {
    var levels' := levels[fast[o.price] := Grown(levels[fast[o.price]], n, o.amount)];
    var ptrs', book' := Spliced(ptrs, k, n), Spliced(book, k, o);
    assert Ends(levels, fast, ptrs, book, k - 1);
    forall i {:trigger Ends(levels', fast, ptrs', book', i)} | 0 <= i < |book'|
      ensures Ends(levels', fast, ptrs', book', i)
    {
      if i != k {
        var j := if i < k then i else i - 1;
        assert Ends(levels, fast, ptrs, book, j);
        JoinEnds(levels, fast, ptrs, book, k, n, o, j);
      }
    }
    forall p {:trigger Tallied(levels', fast, book', p)} ensures Tallied(levels', fast, book', p) {
      assert Tallied(levels, fast, book, o.price) && Tallied(levels, fast, book, p);
      JoinTallied(levels, fast, book, k, n, o, p);
    }
  }

  /** A price without orders gets the fresh level `l`. */
  lemma {:induction false} StartLevel(levels: seq<PriceLevel>, fast: map<int, int>, ptrs: seq<int>, book: seq<Order>,
                                      k: nat, n: int, o: Order, l: int)
    requires LevelsOk(levels, fast, ptrs, book) && FitsAt(book, k, o)
    requires o.price !in fast && 0 <= l < |levels| && forall p :: p in fast ==> fast[p] != l
    ensures LevelsOk(levels[l := PriceLevel(o.price, 1, o.amount, n, n)], fast[o.price := l],
                     Spliced(ptrs, k, n), Spliced(book, k, o))
  {
    var levels', fast' := levels[l := PriceLevel(o.price, 1, o.amount, n, n)], fast[o.price := l];
    var ptrs', book' := Spliced(ptrs, k, n), Spliced(book, k, o);
    forall i | 0 <= i < |book| ensures book[i].price != o.price { assert Ends(levels, fast, ptrs, book, i); }
    NoneAtPrice(book, o.price);
    forall i {:trigger Ends(levels', fast', ptrs', book', i)} | 0 <= i < |book'|
      ensures Ends(levels', fast', ptrs', book', i)
    {
      if i != k { assert Ends(levels, fast, ptrs, book, if i < k then i else i - 1); }
    }
    forall p {:trigger Tallied(levels', fast', book', p)} ensures Tallied(levels', fast', book', p) {
      assert Tallied(levels, fast, book, p);
      DepthSpliced(book, k, o, p);
      SumSpliced(book, k, o, AtPrice(p));
    }
  }

  lemma {:induction false} LeaveTallied(levels: seq<PriceLevel>, fast: map<int, int>, book: seq<Order>, k: nat,
                                        node: OrderNode, q: int)
    requires k < |book| && node.order == book[k] && book[k].price in fast
    requires Tallied(levels, fast, book, book[k].price) && Tallied(levels, fast, book, q)
    ensures var p := book[k].price;
            var level := Shrunk(levels[fast[p]], node);
            && (level.size > 0 || q != p ==> Tallied(levels[fast[p] := level], fast, Cut(book, k), q))
            && level.size == Count(Cut(book, k), p)
  {
    DepthWithout(book, k, q);
    SumWithout(book, k, AtPrice(q));
    SumWithout(book, k, AtPrice(book[k].price));
    if q == book[k].price {
      WrappedSum(levels[fast[q]].total, Depth(book, q), -(book[k].amount as int), -(book[k].amount as int));
    }
  }

  lemma {:induction false} LeaveEnds(levels: seq<PriceLevel>, fast: map<int, int>, nodes: seq<OrderNode>,
                                     ptrs: seq<int>, book: seq<Order>, k: nat, i: nat)
    requires LevelsOk(levels, fast, ptrs, book) && NoRepeats(ptrs) && CutsClean(book, k)
    requires Placed(nodes, ptrs, book, k) && InRange(ptrs, |nodes|)
    requires i < |book| && i != k && Ends(levels, fast, ptrs, book, i) && Ends(levels, fast, ptrs, book, k)
    ensures var p := book[k].price;
            Ends(levels[fast[p] := Shrunk(levels[fast[p]], nodes[ptrs[k]])], fast,
                 Cut(ptrs, k), Cut(book, k), if i < k then i else i - 1)
  {
    assert Tallied(levels, fast, book, book[k].price) && Tallied(levels, fast, book, book[i].price);
    assert if i < k then Differ(ptrs, i, k) else Differ(ptrs, k, i);
  }

  /** An order leaves its level; the level goes with its last order. */
  lemma {:induction false} LeaveLevel(levels: seq<PriceLevel>, fast: map<int, int>, nodes: seq<OrderNode>,
                                      ptrs: seq<int>, book: seq<Order>, k: nat)
    requires LevelsOk(levels, fast, ptrs, book) && Chained(nodes, ptrs, book) && CutsClean(book, k)
    ensures book[k].price in fast && 0 <= fast[book[k].price] < |levels| && 0 <= ptrs[k] < |nodes|
    ensures var p := book[k].price;
            var level := Shrunk(levels[fast[p]], nodes[ptrs[k]]);
            LevelsOk(levels[fast[p] := level], if level.size == 0 then fast - {p} else fast, Cut(ptrs, k), Cut(book, k))
  {
    assert Ends(levels, fast, ptrs, book, k) && Placed(nodes, ptrs, book, k);
    forall i | 0 <= i < |ptrs| ensures 0 <= ptrs[i] < |nodes| { assert Placed(nodes, ptrs, book, i); }
    var p := book[k].price;
    var level := Shrunk(levels[fast[p]], nodes[ptrs[k]]);
    var levels', fast' := levels[fast[p] := level], if level.size == 0 then fast - {p} else fast;
    var ptrs', book' := Cut(ptrs, k), Cut(book, k);
    assert Tallied(levels, fast, book, p);
    LeaveTallied(levels, fast, book, k, nodes[ptrs[k]], p);
    CountIsPositive(book', p);
    forall i {:trigger Ends(levels', fast', ptrs', book', i)} | 0 <= i < |book'|
      ensures Ends(levels', fast', ptrs', book', i)
    {
      var j := if i < k then i else i + 1;
      assert Ends(levels, fast, ptrs, book, j);
      LeaveEnds(levels, fast, nodes, ptrs, book, k, j);
    }
    forall q {:trigger Tallied(levels', fast', book', q)} ensures Tallied(levels', fast', book', q) {
      assert Tallied(levels, fast, book, q);
      LeaveTallied(levels, fast, book, k, nodes[ptrs[k]], q);
    }
  }

  /** Trading part of the first order: its node's amount and its level's total change, nothing else. */
  lemma {:induction false} ReduceFirst(levels: seq<PriceLevel>, fast: map<int, int>, nodes: seq<OrderNode>,
                                       ptrs: seq<int>, book: seq<Order>, traded: uint32)
    requires LevelsOk(levels, fast, ptrs, book) && Chained(nodes, ptrs, book)
    requires book != [] && traded <= book[0].amount
    ensures 0 <= ptrs[0] < |nodes| && book[0].price in fast && 0 <= fast[book[0].price] < |levels|
    ensures var m := book[0].(amount := book[0].amount - traded);
            var l := fast[book[0].price];
            && Chained(nodes[ptrs[0] := nodes[ptrs[0]].(order := m)], ptrs, book[0 := m])
            && LevelsOk(levels[l := levels[l].(total := Wrap64(levels[l].total + Negate32(traded)))], fast, ptrs,
                        book[0 := m])
  {
    assert Placed(nodes, ptrs, book, 0) && Ends(levels, fast, ptrs, book, 0);
    var p, m := book[0].price, book[0].(amount := book[0].amount - traded);
    var l, book' := fast[p], book[0 := m];
    var nodes' := nodes[ptrs[0] := nodes[ptrs[0]].(order := m)];
    var levels' := levels[l := levels[l].(total := Wrap64(levels[l].total + Negate32(traded)))];
    forall i {:trigger Placed(nodes', ptrs, book', i)} | 0 <= i < |book'| ensures Placed(nodes', ptrs, book', i) {
      assert Placed(nodes, ptrs, book, i);
      if i > 0 { assert Differ(ptrs, 0, i); }
    }
    assert Tallied(levels, fast, book, p);
    forall i {:trigger Ends(levels', fast, ptrs, book', i)} | 0 <= i < |book'|
      ensures Ends(levels', fast, ptrs, book', i)
    {
      assert Ends(levels, fast, ptrs, book, i);
    }
    assert book'[1..] == book[1..];
    forall q {:trigger Tallied(levels', fast, book', q)} ensures Tallied(levels', fast, book', q) {
      assert Tallied(levels, fast, book, q);
      if q == p {
        NegateIsMinus(traded);
        WrappedSum(levels[l].total, Depth(book, p), Negate32(traded), -(traded as int));
      }
    }
  }
}
