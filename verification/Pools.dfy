/** Ownership of pooled nodes and levels by the two sides of a book and the order-id map over them. */
module Pools {
  import opened Domain
  import opened Priority
  import opened Seqs
  import opened PriceLevels

  // ---------------------------------------------------------------- order nodes

  /** A node is free, or on one side, and never two of these. */
  ghost predicate Once(free: seq<int>, own: seq<int>, other: seq<int>, x: int) {
    && (x in free || x in own || x in other)
    && !(x in free && x in own) && !(x in free && x in other) && !(x in own && x in other)
  }

  ghost predicate NodesOnce(size: nat, free: seq<int>, own: seq<int>, other: seq<int>) {
    && NoRepeats(free) && InRange(free, size)
    && |free| + |own| + |other| == size
    && forall x {:trigger Once(free, own, other, x)} :: 0 <= x < size ==> Once(free, own, other, x)
  }

  lemma {:induction false} NodesOnceSwap(size: nat, free: seq<int>, own: seq<int>, other: seq<int>)
    requires NodesOnce(size, free, own, other)
    ensures NodesOnce(size, free, other, own)
  {
    forall x {:trigger Once(free, other, own, x)} | 0 <= x < size ensures Once(free, other, own, x) {
      assert Once(free, own, other, x);
    }
  }

  lemma {:induction false} PushMembers(s: seq<int>, n: int, x: int)
    ensures x in s + [n] <==> x in s || x == n
  {
    assert (s + [n])[|s|] == n;
    if x in s { var i :| 0 <= i < |s| && s[i] == x; assert (s + [n])[i] == x; }
  }

  lemma {:induction false} PushDistinct(s: seq<int>, n: int)
    ensures NoRepeats(s + [n]) <==> NoRepeats(s) && n !in s
  {
    var r := s + [n];
    if NoRepeats(r) {
      forall i, j | 0 <= i < j < |s| ensures Differ(s, i, j) { assert Differ(r, i, j); }
      forall i | 0 <= i < |s| ensures s[i] != n { assert Differ(r, i, |s|); }
    }
    if NoRepeats(s) && n !in s {
      forall i, j | 0 <= i < j < |r| ensures Differ(r, i, j) {
        if j < |s| { assert Differ(s, i, j); } else { assert s[i] in s; }
      }
    }
  }

  /** The node last freed goes to position `k` of a side. */
  lemma {:induction false} TakeNode(size: nat, free: seq<int>, n: int, own: seq<int>, other: seq<int>, k: nat)
    requires NodesOnce(size, free + [n], own, other) && k <= |own|
    ensures 0 <= n < size && n !in own && n !in other && n !in free
    ensures NodesOnce(size, free, Spliced(own, k, n), other)
  {
    PushDistinct(free, n);
    assert (free + [n])[|free|] == n;
    PushMembers(free, n, n);
    assert Once(free + [n], own, other, n);
    forall i | 0 <= i < |free| ensures 0 <= free[i] < size { assert (free + [n])[i] == free[i]; }
    forall x {:trigger Once(free, Spliced(own, k, n), other, x)} | 0 <= x < size
      ensures Once(free, Spliced(own, k, n), other, x)
    {
      assert Once(free + [n], own, other, x);
      PushMembers(free, n, x);
      SplicedMembers(own, k, n, x);
    }
  }

  /** The node at position `k` of a side goes back to the free list. */
  lemma {:induction false} ReturnNode(size: nat, free: seq<int>, own: seq<int>, other: seq<int>, k: nat)
    requires NodesOnce(size, free, own, other) && NoRepeats(own) && InRange(own, size) && k < |own|
    ensures NodesOnce(size, free + [own[k]], Cut(own, k), other)
  {
    var n := own[k];
    assert n in own;
    assert Once(free, own, other, n);
    PushDistinct(free, n);
    forall x {:trigger Once(free + [n], Cut(own, k), other, x)} | 0 <= x < size
      ensures Once(free + [n], Cut(own, k), other, x)
    {
      assert Once(free, own, other, x);
      PushMembers(free, n, x);
      CutMembers(own, k, x);
    }
  }

  // ---------------------------------------------------------------- price levels

  ghost predicate Uses(m: map<int, int>, x: int) { exists p :: p in m && m[p] == x }

  ghost predicate LevelOnce(levels: seq<PriceLevel>, free: seq<int>, own: map<int, int>, other: map<int, int>, x: int)
    requires 0 <= x < |levels|
  {
    && (x in free || Uses(own, x) || Uses(other, x))
    && !(x in free && Uses(own, x)) && !(x in free && Uses(other, x)) && !(Uses(own, x) && Uses(other, x))
    && (x in free ==> levels[x].head == NULL)
  }

  ghost predicate LevelsOnce(levels: seq<PriceLevel>, free: seq<int>, own: map<int, int>, other: map<int, int>) {
    && NoRepeats(free) && InRange(free, |levels|)
    && |free| + |own| + |other| == |levels|
    && forall x {:trigger LevelOnce(levels, free, own, other, x)} :: 0 <= x < |levels| ==>
         LevelOnce(levels, free, own, other, x)
  }

  lemma {:induction false} LevelsOnceSwap(levels: seq<PriceLevel>, free: seq<int>, own: map<int, int>,
                                          other: map<int, int>)
    requires LevelsOnce(levels, free, own, other)
    ensures LevelsOnce(levels, free, other, own)
  {
    forall x {:trigger LevelOnce(levels, free, other, own, x)} | 0 <= x < |levels|
      ensures LevelOnce(levels, free, other, own, x)
    {
      assert LevelOnce(levels, free, own, other, x);
    }
  }

  /** Changing a level in use keeps every level owned once. */
  lemma {:induction false} ChangeLevel(levels: seq<PriceLevel>, levels': seq<PriceLevel>, free: seq<int>,
                                       own: map<int, int>, other: map<int, int>, l: int)
    requires LevelsOnce(levels, free, own, other) && |levels'| == |levels| && Uses(own, l)
    requires forall i {:trigger levels'[i]} :: 0 <= i < |levels'| && i != l ==> levels'[i] == levels[i]
    ensures LevelsOnce(levels', free, own, other)
  {
    forall x {:trigger LevelOnce(levels', free, own, other, x)} | 0 <= x < |levels'|
      ensures LevelOnce(levels', free, own, other, x)
    {
      assert LevelOnce(levels, free, own, other, x);
    }
  }

  lemma {:induction false} TakeLevel(levels: seq<PriceLevel>, levels': seq<PriceLevel>, free: seq<int>, l: int,
                                     own: map<int, int>, other: map<int, int>, p: int)
    requires LevelsOnce(levels, free + [l], own, other) && |levels'| == |levels| && p !in own
    requires forall i {:trigger levels'[i]} :: 0 <= i < |levels'| && i != l ==> levels'[i] == levels[i]
    ensures LevelsOnce(levels', free, own[p := l], other)
  {
    var own' := own[p := l];
    PushDistinct(free, l);
    PushMembers(free, l, l);
    assert (free + [l])[|free|] == l;
    forall i | 0 <= i < |free| ensures 0 <= free[i] < |levels| { assert (free + [l])[i] == free[i]; }
    forall x {:trigger LevelOnce(levels', free, own', other, x)} | 0 <= x < |levels'|
      ensures LevelOnce(levels', free, own', other, x)
    {
      assert LevelOnce(levels, free + [l], own, other, x);
      PushMembers(free, l, x);
      UsesAfterAdd(own, p, l, x);
    }
  }

  lemma {:induction false} UsesAfterAdd(m: map<int, int>, p: int, l: int, x: int)
    requires p !in m
    ensures Uses(m[p := l], x) <==> Uses(m, x) || x == l
  {
    if Uses(m, x) { var q :| q in m && m[q] == x; assert m[p := l][q] == x; }
    if x == l { assert m[p := l][p] == x; }
  }

  lemma {:induction false} UsesAfterDrop(m: map<int, int>, p: int, x: int)
    requires p in m && forall q :: q in m && m[q] == m[p] ==> q == p
    ensures Uses(m - {p}, x) <==> Uses(m, x) && x != m[p]
  {
    if Uses(m, x) && x != m[p] { var q :| q in m && m[q] == x; assert (m - {p})[q] == x; }
  }

  lemma {:induction false} ReturnLevel(levels: seq<PriceLevel>, levels': seq<PriceLevel>, free: seq<int>,
                                       own: map<int, int>, other: map<int, int>, p: int)
    requires LevelsOnce(levels, free, own, other) && |levels'| == |levels|
    requires p in own && 0 <= own[p] < |levels| && forall q :: q in own && own[q] == own[p] ==> q == p
    requires levels'[own[p]].head == NULL
    requires forall i {:trigger levels'[i]} :: 0 <= i < |levels'| && i != own[p] ==> levels'[i] == levels[i]
    ensures LevelsOnce(levels', free + [own[p]], own - {p}, other)
  {
    var l, own' := own[p], own - {p};
    assert Uses(own, l);
    assert LevelOnce(levels, free, own, other, l);
    PushDistinct(free, l);
    forall x {:trigger LevelOnce(levels', free + [l], own', other, x)} | 0 <= x < |levels'|
      ensures LevelOnce(levels', free + [l], own', other, x)
    {
      assert LevelOnce(levels, free, own, other, x);
      PushMembers(free, l, x);
      UsesAfterDrop(own, p, x);
    }
    assert |own'| == |own| - 1;
  }

  // ---------------------------------------------------------------- order ids

  ghost predicate Indexed(ids: map<int, int>, ptrs: seq<int>, book: seq<Order>) {
    |ptrs| == |book| && forall i :: 0 <= i < |book| ==> book[i].id in ids && ids[book[i].id] == ptrs[i]
  }

  ghost predicate Has(book: seq<Order>, id: int) { exists i :: 0 <= i < |book| && book[i].id == id }

  /** The id map holds exactly the resting orders of both sides. */
  ghost predicate IdsOk(ids: map<int, int>, ptrs: seq<int>, book: seq<Order>, ptrs2: seq<int>, book2: seq<Order>) {
    && Indexed(ids, ptrs, book) && Indexed(ids, ptrs2, book2)
    && |ids| == |book| + |book2|
    && forall id :: id in ids ==> Has(book, id) || Has(book2, id)
  }

  lemma {:induction false} AddId(ids: map<int, int>, ptrs: seq<int>, book: seq<Order>, ptrs2: seq<int>,
                                 book2: seq<Order>, k: nat, n: int, o: Order)
    requires IdsOk(ids, ptrs, book, ptrs2, book2) && k <= |book| && FreshId(book, o.id) && FreshId(book2, o.id)
    ensures o.id !in ids && IdsOk(ids[o.id := n], Spliced(ptrs, k, n), Spliced(book, k, o), ptrs2, book2)
  {
    var ids', ptrs', book' := ids[o.id := n], Spliced(ptrs, k, n), Spliced(book, k, o);
    forall i | 0 <= i < |book'| ensures book'[i].id in ids' && ids'[book'[i].id] == ptrs'[i] {
      if i != k { assert book'[i] == book[if i < k then i else i - 1]; }
    }
    forall id | id in ids' ensures Has(book', id) || Has(book2, id) {
      if id == o.id {
        assert book'[k].id == id;
      } else if Has(book, id) {
        var i :| 0 <= i < |book| && book[i].id == id;
        assert book'[if i < k then i else i + 1].id == id;
      }
    }
    assert o.id !in ids;
  }

  lemma {:induction false} DropId(ids: map<int, int>, ptrs: seq<int>, book: seq<Order>, ptrs2: seq<int>,
                                  book2: seq<Order>, k: nat)
    requires IdsOk(ids, ptrs, book, ptrs2, book2) && k < |book| && DistinctIds(book) && FreshId(book2, book[k].id)
    ensures IdsOk(ids - {book[k].id}, Cut(ptrs, k), Cut(book, k), ptrs2, book2)
  {
    var ids', ptrs', book' := ids - {book[k].id}, Cut(ptrs, k), Cut(book, k);
    forall i | 0 <= i < |book'| ensures book'[i].id in ids' && ids'[book'[i].id] == ptrs'[i] {
      assert book'[i] == book[if i < k then i else i + 1];
    }
    forall id | id in ids' ensures Has(book', id) || Has(book2, id) {
      if Has(book, id) {
        var i :| 0 <= i < |book| && book[i].id == id;
        assert book'[if i < k then i else i - 1].id == id;
      }
    }
    assert |ids'| == |ids| - 1;
  }
}
