/** Quantities over a book that gains, loses or trades one order. */
module Books {
  import opened Domain
  import opened Reference
  import opened Sums

  lemma {:induction false} DepthConcat(x: seq<Order>, y: seq<Order>, p: int)
    ensures Depth(x + y, p) == Depth(x, p) + Depth(y, p)
  {
    if x == [] {
      assert x + y == y;
    } else {
      assert (x + y)[1..] == x[1..] + y;
      DepthConcat(x[1..], y, p);
    }
  }

  lemma {:induction false} DepthSpliced(book: seq<Order>, k: nat, o: Order, p: int)
    requires k <= |book|
    ensures Depth(book[..k] + [o] + book[k..], p) == Depth(book, p) + (if o.price == p then o.amount else 0)
  {
    DepthConcat(book[..k] + [o], book[k..], p);
    DepthConcat(book[..k], [o], p);
    DepthConcat(book[..k], book[k..], p);
    assert book[..k] + book[k..] == book;
  }

  lemma {:induction false} DepthInsert(side: Side, book: seq<Order>, o: Order, p: int)
    ensures Depth(Insert(side, book, o), p) == Depth(book, p) + (if o.price == p then o.amount else 0)
  {
    DepthSpliced(book, Slot(side, book, o.price), o, p);
  }

  lemma {:induction false} DepthWithout(book: seq<Order>, k: nat, p: int)
    requires k < |book|
    ensures Depth(book, p) == Depth(Without(book, k), p) + (if book[k].price == p then book[k].amount else 0)
  {
    DepthConcat(book[..k], book[k..], p);
    DepthConcat(book[..k], book[k + 1..], p);
    assert book[..k] + book[k..] == book;
  }

  lemma {:induction false} DepthAfterMatch(o: Order, book: seq<Order>, p: int)
    requires book != []
    ensures Depth(book, p) == Depth(AfterMatch(o, book), p)
                              + (if book[0].price == p then Min(o.amount, book[0].amount) else 0)
  {
    var m := MakerLeft(o, book[0]);
    assert ([m] + book[1..])[1..] == book[1..];
  }

  lemma {:induction false} SumSpliced(book: seq<Order>, k: nat, o: Order, f: Order -> int)
    requires k <= |book|
    ensures Sum(book[..k] + [o] + book[k..], f) == Sum(book, f) + f(o)
  {
    SumConcat(book[..k] + [o], book[k..], f);
    SumConcat(book[..k], [o], f);
    SumOne(o, f);
    SumConcat(book[..k], book[k..], f);
    assert book[..k] + book[k..] == book;
  }

  lemma {:induction false} SumInsert(side: Side, book: seq<Order>, o: Order, f: Order -> int)
    ensures Sum(Insert(side, book, o), f) == Sum(book, f) + f(o)
  {
    SumSpliced(book, Slot(side, book, o.price), o, f);
  }

  lemma {:induction false} SumWithout(book: seq<Order>, k: nat, f: Order -> int)
    requires k < |book|
    ensures Sum(book, f) == Sum(Without(book, k), f) + f(book[k])
  {
    SumSplit(book, k, f);
  }

  // ---------------------------------------------------------------- orders at a price

  function AtPrice(p: int): Order -> int { (o: Order) => if o.price == p then 1 else 0 }

  function Count(book: seq<Order>, p: int): int { Sum(book, AtPrice(p)) }

  lemma {:induction false} CountIsPositive(book: seq<Order>, p: int)
    ensures Count(book, p) >= 0
    ensures Count(book, p) > 0 <==> exists i :: 0 <= i < |book| && book[i].price == p
  {
    if book != [] {
      CountIsPositive(book[1..], p);
      if book[0].price == p {
      } else if exists i :: 0 <= i < |book| && book[i].price == p {
        var i :| 0 <= i < |book| && book[i].price == p;
        assert book[1..][i - 1].price == p;
      }
    }
  }

  lemma {:induction false} NoneAtPrice(book: seq<Order>, p: int)
    requires forall i :: 0 <= i < |book| ==> book[i].price != p
    ensures Count(book, p) == 0 && Depth(book, p) == 0
  {
    if book != [] { NoneAtPrice(book[1..], p); }
  }
}
