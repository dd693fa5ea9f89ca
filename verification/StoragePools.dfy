/** Object pools. `StoragePool` hands objects between an acquiring and a releasing thread through the
    lock-free queue, with a reuse stack private to the acquiring thread; it is modelled as interleaved steps
    over that queue. `SingleThreadedStoragePool` is an array used as a stack. Objects are their indices in
    the pool's storage. */
module StoragePools {
  import opened SpscQueue
  import opened Pointers

  /** `out` holds the objects in client hands, in no particular order. */
  datatype Pool = Pool(world: World<nat>, local: seq<nat>, out: seq<nat>)
  {
    function Size(): nat { world.queue.size }
    function Producer(): ProducerAt<nat> { world.queue.producer }
    function Consumer(): ConsumerAt<nat> { world.queue.consumer }
  }

  function Copies(s: seq<nat>, x: nat): nat {
    if s == [] then 0 else Copies(s[1..], x) + (if s[0] == x then 1 else 0)
  }

  /** `s` with one occurrence of `x` taken out. */
  function Less(s: seq<nat>, x: nat): (r: seq<nat>)
    requires x in s
    ensures |r| == |s| - 1
  {
    if s[0] == x then s[1..] else [s[0]] + Less(s[1..], x)
  }

  datatype PoolStep =
    | AcquireLocal | BeginAcquire | LocalRelease(item: nat)
    | BeginRelease(item: nat)
    | Inner(step: Step<nat>)

  /** Clients release only what they hold. */
  predicate PoolEnabled(p: Pool, s: PoolStep) {
    match s
    case AcquireLocal => p.Consumer().ConsumerIdle? && p.local != []
    case BeginAcquire => p.local == [] && Enabled(p.world.queue, BeginPop)
    case LocalRelease(x) => p.Consumer().ConsumerIdle? && x in p.out
    case BeginRelease(x) => x in p.out && Enabled(p.world.queue, BeginPush(x))
    case Inner(t) => Enabled(p.world.queue, t)
                     && (t == ReloadHead(true) || t == WriteSlot || t == StoreTail
                         || t == ReloadTail(true) || t == ReadSlot || t == StoreHead)
  }

  function Stepped(w: World<nat>, s: Step<nat>): World<nat>
    requires Enabled(w.queue, s)
  {
    World(Do(w.queue, s), Record(w.queue, w.log, s))
  }

  function PoolDo(p: Pool, s: PoolStep): Pool
    requires PoolEnabled(p, s)
  {
    match s
    case AcquireLocal =>
      var last := |p.local| - 1;
      p.(local := p.local[..last], out := p.out + [p.local[last]])
    case BeginAcquire => p.(world := Stepped(p.world, BeginPop))
    case LocalRelease(x) =>
      if |p.local| < p.Size() then p.(local := p.local + [x], out := Less(p.out, x)) else p
    case BeginRelease(x) =>
      p.(world := Stepped(p.world, BeginPush(x)), out := Less(p.out, x))
    case Inner(t) =>
      var p1 := p.(world := Stepped(p.world, t));
      // a completed pop puts the object in client hands; a refused push leaves it there
      if t.StoreHead? then p1.(out := p.out + [p.Consumer().item])
      else if t.ReloadHead? && p1.Producer().ProducerIdle? then p1.(out := p.out + [p.Producer().item])
      else p1
  }

  // ---------------------------------------------------------------- ownership

  lemma {:induction false} CopiesAppend(s: seq<nat>, y: nat, x: nat)
    ensures Copies(s + [y], x) == Copies(s, x) + (if x == y then 1 else 0)
  {
    if s != [] {
      CopiesAppend(s[1..], y, x);
      assert (s + [y])[1..] == s[1..] + [y];
    }
  }

  lemma {:induction false} CopiesOne(y: nat, x: nat)
    ensures Copies([y], x) == if x == y then 1 else 0
  {
    assert [y] == [] + [y];
    CopiesAppend([], y, x);
  }

  lemma {:induction false} CopiesLess(s: seq<nat>, y: nat, x: nat)
    requires y in s
    ensures Copies(Less(s, y), x) == Copies(s, x) - (if x == y then 1 else 0)
  {
    if s[0] != y {
      CopiesLess(s[1..], y, x);
      assert Less(s, y)[1..] == Less(s[1..], y);
    }
  }

  lemma {:induction false} CopiesMember(s: seq<nat>, x: nat)
    ensures x in s <==> Copies(s, x) > 0
  {
    if s != [] { CopiesMember(s[1..], x); assert s == [s[0]] + s[1..]; }
  }

  function Ids(n: nat): seq<nat> { seq(n, i => i) }

  lemma {:induction false} IdsOnce(n: nat, x: nat)
    ensures Copies(Ids(n), x) == if x < n then 1 else 0
  {
    if n > 0 {
      IdsOnce(n - 1, x);
      CopiesAppend(Ids(n - 1), n - 1, x);
      assert Ids(n) == Ids(n - 1) + [n - 1];
    } else {
      assert Ids(n) == [];
    }
  }

  /** Objects published in the free queue and not yet popped. */
  function Queued(p: Pool): seq<nat> {
    var log := p.world.log;
    if |log.popped| <= |log.pushed| then log.pushed[|log.popped|..] else []
  }

  /** The object the releasing thread is in the middle of pushing. */
  function InTransit(p: Pool): seq<nat> {
    if p.Producer().ProducerIdle? then [] else [p.Producer().item]
  }

  /** In how many places an object is. */
  function Places(p: Pool, x: nat): nat {
    Copies(Queued(p), x) + Copies(p.local, x) + Copies(p.out, x) + Copies(InTransit(p), x)
  }

  function Population(p: Pool): nat { |Queued(p)| + |p.local| + |p.out| + |InTransit(p)| }

  ghost predicate Owned(p: Pool) {
    && Inv(p.world.queue, p.world.log)
    && OnePlaceEach(p)
  }

  ghost predicate OnePlaceEach(p: Pool) {
    && (forall x: nat {:trigger Places(p, x)} :: Places(p, x) == if x < p.Size() then 1 else 0)
    && Population(p) == p.Size()
  }

  /** An object about to be handed out is in no client's hands. */
  lemma {:induction false} AcquiredIsNotOut(p: Pool)
    requires Owned(p)
    ensures p.Consumer().Releasing? ==> p.Consumer().item < p.Size() && p.Consumer().item !in p.out
    ensures p.local != [] ==> p.local[|p.local| - 1] < p.Size() && p.local[|p.local| - 1] !in p.out
  {
    if p.Consumer().Releasing? {
      assert Queued(p)[0] == p.Consumer().item;
      CopiesMember(p.out, p.Consumer().item);
      assert Places(p, p.Consumer().item) >= 1;
    }
    if p.local != [] {
      var y := p.local[|p.local| - 1];
      CopiesMember(p.local, y);
      CopiesMember(p.out, y);
      assert Places(p, y) >= 1;
    }
  }

  /** Releasing never fails: the private stack always has room for an object in hand, and the reload during a
      push always finds room in the queue. */
  lemma {:induction false} ReleaseNeverFails(p: Pool, x: nat)
    requires Owned(p)
    ensures x in p.out ==> |p.local| < p.Size()
    ensures p.Producer().Reloading? ==> Do(p.world.queue, ReloadHead(true)).producer.Writing?
  {
    if p.Producer().Reloading? { GivesUpExactly(p.world.queue, p.world.log); }
  }

  /** Every object is in as many places after the step as before. */
  ghost predicate Moves(p: Pool, p': Pool, x: nat) {
    Places(p', x) == Places(p, x) && Population(p') == Population(p)
  }

  lemma {:induction false} PopMoves(p: Pool, x: nat)
    requires Fifo(p.world.queue, p.world.log) && PoolEnabled(p, Inner(StoreHead))
    ensures Moves(p, PoolDo(p, Inner(StoreHead)), x)
  {
    var p' := PoolDo(p, Inner(StoreHead));
    assert Queued(p)[0] == p.Consumer().item && Queued(p)[1..] == Queued(p');
    CopiesAppend(p.out, p.Consumer().item, x);
  }

  lemma {:induction false} PushMoves(p: Pool, x: nat)
    requires Fifo(p.world.queue, p.world.log) && PoolEnabled(p, Inner(StoreTail))
    ensures Moves(p, PoolDo(p, Inner(StoreTail)), x)
  {
    var p' := PoolDo(p, Inner(StoreTail));
    CopiesOne(p.Producer().item, x);
    assert Queued(p') == Queued(p) + [p.Producer().item];
    CopiesAppend(Queued(p), p.Producer().item, x);
  }

  lemma {:induction false} ReloadMoves(p: Pool, x: nat)
    requires PoolEnabled(p, Inner(ReloadHead(true)))
    ensures Moves(p, PoolDo(p, Inner(ReloadHead(true))), x)
  {
    CopiesOne(p.Producer().item, x);
    CopiesAppend(p.out, p.Producer().item, x);
  }

  lemma {:induction false} StackMoves(p: Pool, s: PoolStep, x: nat)
    requires PoolEnabled(p, s) && (s.AcquireLocal? || s.LocalRelease?)
    ensures Moves(p, PoolDo(p, s), x)
  {
    if s.AcquireLocal? {
      var last := |p.local| - 1;
      assert p.local == p.local[..last] + [p.local[last]];
      CopiesAppend(p.local[..last], p.local[last], x);
      CopiesAppend(p.out, p.local[last], x);
    } else {
      CopiesAppend(p.local, s.item, x);
      CopiesLess(p.out, s.item, x);
    }
  }

  lemma {:induction false} ReleaseMoves(p: Pool, y: nat, x: nat)
    requires PoolEnabled(p, BeginRelease(y))
    ensures Moves(p, PoolDo(p, BeginRelease(y)), x)
  {
    CopiesOne(y, x);
    CopiesLess(p.out, y, x);
  }

  lemma {:induction false} StepMoves(p: Pool, s: PoolStep, x: nat)
    requires Fifo(p.world.queue, p.world.log) && PoolEnabled(p, s)
    ensures Moves(p, PoolDo(p, s), x)
  {
    if s.AcquireLocal? || s.LocalRelease? {
      StackMoves(p, s, x);
    } else if s.BeginRelease? {
      ReleaseMoves(p, s.item, x);
    } else if s == Inner(StoreHead) {
      PopMoves(p, x);
    } else if s == Inner(StoreTail) {
      PushMoves(p, x);
    } else if s == Inner(ReloadHead(true)) {
      ReloadMoves(p, x);
    }
  }

  lemma {:induction false} WorldKeepsInv(p: Pool, s: PoolStep)
    requires Inv(p.world.queue, p.world.log) && PoolEnabled(p, s)
    ensures Inv(PoolDo(p, s).world.queue, PoolDo(p, s).world.log) && PoolDo(p, s).Size() == p.Size()
  {
    match s {
      case AcquireLocal =>
      case BeginAcquire => StepKeepsInv(p.world.queue, p.world.log, BeginPop);
      case LocalRelease(_) =>
      case BeginRelease(x) => StepKeepsInv(p.world.queue, p.world.log, BeginPush(x));
      case Inner(t) => StepKeepsInv(p.world.queue, p.world.log, t);
    }
  }

  lemma {:induction false} MovesKeepPlaces(p: Pool, p': Pool)
    requires OnePlaceEach(p) && p'.Size() == p.Size() && forall x: nat {:trigger Moves(p, p', x)} :: Moves(p, p', x)
    ensures OnePlaceEach(p')
  {
    assert Moves(p, p', 0);
    forall x: nat ensures Places(p', x) == if x < p'.Size() then 1 else 0 { assert Moves(p, p', x); }
  }

  lemma {:induction false} StepKeepsOwned(p: Pool, s: PoolStep)
    requires Owned(p) && PoolEnabled(p, s)
    ensures Owned(PoolDo(p, s)) && PoolDo(p, s).Size() == p.Size()
  {
    WorldKeepsInv(p, s);
    forall x: nat ensures Moves(p, PoolDo(p, s), x) { StepMoves(p, s, x); }
    MovesKeepPlaces(p, PoolDo(p, s));
  }

  // ---------------------------------------------------------------- construction and runs

  /** One uncontended TryPush, as the constructor performs it. */
  function TryPush(w: World<nat>, x: nat): World<nat>
    requires Enabled(w.queue, BeginPush(x))
  {
    var w1 := Stepped(w, BeginPush(x));
    var w2 := if w1.queue.producer.Reloading? then Stepped(w1, ReloadHead(true)) else w1;
    if w2.queue.producer.Writing? then Stepped(Stepped(w2, WriteSlot), StoreTail) else w2
  }

  /** The free queue after the constructor has pushed the first `n` objects. */
  function Populated(buffer: seq<nat>, n: nat): (w: World<nat>)
    requires 0 < |buffer| < WORD && WORD % |buffer| == 0
    ensures WellFormed(w.queue) && w.queue.producer.ProducerIdle? && w.queue.size == |buffer|
  {
    if n == 0 then Fresh(buffer) else TryPush(Populated(buffer, n - 1), n - 1)
  }

  lemma {:induction false} TryPushAppends(w: World<nat>, x: nat)
    requires Inv(w.queue, w.log) && w.queue.producer.ProducerIdle?
    requires |w.log.pushed| - |w.log.popped| < w.queue.size
    ensures var r := TryPush(w, x);
            && Inv(r.queue, r.log) && r.queue.producer.ProducerIdle? && r.queue.consumer == w.queue.consumer
            && r.queue.size == w.queue.size
            && r.log.pushed == w.log.pushed + [x] && r.log.popped == w.log.popped
  {
    var w1 := Stepped(w, BeginPush(x));
    StepKeepsInv(w.queue, w.log, BeginPush(x));
    if w1.queue.producer.Reloading? {
      GivesUpExactly(w1.queue, w1.log);
      StepKeepsInv(w1.queue, w1.log, ReloadHead(true));
    }
    var w2 := if w1.queue.producer.Reloading? then Stepped(w1, ReloadHead(true)) else w1;
    StepKeepsInv(w2.queue, w2.log, WriteSlot);
    var w3 := Stepped(w2, WriteSlot);
    StepKeepsInv(w3.queue, w3.log, StoreTail);
  }

  lemma {:induction false} PopulatedHolds(buffer: seq<nat>, n: nat)
    requires 0 < |buffer| < WORD && WORD % |buffer| == 0 && n <= |buffer|
    ensures var w := Populated(buffer, n);
            Inv(w.queue, w.log) && w.log.pushed == Ids(n) && w.log.popped == [] && w.queue.consumer.ConsumerIdle?
  {
    if n > 0 {
      var w := Populated(buffer, n - 1);
      assert && Inv(w.queue, w.log) && w.log.pushed == Ids(n - 1) && w.log.popped == []
             && w.queue.consumer.ConsumerIdle? by { PopulatedHolds(buffer, n - 1); }
      assert |w.log.pushed| - |w.log.popped| < w.queue.size;
      TryPushAppends(w, n - 1);
      assert Ids(n - 1) + [n - 1] == Ids(n);
    }
  }

  predicate PoolRunnable(p: Pool, steps: seq<PoolStep>)
    decreases |steps|
  {
    steps != [] ==> PoolEnabled(p, steps[0]) && PoolRunnable(PoolDo(p, steps[0]), steps[1..])
  }

  function PoolRun(p: Pool, steps: seq<PoolStep>): Pool
    requires PoolRunnable(p, steps)
    decreases |steps|
  {
    if steps == [] then p else PoolRun(PoolDo(p, steps[0]), steps[1..])
  }

  lemma {:induction false} RunKeepsOwned(p: Pool, steps: seq<PoolStep>)
    requires Owned(p) && PoolRunnable(p, steps)
    ensures Owned(PoolRun(p, steps)) && PoolRun(p, steps).Size() == p.Size()
    decreases |steps|
  {
    if steps != [] {
      StepKeepsOwned(p, steps[0]);
      RunKeepsOwned(PoolDo(p, steps[0]), steps[1..]);
    }
  }

  function NewPool(buffer: seq<nat>): Pool
    requires 0 < |buffer| < WORD && WORD % |buffer| == 0
  {
    Pool(Populated(buffer, |buffer|), [], [])
  }

  /** From a constructed pool, under every interleaving: each object is in exactly one of the free queue, the
      private stack, client hands, or the push in progress; what is about to be handed out is not out; and no
      release can be refused. */
  lemma {:induction false} Ownership(buffer: seq<nat>, steps: seq<PoolStep>, x: nat)
    requires 0 < |buffer| < WORD && WORD % |buffer| == 0 && PoolRunnable(NewPool(buffer), steps)
    ensures var p := PoolRun(NewPool(buffer), steps);
            && Places(p, x) == (if x < |buffer| then 1 else 0)
            && (p.Consumer().Releasing? ==> p.Consumer().item !in p.out)
            && (p.local != [] ==> p.local[|p.local| - 1] !in p.out)
            && (x in p.out ==> |p.local| < |buffer|)
            && (Enabled(p.world.queue, ReloadHead(true)) ==> Do(p.world.queue, ReloadHead(true)).producer.Writing?)
  {
    var p0 := NewPool(buffer);
    PopulatedHolds(buffer, |buffer|);
    assert Queued(p0) == Ids(|buffer|);
    forall y: nat ensures Places(p0, y) == if y < |buffer| then 1 else 0 { IdsOnce(|buffer|, y); }
    RunKeepsOwned(p0, steps);
    var p := PoolRun(p0, steps);
    AcquiredIsNotOut(p);
    ReleaseNeverFails(p, x);
  }

  // ---------------------------------------------------------------- the single-threaded pool

  /** An array of free objects used as a stack. */
  class SingleThreadedStoragePool {
    const size: nat
    const freeQueue: array<nat>
    var freeSize: nat

    ghost predicate Valid()
      reads this
    {
      freeQueue.Length == size && freeSize <= size
    }

    ghost function Free(): seq<nat>
      requires Valid()
      reads this, freeQueue
    {
      freeQueue[..freeSize]
    }

    /** With `out` in client hands, every object is either free once or out once. */
    ghost predicate Accounts(out: seq<nat>)
      requires Valid()
      reads this, freeQueue
    {
      && |Free()| + |out| == size
      && forall x: nat {:trigger Copies(out, x)} ::
           Copies(Free(), x) + Copies(out, x) == if x < size then 1 else 0
    }

    constructor (capacity: nat)
      ensures Valid() && fresh(freeQueue) && size == capacity
      ensures Accounts([])
    {
      size := capacity;
      freeQueue := new nat[capacity](i => i);
      freeSize := capacity;
      new;
      assert freeQueue[..freeSize] == Ids(capacity);
      forall x: nat ensures Copies(Free(), x) == if x < size then 1 else 0 { IdsOnce(capacity, x); }
    }

    /** An object that is not out, or null exactly when all of them are. */
    method Acquire(ghost out: seq<nat>) returns (p: Pointer)
      requires Valid() && Accounts(out)
      modifies this
      ensures Valid()
      ensures p.Null? <==> |out| == size
      ensures p.Null? ==> Accounts(out) && freeSize == old(freeSize)
      ensures p.At? ==> p.index < size && p.index !in out && Accounts(out + [p.index])
      ensures p.At? ==> old(Free()) == Free() + [p.index]
    {
      p := Null;
      if freeSize > 0 {
        freeSize := freeSize - 1;
        p := At(freeQueue[freeSize]);
        assert old(Free()) == Free() + [p.index];
        CopiesAppend(Free(), p.index, p.index);
        assert Copies(out, p.index) == 0;
        CopiesMember(out, p.index);
        forall x: nat ensures Copies(Free(), x) + Copies(out + [p.index], x) == if x < size then 1 else 0 {
          CopiesAppend(Free(), p.index, x);
          CopiesAppend(out, p.index, x);
          assert Copies(out, x) >= 0;
        }
      }
    }

    /** Null is refused, and so is anything while every object is free; otherwise the object goes on top of the
        stack. An object that is out is always taken back. */
    method Release(p: Pointer, ghost out: seq<nat>) returns (ok: bool)
      requires Valid()
      modifies this, freeQueue
      ensures Valid()
      ensures ok <==> p.At? && old(freeSize) < size
      ensures Free() == if ok then old(Free()) + [p.index] else old(Free())
      ensures old(Accounts(out)) && p.At? && p.index in out ==> ok && Accounts(Less(out, p.index))
    {
      ok := false;
      if p.At? && freeSize < size {
        freeQueue[freeSize] := p.index;
        freeSize := freeSize + 1;
        ok := true;
        assert Free() == old(Free()) + [p.index];
        if p.index in out {
          forall x: nat
            ensures Copies(Free(), x) + Copies(Less(out, p.index), x) == Copies(old(Free()), x) + Copies(out, x)
          {
            CopiesAppend(old(Free()), p.index, x);
            CopiesLess(out, p.index, x);
          }
        }
      }
    }
  }
}
