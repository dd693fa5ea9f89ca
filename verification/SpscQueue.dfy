/** The lock-free single-producer single-consumer queue as interleaved atomic steps. Every load, slot access
    and store of a shared location is its own step; the producer's and the consumer's cached copies of the
    other side's counter may be arbitrarily stale. Counters wrap modulo 2^64. */
module SpscQueue {
  import opened Modular

  const WORD: int := 0x1_0000_0000_0000_0000

  datatype ProducerAt<T> = ProducerIdle | Reloading(item: T) | Writing(item: T) | Publishing(item: T)

  datatype ConsumerAt<T> = ConsumerIdle | Refreshing | Reading | Releasing(item: T)

  datatype Queue<T> = Queue(size: nat, head: nat, tail: nat, buffer: seq<T>,
                            producerHead: nat, producerTail: nat, producer: ProducerAt<T>,
                            consumerHead: nat, consumerTail: nat, consumer: ConsumerAt<T>)
  {
    /** The producer's view of the occupancy, from its own tail and its cached head. */
    function Occupied(): int { (producerTail - producerHead) % WORD }
  }

  /** What happened: items published and items handed out, and the true positions behind the cached
      counters. */
  datatype Log<T> = Log(pushed: seq<T>, popped: seq<T>, seenHead: nat, seenTail: nat)

  /** A reload that does not help either gives up (TryPush, TryPop) or tries again (Push, Pop, and the timed
      forms until their deadline, which may pass before any reload). */
  datatype Step<T> =
    | BeginPush(item: T) | ReloadHead(giveUp: bool) | PushExpires | WriteSlot | StoreTail
    | BeginPop | ReloadTail(giveUp: bool) | PopExpires | ReadSlot | StoreHead
  {
    predicate ByProducer() { BeginPush? || ReloadHead? || PushExpires? || WriteSlot? || StoreTail? }
  }

  predicate WellFormed<T>(q: Queue<T>) {
    0 < q.size < WORD && WORD % q.size == 0 && |q.buffer| == q.size
  }

  predicate Enabled<T>(q: Queue<T>, s: Step<T>) {
    && WellFormed(q)
    && match s
       case BeginPush(_) => q.producer.ProducerIdle?
       case ReloadHead(_) => q.producer.Reloading?
       case PushExpires => q.producer.Reloading?
       case WriteSlot => q.producer.Writing?
       case StoreTail => q.producer.Publishing?
       case BeginPop => q.consumer.ConsumerIdle?
       case ReloadTail(_) => q.consumer.Refreshing?
       case PopExpires => q.consumer.Refreshing?
       case ReadSlot => q.consumer.Reading?
       case StoreHead => q.consumer.Releasing?
  }

  function Do<T>(q: Queue<T>, s: Step<T>): Queue<T>
    requires Enabled(q, s)
  {
    match s
    case BeginPush(x) =>
      q.(producer := if q.Occupied() >= q.size then Reloading(x) else Writing(x))
    case ReloadHead(giveUp) =>
      var q1 := q.(producerHead := q.head);
      if q1.Occupied() >= q.size then (if giveUp then q1.(producer := ProducerIdle) else q1)
      else q1.(producer := Writing(q.producer.item))
    case PushExpires => q.(producer := ProducerIdle)
    case WriteSlot =>
      q.(buffer := q.buffer[q.producerTail % q.size := q.producer.item],
         producerTail := (q.producerTail + 1) % WORD, producer := Publishing(q.producer.item))
    case StoreTail =>
      q.(tail := q.producerTail, producer := ProducerIdle)
    case BeginPop =>
      q.(consumer := if q.consumerTail == q.consumerHead then Refreshing else Reading)
    case ReloadTail(giveUp) =>
      var q1 := q.(consumerTail := q.tail);
      if q1.consumerTail == q1.consumerHead then (if giveUp then q1.(consumer := ConsumerIdle) else q1)
      else q1.(consumer := Reading)
    case PopExpires => q.(consumer := ConsumerIdle)
    case ReadSlot =>
      q.(consumerHead := (q.consumerHead + 1) % WORD, consumer := Releasing(q.buffer[q.consumerHead % q.size]))
    case StoreHead =>
      q.(head := q.consumerHead, consumer := ConsumerIdle)
  }

  function Record<T>(q: Queue<T>, log: Log<T>, s: Step<T>): Log<T>
    requires Enabled(q, s)
  {
    match s
    case ReloadHead(_) => log.(seenHead := |log.popped|)
    case StoreTail => log.(pushed := log.pushed + [q.producer.item])
    case ReloadTail(_) => log.(seenTail := |log.pushed|)
    case StoreHead => log.(popped := log.popped + [q.consumer.item])
    case _ => log
  }

  // ---------------------------------------------------------------- the invariant

  /** Slots written so far: one more than published while a publication is pending. */
  function Written<T>(q: Queue<T>, log: Log<T>): nat { |log.pushed| + (if q.producer.Publishing? then 1 else 0) }

  function Taken<T>(q: Queue<T>, log: Log<T>): nat { |log.popped| + (if q.consumer.Releasing? then 1 else 0) }

  ghost predicate Counters<T>(q: Queue<T>, log: Log<T>) {
    && q.tail == |log.pushed| % WORD && q.head == |log.popped| % WORD
    && q.producerTail == Written(q, log) % WORD && q.consumerHead == Taken(q, log) % WORD
    && q.producerHead == log.seenHead % WORD && q.consumerTail == log.seenTail % WORD
  }

  /** Cached counters lag the true ones, and neither side runs past what it has seen. */
  ghost predicate Lags<T>(q: Queue<T>, log: Log<T>) {
    && log.seenHead <= |log.popped| && log.seenTail <= |log.pushed|
    && Taken(q, log) <= log.seenTail
    && Written(q, log) <= log.seenHead + q.size
    && (q.producer.Writing? ==> Written(q, log) < log.seenHead + q.size)
    && (q.consumer.Reading? ==> Taken(q, log) < log.seenTail)
  }

  /** Every item published and not yet released is still in its slot. */
  ghost predicate Slots<T>(q: Queue<T>, log: Log<T>) {
    && WellFormed(q)
    && (forall k {:trigger log.pushed[k]} :: |log.popped| <= k < |log.pushed| ==> q.buffer[k % q.size] == log.pushed[k])
    && (q.producer.Publishing? ==> q.buffer[|log.pushed| % q.size] == q.producer.item)
  }

  ghost predicate Fifo<T>(q: Queue<T>, log: Log<T>) {
    && |log.popped| <= |log.pushed| && log.popped == log.pushed[..|log.popped|]
    && (q.consumer.Releasing? ==> |log.popped| < |log.pushed| && q.consumer.item == log.pushed[|log.popped|])
  }

  ghost predicate Inv<T>(q: Queue<T>, log: Log<T>) {
    Counters(q, log) && Lags(q, log) && Slots(q, log) && Fifo(q, log)
  }

  lemma {:induction false} OccupiedIsExact<T>(q: Queue<T>, log: Log<T>)
    requires Inv(q, log)
    ensures q.Occupied() == Written(q, log) - log.seenHead
  {
    WrappedDifference(Written(q, log), log.seenHead, WORD);
  }

  lemma {:induction false} EmptyTestIsExact<T>(q: Queue<T>, log: Log<T>)
    requires Inv(q, log)
    ensures q.consumerTail == q.consumerHead <==> log.seenTail == Taken(q, log)
  {
    if log.seenTail > Taken(q, log) { WindowDistinct(Taken(q, log), log.seenTail, WORD); }
  }

  lemma {:induction false} WriteKeepsSlots<T>(q: Queue<T>, log: Log<T>)
    requires Inv(q, log) && q.producer.Writing?
    ensures Slots(Do(q, WriteSlot), log)
  {
    var q' := Do(q, WriteSlot);
    var w := |log.pushed|;
    ReduceTwice(w, WORD, q.size);
    forall k {:trigger log.pushed[k]} | |log.popped| <= k < w ensures q'.buffer[k % q.size] == log.pushed[k] {
      WindowDistinct(k, w, q.size);
    }
  }

  lemma {:induction false} ReadIsNext<T>(q: Queue<T>, log: Log<T>)
    requires Inv(q, log) && q.consumer.Reading?
    ensures Fifo(Do(q, ReadSlot), log)
  {
    ReduceTwice(|log.popped|, WORD, q.size);
    assert log.pushed[|log.popped|] == q.buffer[|log.popped| % q.size];
  }

  lemma {:induction false} ProducerStep<T>(q: Queue<T>, log: Log<T>, s: Step<T>)
    requires Inv(q, log) && Enabled(q, s) && s.ByProducer()
    ensures Inv(Do(q, s), Record(q, log, s))
  {
    OccupiedIsExact(q, log);
    match s {
      case BeginPush(_) =>
      case ReloadHead(_) =>
        WrappedDifference(Written(q, log), |log.popped|, WORD);
      case PushExpires =>
      case WriteSlot =>
        WriteKeepsSlots(q, log);
        WrappedSuccessor(|log.pushed|, WORD);
      case StoreTail =>
        assert Record(q, log, s).pushed[..|log.popped|] == log.popped;
    }
  }

  lemma {:induction false} ConsumerStep<T>(q: Queue<T>, log: Log<T>, s: Step<T>)
    requires Inv(q, log) && Enabled(q, s) && !s.ByProducer()
    ensures Inv(Do(q, s), Record(q, log, s))
  {
    EmptyTestIsExact(q, log);
    match s {
      case BeginPop =>
      case ReloadTail(_) =>
        if |log.pushed| > Taken(q, log) { WindowDistinct(Taken(q, log), |log.pushed|, WORD); }
      case PopExpires =>
      case ReadSlot =>
        ReadIsNext(q, log);
        WrappedSuccessor(|log.popped|, WORD);
      case StoreHead =>
        var l := Record(q, log, s);
        assert l.popped == log.pushed[..|log.popped| + 1];
    }
  }

  lemma {:induction false} StepKeepsInv<T>(q: Queue<T>, log: Log<T>, s: Step<T>)
    requires Inv(q, log) && Enabled(q, s)
    ensures Inv(Do(q, s), Record(q, log, s))
  {
    if s.ByProducer() { ProducerStep(q, log, s); } else { ConsumerStep(q, log, s); }
  }

  // ---------------------------------------------------------------- every interleaving

  datatype World<T> = World(queue: Queue<T>, log: Log<T>)

  function Run<T>(w: World<T>, steps: seq<Step<T>>): (r: World<T>)
    requires Runnable(w, steps)
    decreases |steps|
  {
    if steps == [] then w else Run(World(Do(w.queue, steps[0]), Record(w.queue, w.log, steps[0])), steps[1..])
  }

  predicate Runnable<T>(w: World<T>, steps: seq<Step<T>>)
    decreases |steps|
  {
    steps != [] ==>
      Enabled(w.queue, steps[0])
      && Runnable(World(Do(w.queue, steps[0]), Record(w.queue, w.log, steps[0])), steps[1..])
  }

  function Fresh<T>(buffer: seq<T>): World<T> {
    World(Queue(|buffer|, 0, 0, buffer, 0, 0, ProducerIdle, 0, 0, ConsumerIdle), Log([], [], 0, 0))
  }

  lemma {:induction false} RunKeepsInv<T>(w: World<T>, steps: seq<Step<T>>)
    requires Inv(w.queue, w.log) && Runnable(w, steps)
    ensures Inv(Run(w, steps).queue, Run(w, steps).log)
    decreases |steps|
  {
    if steps != [] {
      var s := steps[0];
      StepKeepsInv(w.queue, w.log, s);
      RunKeepsInv(World(Do(w.queue, s), Record(w.queue, w.log, s)), steps[1..]);
    }
  }

  /** Under every interleaving, however long: what has been popped is a prefix of what has been pushed, at
      most `size` items are in between, and a slot being written is never the slot being read. */
  lemma {:induction false} BoundedFifo<T>(buffer: seq<T>, steps: seq<Step<T>>)
    requires 0 < |buffer| < WORD && WORD % |buffer| == 0 && Runnable(Fresh(buffer), steps)
    ensures var w := Run(Fresh(buffer), steps);
            && w.log.popped <= w.log.pushed
            && |w.log.pushed| - |w.log.popped| <= |buffer|
            && (w.queue.producer.Writing? && w.queue.consumer.Reading? ==>
                  w.queue.producerTail % |buffer| != w.queue.consumerHead % |buffer|)
  {
    RunKeepsInv(Fresh(buffer), steps);
    SizeIsFixed(Fresh(buffer), steps);
    var w := Run(Fresh(buffer), steps);
    if w.queue.producer.Writing? && w.queue.consumer.Reading? {
      ReduceTwice(Written(w.queue, w.log), WORD, |buffer|);
      ReduceTwice(Taken(w.queue, w.log), WORD, |buffer|);
      WindowDistinct(Taken(w.queue, w.log), Written(w.queue, w.log), |buffer|);
    }
  }

  lemma {:induction false} SizeIsFixed<T>(w: World<T>, steps: seq<Step<T>>)
    requires Runnable(w, steps)
    ensures Run(w, steps).queue.size == w.queue.size
    decreases |steps|
  {
    if steps != [] {
      SizeIsFixed(World(Do(w.queue, steps[0]), Record(w.queue, w.log, steps[0])), steps[1..]);
    }
  }

  /** A push gives up exactly when the queue truly holds `size` items at the reload, a pop exactly when it
      is truly empty: staleness never causes a wrong answer after the reload. */
  lemma {:induction false} GivesUpExactly<T>(q: Queue<T>, log: Log<T>)
    requires Inv(q, log)
    ensures q.producer.Reloading? ==>
              (Do(q, ReloadHead(true)).producer.ProducerIdle? <==> |log.pushed| - |log.popped| == q.size)
    ensures q.consumer.Refreshing? ==>
              (Do(q, ReloadTail(true)).consumer.ConsumerIdle? <==> log.pushed == log.popped)
  {
    if q.producer.Reloading? { WrappedDifference(|log.pushed|, |log.popped|, WORD); }
    if q.consumer.Refreshing? && |log.pushed| > |log.popped| { WindowDistinct(|log.popped|, |log.pushed|, WORD); }
  }
}
