/** In-order reassembly of a multicast stream that loses, reorders and repeats messages. Messages live in pool
    objects; the ring holds pointers, and keeps them after the object has been handed on, recycled and
    overwritten. */
module Reassembly {
  import opened Modular
  import opened Pointers

  datatype Message<T> = Message(id: nat, payload: T)

  /** The receiver's ring and pool: `free` objects, those the `consumer` still has, and all the others, which
      wait in the ring or have been leaked by a duplicate. */
  datatype Rx<T> = Rx(ring: seq<Pointer>, tail: nat, next: nat, memory: seq<Message<T>>,
                      free: set<nat>, consumer: set<nat>, outgoing: seq<Message<T>>)
  {
    function Slot(id: nat): (p: Pointer)
      requires |ring| > 0
    {
      ring[id % |ring|]
    }
  }

  /** What happened: the ids that found a pool object, the ids the outgoing queue had no room for, and what the
      consumer was given in the objects it still has. */
  datatype Past<T> = Past(received: set<nat>, refused: set<nat>, given: map<nat, Message<T>>)

  // ---------------------------------------------------------------- steps

  /** An id too far behind the newest one is refused. */
  predicate TooOld<T>(x: Rx<T>, id: nat) { x.tail > |x.ring| && id < x.tail - |x.ring| }

  /** The consumer's thread gives objects back. */
  function Recycled<T>(x: Rx<T>, back: set<nat>): Rx<T> {
    x.(free := x.free + (back * x.consumer), consumer := x.consumer - back)
  }

  /** A message is copied into a free object and its pointer put in the ring, or the object is given back. */
  function Stored<T>(x: Rx<T>, p: nat, m: Message<T>): Rx<T>
    requires |x.ring| > 0 && p < |x.memory|
  {
    var y := x.(memory := x.memory[p := m]);
    if TooOld(x, m.id) then y
    else y.(ring := x.ring[m.id % |x.ring| := At(p)], free := x.free - {p},
            tail := if m.id >= x.tail then m.id + 1 else x.tail)
  }

  /** The lookup compares the id stored in the object, which may be somebody else's by now. */
  predicate Found<T>(x: Rx<T>, id: nat) {
    |x.ring| > 0 && x.Slot(id).At? && x.Slot(id).index < |x.memory| && x.memory[x.Slot(id).index].id == id
  }

  function Drained<T>(x: Rx<T>, accepted: bool): Rx<T>
    requires Found(x, x.next)
  {
    var p := x.Slot(x.next).index;
    if accepted then x.(consumer := x.consumer + {p}, outgoing := x.outgoing + [x.memory[p]], next := x.next + 1)
    else x.(free := x.free + {p}, next := x.next + 1)
  }

  function Logged<T>(x: Rx<T>, h: Past<T>, accepted: bool): Past<T>
    requires Found(x, x.next)
  {
    var p := x.Slot(x.next).index;
    if accepted then h.(given := h.given[p := x.memory[p]]) else h.(refused := h.refused + {x.next})
  }

  // ---------------------------------------------------------------- the invariant

  /** What was handed on of the ids below `next`: all but those the outgoing queue refused. */
  function HandedOn<T>(source: nat -> Message<T>, next: nat, refused: set<nat>): seq<Message<T>> {
    if next == 0 then []
    else HandedOn(source, next - 1, refused) + (if next - 1 in refused then [] else [source(next - 1)])
  }

  /** A received message waits in its slot, in an object nobody else may write. */
  ghost predicate Waiting<T>(x: Rx<T>, m: Message<T>) {
    && |x.ring| > 0 && x.Slot(m.id).At? && x.Slot(m.id).index < |x.memory|
    && x.memory[x.Slot(m.id).index] == m
    && x.Slot(m.id).index !in x.free && x.Slot(m.id).index !in x.consumer
  }

  /** If the object behind slot `j` has an id that belongs there, that id has been received. */
  ghost predicate NoGhost<T>(x: Rx<T>, h: Past<T>, source: nat -> Message<T>, j: nat) {
    j < |x.ring| && x.ring[j].At? ==>
      && x.ring[j].index < |x.memory|
      && var m := x.memory[x.ring[j].index];
         m.id % |x.ring| == j ==> m.id in h.received && m == source(m.id)
  }

  ghost predicate Pool<T>(x: Rx<T>, h: Past<T>) {
    && (forall p :: p in x.free ==> p < |x.memory|)
    && x.free !! x.consumer && h.given.Keys == x.consumer
    && (forall p :: p in x.consumer ==> p < |x.memory| && x.memory[p] == h.given[p])
  }

  ghost predicate Window<T>(x: Rx<T>, h: Past<T>) {
    && |x.ring| > 0 && x.tail <= x.next + |x.ring|
    && (forall e :: e in h.received ==> e < x.tail)
    && (forall e :: 0 <= e < x.next ==> e in h.received)
  }

  ghost predicate Inv<T>(x: Rx<T>, h: Past<T>, source: nat -> Message<T>) {
    && (forall k :: source(k).id == k)
    && Window(x, h) && Pool(x, h)
    && (forall e {:trigger Waiting(x, source(e))} :: e in h.received && e >= x.next ==> Waiting(x, source(e)))
    && (forall j {:trigger NoGhost(x, h, source, j)} :: 0 <= j < |x.ring| ==> NoGhost(x, h, source, j))
    && x.outgoing == HandedOn(source, x.next, h.refused)
    && (forall e :: e in h.refused ==> e < x.next)
  }

  lemma {:induction false} RecycleKeeps<T>(x: Rx<T>, h: Past<T>, source: nat -> Message<T>, back: set<nat>)
    requires Inv(x, h, source)
    ensures Inv(Recycled(x, back), h.(given := h.given - back), source)
  {
    var y, h' := Recycled(x, back), h.(given := h.given - back);
    forall e | e in h.received && e >= y.next ensures Waiting(y, source(e)) { assert Waiting(x, source(e)); }
    forall j | 0 <= j < |y.ring| ensures NoGhost(y, h', source, j) { assert NoGhost(x, h, source, j); }
  }

  /** A late duplicate cannot displace a message that waits: whatever shares its slot is either the same id or
      so much newer that the duplicate is refused. */
  lemma {:induction false} SlotIsSafe<T>(x: Rx<T>, h: Past<T>, id: nat, e: nat)
    requires Window(x, h) && id < x.next + |x.ring| && !TooOld(x, id)
    requires e in h.received && e >= x.next && e != id
    ensures e % |x.ring| != id % |x.ring|
  {
    var n := |x.ring|;
    if id < e { WindowDistinct(id, e, n); } else { WindowDistinct(e, id, n); }
  }

  lemma {:induction false} StoreKeeps<T>(x: Rx<T>, h: Past<T>, source: nat -> Message<T>, p: nat, id: nat)
    requires Inv(x, h, source) && p in x.free && id < x.next + |x.ring|
    ensures Inv(Stored(x, p, source(id)), h.(received := h.received + {id}), source)
  {
    var y, h' := Stored(x, p, source(id)), h.(received := h.received + {id});
    if TooOld(x, id) { assert id in h.received; }
    forall e | e in h'.received && e >= y.next ensures Waiting(y, source(e)) {
      if e != id {
        assert Waiting(x, source(e));
        if !TooOld(x, id) { SlotIsSafe(x, h, id, e); }
      }
    }
    forall j | 0 <= j < |y.ring| ensures NoGhost(y, h', source, j) { assert NoGhost(x, h, source, j); }
  }

  lemma {:induction false} DrainKeeps<T>(x: Rx<T>, h: Past<T>, source: nat -> Message<T>, accepted: bool)
    requires Inv(x, h, source) && Found(x, x.next)
    ensures x.next in h.received
    ensures Inv(Drained(x, accepted), Logged(x, h, accepted), source)
  {
    var y, h' := Drained(x, accepted), Logged(x, h, accepted);
    assert NoGhost(x, h, source, x.next % |x.ring|);
    assert Waiting(x, source(x.next));
    forall e | e in h'.received && e >= y.next ensures Waiting(y, source(e)) { assert Waiting(x, source(e)); }
    forall j | 0 <= j < |y.ring| ensures NoGhost(y, h', source, j) { assert NoGhost(x, h, source, j); }
    RefusedLater(source, x.next, h.refused, h'.refused);
  }

  lemma {:induction false} RefusedLater<T>(source: nat -> Message<T>, next: nat, refused: set<nat>, refused': set<nat>)
    requires forall e :: 0 <= e < next ==> (e in refused <==> e in refused')
    ensures HandedOn(source, next, refused) == HandedOn(source, next, refused')
  {
    if next > 0 { RefusedLater(source, next - 1, refused, refused'); }
  }

  /** The lookup of the next id succeeds exactly when that id has been received. */
  lemma {:induction false} FoundIffReceived<T>(x: Rx<T>, h: Past<T>, source: nat -> Message<T>)
    requires Inv(x, h, source)
    ensures Found(x, x.next) <==> x.next in h.received
  {
    assert NoGhost(x, h, source, x.next % |x.ring|);
    if x.next in h.received { assert Waiting(x, source(x.next)); }
  }

  /** The window is exact: storing the newest id makes the id due next too old, so that it is refused on arrival,
      if and only if the stored id is `size` or more ahead of it. */
  lemma {:induction false} OvertakenIff<T>(x: Rx<T>, p: nat, m: Message<T>)
    requires |x.ring| > 0 && p < |x.memory| && x.tail <= m.id + 1
    ensures TooOld(Stored(x, p, m), x.next) <==> m.id >= x.next + |x.ring|
    ensures m.id >= x.next + |x.ring| ==>
              forall q: nat, n: Message<T> :: q < |x.memory| && n.id == x.next ==>
                Stored(Stored(x, p, m), q, n).ring == Stored(x, p, m).ring
  {
    var y := Stored(x, p, m);
    assert !TooOld(x, m.id);
    assert y.tail == m.id + 1 && |y.ring| == |x.ring|;
  }

  /** The smallest case: with id 2 stored first in a ring of two, id 0 is refused and cannot be found. */
  lemma {:induction false} OvertakenIsLost(a: Message<int>, b: Message<int>)
    requires a.id == 2 && b.id == 0
    ensures var x := Rx([Null, Null], 0, 0, [a, a], {0, 1}, {}, []);
            var y := Stored(Stored(x, 0, a), 1, b);
            y.next == b.id && !Found(y, b.id)
  {
  }

  /** The `n` messages of the stream from `a` on. */
  function Stretch<T>(source: nat -> Message<T>, a: nat, n: nat): seq<Message<T>> {
    seq(n, i requires 0 <= i < n => source(a + i))
  }

  /** Between two points at which nothing was refused, every message in between is handed on. */
  lemma {:induction false} HandsOnAll<T>(source: nat -> Message<T>, a: nat, b: nat, refused: set<nat>,
                                         refused': set<nat>)
    requires a <= b && forall e :: 0 <= e < a ==> (e in refused <==> e in refused')
    requires forall e :: a <= e < b ==> e !in refused'
    ensures HandedOn(source, b, refused') == HandedOn(source, a, refused) + Stretch(source, a, b - a)
    decreases b
  {
    if a == b {
      RefusedLater(source, a, refused, refused');
    } else {
      HandsOnAll(source, a, b - 1, refused, refused');
    }
  }

  /** The object behind the slot of id `e` has gone to the consumer or back to the pool. */
  ghost predicate Passed<T>(x: Rx<T>, e: nat, accepted: bool) {
    && |x.ring| > 0 && x.Slot(e).At?
    && if accepted then x.Slot(e).index in x.consumer else x.Slot(e).index in x.free
  }

  /** What a drain that began in `x0` has done so far: each id from `x0.next` on went where `accepts` says. */
  ghost predicate Since<T>(x0: Rx<T>, h0: Past<T>, x: Rx<T>, h: Past<T>, accepts: nat -> bool) {
    && x.ring == x0.ring && x.next >= x0.next && h.received == h0.received
    && x0.free <= x.free && x0.consumer <= x.consumer
    && (forall e {:trigger Passed(x, e, accepts(e))} :: x0.next <= e < x.next ==> Passed(x, e, accepts(e)))
    && (forall e :: x0.next <= e < x.next ==> (e in h.refused <==> !accepts(e)))
    && (forall e :: 0 <= e < x0.next ==> (e in h.refused <==> e in h0.refused))
  }

  lemma {:induction false} SinceStep<T>(x0: Rx<T>, h0: Past<T>, x: Rx<T>, h: Past<T>, accepts: nat -> bool)
    requires Since(x0, h0, x, h, accepts) && Found(x, x.next) && forall e :: e in h.refused ==> e < x.next
    ensures Since(x0, h0, Drained(x, accepts(x.next)), Logged(x, h, accepts(x.next)), accepts)
  {
    var y := Drained(x, accepts(x.next));
    forall e {:trigger Passed(y, e, accepts(e))} | x0.next <= e < y.next ensures Passed(y, e, accepts(e)) {
      if e < x.next { assert Passed(x, e, accepts(e)); }
    }
  }

  // ---------------------------------------------------------------- the receiver

  ghost predicate Ids<T>(packet: seq<Message<T>>, source: nat -> Message<T>, bound: nat) {
    forall i :: 0 <= i < |packet| ==> packet[i].id < bound && packet[i] == source(packet[i].id)
  }

  ghost function IdSet<T>(packet: seq<Message<T>>): set<nat> { set m | m in packet :: m.id }

  function Indices(n: nat): (s: set<nat>)
    ensures forall p: nat :: p in s <==> p < n
  {
    if n == 0 then {} else Indices(n - 1) + {n - 1}
  }

  /** The stream handed on carries every id at most once, in order, with the payload it was sent with. */
  lemma {:induction false} InOrderOnce<T>(source: nat -> Message<T>, next: nat, refused: set<nat>)
    requires forall k :: source(k).id == k
    ensures var out := HandedOn(source, next, refused);
            && (forall i :: 0 <= i < |out| ==> out[i].id < next && out[i] == source(out[i].id))
            && (forall i, j :: 0 <= i < j < |out| ==> out[i].id < out[j].id)
            && (forall e :: 0 <= e < next && e !in refused ==> source(e) in out)
  {
    if next > 0 { InOrderOnce(source, next - 1, refused); }
  }

  class Receiver<T> {
    var ring: seq<Pointer>
    var tail: nat
    var nextToRead: nat
    var memory: seq<Message<T>>
    var free: set<nat>
    var consumer: set<nat>
    var outgoing: seq<Message<T>>
    ghost const source: nat -> Message<T>
    ghost var past: Past<T>

    ghost function Now(): Rx<T>
      reads this
    {
      Rx(ring, tail, nextToRead, memory, free, consumer, outgoing)
    }

    ghost predicate Valid()
      reads this
    {
      Inv(Now(), past, source)
    }

    constructor (size: nat, storage: seq<Message<T>>, ghost source: nat -> Message<T>)
      requires size > 0 && forall k :: source(k).id == k
      ensures Valid() && this.source == source && nextToRead == 0 && outgoing == [] && past.received == {}
      ensures |ring| == size && memory == storage && consumer == {} && forall p: nat :: p in free <==> p < |storage|
    {
      ring := seq(size, _ => Null);
      tail, nextToRead, memory, outgoing := 0, 0, storage, [];
      free, consumer := Indices(|storage|), {};
      this.source := source;
      past := Past({}, {}, map[]);
    }

    /** The pool hands out some free object or none; meanwhile the consumer may have given objects back. */
    method Acquire(back: set<nat>, offer: Pointer) returns (p: Pointer)
      requires Valid()
      modifies this`free, this`consumer, this`past
      ensures Valid() && Now() == Recycled(old(Now()), back)
      ensures past == old(past).(given := old(past.given) - back)
      ensures p == if offer.At? && offer.index in free then offer else Null
    {
      RecycleKeeps(Now(), past, source, back);
      free, consumer := free + (back * consumer), consumer - back;
      past := past.(given := past.given - back);
      p := if offer.At? && offer.index in free then offer else Null;
    }

    /** Puts the pointer of a filled object in the ring unless its id is too old. */
    method AddSlot(p: nat) returns (added: bool)
      requires |ring| > 0 && p < |memory|
      modifies this`ring, this`tail
      ensures added == !TooOld(old(Now()), memory[p].id)
      ensures !added ==> Now() == old(Now())
      ensures added ==> ring == old(ring)[memory[p].id % |old(ring)| := At(p)]
                        && tail == if memory[p].id >= old(tail) then memory[p].id + 1 else old(tail)
    {
      var id := memory[p].id;
      if tail > |ring| && id < tail - |ring| { return false; }
      ring := ring[id % |ring| := At(p)];
      if id >= tail { tail := id + 1; }
      added := true;
    }

    method GetSlot(id: nat) returns (p: Pointer)
      requires |ring| > 0 && forall j :: 0 <= j < |ring| && ring[j].At? ==> ring[j].index < |memory|
      ensures p.At? <==> Found(Now(), id)
      ensures p.At? ==> p == ring[id % |ring|]
    {
      p := ring[id % |ring|];
      if p.At? && memory[p.index].id != id { p := Null; }
    }

    /** Copies one message into an object and adds it; without an object the message is lost. */
    method TakeOne(m: Message<T>, back: set<nat>, offer: Pointer) returns (taken: bool)
      requires Valid() && m == source(m.id) && m.id < nextToRead + |ring|
      modifies this`ring, this`tail, this`memory, this`free, this`consumer, this`past
      ensures Valid() && |ring| == old(|ring|)
      ensures taken <==> offer.At? && (offer.index in old(free) || offer.index in back * old(consumer))
      ensures consumer == old(consumer) - back
      ensures var stored := taken && !TooOld(old(Now()), m.id);
              && free == old(free) + (back * old(consumer)) - (if stored then {offer.index} else {})
              && (stored ==> Found(Now(), m.id) && ring[m.id % |ring|] == offer)
              && (!stored ==> ring == old(ring) && tail == old(tail))
      ensures past.received == old(past.received) + (if taken then {m.id} else {})
      ensures past.refused == old(past.refused)
    {
      var p := Acquire(back, offer);
      if p.Null? { return false; }
      StoreKeeps(Now(), past, source, p.index, m.id);
      ghost var x := Now();
      memory := memory[p.index := m];
      free := free - {p.index};
      var added := AddSlot(p.index);
      if !added { free := free + {p.index}; }
      assert Now() == Stored(x, p.index, m);
      past := past.(received := past.received + {m.id});
      taken := true;
    }

    method TakeAll(packet: seq<Message<T>>, back: seq<set<nat>>, offers: seq<Pointer>) returns (taken: set<nat>)
      requires Valid() && Ids(packet, source, nextToRead + |ring|) && |back| == |packet| == |offers|
      modifies this`ring, this`tail, this`memory, this`free, this`consumer, this`past
      ensures Valid() && taken <= IdSet(packet) && past.received == old(past.received) + taken
      ensures past.refused == old(past.refused)
      ensures forall i :: 0 <= i < |packet| && FirstFree(old(free), offers, i) ==> packet[i].id in taken
    {
      taken := {};
      for i := 0 to |packet|
        invariant Valid() && taken <= IdSet(packet) && past.received == old(past.received) + taken
        invariant |ring| == old(|ring|) && past.refused == old(past.refused)
        invariant forall k :: i <= k < |packet| && FirstFree(old(free), offers, k) ==> offers[k].index in free
        invariant forall k :: 0 <= k < i && FirstFree(old(free), offers, k) ==> packet[k].id in taken
      {
        var got := TakeOne(packet[i], back[i], offers[i]);
        if got { taken := taken + {packet[i].id}; }
      }
    }

    /** Hands on the message due next, or drops it if the queue refuses it. */
    method HandOn(slot: Pointer, accepts: nat -> bool, ghost x0: Rx<T>, ghost h0: Past<T>)
      requires Valid() && slot.At? && Found(Now(), nextToRead) && slot == ring[nextToRead % |ring|]
      requires Since(x0, h0, Now(), past, accepts)
      modifies this`nextToRead, this`free, this`consumer, this`outgoing, this`past
      ensures Valid() && nextToRead == old(nextToRead) + 1 && Since(x0, h0, Now(), past, accepts)
    {
      ghost var x, h := Now(), past;
      DrainKeeps(x, h, source, accepts(nextToRead));
      SinceStep(x0, h0, x, h, accepts);
      if accepts(nextToRead) {
        outgoing := outgoing + [memory[slot.index]];
        consumer := consumer + {slot.index};
      } else {
        free := free + {slot.index};
      }
      past := Logged(x, h, accepts(x.next));
      nextToRead := nextToRead + 1;
      assert Now() == Drained(x, accepts(x.next));
    }

    /** Hands on one message after another while the next id is there; a message the queue refuses is dropped. */
    method Drain(accepts: nat -> bool)
      requires Valid()
      modifies this`nextToRead, this`free, this`consumer, this`outgoing, this`past
      ensures Valid() && past.received == old(past.received)
      ensures nextToRead >= old(nextToRead) && nextToRead !in past.received
      ensures forall e :: old(nextToRead) <= e < nextToRead ==> (e in past.refused <==> !accepts(e))
      ensures forall e :: 0 <= e < old(nextToRead) ==> (e in past.refused <==> e in old(past.refused))
      ensures forall e {:trigger Passed(Now(), e, accepts(e))} :: old(nextToRead) <= e < nextToRead ==>
                Passed(Now(), e, accepts(e))
      ensures old(free) <= free && old(consumer) <= consumer
    {
      ghost var x0, h0 := Now(), past;
      PointersInside(Now(), past, source);
      var slot := GetSlot(nextToRead);
      while slot.At?
        invariant Valid() && Since(x0, h0, Now(), past, accepts)
        invariant slot.At? <==> Found(Now(), nextToRead)
        invariant slot.At? ==> slot == ring[nextToRead % |ring|]
        decreases tail - nextToRead
      {
        InWindow(Now(), past, source);
        HandOn(slot, accepts, x0, h0);
        PointersInside(Now(), past, source);
        slot := GetSlot(nextToRead);
      }
      FoundIffReceived(Now(), past, source);
    }

    /** One packet: all its messages are taken, then the ring is drained. If no id is `size` or more ahead of
        the next one, what has been handed on is the longest gapless prefix received, each id once with its own
        payload, without what the outgoing queue refused. */
    method Receive(packet: seq<Message<T>>, back: seq<set<nat>>, offers: seq<Pointer>, accepts: nat -> bool)
      returns (taken: set<nat>)
      requires Valid() && Ids(packet, source, nextToRead + |ring|)
      requires |back| == |packet| == |offers|
      modifies this
      ensures Valid() && taken <= IdSet(packet) && past.received == old(past.received) + taken
      ensures nextToRead >= old(nextToRead) && nextToRead !in past.received
      ensures forall e :: 0 <= e < nextToRead ==> e in past.received
      ensures outgoing == HandedOn(source, nextToRead, past.refused)
      ensures forall e :: old(nextToRead) <= e < nextToRead ==> (e in past.refused <==> !accepts(e))
      ensures forall e :: 0 <= e < old(nextToRead) ==> (e in past.refused <==> e in old(past.refused))
      ensures (forall e :: old(nextToRead) <= e < nextToRead ==> accepts(e)) ==>
                outgoing == old(outgoing) + Stretch(source, old(nextToRead), nextToRead - old(nextToRead))
      ensures forall i :: 0 <= i < |packet| && FirstFree(old(free), offers, i) ==> packet[i].id in taken
    {
      taken := TakeAll(packet, back, offers);
      Drain(accepts);
      if forall e :: old(nextToRead) <= e < nextToRead ==> accepts(e) {
        HandsOnAll(source, old(nextToRead), nextToRead, old(past.refused), past.refused);
      }
    }
  }

  /** The object offered to the `i`-th message is free and has not been offered before. */
  predicate FirstFree(free: set<nat>, offers: seq<Pointer>, i: nat) {
    i < |offers| && offers[i].At? && offers[i].index in free && forall j :: 0 <= j < i ==> offers[j] != offers[i]
  }

  lemma {:induction false} InWindow<T>(x: Rx<T>, h: Past<T>, source: nat -> Message<T>)
    requires Inv(x, h, source) && Found(x, x.next)
    ensures x.next < x.tail
  {
    FoundIffReceived(x, h, source);
  }

  lemma {:induction false} PointersInside<T>(x: Rx<T>, h: Past<T>, source: nat -> Message<T>)
    requires Inv(x, h, source)
    ensures forall j :: 0 <= j < |x.ring| && x.ring[j].At? ==> x.ring[j].index < |x.memory|
  {
    forall j | 0 <= j < |x.ring| && x.ring[j].At? ensures x.ring[j].index < |x.memory| {
      assert NoGhost(x, h, source, j);
    }
  }
}
