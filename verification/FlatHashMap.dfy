/** The open-addressing hash map with vectorised buckets. Sixteen-lane compares are loops over the lanes; the
    four parallel arrays are one array of slots, with the first bucket repeated behind the last. */
module FlatHashMaps {
  import opened FlatTables
  import opened FlatWalk
  import opened Sealing

  /** First lane at which a search stops, 16 if none. */
  method StopLane<V>(slots: seq<Slot<V>>, base: nat, d: nat) returns (lane: nat)
    requires base + LANES <= |slots|
    ensures lane <= LANES
    ensures forall i :: base <= i < base + lane ==> !Stops(slots[i].tag, d + (i - base))
    ensures lane < LANES ==> Stops(slots[base + lane].tag, d + lane)
  {
    lane := 0;
    while lane < LANES
      invariant lane <= LANES
      invariant forall i :: base <= i < base + lane ==> !Stops(slots[i].tag, d + (i - base))
    {
      if Stops(slots[base + lane].tag, d + lane) { return; }
      lane := lane + 1;
    }
  }

  /** First free lane, 16 if none. */
  method FreeLane<V>(slots: seq<Slot<V>>, base: nat) returns (lane: nat)
    requires base + LANES <= |slots|
    ensures lane <= LANES
    ensures forall i :: base <= i < base + lane ==> slots[i].tag != EMPTY
    ensures lane < LANES ==> slots[base + lane].tag == EMPTY
  {
    lane := 0;
    while lane < LANES
      invariant lane <= LANES
      invariant forall i :: base <= i < base + lane ==> slots[i].tag != EMPTY
    {
      if slots[base + lane].tag == EMPTY { return; }
      lane := lane + 1;
    }
  }

  /** The search for an entry `d` from home stops at slot `i`. */
  ghost predicate Landing<V>(t: seq<Slot<V>>, i: nat, d: nat, isFree: bool) {
    i < |t| && Stops(t[i].tag, d) && isFree == !Full(t, i)
  }

  /** Both compares of a bucket that lies at `at` in the table `t`. */
  method Survey<V>(slots: seq<Slot<V>>, base: nat, d: nat, ghost t: seq<Slot<V>>, ghost at: nat)
    returns (available: nat, isFree: bool)
    requires base + LANES <= |slots| && at + LANES <= |t|
    requires forall i :: at <= i < at + LANES ==> t[i] == slots[i - at + base]
    ensures available <= LANES
    ensures forall i :: at <= i < at + available ==> !Stops(t[i].tag, d + (i - at))
    ensures available < LANES ==> Landing(t, at + available, d + available, isFree)
  {
    var free := FreeLane(slots, base);
    available := StopLane(slots, base, d);
    isFree := free == available;
    forall i | at <= i < at + available ensures !Stops(t[i].tag, d + (i - at)) { assert t[i] == slots[i - at + base]; }
    assert available < LANES ==> t[at + available] == slots[base + available];
  }

  /** What one bucket says of a key: found in a lane, certainly absent, or look further. */
  datatype Answer = Hit(lane: nat) | Miss | Further

  predicate Candidate<V>(x: Slot<V>, key: int, d: nat) { x.tag == d % 256 && x.footprint == Footprint(key) }

  /** The slot is not the one a search for `key`, `d` from home, would take. */
  predicate Rejects<V>(x: Slot<V>, key: int, d: nat) { Candidate(x, key, d) ==> x.key != key }

  /** What each answer says of the bucket's slots. */
  ghost predicate Said<V>(slots: seq<Slot<V>>, base: nat, d: nat, key: int, a: Answer)
    requires base + LANES <= |slots|
  {
    match a
    case Hit(lane) =>
      && lane < LANES && slots[base + lane].key == key && slots[base + lane].tag != EMPTY
      && (forall i :: base <= i <= base + lane ==> !Stops(slots[i].tag, d + (i - base)))
    case Miss => exists stop :: base <= stop < base + LANES && StopsAt(slots, base, d, key, stop)
    case Further => forall i :: base <= i < base + LANES ==>
                      !Stops(slots[i].tag, d + (i - base)) && Rejects(slots[i], key, d + (i - base))
  }

  ghost predicate StopsAt<V>(slots: seq<Slot<V>>, base: nat, d: nat, key: int, stop: nat)
    requires base <= stop < |slots|
  {
    && Stops(slots[stop].tag, d + (stop - base))
    && forall i :: base <= i < stop ==> Rejects(slots[i], key, d + (i - base))
  }

  method ProbeBucket<V>(slots: seq<Slot<V>>, base: nat, d: nat, key: int) returns (a: Answer)
    requires base + LANES <= |slots|
    ensures Said(slots, base, d, key, a)
  {
    var stop := StopLane(slots, base, d);
    var lane := 0;
    while lane < LANES
      invariant lane <= LANES
      invariant forall i :: base <= i < base + lane ==> Rejects(slots[i], key, d + (i - base))
    {
      if Candidate(slots[base + lane], key, d + lane) {
        if stop <= lane {
          assert StopsAt(slots, base, d, key, base + stop);
          return Miss;
        }
        if slots[base + lane].key == key { return Hit(lane); }
      }
      lane := lane + 1;
    }
    assert stop < LANES ==> StopsAt(slots, base, d, key, base + stop);
    a := if stop < LANES then Miss else Further;
  }

  /** First free lane of a key's home bucket. An entry there is never closer to home than its lane, so the
      scalar pass displaces nothing. */
  method HomeLane<V>(slots: seq<Slot<V>>, home: nat, ghost t: seq<Slot<V>>, ghost size: nat,
                     ghost m: map<int, V>, ghost w: map<int, nat>) returns (d: nat)
    requires Regime(t, size, m, w) && t <= slots && home % LANES == 0 && home + LANES <= |t|
    ensures d <= LANES && (d < LANES ==> !Full(t, home + d))
    ensures forall i :: home <= i < home + d ==> Full(t, i) && t[i].tag >= i - home
  {
    d := 0;
    while d < LANES
      invariant d <= LANES
      invariant forall i :: home <= i < home + d ==> Full(t, i) && t[i].tag >= i - home
    {
      assert slots[home + d] == t[home + d];
      if slots[home + d].tag == EMPTY { return; }
      HomeTags(t, size, m, w, home, d);
      if slots[home + d].tag < d { assert false; }
      d := d + 1;
    }
  }

  /** The entry an insertion is carrying, how far it is from its home, and where the insertion looks next. */
  datatype Cursor<V> = Cursor(key: int, value: V, d: nat, idx: nat)

  ghost predicate HomeRoom<V>(t: seq<Slot<V>>, home: nat) { exists i :: home <= i < home + LANES && !Full(t, i) }

  /** The entry has gone into the first free slot of its home bucket, and nothing else has changed. */
  ghost predicate Laid<V>(t: seq<Slot<V>>, t': seq<Slot<V>>, home: nat, key: int, value: V) {
    exists d :: 0 <= d < LANES && LaidAt(t, t', home, d, key, value)
  }

  ghost predicate LaidAt<V>(t: seq<Slot<V>>, t': seq<Slot<V>>, home: nat, d: nat, key: int, value: V) {
    && home + d < |t| && !Full(t, home + d) && (forall i :: home <= i < home + d ==> Full(t, i))
    && t' == t[home + d := Entry(d, key, value)]
  }

  lemma {:induction false} LaidHere<V>(t: seq<Slot<V>>, home: nat, d: nat, key: int, value: V)
    requires d < LANES && home + d < |t| && !Full(t, home + d) && forall i :: home <= i < home + d ==> Full(t, i)
    ensures Laid(t, t[home + d := Written(d, key, value)], home, key, value)
  {
    assert LaidAt(t, t[home + d := Written(d, key, value)], home, d, key, value);
  }

  ghost predicate HasEmpty<V>(t: seq<Slot<V>>) { exists e :: 0 <= e < |t| && !Full(t, e) }

  ghost predicate HasOpenBucket<V>(t: seq<Slot<V>>) { exists b :: OpenBucket(t, b) }

  /** No slot has been taken. */
  ghost predicate NoFuller<V>(t: seq<Slot<V>>, t': seq<Slot<V>>) {
    |t'| == |t| && forall i {:trigger Full(t', i)} :: 0 <= i && Full(t', i) ==> Full(t, i)
  }

  lemma {:induction false} FreedIsNoFuller<V>(t: seq<Slot<V>>, t': seq<Slot<V>>, i: nat, x: Slot<V>)
    requires NoFuller(t, t') && i < |t'| && x.tag == EMPTY
    ensures NoFuller(t, t'[i := x])
  {
    var u := t'[i := x];
    forall k {:trigger Full(u, k)} | 0 <= k && Full(u, k) ensures Full(t, k) { assert Full(t', k); }
  }

  /** The insertion is bound to end: its home bucket has room, or no tag is near the limit and there is an
      empty slot the walk reaches or an open bucket it cannot pass. */
  ghost predicate Insertable<V>(t: seq<Slot<V>>, home: nat)
    requires home < |t|
  {
    HomeRoom(t, home) || (Roomy(t) && HasEmpty(t) && (Clears(t, home, 0, |t|) || HasOpenBucket(t)))
  }

  class FlatHashMap<V> {
    const size: nat
    const blank: V
    var slots: seq<Slot<V>>
    ghost var contents: map<int, V>
    ghost var places: map<int, nat>

    /** The number of slots. */
    function Capacity(): nat { LANES * size }

    ghost predicate Padded()
      reads this
    {
      && size > 0 && |slots| == LANES * size + LANES
      && forall j :: 0 <= j < LANES ==> slots[LANES * size + j] == slots[j]
    }

    ghost function Table(): (t: seq<Slot<V>>)
      requires Padded()
      reads this
      ensures |t| == LANES * size
    {
      slots[..LANES * size]
    }

    ghost predicate Valid()
      reads this
    {
      Padded() && Regime(Table(), size, contents, places)
    }

    /** `Valid`, folded. */
    ghost predicate Ready()
      reads this
    {
      forall k {:trigger Key(Lock.Table, k)} :: Key(Lock.Table, k) ==> Valid()
    }

    constructor (size: nat, blank: V)
      requires size > 0
      ensures Ready() && Valid() && this.size == size && contents == map[]
      ensures forall i :: 0 <= i < |Table()| ==> Table()[i] == Slot(EMPTY, 0, blank, 0)
    {
      this.size, this.blank := size, blank;
      slots := seq(LANES * size + LANES, _ => Slot(EMPTY, 0, blank, 0));
      contents, places := map[], map[];
    }

    /** Writes a slot and, in the first bucket, its copy behind the last. */
    method PaddingSafeWrite(i: nat, d: nat, key: int, value: V)
      requires Padded() && i < LANES * size
      modifies this`slots
      ensures Padded() && Table() == old(Table())[i := Written(d, key, value)]
    {
      var x := Slot(d % 256, key, value, Footprint(key));
      slots := slots[i := x];
      if i < LANES { slots := slots[LANES * size + i := x]; }
    }

    /** The key is not closer to home than `d`. */
    ghost predicate Beyond(key: int, d: nat)
      requires Padded()
      reads this
    {
      key in contents ==> key in places && places[key] < |Table()| && d <= Table()[places[key]].tag < |Table()|
    }

    /** What the bucket `d` slots from home says of a key not closer than that, and of a key whose search ends
        `j` slots from home. */
    method LookAt(key: int, d: nat, idx: nat, ghost ready: bool, ghost missed: bool, ghost j: nat) returns (a: Answer)
      requires Padded() && d < LANES * size && Probing(Home(key, size), d, idx, LANES * size)
      requires ready ==> Ready() && Beyond(key, d)
      requires missed ==> d <= j < LANES * size && j < EMPTY && MissedAt(Table(), size, key, j)
      ensures idx + LANES <= LANES * size && (a.Hit? ==> a.lane < LANES)
      ensures ready && a.Hit? ==> key in contents && slots[idx + a.lane].value == contents[key]
      ensures ready && a.Miss? ==> key !in contents
      ensures ready && a.Further? ==> Beyond(key, d + LANES)
      ensures missed ==> !a.Hit? && (a.Further? ==> d + LANES <= j)
    {
      ghost var t := Table();
      assert Key(Lock.Probe, 0);
      LaneIsStep(Home(key, size), d, LANES * size, 0);
      a := ProbeBucket(slots, idx, d, key);
      SameLanes(slots, LANES * size, idx, d, key, a);
      if missed { MissedProbe(t, size, key, d, j, a); }
      if ready {
        assert Key(Lock.Table, 0);
        ProbeMeans(t, size, contents, places, key, d, a);
      }
    }

    /** Lookup: exact on a table in order; on any table, false for a key whose search ends before it. */
    method GetVal(key: int) returns (found: bool, value: V)
      requires Padded()
      ensures Ready() ==> (found <==> key in contents) && (found ==> value == contents[key])
      ensures Missed(Table(), size, key) ==> !found
    {
      ghost var ready, missed := Ready(), Missed(Table(), size, key);
      ghost var j: nat :=
        if missed then var j :| 0 <= j < |Table()| && j < EMPTY && MissedAt(Table(), size, key, j); j else 0;
      assert ready ==> Beyond(key, 0) by {
        if ready && key in contents {
          assert Key(Lock.Table, 0);
          SearchPath(Table(), size, contents, places, key, 0);
        }
      }
      found, value := Probe(key, ready, missed, j);
    }

    /** The walk from bucket to bucket. */
    method Probe(key: int, ghost ready: bool, ghost missed: bool, ghost j: nat) returns (found: bool, value: V)
      requires Padded() && (ready ==> Ready() && Beyond(key, 0))
      requires missed ==> j < LANES * size && j < EMPTY && MissedAt(Table(), size, key, j)
      ensures ready ==> (found <==> key in contents) && (found ==> value == contents[key])
      ensures missed ==> !found
    {
      var total, home := LANES * size, Home(key, size);
      var idx, d := home, 0;
      found, value := false, blank;
      FirstProbe(home, size);
      while d < total
        invariant Probing(home, d, idx, total)
        invariant ready ==> Beyond(key, d)
        invariant missed ==> d <= j
        invariant !found
      {
        NextProbe(home, d, idx, size);
        var a := LookAt(key, d, idx, ready, missed, j);
        match a {
          case Hit(lane) => return true, slots[idx + lane].value;
          case Miss => return;
          case Further =>
        }
        idx := if idx + LANES == total then 0 else idx + LANES;
        d := d + LANES;
      }
    }

    // ---------------------------------------------------------------- deletion

    method FindSlot(key: int) returns (found: bool, idx: nat)
      requires Valid()
      ensures found <==> key in contents
      ensures found ==> key in places && idx == places[key] && idx < LANES * size
    {
      var total, home := LANES * size, Home(key, size);
      ghost var t := Table();
      var d := 0;
      idx, found := home, false;
      assert Beyond(key, 0) by { if key in contents { SearchPath(t, size, contents, places, key, 0); } }
      while d < total
        invariant d <= total && idx < total && (d < total ==> idx == Step(home, d, total))
        invariant Beyond(key, d) && !found
      {
        assert slots[idx] == t[idx];
        if slots[idx].tag == EMPTY || slots[idx].tag < d {
          if key in contents { SearchPath(t, size, contents, places, key, d); }
          return;
        }
        if slots[idx].footprint == Footprint(key) && slots[idx].key == key {
          FoundIsMapped(t, size, contents, places, idx);
          return true, idx;
        }
        if key in contents { SearchPath(t, size, contents, places, key, d); }
        idx := Step(idx, 1, total);
        d := d + 1;
      }
    }

    ghost predicate HoleAt(hole: nat, e: nat)
      reads this
    {
      && Padded() && hole < LANES * size && Holed(Table(), size, contents, places, hole)
      && e < LANES * size && e != hole && (!Full(Table(), e) || Table()[e].tag == 0)
    }

    /** Moves the entry after the hole back by one, unless it is at home or the slot is free. */
    method ShiftOne(hole: nat, ghost e: nat) returns (done: bool)
      requires HoleAt(hole, e)
      modifies this`slots, this`places
      ensures done ==> HoleAt(hole, e)
      ensures done ==> var k := Step(hole, 1, LANES * size); !Full(Table(), k) || Table()[k].tag == 0
      ensures !done ==> HoleAt(Step(hole, 1, LANES * size), e)
      ensures NoFuller(old(Table()), Table())
    {
      ghost var t := Table();
      var next := Step(hole, 1, LANES * size);
      var x := slots[next];
      assert t[next] == x;
      if x.tag == EMPTY || x.tag == 0 { return true; }
      ShiftIsWrite(t, size, contents, places, hole);
      ShiftKeeps(t, size, contents, places, hole);
      PaddingSafeWrite(hole, x.tag - 1, x.key, x.value);
      places := places[x.key := hole];
      done := false;
    }

    /** Backward shift: moves entries back until one is at home or a slot is free. */
    method ShiftBack(from: nat, ghost e: nat) returns (hole: nat)
      requires HoleAt(from, e)
      modifies this`slots, this`places
      ensures HoleAt(hole, e) && NoFuller(old(Table()), Table())
      ensures var k := Step(hole, 1, LANES * size); !Full(Table(), k) || Table()[k].tag == 0
    {
      hole := from;
      while true
        invariant HoleAt(hole, e) && NoFuller(old(Table()), Table())
        decreases Dist(hole, e, LANES * size)
      {
        assert Full(Table(), hole);
        var done := ShiftOne(hole, e);
        if done { return; }
        hole := Step(hole, 1, LANES * size);
      }
    }

    /** The backward shift after deleting the key comes to an end: besides the key's own slot there is a free one,
        or one whose entry is at home. */
    ghost predicate ShiftEnds(key: int)
      requires Padded()
      reads this
    {
      exists e :: 0 <= e < |Table()| && (key in places ==> e != places[key])
                  && (!Full(Table(), e) || Table()[e].tag == 0)
    }

    /** Removes exactly its key; free slots stay free. */
    method DeleteNode(key: int)
      requires Valid() && (key in contents ==> ShiftEnds(key))
      modifies this
      ensures Valid() && contents == old(contents) - {key}
      ensures key in old(contents) ==> HasEmpty(Table())
      ensures NoFuller(old(Table()), Table())
    {
      var found, idx := FindSlot(key);
      if !found {
        assert contents == contents - {key};
        return;
      }
      ghost var e :| 0 <= e < |Table()| && e != places[key] && (!Full(Table(), e) || Table()[e].tag == 0);
      PunchHole(Table(), size, contents, places, key);
      contents := contents - {key};
      var hole := ShiftBack(idx, e);
      FillHole(Table(), size, contents, places, hole, Written(EMPTY, 0, blank));
      FreedIsNoFuller(old(Table()), Table(), hole, Written(EMPTY, 0, blank));
      PaddingSafeWrite(hole, EMPTY, 0, blank);
      assert !Full(Table(), hole);
    }

    // ---------------------------------------------------------------- insertion

    function Position(idx: nat): (p: nat)
      requires size > 0 && idx <= LANES * size
      ensures p < LANES * size
    {
      if idx == LANES * size then 0 else idx
    }

    ghost predicate At(trip: Trip<V>, b: nat, phase: Phase, c: Cursor<V>, left: nat)
      reads this
    {
      && Padded() && trip.size == size && c.idx <= LANES * size
      && Standing(Table(), trip, b, phase, contents, places, c.key, c.value, c.d, Position(c.idx), left)
    }

    ghost function ToGo(b: nat, phase: Phase, c: Cursor<V>, left: nat): nat
      requires Padded() && c.idx <= LANES * size
      reads this
    {
      Ahead(Table(), b, phase, Position(c.idx), left)
    }

    /** The scalar pass gets to the first free lane of the home bucket, or past the bucket. */
    method ReachInHome(key: int, ghost value: V, ghost trip: Trip<V>) returns (d: nat)
      requires Valid() && trip.size == size
      requires UnderWay(Table(), trip, contents, places, key, value, 0, Home(key, size), LANES * size)
      ensures d <= LANES && d < LANES * size && (d < LANES ==> !Full(Table(), Home(key, size) + d))
      ensures forall i :: Home(key, size) <= i < Home(key, size) + d ==> Full(Table(), i)
      ensures UnderWay(Table(), trip, contents, places, key, value, d,
                       Step(Home(key, size), d, LANES * size), LANES * size - d)
    {
      var home := Home(key, size);
      d := HomeLane(slots, home, Table(), size, contents, places);
      GoFar(Table(), trip, contents, places, key, value, 0, home, LANES * size, d);
    }

    method HomePass(key: int, value: V, ghost trip: Trip<V>) returns (placed: bool)
      requires Padded() && Ready() && trip.size == size
      requires UnderWay(Table(), trip, contents, places, key, value, 0, Home(key, size), LANES * size)
      modifies this
      ensures Padded()
      ensures placed ==> trip.clear && Verdict(Table(), trip, places)
      ensures placed ==> Laid(old(Table()), Table(), Home(key, size), key, value)
      ensures !placed ==> slots == old(slots) && contents == old(contents) && places == old(places)
      ensures !placed ==> !HomeRoom(Table(), Home(key, size)) && LANES < LANES * size
      ensures !placed ==> UnderWay(Table(), trip, contents, places, key, value, LANES,
                                   Step(Home(key, size), LANES, LANES * size), LANES * size - LANES)
    {
      var home := Home(key, size);
      ghost var t := Table();
      assert Valid() by { assert Key(Lock.Table, 0); }
      var d := ReachInHome(key, value, trip);
      if d == LANES { return false; }
      LaidHere(t, home, d, key, value);
      Lay(key, value, d, home + d, trip, LANES * size - d);
      placed := true;
    }

    /** Puts the entry under way into the free slot reached. */
    method Lay(key: int, value: V, d: nat, pos: nat, ghost trip: Trip<V>, ghost left: nat)
      requires Padded() && pos < LANES * size && d < EMPTY && !Full(Table(), pos)
      requires UnderWay(Table(), trip, contents, places, key, value, d, pos, left)
      modifies this
      ensures Padded() && Table() == old(Table())[pos := Written(d, key, value)] && contents == old(contents)
      ensures trip.clear && Verdict(Table(), trip, places)
    {
      PlaceOnTrack(Table(), trip, contents, places, key, value, d, pos, left);
      PaddingSafeWrite(pos, d, key, value);
      places := places[key := pos];
    }

    /** Puts the carried entry into a free slot and stops. */
    method Put(c: Cursor<V>, ghost trip: Trip<V>, ghost b: nat, ghost phase: Phase, ghost left: nat)
      requires At(trip, b, phase, c, left) && c.idx < LANES * size && !Full(Table(), c.idx)
      modifies this
      ensures Padded() && Verdict(Table(), trip, places)
    {
      StepPlace(Table(), trip, b, phase, contents, places, c.key, c.value, c.d, c.idx, left);
      PaddingSafeWrite(c.idx, c.d, c.key, c.value);
      places := places[c.key := c.idx];
    }

    /** Puts the carried entry into a taken slot and carries on, one slot further, with what was there. */
    method Displace(c: Cursor<V>, ghost trip: Trip<V>, ghost b: nat, ghost phase: Phase, ghost left: nat)
      returns (c': Cursor<V>)
      requires At(trip, b, phase, c, left) && c.idx < LANES * size && Full(Table(), c.idx) && c.idx % LANES != 0
      requires phase.OnTrack? ==> Table()[c.idx].tag < c.d
      modifies this
      ensures At(trip, b, phase, c', Fewer(left, 1)) && c'.idx == Step(c.idx, 1, LANES * size)
      ensures ToGo(b, phase, c', Fewer(left, 1)) < old(ToGo(b, phase, c, left))
    {
      StepSwap(Table(), trip, b, phase, contents, places, c.key, c.value, c.d, c.idx, left);
      var x := slots[c.idx];
      assert x == Table()[c.idx];
      PaddingSafeWrite(c.idx, c.d, c.key, c.value);
      contents, places := contents[c.key := c.value] - {x.key}, places[c.key := c.idx];
      c' := Cursor(x.key, x.value, x.tag + 1, Step(c.idx, 1, LANES * size));
    }

    /** The scalar pass over what is left of a bucket. */
    method FinishBucket(c0: Cursor<V>, ghost trip: Trip<V>, ghost b: nat, ghost phase: Phase, ghost left0: nat)
      returns (placed: bool, c: Cursor<V>, ghost left: nat)
      requires At(trip, b, phase, c0, left0)
      modifies this
      ensures Padded() && (placed ==> Verdict(Table(), trip, places))
      ensures !placed ==> At(trip, b, phase, c, left) && c.idx % LANES == 0
      ensures !placed ==> ToGo(b, phase, c, left) <= old(ToGo(b, phase, c0, left0))
    {
      c, left, placed := c0, left0, false;
      while c.idx % LANES != 0
        invariant At(trip, b, phase, c, left) && !placed
        invariant ToGo(b, phase, c, left) <= old(ToGo(b, phase, c0, left0))
        decreases ToGo(b, phase, c, left)
      {
        assert slots[c.idx] == Table()[c.idx];
        if slots[c.idx].tag == EMPTY {
          Put(c, trip, b, phase, left);
          placed := true;
          return;
        }
        if slots[c.idx].tag < c.d {
          c := Displace(c, trip, b, phase, left);
        } else {
          StepPast(Table(), trip, b, phase, contents, places, c.key, c.value, c.d, c.idx, left);
          c := c.(idx := Step(c.idx, 1, LANES * size), d := c.d + 1);
        }
        left := Fewer(left, 1);
      }
    }

    /** The lanes of the bucket at `idx`, read through the padding if need be, are the table's. */
    lemma {:induction false} LanesAre(idx: nat)
      requires Padded() && idx <= LANES * size && idx % LANES == 0
      ensures Position(idx) + LANES <= LANES * size && idx + LANES <= |slots|
      ensures forall i :: Position(idx) <= i < Position(idx) + LANES ==> Table()[i] == slots[i - Position(idx) + idx]
    {
      Aligned(Position(idx), LANES * size, LANES);
    }

    /** Moves the cursor past the first `k` lanes, at which the search does not stop. */
    method PassLanes(c: Cursor<V>, k: nat, ghost trip: Trip<V>, ghost b: nat, ghost phase: Phase, ghost left: nat)
      returns (c': Cursor<V>)
      requires At(trip, b, phase, c, left) && c.idx % LANES == 0 && 0 < k <= LANES
      requires Position(c.idx) + LANES <= LANES * size
      requires forall i :: Position(c.idx) <= i < Position(c.idx) + k ==>
                 !Stops(Table()[i].tag, c.d + (i - Position(c.idx)))
      ensures At(trip, b, phase, c', Fewer(left, k))
              && c' == c.(idx := Step(Position(c.idx), k, LANES * size), d := c.d + k)
      ensures ToGo(b, phase, c', Fewer(left, k)) < ToGo(b, phase, c, left)
    {
      ghost var t, pos := Table(), Position(c.idx);
      forall i | pos <= i < pos + k ensures Full(t, i) && !Stops(t[i].tag, c.d + (i - pos)) {
        assert !Stops(t[i].tag, c.d + (i - pos));
      }
      StepLanes(t, trip, b, phase, contents, places, c.key, c.value, c.d, pos, left, k);
      c' := c.(idx := Step(Position(c.idx), k, LANES * size), d := c.d + k);
    }

    /** On track, a taken slot at which the search stops is richer. */
    lemma {:induction false} RicherLane(c: Cursor<V>, trip: Trip<V>, b: nat, phase: Phase, left: nat)
      requires At(trip, b, phase, c, left) && phase.OnTrack?
      requires Full(Table(), Position(c.idx)) && Stops(Table()[Position(c.idx)].tag, c.d)
      ensures Table()[Position(c.idx)].tag < c.d
    {
      assert Key(Lock.Insertion, 0);
      assert Step(Position(c.idx), 0, LANES * size) == Position(c.idx);
      PlainCompare(Table(), Position(c.idx), left, c.d, 0);
    }

    /** A bucket whose first slot is taken and stops the search is skipped: here a walk goes astray. */
    method SkipBucket(c: Cursor<V>, ghost trip: Trip<V>, ghost b: nat, ghost phase: Phase, ghost left: nat)
      returns (c': Cursor<V>, ghost phase': Phase)
      requires At(trip, b, phase, c, left) && c.idx % LANES == 0
      requires Full(Table(), Position(c.idx)) && Stops(Table()[Position(c.idx)].tag, c.d)
      ensures At(trip, b, phase', c', left)
      ensures ToGo(b, phase', c', left) < ToGo(b, phase, c, left)
    {
      if phase.OnTrack? { RicherLane(c, trip, b, phase, left); }
      StepSkip(Table(), trip, b, phase, contents, places, c.key, c.value, c.d, Position(c.idx), left);
      phase' := if phase.OnTrack? then Astray(c.key, Position(c.idx)) else phase;
      c' := c.(idx := Step(Position(c.idx), LANES, LANES * size), d := c.d + LANES);
    }

    /** At the lane where the search stops: a free slot takes the entry; a richer one is displaced, unless it is
        the bucket's first. */
    method Land(c: Cursor<V>, isFree: bool, ghost trip: Trip<V>, ghost b: nat, ghost phase: Phase, ghost left: nat)
      returns (placed: bool, c': Cursor<V>, ghost phase': Phase, ghost left': nat)
      requires At(trip, b, phase, c, left) && Landing(Table(), c.idx, c.d, isFree)
      modifies this
      ensures Padded() && (placed ==> Verdict(Table(), trip, places))
      ensures !placed ==> At(trip, b, phase', c', left')
      ensures !placed ==> ToGo(b, phase', c', left') < old(ToGo(b, phase, c, left))
    {
      c', phase', left', placed := c, phase, left, false;
      if isFree {
        Put(c, trip, b, phase, left);
        placed := true;
      } else if c.idx % LANES != 0 {
        if phase.OnTrack? { RicherLane(c, trip, b, phase, left); }
        c' := Displace(c, trip, b, phase, left);
        left' := Fewer(left, 1);
      } else {
        c', phase' := SkipBucket(c, trip, b, phase, left);
      }
    }

    /** One vector step over a whole bucket. */
    method BucketStep(c: Cursor<V>, ghost trip: Trip<V>, ghost b: nat, ghost phase: Phase, ghost left: nat)
      returns (placed: bool, c': Cursor<V>, ghost phase': Phase, ghost left': nat)
      requires At(trip, b, phase, c, left) && c.idx % LANES == 0
      modifies this
      ensures Padded() && (placed ==> Verdict(Table(), trip, places))
      ensures !placed ==> At(trip, b, phase', c', left')
      ensures !placed ==> ToGo(b, phase', c', left') < old(ToGo(b, phase, c, left))
    {
      var available, landed, isFree;
      ghost var left1: nat;
      available, landed, isFree, left1 := Approach(c, trip, b, phase, left);
      if available == LANES { return false, landed, phase, left1; }
      placed, c', phase', left' := Land(landed, isFree, trip, b, phase, left1);
    }

    /** Both compares of the bucket at `idx`, read through the padding if need be. */
    method SurveyAt(idx: nat, d: nat) returns (available: nat, isFree: bool)
      requires Padded() && idx <= LANES * size && idx % LANES == 0
      ensures available <= LANES && Position(idx) + LANES <= LANES * size
      ensures forall i :: Position(idx) <= i < Position(idx) + available ==>
                !Stops(Table()[i].tag, d + (i - Position(idx)))
      ensures available < LANES ==> Landing(Table(), Position(idx) + available, d + available, isFree)
    {
      LanesAre(idx);
      available, isFree := Survey(slots, idx, d, Table(), Position(idx));
    }

    /** Moves the cursor to lane `k`, if the search does not stop before it. */
    method MoveTo(c: Cursor<V>, k: nat, ghost trip: Trip<V>, ghost b: nat, ghost phase: Phase, ghost left: nat)
      returns (landed: Cursor<V>, ghost left': nat)
      requires At(trip, b, phase, c, left) && c.idx % LANES == 0 && k <= LANES
      requires Position(c.idx) + LANES <= LANES * size
      requires forall i :: Position(c.idx) <= i < Position(c.idx) + k ==>
                 !Stops(Table()[i].tag, c.d + (i - Position(c.idx)))
      ensures At(trip, b, phase, landed, left') && landed.d == c.d + k
      ensures k < LANES ==> landed.idx == Position(c.idx) + k
      ensures ToGo(b, phase, landed, left') <= ToGo(b, phase, c, left)
      ensures k > 0 ==> ToGo(b, phase, landed, left') < ToGo(b, phase, c, left)
    {
      if k > 0 {
        landed := PassLanes(c, k, trip, b, phase, left);
        left' := Fewer(left, k);
      } else {
        landed, left' := c.(idx := Position(c.idx)), left;
      }
    }

    /** Compares all lanes at once and moves to the first at which the search stops. */
    method Approach(c: Cursor<V>, ghost trip: Trip<V>, ghost b: nat, ghost phase: Phase, ghost left: nat)
      returns (available: nat, landed: Cursor<V>, isFree: bool, ghost left': nat)
      requires At(trip, b, phase, c, left) && c.idx % LANES == 0
      ensures available <= LANES && At(trip, b, phase, landed, left')
      ensures ToGo(b, phase, landed, left') <= ToGo(b, phase, c, left)
      ensures available == LANES ==> ToGo(b, phase, landed, left') < ToGo(b, phase, c, left)
      ensures available < LANES ==> Landing(Table(), landed.idx, landed.d, isFree)
    {
      available, isFree := SurveyAt(c.idx, c.d);
      landed, left' := MoveTo(c, available, trip, b, phase, left);
    }

    /** Buckets after the home bucket: the rest of a bucket slot by slot, then bucket by bucket. */
    method FarPass(c0: Cursor<V>, ghost trip: Trip<V>, ghost b: nat, ghost left0: nat)
      requires At(trip, b, OnTrack, c0, left0)
      modifies this
      ensures Padded() && Verdict(Table(), trip, places)
    {
      var c := c0;
      ghost var phase, left := OnTrack, left0;
      while c.d < LANES * size
        invariant At(trip, b, phase, c, left)
        decreases ToGo(b, phase, c, left)
      {
        var placed: bool;
        placed, c, left := FinishBucket(c, trip, b, phase, left);
        if placed { return; }
        placed, c, phase, left := BucketStep(c, trip, b, phase, left);
        if placed { return; }
      }
      Exhausted(Table(), trip, b, phase, contents, places, c.key, c.value, c.d, Position(c.idx), left);
    }

    /** Inserts a key that is absent; a key that is there is left alone. With room in the home bucket the
        insertion is exact. Otherwise it is exact if, and only if, its walk is clear: if not, the victim of the
        walk, which the map should have, can no longer be found. */
    method AddNode(key: int, value: V)
      requires Valid() && (key in contents || Insertable(Table(), Home(key, size)))
      modifies this
      ensures Padded()
      ensures key in old(contents) ==> Valid() && contents == old(contents) && slots == old(slots)
      ensures key !in old(contents)
              && (old(HomeRoom(Table(), Home(key, size))) || old(Clears(Table(), Home(key, size), 0, LANES * size)))
              ==> Valid() && contents == old(contents)[key := value]
      ensures key !in old(contents) && old(HomeRoom(Table(), Home(key, size)))
              ==> Laid(old(Table()), Table(), Home(key, size), key, value)
      ensures key !in old(contents) && !old(Clears(Table(), Home(key, size), 0, LANES * size))
              ==> var victim := old(Victim(Table(), Home(key, size), 0, LANES * size, key));
                  victim in old(contents)[key := value] && Missed(Table(), size, victim)
    {
      assert Ready();
      var found, _ := GetVal(key);
      if !found {
        ghost var trip := AddAbsent(key, value);
        assert Decided(Table(), trip, places) by { assert Key(Lock.Insertion, 0); }
      }
    }

    method AddAbsent(key: int, value: V) returns (ghost trip: Trip<V>)
      requires Valid() && key !in contents && Insertable(Table(), Home(key, size))
      modifies this
      ensures Padded() && contents == old(contents)[key := value]
      ensures trip.size == size && trip.goal == contents
      ensures trip.clear == old(Clears(Table(), Home(key, size), 0, LANES * size))
      ensures trip.victim == old(Victim(Table(), Home(key, size), 0, LANES * size, key))
      ensures old(HomeRoom(Table(), Home(key, size))) ==>
                trip.clear && Laid(old(Table()), Table(), Home(key, size), key, value)
      ensures Verdict(Table(), trip, places)
    {
      ghost var t, home := Table(), Home(key, size);
      ghost var e :| 0 <= e < |t| && !Full(t, e);
      trip := Trip(size, contents[key := value], e, Clears(t, home, 0, LANES * size),
                   Victim(t, home, 0, LANES * size, key));
      SetOut(t, size, contents, places, key, value, e);
      var placed := HomePass(key, value, trip);
      if !placed { AddFar(key, value, trip); }
      contents := trip.goal;
    }

    /** Insertion past a full home bucket. */
    method AddFar(key: int, value: V, ghost trip: Trip<V>)
      requires Padded() && trip.size == size && LANES < LANES * size
      requires UnderWay(Table(), trip, contents, places, key, value, LANES,
                        Step(Home(key, size), LANES, LANES * size), LANES * size - LANES)
      requires Roomy(Table()) && (trip.clear || HasOpenBucket(Table()))
      modifies this
      ensures Padded() && Verdict(Table(), trip, places)
    {
      ghost var t := Table();
      ghost var b := if HasOpenBucket(t) then var b :| OpenBucket(t, b); b else 0;
      StartFar(t, trip, b, contents, places, key, value, LANES, Step(Home(key, size), LANES, LANES * size),
               LANES * size - LANES);
      FarPass(Cursor(key, value, LANES, Home(key, size) + LANES), trip, b, LANES * size - LANES);
    }

    // ---------------------------------------------------------------- as an index of known size

    /** The key's home bucket has room, folded. */
    ghost predicate RoomAtHome(key: int)
      reads this
    {
      forall k {:trigger Key(Lock.Table, k)} :: Key(Lock.Table, k) ==> Padded() && HomeRoom(Table(), Home(key, size))
    }

    /** An insertion of the key succeeds, folded: it is there, its home bucket has room, or its walk is clear. */
    ghost predicate Takes(key: int)
      reads this
    {
      forall k {:trigger Key(Lock.Table, k)} :: Key(Lock.Table, k) ==>
        && Padded()
        && (key in contents || HomeRoom(Table(), Home(key, size))
            || (Roomy(Table()) && HasEmpty(Table()) && Clears(Table(), Home(key, size), 0, LANES * size)))
    }

    lemma {:induction false} RoomIsTaken(key: int)
      requires RoomAtHome(key)
      ensures Takes(key)
    {
      assert Key(Lock.Table, 0);
    }

    /** The keys whose home bucket has a free slot. */
    ghost function HomesWithRoom(): iset<int>
      reads this
    {
      iset k | RoomAtHome(k)
    }

    /** GetVal. */
    method Lookup(key: int) returns (found: bool, value: V)
      requires Ready()
      ensures found <==> key in contents
      ensures found ==> value == contents[key]
    {
      assert Padded() by { assert Key(Lock.Table, 0); }
      found, value := GetVal(key);
    }

    /** AddNode for a key the table takes. */
    method Insert(key: int, value: V)
      requires Ready() && Takes(key)
      modifies this
      ensures Ready() && contents == if key in old(contents) then old(contents) else old(contents)[key := value]
    {
      assert Key(Lock.Table, 0);
      AddNode(key, value);
    }

    /** AddNode for an absent key whose home bucket has room. */
    method InsertAtHome(key: int, value: V)
      requires Padded() && Ready() && key !in contents && HomeRoom(Table(), Home(key, size))
      modifies this
      ensures Padded() && Ready() && contents == old(contents)[key := value]
      ensures Laid(old(Table()), Table(), Home(key, size), key, value)
    {
      assert Valid() by { assert Key(Lock.Table, 0); }
      AddNode(key, value);
    }

    /** DeleteNode in a table with more slots than keys: room at home is not used up. */
    method Erase(key: int)
      requires Ready() && |contents| < Capacity()
      modifies this
      ensures Ready() && contents == old(contents) - {key}
      ensures old(HomesWithRoom()) <= HomesWithRoom()
    {
      assert Valid() by { assert Key(Lock.Table, 0); }
      assert key in contents ==> ShiftEnds(key) by { if key in contents { FewKeysLeaveRoom(key); } }
      ghost var t := Table();
      DeleteNode(key);
      forall k {:trigger RoomAtHome(k)} | old(RoomAtHome(k)) ensures RoomAtHome(k) {
        assert HomeRoom(t, Home(k, size)) by { assert Key(Lock.Table, 0); }
        RoomStays(t, Table(), Home(k, size));
      }
    }

    lemma {:induction false} FewKeysLeaveRoom(key: int)
      requires Valid() && |contents| < LANES * size && key in contents
      ensures ShiftEnds(key)
    {
      var e := FreeSlot(Table(), size, contents, places);
      SearchPath(Table(), size, contents, places, key, 0);
    }
  }

  lemma {:induction false} RoomStays<V>(t: seq<Slot<V>>, t': seq<Slot<V>>, home: nat)
    requires HomeRoom(t, home) && NoFuller(t, t')
    ensures HomeRoom(t', home)
  {
    var i :| home <= i < home + LANES && !Full(t, i);
    assert !Full(t', i);
  }

  /** The keys in the first `n` slots, all of them taken. */
  lemma {:induction false} FullSlotsCount<V>(t: seq<Slot<V>>, size: nat, m: map<int, V>, w: map<int, nat>, n: nat)
    returns (keys: set<int>)
    requires Regime(t, size, m, w) && n <= |t| && forall i :: 0 <= i < n ==> Full(t, i)
    ensures keys <= m.Keys && |keys| == n && forall k :: k in keys ==> k in w && w[k] < n
  {
    if n == 0 {
      keys := {};
    } else {
      keys := FullSlotsCount(t, size, m, w, n - 1);
      assert Full(t, n - 1);
      FoundIsMapped(t, size, m, w, n - 1);
      keys := keys + {t[n - 1].key};
    }
  }

  lemma {:induction false} SubsetCount(a: set<int>, b: set<int>)
    requires a <= b
    ensures |a| <= |b|
  {
    if exists x :: x in a {
      var x :| x in a;
      SubsetCount(a - {x}, b - {x});
    }
  }

  /** With fewer keys than slots, a slot is free. */
  lemma {:induction false} FreeSlot<V>(t: seq<Slot<V>>, size: nat, m: map<int, V>, w: map<int, nat>) returns (e: nat)
    requires Regime(t, size, m, w) && |m| < |t|
    ensures e < |t| && !Full(t, e)
  {
    if forall i :: 0 <= i < |t| ==> Full(t, i) {
      var keys := FullSlotsCount(t, size, m, w, |t|);
      SubsetCount(keys, m.Keys);
      assert false;
    } else {
      e :| 0 <= e < |t| && !Full(t, e);
    }
  }

  lemma {:induction false} HomeTags<V>(t: seq<Slot<V>>, size: nat, m: map<int, V>, w: map<int, nat>, base: nat,
                                       lane: nat)
    requires Regime(t, size, m, w) && base % LANES == 0 && lane < LANES && Full(t, base + lane)
    ensures t[base + lane].tag >= lane
  {
    assert Tagged(t, size, base + lane);
    DistLane(Home(t[base + lane].key, size), base + lane, |t|);
  }

  lemma {:induction false} ShiftIsWrite<V>(t: seq<Slot<V>>, size: nat, m: map<int, V>, w: map<int, nat>, hole: nat)
    requires Holed(t, size, m, w, hole) && size > 0
    requires Full(t, Step(hole, 1, |t|)) && t[Step(hole, 1, |t|)].tag > 0
    ensures var x := t[Step(hole, 1, |t|)]; Shifted(t, hole) == t[hole := Written(x.tag - 1, x.key, x.value)]
  {
    assert Tagged(t, size, Step(hole, 1, |t|));
  }

  lemma {:induction false} SameLanes<V>(slots: seq<Slot<V>>, n: nat, idx: nat, d: nat, key: int, a: Answer)
    requires n <= |slots| && idx + LANES <= n && Said(slots, idx, d, key, a)
    ensures Said(slots[..n], idx, d, key, a)
  {
    if a.Miss? {
      var stop :| idx <= stop < idx + LANES && StopsAt(slots, idx, d, key, stop);
      assert StopsAt(slots[..n], idx, d, key, stop);
    }
  }

  /** Lane `lane` of the bucket reached `d` slots from home. */
  lemma {:induction false} LaneIsStep(home: nat, d: nat, n: nat, lane: nat)
    requires n % LANES == 0 && home < n && home % LANES == 0 && d < n && d % LANES == 0 && lane < LANES
    ensures var idx := Step(home, d, n);
            idx + LANES <= n && d + lane < n && idx + lane == Step(home, d + lane, n)
  {
    Aligned(d, n, LANES);
    Aligned(Step(home, d, n), n, LANES);
  }

  /** The bucket at `idx` is `d` slots from home, folded. */
  ghost predicate Probing(home: nat, d: nat, idx: nat, n: nat) {
    forall k {:trigger Key(Lock.Probe, k)} :: Key(Lock.Probe, k) ==>
      d % LANES == 0 && (home < n && d < n ==> idx == Step(home, d, n))
  }

  lemma {:induction false} FirstProbe(home: nat, size: nat)
    requires home < LANES * size
    ensures Probing(home, 0, home, LANES * size)
  {
  }

  lemma {:induction false} NextProbe(home: nat, d: nat, idx: nat, size: nat)
    requires home < LANES * size && home % LANES == 0 && d < LANES * size && Probing(home, d, idx, LANES * size)
    ensures d + LANES <= LANES * size
    ensures Probing(home, d + LANES, if idx + LANES == LANES * size then 0 else idx + LANES, LANES * size)
  {
    assert Key(Lock.Probe, 0);
    WholeBuckets(size);
    BucketOn(home, d, LANES * size);
  }

  lemma {:induction false} BucketOn(home: nat, d: nat, n: nat)
    requires n % LANES == 0 && home < n && home % LANES == 0 && d < n && d % LANES == 0
    ensures (d + LANES) % LANES == 0 && d + LANES <= n
    ensures var idx := Step(home, d, n);
            d + LANES < n ==> Step(home, d + LANES, n) == if idx + LANES == n then 0 else idx + LANES
  {
    Aligned(d, n, LANES);
    Aligned(Step(home, d, n), n, LANES);
  }

  /** A lane between home and the key's place does not stop the search; the place itself is a hit. */
  lemma {:induction false} OnPath<V>(t: seq<Slot<V>>, size: nat, m: map<int, V>, w: map<int, nat>, key: int,
                                     d: nat, lane: nat)
    requires Regime(t, size, m, w) && key in m && d < |t| && d % LANES == 0 && lane < LANES
    ensures key in w && w[key] < |t|
    ensures var idx := Step(Home(key, size), d, |t|);
            && idx + LANES <= |t|
            && (d + lane <= t[w[key]].tag ==> !Stops(t[idx + lane].tag, d + lane))
            && (d + lane == t[w[key]].tag ==> !Rejects(t[idx + lane], key, d + lane))
  {
    LaneIsStep(Home(key, size), d, |t|, lane);
    SearchPath(t, size, m, w, key, d + lane);
    var i := Step(Home(key, size), d + lane, |t|);
    if d + lane <= t[w[key]].tag {
      assert Tagged(t, size, i);
      NoStop(t[i].tag, d + lane);
    }
  }

  lemma {:induction false} NoStop(tag: nat, d: nat)
    requires d <= tag < EMPTY
    ensures !Stops(tag, d) && d % 256 == d
  {
  }

  lemma {:induction false} HitIsMapped<V>(t: seq<Slot<V>>, size: nat, m: map<int, V>, w: map<int, nat>, key: int,
                                          d: nat, lane: nat)
    requires Regime(t, size, m, w) && d < |t| && d % LANES == 0
    requires var idx := Step(Home(key, size), d, |t|);
             idx + LANES <= |t| && Said(t, idx, d, key, Hit(lane))
    ensures key in m && m[key] == t[Step(Home(key, size), d, |t|) + lane].value
  {
    FoundIsMapped(t, size, m, w, Step(Home(key, size), d, |t|) + lane);
  }

  lemma {:induction false} StopIsBeyond<V>(t: seq<Slot<V>>, size: nat, m: map<int, V>, w: map<int, nat>, key: int,
                                           d: nat, lane: nat)
    requires Regime(t, size, m, w) && key in m && d < |t| && d % LANES == 0 && lane < LANES
    requires var idx := Step(Home(key, size), d, |t|); idx + LANES <= |t| && Stops(t[idx + lane].tag, d + lane)
    ensures key in w && w[key] < |t| && t[w[key]].tag < d + lane
  {
    OnPath(t, size, m, w, key, d, lane);
  }

  lemma {:induction false} PlaceInBucket<V>(t: seq<Slot<V>>, size: nat, m: map<int, V>, w: map<int, nat>, key: int,
                                            d: nat)
    requires Regime(t, size, m, w) && key in m && d < |t| && d % LANES == 0
    requires key in w && w[key] < |t| && d <= t[w[key]].tag < d + LANES
    ensures var idx := Step(Home(key, size), d, |t|);
            && idx + LANES <= |t| && w[key] == idx + (t[w[key]].tag - d)
            && !Rejects(t[w[key]], key, d + (w[key] - idx))
  {
    var lane := t[w[key]].tag - d;
    LaneIsStep(Home(key, size), d, |t|, lane);
    SearchPath(t, size, m, w, key, d);
    OnPath(t, size, m, w, key, d, lane);
  }

  lemma {:induction false} MissIsAbsent<V>(t: seq<Slot<V>>, size: nat, m: map<int, V>, w: map<int, nat>, key: int,
                                           d: nat)
    requires Regime(t, size, m, w) && d < |t| && d % LANES == 0
    requires key in m ==> key in w && w[key] < |t| && t[w[key]].tag >= d
    requires var idx := Step(Home(key, size), d, |t|); idx + LANES <= |t| && Said(t, idx, d, key, Miss)
    ensures key !in m
  {
    var idx := Step(Home(key, size), d, |t|);
    var stop :| idx <= stop < idx + LANES && StopsAt(t, idx, d, key, stop);
    if key in m {
      StopIsBeyond(t, size, m, w, key, d, stop - idx);
      PlaceInBucket(t, size, m, w, key, d);
    }
  }

  /** What a bucket's answer means on a table in order. */
  lemma {:induction false} ProbeMeans<V>(t: seq<Slot<V>>, size: nat, m: map<int, V>, w: map<int, nat>, key: int,
                                         d: nat, a: Answer)
    requires Regime(t, size, m, w) && d < |t| && d % LANES == 0
    requires key in m ==> key in w && w[key] < |t| && t[w[key]].tag >= d
    requires var idx := Step(Home(key, size), d, |t|); idx + LANES <= |t| && Said(t, idx, d, key, a)
    ensures a.Hit? ==> key in m && m[key] == t[Step(Home(key, size), d, |t|) + a.lane].value
    ensures a.Miss? ==> key !in m
    ensures a.Further? && key in m ==> t[w[key]].tag >= d + LANES
  {
    match a {
      case Hit(lane) => HitIsMapped(t, size, m, w, key, d, lane);
      case Miss => MissIsAbsent(t, size, m, w, key, d);
      case Further => if key in m { FurtherIsFurther(t, size, m, w, key, d); }
    }
  }

  /** No bucket up to the slot that ends the search reports the key, and the search does not go past it. */
  lemma {:induction false} MissedProbe<V>(t: seq<Slot<V>>, size: nat, key: int, d: nat, j: nat, a: Answer)
    requires size > 0 && |t| == LANES * size && d <= j < |t| && j < EMPTY && d % LANES == 0 && MissedAt(t, size, key, j)
    requires var idx := Step(Home(key, size), d, |t|); idx + LANES <= |t| && Said(t, idx, d, key, a)
    ensures !a.Hit? && (a.Further? ==> d + LANES <= j)
  {
    var home, n := Home(key, size), |t|;
    if j < d + LANES { EndStops(t, size, key, d, j); }
    if a.Hit? { LaneIsStep(home, d, n, a.lane); }
  }

  lemma {:induction false} EndStops<V>(t: seq<Slot<V>>, size: nat, key: int, d: nat, j: nat)
    requires size > 0 && |t| == LANES * size && d <= j < |t| && j < EMPTY && d % LANES == 0 && MissedAt(t, size, key, j)
    requires j < d + LANES
    ensures var idx := Step(Home(key, size), d, |t|); idx + LANES <= |t| && Stops(t[idx + (j - d)].tag, j)
  {
    LaneIsStep(Home(key, size), d, |t|, j - d);
    assert j % 256 == j;
  }

  lemma {:induction false} FurtherIsFurther<V>(t: seq<Slot<V>>, size: nat, m: map<int, V>, w: map<int, nat>, key: int,
                                               d: nat)
    requires Regime(t, size, m, w) && d < |t| && d % LANES == 0
    requires key in m && key in w && w[key] < |t| && t[w[key]].tag >= d
    requires var idx := Step(Home(key, size), d, |t|); idx + LANES <= |t| && Said(t, idx, d, key, Further)
    ensures t[w[key]].tag >= d + LANES
  {
    if t[w[key]].tag < d + LANES { PlaceInBucket(t, size, m, w, key, d); }
  }
}
