/** The tables on which an insertion goes astray, and one of them in full. */
module FlatSkip {
  import opened Modular
  import opened Sealing
  import opened FlatTables
  import opened FlatWalk
  import opened FlatHashMaps

  lemma {:induction false} ClearsPast<V>(t: seq<Slot<V>>, pos: nat, d: nat, left: nat, k: nat, key: int)
    requires pos < |t| && k <= left <= |t| && pos + k <= |t|
    requires forall i :: pos <= i < pos + k ==> Full(t, i) && t[i].tag >= d + (i - pos)
    ensures Clears(t, pos, d, left) == Clears(t, Step(pos, k, |t|), d + k, left - k)
    ensures Victim(t, pos, d, left, key) == Victim(t, Step(pos, k, |t|), d + k, left - k, key)
    decreases k
  {
    if k > 0 {
      assert Full(t, pos);
      if k > 1 { ClearsPast(t, pos + 1, d + 1, left - 1, k - 1, key); }
    }
  }

  /** Whenever the home bucket is full and the next one has a resident of its own in its first slot, the walk is
      not clear and the key it loses is the inserted one. */
  lemma {:induction false} CrowdedNeighbour<V>(t: seq<Slot<V>>, size: nat, m: map<int, V>, w: map<int, nat>, key: int)
    requires Regime(t, size, m, w) && size > 1 && !HomeRoom(t, Home(key, size))
    requires var next := Step(Home(key, size), LANES, |t|); Full(t, next) && t[next].tag == 0
    ensures !Clears(t, Home(key, size), 0, |t|) && Victim(t, Home(key, size), 0, |t|, key) == key
  {
    var home := Home(key, size);
    forall i | home <= i < home + LANES ensures Full(t, i) && t[i].tag >= i - home {
      assert Full(t, i);
      HomeTags(t, size, m, w, home, i - home);
    }
    ClearsPast(t, home, 0, |t|, LANES, key);
  }

  // ---------------------------------------------------------------- a concrete one

  /** In four buckets, the home of a key is its remainder by four. */
  lemma {:induction false} HomeInFour(key: int)
    ensures Home(key, 4) == key % 4 * LANES
  {
    RemainderIsMod(Hash(key), 4);
    ReduceTwice(key * 0x9E37_79B9_7F4A_7C15, 0x1_0000_0000_0000_0000, 4);
    assert key * 0x9E37_79B9_7F4A_7C15 == key + (key * 0x278D_DE6E_5FD2_9F05) * 4;
    AddMultiple(key, key * 0x278D_DE6E_5FD2_9F05, 4);
  }

  predicate Stored(k: int) { 0 <= k < 64 && (k % 4 == 0 || k == 1) }

  /** Keys 0, 4, ..., 60 fill bucket 0; key 1 lives at home in bucket 1; buckets 2 and 3 are empty. */
  function CrowdedSlot<V>(i: nat, v: V): Slot<V> {
    if i < LANES then Entry(i, 4 * i, v) else if i == LANES then Entry(0, 1, v) else Slot(EMPTY, 0, v, 0)
  }

  function Crowded<V>(v: V): (t: seq<Slot<V>>)
    ensures |t| == 64 && forall i :: 0 <= i < 64 ==> t[i] == CrowdedSlot(i, v)
  {
    seq(64, i requires 0 <= i < 64 => CrowdedSlot(i, v))
  }

  function Held<V>(v: V): map<int, V> { map k: int | 0 <= k < 64 && Stored(k) :: v }

  function Places(): map<int, nat> { map k: int | 0 <= k < 64 && Stored(k) :: if k == 1 then LANES else k / 4 }

  lemma {:induction false} CrowdedEntry<V>(v: V, i: nat)
    requires i < 64
    ensures Tagged(Crowded(v), 4, i) && Mapped(Crowded(v), Held(v), Places(), i)
  {
    var k := CrowdedSlot(i, v).key;
    assert Crowded(v)[i] == CrowdedSlot(i, v);
    if i <= LANES {
      HomeInFour(k);
      assert Stored(k) && k in Held(v) && k in Places();
    }
  }

  lemma {:induction false} CrowdedBacked<V>(v: V, i: nat)
    requires i < 64
    ensures Backed(Crowded(v), i)
  {
    var k := Step(i, 1, 64);
    assert Crowded(v)[i] == CrowdedSlot(i, v) && Crowded(v)[k] == CrowdedSlot(k, v);
  }

  lemma {:induction false} CrowdedLies<V>(v: V, k: int)
    requires Stored(k)
    ensures Lies(Crowded(v), Places(), k)
  {
    var i := if k == 1 then LANES else k / 4;
    assert k in Places() && Places()[k] == i && Crowded(v)[i] == CrowdedSlot(i, v);
  }

  lemma {:induction false} CrowdedIsInOrder<V>(v: V)
    ensures Regime(Crowded(v), 4, Held(v), Places())
  {
    var t, m, w := Crowded(v), Held(v), Places();
    forall i | 0 <= i < |t| ensures Tagged(t, 4, i) && Mapped(t, m, w, i) { CrowdedEntry(v, i); }
    forall i | 0 <= i < |t| ensures Backed(t, i) { CrowdedBacked(v, i); }
    forall k | k in m ensures Lies(t, w, k) { CrowdedLies(v, k); }
  }

  /** Inserting key 64 there loses it: the table is in order, its tags are small and half of it is empty, but the
      walk is not clear and its victim is 64. */
  lemma {:induction false} SkipHappens<V>(v: V)
    ensures Regime(Crowded(v), 4, Held(v), Places()) && 64 !in Held(v)
    ensures Home(64, 4) == 0 && Insertable(Crowded(v), 0) && !Clears(Crowded(v), 0, 0, 64)
    ensures Victim(Crowded(v), 0, 0, 64, 64) == 64
  {
    var t := Crowded(v);
    CrowdedIsInOrder(v);
    HomeInFour(64);
    forall i | 0 <= i <= LANES ensures Full(t, i) { assert t[i] == CrowdedSlot(i, v); }
    assert t[LANES] == CrowdedSlot(LANES, v);
    CrowdedNeighbour(t, 4, Held(v), Places(), 64);
    forall i | 32 <= i < 64 ensures !Full(t, i) { assert t[i] == CrowdedSlot(i, v); }
    assert OpenBucket(t, 32) && !Full(t, 32);
    assert Roomy(t);
  }

  /** The first `n` of the keys that fill bucket 0. */
  function First<V>(n: nat, v: V): map<int, V> { map k: int | 0 <= k < 64 && k % 4 == 0 && k < 4 * n :: v }

  function Blank<V>(v: V): Slot<V> { Slot(EMPTY, 0, v, 0) }

  /** Bucket 0 filled so far, nothing else. */
  ghost predicate Filling<V>(t: seq<Slot<V>>, n: nat, v: V) {
    |t| == 64 && forall i :: 0 <= i < 64 ==> t[i] == if i < n then Entry(i, 4 * i, v) else Blank(v)
  }

  lemma {:induction false} FillsOn<V>(t: seq<Slot<V>>, t': seq<Slot<V>>, n: nat, v: V)
    requires Filling(t, n, v) && n < LANES && Laid(t, t', 0, 4 * n, v)
    ensures Filling(t', n + 1, v)
  {
    var d :| 0 <= d < LANES && LaidAt(t, t', 0, d, 4 * n, v);
    assert t[n] == Blank(v) && !Full(t, n);
    assert d == n;
  }

  lemma {:induction false} CrowdsAtLast<V>(t: seq<Slot<V>>, t': seq<Slot<V>>, v: V)
    requires Filling(t, LANES, v) && Laid(t, t', LANES, 1, v)
    ensures t' == Crowded(v)
  {
    var d :| 0 <= d < LANES && LaidAt(t, t', LANES, d, 1, v);
    assert t[LANES] == Blank(v) && !Full(t, LANES);
    assert d == 0;
    forall i | 0 <= i < 64 ensures t'[i] == CrowdedSlot(i, v) {
      assert t[i] == if i < LANES then Entry(i, 4 * i, v) else Blank(v);
    }
  }

  lemma {:induction false} RoomFor<V>(t: seq<Slot<V>>, n: nat, v: V)
    requires Filling(t, n, v) && n <= LANES
    ensures n < LANES ==> HomeRoom(t, 0)
    ensures HomeRoom(t, LANES)
  {
    assert t[n] == Blank(v) && !Full(t, n);
    assert t[LANES] == Blank(v) && !Full(t, LANES);
  }

  lemma {:induction false} FirstGrows<V>(n: nat, v: V)
    requires n < LANES
    ensures 4 * n !in First(n, v) && First(n, v)[4 * n := v] == First(n + 1, v)
  {
    var m, m' := First(n, v)[4 * n := v], First(n + 1, v);
    forall k
      ensures k in m <==> k in m'
    {
      assert k % 4 == 0 && k < 4 * (n + 1) <==> k % 4 == 0 && (k < 4 * n || k == 4 * n);
    }
  }

  lemma {:induction false} FirstAndOne<V>(v: V)
    ensures 1 !in First(LANES, v) && First(LANES, v)[1 := v] == Held(v)
  {
    var m, m' := First(LANES, v)[1 := v], Held(v);
    forall k ensures k in m <==> k in m' { assert 0 <= k < 64 && k % 4 == 0 ==> k < 4 * LANES; }
  }

  method AddNext<V>(h: FlatHashMap<V>, n: nat, v: V)
    requires h.Padded() && h.Ready() && h.size == 4 && n < LANES && Filling(h.Table(), n, v)
             && h.contents == First(n, v)
    modifies h
    ensures h.Padded() && h.Ready() && Filling(h.Table(), n + 1, v) && h.contents == First(n + 1, v)
  {
    HomeInFour(4 * n);
    ghost var t := h.Table();
    RoomFor(t, n, v);
    FirstGrows(n, v);
    h.InsertAtHome(4 * n, v);
    FillsOn(t, h.Table(), n, v);
  }

  /** Seventeen insertions into a new map, each into a home bucket with room, make the crowded one. */
  method Crowd<V>(v: V) returns (h: FlatHashMap<V>)
    ensures fresh(h) && h.Valid() && h.size == 4 && h.Table() == Crowded(v) && h.contents == Held(v)
  {
    h := new FlatHashMap(4, v);
    for n := 0 to LANES
      invariant fresh(h) && h.Padded() && h.Ready() && h.size == 4 && Filling(h.Table(), n, v)
                && h.contents == First(n, v)
    {
      AddNext(h, n, v);
    }
    HomeInFour(1);
    ghost var t := h.Table();
    RoomFor(t, LANES, v);
    FirstAndOne(v);
    h.InsertAtHome(1, v);
    CrowdsAtLast(t, h.Table(), v);
    assert h.Valid() by { assert Key(Lock.Table, 0); }
  }

  /** So a new map, after eighteen insertions of different keys, has lost the last: its lookup fails. */
  method InsertedIsLost<V>(v: V) returns (h: FlatHashMap<V>, found: bool)
    ensures fresh(h) && h.Padded() && h.size == 4 && Missed(h.Table(), 4, 64) && !found
  {
    SkipHappens(v);
    h := Crowd(v);
    h.AddNode(64, v);
    var value;
    found, value := h.GetVal(64);
  }
}
