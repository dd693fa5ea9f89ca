/** The slots of the flat hash map as plain sequences: buckets of sixteen, probed cyclically from the key's
    home, each entry tagged with its distance from home. */
module FlatTables {
  import opened Modular

  const EMPTY: nat := 0x80
  const LANES: nat := 16

  datatype Slot<V> = Slot(tag: nat, key: int, value: V, footprint: nat)

  function Hash(key: int): nat { (key * 0x9E37_79B9_7F4A_7C15) % 0x1_0000_0000_0000_0000 }

  function Footprint(key: int): nat { Hash(key) / 0x100_0000_0000_0000 }

  /** The remainder, by repeated subtraction, which keeps division out of the proofs. */
  function Remainder(x: nat, n: nat): (r: nat)
    requires n > 0
    ensures r < n
    decreases x
  {
    if x < n then x else Remainder(x - n, n)
  }

  lemma {:induction false} RemainderIsMod(x: nat, n: nat)
    requires n > 0
    ensures Remainder(x, n) == x % n
    decreases x
  {
    if x < n {
      RemainderUnique(x, n, 0, x);
    } else {
      RemainderIsMod(x - n, n);
      AddMultiple(x - n, 1, n);
    }
  }

  /** The first slot of the key's home bucket, in a table of `size` buckets. */
  function Home(key: int, size: nat): (h: nat)
    requires size > 0
    ensures h % LANES == 0 && h + LANES <= LANES * size
  {
    Remainder(Hash(key), size) * LANES
  }

  /** `j` slots on from `i`, around the end. */
  function Step(i: nat, j: nat, n: nat): (r: nat)
    requires i < n && j <= n
    ensures r < n
  {
    if i + j < n then i + j else i + j - n
  }

  function Dist(i: nat, k: nat, n: nat): (d: nat)
    requires i < n && k < n
    ensures d < n && Step(i, d, n) == k
  {
    if k >= i then k - i else k - i + n
  }

  // ---------------------------------------------------------------- the regime

  predicate Full<V>(t: seq<Slot<V>>, i: nat) { i < |t| && t[i].tag != EMPTY }

  /** An entry lies where its tag says, counted from its home. */
  ghost predicate Tagged<V>(t: seq<Slot<V>>, size: nat, i: nat)
    requires |t| == LANES * size && i < |t|
  {
    Full(t, i) ==>
      t[i].tag < EMPTY && t[i].footprint == Footprint(t[i].key) && Dist(Home(t[i].key, size), i, |t|) == t[i].tag
  }

  /** The slot after `i` holds nothing that an emptier slot `i` would strand. */
  ghost predicate Backed<V>(t: seq<Slot<V>>, i: nat)
    requires i < |t|
  {
    var k := Step(i, 1, |t|);
    Full(t, k) && t[k].tag > 0 ==> Full(t, i) && t[i].tag >= t[k].tag - 1
  }

  /** The slots are exactly the map: `w` says where each key lies. */
  ghost predicate Mapped<V>(t: seq<Slot<V>>, m: map<int, V>, w: map<int, nat>, i: nat)
    requires i < |t|
  {
    Full(t, i) ==> t[i].key in m && m[t[i].key] == t[i].value && t[i].key in w && w[t[i].key] == i
  }

  ghost predicate Lies<V>(t: seq<Slot<V>>, w: map<int, nat>, k: int) {
    k in w && Full(t, w[k]) && t[w[k]].key == k
  }

  ghost predicate Regime<V>(t: seq<Slot<V>>, size: nat, m: map<int, V>, w: map<int, nat>) {
    && size > 0 && |t| == LANES * size
    && (forall i {:trigger Tagged(t, size, i)} :: 0 <= i < |t| ==> Tagged(t, size, i))
    && (forall i {:trigger Backed(t, i)} :: 0 <= i < |t| ==> Backed(t, i))
    && (forall i {:trigger Mapped(t, m, w, i)} :: 0 <= i < |t| ==> Mapped(t, m, w, i))
    && (forall k {:trigger Lies(t, w, k)} :: k in m ==> Lies(t, w, k))
  }

  /** Walking back from a slot whose tag is at least `d` to `d - j`: every slot on the way is full enough. */
  lemma {:induction false} PathTags<V>(t: seq<Slot<V>>, home: nat, d: nat, j: nat)
    requires home < |t| && d < |t| && j <= d
    requires forall i {:trigger Backed(t, i)} :: 0 <= i < |t| ==> Backed(t, i)
    requires Full(t, Step(home, d, |t|)) && t[Step(home, d, |t|)].tag >= d
    ensures Full(t, Step(home, j, |t|)) && t[Step(home, j, |t|)].tag >= j
    decreases d - j
  {
    if j < d {
      PathTags(t, home, d, j + 1);
      assert Backed(t, Step(home, j, |t|));
    }
  }

  /** No slot between a key's home and its place stops the search for it. */
  lemma {:induction false} SearchPath<V>(t: seq<Slot<V>>, size: nat, m: map<int, V>, w: map<int, nat>, key: int, j: nat)
    requires Regime(t, size, m, w) && key in m
    ensures key in w && Full(t, w[key]) && t[w[key]].key == key && t[w[key]].value == m[key]
    ensures t[w[key]].tag < |t| && t[w[key]].tag < EMPTY && t[w[key]].footprint == Footprint(key)
    ensures w[key] == Step(Home(key, size), t[w[key]].tag, |t|)
    ensures j <= t[w[key]].tag ==>
              Full(t, Step(Home(key, size), j, |t|)) && t[Step(Home(key, size), j, |t|)].tag >= j
  {
    assert Lies(t, w, key);
    assert Tagged(t, size, w[key]) && Mapped(t, m, w, w[key]);
    if j <= t[w[key]].tag { PathTags(t, Home(key, size), t[w[key]].tag, j); }
  }

  /** A key found in a full slot is in the map. */
  lemma {:induction false} FoundIsMapped<V>(t: seq<Slot<V>>, size: nat, m: map<int, V>, w: map<int, nat>, i: nat)
    requires Regime(t, size, m, w) && Full(t, i)
    ensures t[i].key in m && m[t[i].key] == t[i].value && t[i].key in w && w[t[i].key] == i
  {
    assert Mapped(t, m, w, i);
  }

  // ---------------------------------------------------------------- deletion by backward shift

  /** Everything but slot `hole` is in order; what still stands in the hole no longer counts. */
  ghost predicate Holed<V>(t: seq<Slot<V>>, size: nat, m: map<int, V>, w: map<int, nat>, hole: nat) {
    && size > 0 && |t| == LANES * size && Full(t, hole)
    && (forall i {:trigger Tagged(t, size, i)} :: 0 <= i < |t| && i != hole ==> Tagged(t, size, i))
    && (forall i {:trigger Backed(t, i)} :: 0 <= i < |t| ==> Backed(t, i))
    && (forall i {:trigger Mapped(t, m, w, i)} :: 0 <= i < |t| && i != hole ==> Mapped(t, m, w, i))
    && (forall k {:trigger Lies(t, w, k)} :: k in m ==> Lies(t, w, k) && w[k] != hole)
  }

  lemma {:induction false} PunchHole<V>(t: seq<Slot<V>>, size: nat, m: map<int, V>, w: map<int, nat>, key: int)
    requires Regime(t, size, m, w) && key in m
    ensures key in w && Holed(t, size, m - {key}, w, w[key])
  {
    assert Lies(t, w, key);
    var m' := m - {key};
    forall i | 0 <= i < |t| && i != w[key] ensures Mapped(t, m', w, i) { assert Mapped(t, m, w, i); }
    forall k | k in m' ensures Lies(t, w, k) && w[k] != w[key] { assert Lies(t, w, k); }
  }

  function Shifted<V>(t: seq<Slot<V>>, hole: nat): seq<Slot<V>>
    requires hole < |t| && t[Step(hole, 1, |t|)].tag > 0
  {
    var next := t[Step(hole, 1, |t|)];
    t[hole := next.(tag := next.tag - 1, footprint := Footprint(next.key))]
  }

  lemma {:induction false} ShiftKeeps<V>(t: seq<Slot<V>>, size: nat, m: map<int, V>, w: map<int, nat>, hole: nat)
    requires Holed(t, size, m, w, hole) && size > 0 && |t| > 1
    requires Full(t, Step(hole, 1, |t|)) && t[Step(hole, 1, |t|)].tag > 0
    ensures var k := Step(hole, 1, |t|); Holed(Shifted(t, hole), size, m, w[t[k].key := hole], k)
  {
    var n := |t|;
    var k := Step(hole, 1, n);
    var t', w' := Shifted(t, hole), w[t[k].key := hole];
    assert Tagged(t, size, k) && Mapped(t, m, w, k);
    forall i | 0 <= i < n && i != k ensures Tagged(t', size, i) && Mapped(t', m, w', i) {
      assert i != hole ==> Tagged(t, size, i) && Mapped(t, m, w, i);
    }
    forall i | 0 <= i < n ensures Backed(t', i) {
      assert Backed(t, i) && Backed(t, hole);
    }
    forall key | key in m ensures Lies(t', w', key) && w'[key] != k { assert Lies(t, w, key); }
  }

  lemma {:induction false} FillHole<V>(t: seq<Slot<V>>, size: nat, m: map<int, V>, w: map<int, nat>, hole: nat,
                                       x: Slot<V>)
    requires Holed(t, size, m, w, hole) && x.tag == EMPTY
    requires !Full(t, Step(hole, 1, |t|)) || t[Step(hole, 1, |t|)].tag == 0
    ensures Regime(t[hole := x], size, m, w)
  {
    var t' := t[hole := x];
    forall i | 0 <= i < |t| ensures Tagged(t', size, i) && Mapped(t', m, w, i) {
      assert i != hole ==> Tagged(t, size, i) && Mapped(t, m, w, i);
    }
    forall i | 0 <= i < |t| ensures Backed(t', i) { assert Backed(t, i); }
    forall key | key in m ensures Lies(t', w, key) { assert Lies(t, w, key); }
  }

  // ---------------------------------------------------------------- insertion

  /** The entry under way has come `d` slots from its home to `pos`, past full slots only. */
  ghost predicate Carried<V>(t: seq<Slot<V>>, size: nat, m: map<int, V>, key: int, d: nat, pos: nat) {
    && size > 0 && |t| == LANES * size && pos < |t| && d < |t| && key !in m
    && Dist(Home(key, size), pos, |t|) == d
    && (d > 0 ==> var p := Step(pos, |t| - 1, |t|); Full(t, p) && t[p].tag >= d - 1)
  }

  function Entry<V>(d: nat, key: int, value: V): Slot<V> { Slot(d, key, value, Footprint(key)) }

  lemma {:induction false} PlaceKeeps<V>(t: seq<Slot<V>>, size: nat, m: map<int, V>, w: map<int, nat>,
                                         key: int, value: V, d: nat, pos: nat)
    requires Regime(t, size, m, w) && Carried(t, size, m, key, d, pos) && d < EMPTY && !Full(t, pos) && |t| > 1
    ensures Regime(t[pos := Entry(d, key, value)], size, m[key := value], w[key := pos])
  {
    var t', m', w' := t[pos := Entry(d, key, value)], m[key := value], w[key := pos];
    forall i | 0 <= i < |t| ensures Tagged(t', size, i) && Mapped(t', m', w', i) {
      assert Tagged(t, size, i) && Mapped(t, m, w, i);
    }
    forall i | 0 <= i < |t| ensures Backed(t', i) { assert Backed(t, i); }
    forall k | k in m' ensures Lies(t', w', k) { if k != key { assert Lies(t, w, k); } }
  }

  lemma {:induction false} SwapKeeps<V>(t: seq<Slot<V>>, size: nat, m: map<int, V>, w: map<int, nat>,
                                        key: int, value: V, d: nat, pos: nat)
    requires Regime(t, size, m, w) && Carried(t, size, m, key, d, pos) && d < EMPTY && |t| > 1
    requires Full(t, pos) && t[pos].tag < d
    ensures var m' := m[key := value] - {t[pos].key};
            Regime(t[pos := Entry(d, key, value)], size, m', w[key := pos])
    ensures t[pos].key in m && m[t[pos].key] == t[pos].value && t[pos].key != key
  {
    var t', m', w' := t[pos := Entry(d, key, value)], m[key := value] - {t[pos].key}, w[key := pos];
    assert Mapped(t, m, w, pos);
    forall i | 0 <= i < |t| ensures Tagged(t', size, i) && Mapped(t', m', w', i) {
      assert Tagged(t, size, i) && Mapped(t, m, w, i);
    }
    forall i | 0 <= i < |t| ensures Backed(t', i) { assert Backed(t, i); }
    forall k | k in m' ensures Lies(t', w', k) { if k != key { assert Lies(t, w, k); } }
  }

  /** After the swap the displaced entry is under way from the next slot. */
  lemma {:induction false} SwapCarries<V>(t: seq<Slot<V>>, size: nat, m: map<int, V>, w: map<int, nat>,
                                          key: int, value: V, d: nat, pos: nat)
    requires Regime(t, size, m, w) && Carried(t, size, m, key, d, pos) && d < EMPTY && |t| > 1
    requires Full(t, pos) && t[pos].tag < d
    ensures var m' := m[key := value] - {t[pos].key};
            Carried(t[pos := Entry(d, key, value)], size, m', t[pos].key, t[pos].tag + 1, Step(pos, 1, |t|))
  {
    assert Tagged(t, size, pos);
    assert Step(Step(pos, 1, |t|), |t| - 1, |t|) == pos;
  }

  /** A slot that is at least as far from home lets the entry pass; an empty slot somewhere keeps the distance
      below the table's size. */
  lemma {:induction false} PassKeeps<V>(t: seq<Slot<V>>, size: nat, m: map<int, V>, w: map<int, nat>,
                                        key: int, d: nat, pos: nat, e: nat)
    requires Regime(t, size, m, w) && Carried(t, size, m, key, d, pos)
    requires Full(t, pos) && t[pos].tag >= d && e < |t| && !Full(t, e)
    ensures Carried(t, size, m, key, d + 1, Step(pos, 1, |t|))
  {
    var n, home := |t|, Home(key, size);
    if d + 1 == n { PathTags(t, home, d, Dist(home, e, n)); }
    assert Step(Step(pos, 1, n), n - 1, n) == pos;
  }
}
