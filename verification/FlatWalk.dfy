/** The insertion walk of the flat hash map: when it succeeds and what goes wrong when it does not. */
module FlatWalk {
  import opened Modular
  import opened FlatTables
  import opened Sealing

  /** The walk of an entry now `d` from home at `pos`, over the next `left` slots, never meets a richer entry at
      the first slot of a bucket. (There the insertion skips the whole bucket instead of swapping.) */
  predicate Clears<V>(t: seq<Slot<V>>, pos: nat, d: nat, left: nat)
    requires pos < |t| && left <= |t|
    decreases left
  {
    left == 0 || !Full(t, pos)
    || (!(pos % LANES == 0 && t[pos].tag < d)
        && Clears(t, Step(pos, 1, |t|), (if t[pos].tag < d then t[pos].tag else d) + 1, left - 1))
  }

  /** The key the walk carries when it meets such an entry: the inserted one, or the last one displaced. */
  function Victim<V>(t: seq<Slot<V>>, pos: nat, d: nat, left: nat, key: int): int
    requires pos < |t| && left <= |t|
    decreases left
  {
    if left == 0 || !Full(t, pos) || (pos % LANES == 0 && t[pos].tag < d) then key
    else Victim(t, Step(pos, 1, |t|), (if t[pos].tag < d then t[pos].tag else d) + 1, left - 1,
                if t[pos].tag < d then t[pos].key else key)
  }

  lemma {:induction false} ClearsAhead<V>(t: seq<Slot<V>>, t': seq<Slot<V>>, at: nat, pos: nat, d: nat, left: nat,
                                          key: int)
    requires at < |t| == |t'| && t' == t[at := t'[at]] && pos < |t| && left <= Dist(pos, at, |t|)
    ensures Clears(t', pos, d, left) == Clears(t, pos, d, left)
    ensures Victim(t', pos, d, left, key) == Victim(t, pos, d, left, key)
    decreases left
  {
    if left > 0 && Full(t, pos) {
      ClearsAhead(t, t', at, Step(pos, 1, |t|), (if t[pos].tag < d then t[pos].tag else d) + 1, left - 1,
                  if t[pos].tag < d then t[pos].key else key);
    }
  }

  /** No tag in the next `left` slots is so large that a tag written past it would not fit. */
  ghost predicate Roomy<V>(t: seq<Slot<V>>) {
    forall i :: 0 <= i < |t| && Full(t, i) ==> t[i].tag < EMPTY - LANES
  }

  ghost predicate RoomAhead<V>(t: seq<Slot<V>>, pos: nat, left: nat)
    requires pos < |t| && left <= |t|
  {
    forall j {:trigger Step(pos, j, |t|)} :: 0 <= j < left && Full(t, Step(pos, j, |t|)) ==>
      t[Step(pos, j, |t|)].tag < EMPTY - LANES
  }

  lemma {:induction false} RoomNext<V>(t: seq<Slot<V>>, t': seq<Slot<V>>, pos: nat, left: nat)
    requires pos < |t| == |t'| && 0 < left <= |t| && t' == t[pos := t'[pos]] && RoomAhead(t, pos, left)
    ensures RoomAhead(t', Step(pos, 1, |t|), left - 1)
  {
    var n := |t|;
    forall j {:trigger Step(Step(pos, 1, n), j, n)} | 0 <= j < left - 1 && Full(t', Step(Step(pos, 1, n), j, n))
      ensures t'[Step(Step(pos, 1, n), j, n)].tag < EMPTY - LANES
    {
      assert Step(pos, j + 1, n) == Step(Step(pos, 1, n), j, n);
    }
  }

  /** An entry under way: the table without it is in order, an empty slot lies ahead, and `clear` is the fate of
      the walk. */
  ghost predicate Going<V>(t: seq<Slot<V>>, size: nat, goal: map<int, V>, m: map<int, V>, w: map<int, nat>,
                           key: int, value: V, d: nat, pos: nat, left: nat, e: nat, clear: bool, victim: int)
  {
    && Regime(t, size, m, w) && Carried(t, size, m, key, d, pos) && goal == m[key := value]
    && e < |t| && !Full(t, e) && Dist(pos, e, |t|) < left <= |t|
    && Clears(t, pos, d, left) == clear && Victim(t, pos, d, left, key) == victim
  }

  datatype Trip<V> = Trip(size: nat, goal: map<int, V>, e: nat, clear: bool, victim: int)

  /** `Going`, kept closed until a step is taken. */
  ghost predicate UnderWay<V>(t: seq<Slot<V>>, trip: Trip<V>, m: map<int, V>, w: map<int, nat>,
                              key: int, value: V, d: nat, pos: nat, left: nat)
  {
    && 0 < left <= |t| && pos < |t| && |t| == LANES * trip.size && d < |t|
    && forall k {:trigger Key(Lock.Insertion, k)} :: Key(Lock.Insertion, k) ==>
         Going(t, trip.size, trip.goal, m, w, key, value, d, pos, left, trip.e, trip.clear, trip.victim)
  }

  lemma {:induction false} SetOut<V>(t: seq<Slot<V>>, size: nat, m: map<int, V>, w: map<int, nat>, key: int, value: V,
                                     e: nat)
    requires Regime(t, size, m, w) && key !in m && e < |t| && !Full(t, e)
    ensures var home := Home(key, size);
            UnderWay(t, Trip(size, m[key := value], e, Clears(t, home, 0, |t|), Victim(t, home, 0, |t|, key)),
                     m, w, key, value, 0, home, |t|)
  {
  }

  lemma {:induction false} GoPast<V>(t: seq<Slot<V>>, trip: Trip<V>, m: map<int, V>, w: map<int, nat>,
                                     key: int, value: V, d: nat, pos: nat, left: nat)
    requires UnderWay(t, trip, m, w, key, value, d, pos, left) && Full(t, pos) && t[pos].tag >= d
    ensures UnderWay(t, trip, m, w, key, value, d + 1, Step(pos, 1, |t|), left - 1)
  {
    assert Key(Lock.Insertion, 0);
    PassKeeps(t, trip.size, m, w, key, d, pos, trip.e);
  }

  lemma {:induction false} GoSwap<V>(t: seq<Slot<V>>, trip: Trip<V>, m: map<int, V>, w: map<int, nat>,
                                     key: int, value: V, d: nat, pos: nat, left: nat)
    requires UnderWay(t, trip, m, w, key, value, d, pos, left) && d < EMPTY
    requires Full(t, pos) && t[pos].tag < d && pos % LANES != 0
    ensures var t', m' := t[pos := Entry(d, key, value)], m[key := value] - {t[pos].key};
            UnderWay(t', trip, m', w[key := pos], t[pos].key, t[pos].value, t[pos].tag + 1, Step(pos, 1, |t|), left - 1)
  {
    assert Key(Lock.Insertion, 0);
    var t', m' := t[pos := Entry(d, key, value)], m[key := value] - {t[pos].key};
    SwapKeeps(t, trip.size, m, w, key, value, d, pos);
    SwapCarries(t, trip.size, m, w, key, value, d, pos);
    assert m'[t[pos].key := t[pos].value] == trip.goal;
    ClearsAhead(t, t', pos, Step(pos, 1, |t|), t[pos].tag + 1, left - 1, t[pos].key);
  }

  /** Past several slots none of which is richer. */
  lemma {:induction false} GoFar<V>(t: seq<Slot<V>>, trip: Trip<V>, m: map<int, V>, w: map<int, nat>,
                                    key: int, value: V, d: nat, pos: nat, left: nat, k: nat)
    requires UnderWay(t, trip, m, w, key, value, d, pos, left) && pos + k <= |t|
    requires forall i :: pos <= i < pos + k ==> Full(t, i) && t[i].tag >= d + (i - pos)
    ensures k < left && UnderWay(t, trip, m, w, key, value, d + k, Step(pos, k, |t|), left - k)
  {
    var j, at, d', left' := 0, pos, d, left;
    while j < k
      invariant 0 <= j <= k && at == Step(pos, j, |t|) && d' == d + j && left' == left - j
      invariant UnderWay(t, trip, m, w, key, value, d', at, left')
    {
      GoPast(t, trip, m, w, key, value, d', at, left');
      j, at, d', left' := j + 1, Step(at, 1, |t|), d' + 1, left' - 1;
    }
  }

  /** An empty slot ends the walk well. */
  lemma {:induction false} Arrive<V>(t: seq<Slot<V>>, trip: Trip<V>, m: map<int, V>, w: map<int, nat>,
                                     key: int, value: V, d: nat, pos: nat, left: nat)
    requires UnderWay(t, trip, m, w, key, value, d, pos, left) && d < EMPTY && !Full(t, pos)
    ensures trip.clear && Regime(t[pos := Entry(d, key, value)], trip.size, trip.goal, w[key := pos])
  {
    assert Key(Lock.Insertion, 0);
    PlaceKeeps(t, trip.size, m, w, key, value, d, pos);
  }

  // ---------------------------------------------------------------- the skipped bucket

  /** A bucket whose first slot is free: no walk passes it. */
  ghost predicate OpenBucket<V>(t: seq<Slot<V>>, b: nat) { b % LANES == 0 && b < |t| && !Full(t, b) }

  /** Entry `key` lies, if anywhere, beyond slot `at`, which ends the search for it. */
  ghost predicate Stranded<V>(t: seq<Slot<V>>, size: nat, key: int, at: nat, limit: nat) {
    && size > 0 && |t| == LANES * size && Full(t, at) && t[at].tag < Dist(Home(key, size), at, |t|) < EMPTY
    && Dist(Home(key, size), at, |t|) + limit < |t|
    && forall i {:trigger Dist(at, i, |t|)} :: 0 <= i < |t| && Full(t, i) && t[i].key == key ==>
         0 < Dist(at, i, |t|) <= limit
  }

  /** A slot `j` from the key's home ends the search, and none before it holds the key. */
  ghost predicate MissedAt<V>(t: seq<Slot<V>>, size: nat, key: int, j: nat)
    requires size > 0 && |t| == LANES * size && j < |t|
  {
    var home, n := Home(key, size), |t|;
    && (!Full(t, Step(home, j, n)) || t[Step(home, j, n)].tag < j)
    && forall i {:trigger Step(home, i, n)} :: 0 <= i < j ==>
         !(Full(t, Step(home, i, n)) && t[Step(home, i, n)].key == key)
  }

  /** The search for the key ends without it. */
  ghost predicate Missed<V>(t: seq<Slot<V>>, size: nat, key: int) {
    size > 0 && |t| == LANES * size && exists j :: 0 <= j < |t| && j < EMPTY && MissedAt(t, size, key, j)
  }

  /** Whatever else has happened, a stranded key is missed. */
  lemma {:induction false} StrandedIsMissed<V>(t: seq<Slot<V>>, size: nat, key: int, at: nat, limit: nat)
    requires Stranded(t, size, key, at, limit)
    ensures Missed(t, size, key)
  {
    var home, n := Home(key, size), |t|;
    var j := Dist(home, at, n);
    forall i {:trigger Step(home, i, n)} | 0 <= i < j
      ensures !(Full(t, Step(home, i, n)) && t[Step(home, i, n)].key == key)
    {
      BehindIsFar(home, at, i, n);
      assert Dist(at, Step(home, i, n), n) > limit;
    }
    assert MissedAt(t, size, key, j);
  }

  lemma {:induction false} BehindIsFar(home: nat, at: nat, i: nat, n: nat)
    requires home < n && at < n && i < Dist(home, at, n)
    ensures Dist(home, at, n) + Dist(at, Step(home, i, n), n) == n + i
  {
  }

  /** A table that misses a key of the map is out of order under every assignment of places. */
  lemma {:induction false} MissedIsWrong<V>(t: seq<Slot<V>>, size: nat, m: map<int, V>, w: map<int, nat>, key: int)
    requires Missed(t, size, key) && key in m
    ensures !Regime(t, size, m, w)
  {
    var j :| 0 <= j < |t| && j < EMPTY && MissedAt(t, size, key, j);
    if Regime(t, size, m, w) { SearchPath(t, size, m, w, key, j); }
  }

  /** Skipping a bucket whose first slot is richer strands the entry under way, if some bucket is open. */
  lemma {:induction false} SkipStrands<V>(t: seq<Slot<V>>, size: nat, m: map<int, V>, w: map<int, nat>,
                                          key: int, d: nat, pos: nat, b: nat)
    requires Regime(t, size, m, w) && Carried(t, size, m, key, d, pos) && Full(t, pos) && t[pos].tag < d
    requires OpenBucket(t, b) && d < EMPTY
    ensures Stranded(t, size, key, pos, Dist(pos, b, |t|))
  {
    var n, home := |t|, Home(key, size);
    forall i | 0 <= i < n ensures !(Full(t, i) && t[i].key == key) {
      if Full(t, i) { FoundIsMapped(t, size, m, w, i); }
    }
    assert Step(home, d - 1, n) == Step(pos, n - 1, n);
    if Dist(home, b, n) <= d - 1 { PathTags(t, home, d - 1, Dist(home, b, n)); }
  }

  /** So the walk was not clear, and if some bucket is open the key under way, which the goal has, is lost. */
  lemma {:induction false} GoAstray<V>(t: seq<Slot<V>>, trip: Trip<V>, m: map<int, V>, w: map<int, nat>,
                                       key: int, value: V, d: nat, pos: nat, left: nat, b: nat)
    requires UnderWay(t, trip, m, w, key, value, d, pos, left)
    requires Full(t, pos) && t[pos].tag < d < EMPTY && pos % LANES == 0
    ensures !trip.clear && key in trip.goal && key == trip.victim
    ensures OpenBucket(t, b) ==> Stranded(t, trip.size, key, pos, Dist(pos, b, |t|))
  {
    assert Key(Lock.Insertion, 0);
    if OpenBucket(t, b) { SkipStrands(t, trip.size, m, w, key, d, pos, b); }
  }

  /** A write beyond the fatal slot does not help. */
  lemma {:induction false} StillStranded<V>(t: seq<Slot<V>>, size: nat, key: int, at: nat, limit: nat, i: nat,
                                            x: Slot<V>)
    requires Stranded(t, size, key, at, limit) && i < |t| && 0 < Dist(at, i, |t|) <= limit
    ensures Stranded(t[i := x], size, key, at, limit)
  {
    var n, t' := |t|, t[i := x];
    forall j {:trigger Dist(at, j, n)} | 0 <= j < n && Full(t', j) && t'[j].key == key
      ensures 0 < Dist(at, j, n) <= limit
    {
    }
  }

  // ---------------------------------------------------------------- both fates at once

  /** Either the walk is still on track, or the entry of `key` has been stranded behind the slot `at`. */
  datatype Phase = OnTrack | Astray(key: int, at: nat)

  ghost predicate OnTrackAt<V>(t: seq<Slot<V>>, trip: Trip<V>, b: nat, m: map<int, V>, w: map<int, nat>,
                               key: int, value: V, d: nat, pos: nat, left: nat)
  {
    && UnderWay(t, trip, m, w, key, value, d, pos, left) && RoomAhead(t, pos, left) && d <= EMPTY - LANES
    && (!trip.clear ==> OpenBucket(t, b))
  }

  /** `pos` lies after the bucket start `at` and not beyond the bucket start `b`. */
  predicate Between(at: nat, pos: nat, b: nat, n: nat) {
    && n % LANES == 0 && at < n && b < n && pos < n && at % LANES == 0 && b % LANES == 0
    && 0 < Dist(at, pos, n) <= Dist(at, b, n)
  }

  ghost predicate AstrayAt<V>(t: seq<Slot<V>>, trip: Trip<V>, b: nat, k: int, at: nat, pos: nat) {
    && !trip.clear && k in trip.goal && k == trip.victim && |t| == LANES * trip.size && OpenBucket(t, b)
    && Between(at, pos, b, |t|) && Stranded(t, trip.size, k, at, Dist(at, b, |t|))
  }

  /** Where the walk stands. `b` is an open bucket, there whenever the walk is not clear. */
  ghost predicate Stands<V>(t: seq<Slot<V>>, trip: Trip<V>, b: nat, phase: Phase, m: map<int, V>, w: map<int, nat>,
                            key: int, value: V, d: nat, pos: nat, left: nat)
  {
    && trip.size > 0 && |t| == LANES * trip.size && pos < |t|
    && match phase
       case OnTrack => OnTrackAt(t, trip, b, m, w, key, value, d, pos, left)
       case Astray(k, at) => AstrayAt(t, trip, b, k, at, pos)
  }

  /** `Stands`, kept closed. */
  ghost predicate Standing<V>(t: seq<Slot<V>>, trip: Trip<V>, b: nat, phase: Phase, m: map<int, V>, w: map<int, nat>,
                              key: int, value: V, d: nat, pos: nat, left: nat)
  {
    && trip.size > 0 && |t| == LANES * trip.size && pos < |t|
    && forall k {:trigger Key(Lock.Insertion, k)} :: Key(Lock.Insertion, k) ==>
         Stands(t, trip, b, phase, m, w, key, value, d, pos, left)
  }

  /** How much of the walk can be left. */
  ghost function Ahead<V>(t: seq<Slot<V>>, b: nat, phase: Phase, pos: nat, left: nat): nat
    requires pos < |t|
  {
    if phase.OnTrack? then left + |t| else if b < |t| then Dist(pos, b, |t|) else 0
  }

  /** What the insertion must achieve if, and only if, the walk is clear. */
  ghost predicate Decided<V>(t: seq<Slot<V>>, trip: Trip<V>, w: map<int, nat>) {
    if trip.clear then Regime(t, trip.size, trip.goal, w)
    else trip.victim in trip.goal && Missed(t, trip.size, trip.victim)
  }

  /** `Decided`, kept closed. */
  ghost predicate Verdict<V>(t: seq<Slot<V>>, trip: Trip<V>, w: map<int, nat>) {
    forall k {:trigger Key(Lock.Insertion, k)} :: Key(Lock.Insertion, k) ==> Decided(t, trip, w)
  }

  /** What one written byte keeps of a distance. */
  function Written<V>(d: nat, key: int, value: V): Slot<V> { Entry(d % 256, key, value) }

  lemma {:induction false} Aligned(x: nat, y: nat, k: nat)
    requires x < y && y % LANES == 0 && x % LANES + k <= LANES
    ensures x + k <= y
  {
    assert x / LANES < y / LANES;
  }

  lemma {:induction false} DistLane(at: nat, x: nat, n: nat)
    requires n % LANES == 0 && at % LANES == 0 && at < n && x < n
    ensures Dist(at, x, n) % LANES == x % LANES
  {
  }

  /** Between two bucket starts there is room for the rest of a bucket. */
  lemma {:induction false} BeforeBucket(at: nat, pos: nat, b: nat, n: nat, k: nat)
    requires Between(at, pos, b, n) && pos != b && pos % LANES + k <= LANES
    ensures pos + k <= n && Between(at, Step(pos, k, n), b, n)
    ensures Dist(Step(pos, k, n), b, n) + k == Dist(pos, b, n)
  {
    Aligned(pos, n, k);
    DistLane(at, pos, n);
    DistLane(at, b, n);
    Aligned(Dist(at, pos, n), Dist(at, b, n), k);
  }

  lemma {:induction false} AstrayMoves<V>(t: seq<Slot<V>>, trip: Trip<V>, b: nat, k: int, at: nat, pos: nat, j: nat)
    requires AstrayAt(t, trip, b, k, at, pos) && Full(t, pos) && pos % LANES + j <= LANES
    ensures pos + j <= |t|
    ensures AstrayAt(t, trip, b, k, at, Step(pos, j, |t|))
    ensures Dist(Step(pos, j, |t|), b, |t|) + j == Dist(pos, b, |t|)
  {
    assert pos != b;
    BeforeBucket(at, pos, b, |t|, j);
  }

  lemma {:induction false} AstrayWrites<V>(t: seq<Slot<V>>, trip: Trip<V>, b: nat, k: int, at: nat, pos: nat,
                                           x: Slot<V>)
    requires AstrayAt(t, trip, b, k, at, pos) && Full(t, pos)
    ensures AstrayAt(t[pos := x], trip, b, k, at, pos)
  {
    StillStranded(t, trip.size, k, at, Dist(at, b, |t|), pos, x);
  }

  lemma {:induction false} TrackPast<V>(t: seq<Slot<V>>, trip: Trip<V>, b: nat, m: map<int, V>,
                                        w: map<int, nat>, key: int, value: V, d: nat, pos: nat, left: nat)
    requires OnTrackAt(t, trip, b, m, w, key, value, d, pos, left) && Full(t, pos) && t[pos].tag >= d
    ensures OnTrackAt(t, trip, b, m, w, key, value, d + 1, Step(pos, 1, |t|), left - 1)
  {
    assert t[pos].tag < EMPTY - LANES by { assert Step(pos, 0, |t|) == pos; }
    GoPast(t, trip, m, w, key, value, d, pos, left);
    RoomNext(t, t, pos, left);
  }

  lemma {:induction false} StartFar<V>(t: seq<Slot<V>>, trip: Trip<V>, b: nat, m: map<int, V>,
                                       w: map<int, nat>, key: int, value: V, d: nat, pos: nat, left: nat)
    requires trip.size > 0 && UnderWay(t, trip, m, w, key, value, d, pos, left) && Roomy(t) && d <= EMPTY - LANES
    requires !trip.clear ==> OpenBucket(t, b)
    ensures Standing(t, trip, b, OnTrack, m, w, key, value, d, pos, left)
  {
  }

  function Fewer(left: nat, k: nat): nat { if left > k then left - k else 0 }

  lemma {:induction false} StepPast<V>(t: seq<Slot<V>>, trip: Trip<V>, b: nat, phase: Phase, m: map<int, V>,
                                       w: map<int, nat>, key: int, value: V, d: nat, pos: nat, left: nat)
    requires Standing(t, trip, b, phase, m, w, key, value, d, pos, left) && Full(t, pos) && t[pos].tag >= d
    ensures Standing(t, trip, b, phase, m, w, key, value, d + 1, Step(pos, 1, |t|), Fewer(left, 1))
    ensures Ahead(t, b, phase, Step(pos, 1, |t|), Fewer(left, 1)) < Ahead(t, b, phase, pos, left)
  {
    assert Key(Lock.Insertion, 0);
    if phase.OnTrack? {
      TrackPast(t, trip, b, m, w, key, value, d, pos, left);
    } else {
      AstrayMoves(t, trip, b, phase.key, phase.at, pos, 1);
    }
  }

  // ---------------------------------------------------------------- bucket compares

  /** A byte as the vector compare sees it. */
  function Signed(x: nat): int { if x % 256 < 128 then x % 256 else x % 256 - 256 }

  /** A slot at which a search for an entry `d` from home stops: free, or richer in the signed compare. */
  predicate Stops(tag: nat, d: nat) { tag == EMPTY || Signed(tag) < Signed(d) }

  lemma {:induction false} RoomFar<V>(t: seq<Slot<V>>, pos: nat, left: nat, k: nat)
    requires pos < |t| && k < left <= |t| && pos + k <= |t| && RoomAhead(t, pos, left)
    ensures RoomAhead(t, Step(pos, k, |t|), left - k)
  {
    var n := |t|;
    var at := Step(pos, k, n);
    forall j {:trigger Step(at, j, n)} | 0 <= j < left - k && Full(t, Step(at, j, n))
      ensures t[Step(at, j, n)].tag < EMPTY - LANES
    {
      assert Step(pos, j + k, n) == Step(at, j, n);
    }
  }

  /** On track, the signed compare is the plain one. */
  lemma {:induction false} PlainCompare<V>(t: seq<Slot<V>>, pos: nat, left: nat, d: nat, j: nat)
    requires pos < |t| && left <= |t| && RoomAhead(t, pos, left) && d <= EMPTY - LANES && j < LANES && j < left
    requires Full(t, Step(pos, j, |t|))
    ensures Stops(t[Step(pos, j, |t|)].tag, d + j) <==> t[Step(pos, j, |t|)].tag < d + j
    ensures t[Step(pos, j, |t|)].tag < EMPTY - LANES
  {
  }

  lemma {:induction false} LanesPlain<V>(t: seq<Slot<V>>, trip: Trip<V>, m: map<int, V>, w: map<int, nat>, key: int,
                                         value: V, d: nat, pos: nat, left: nat, k: nat)
    requires UnderWay(t, trip, m, w, key, value, d, pos, left) && RoomAhead(t, pos, left) && d <= EMPTY - LANES
    requires k <= LANES && pos + k <= |t|
    requires forall i :: pos <= i < pos + k ==> Full(t, i) && !Stops(t[i].tag, d + (i - pos))
    ensures forall i :: pos <= i < pos + k ==> Full(t, i) && t[i].tag >= d + (i - pos)
    ensures k < left && d + k <= EMPTY - LANES
  {
    var j := 0;
    while j < k
      invariant 0 <= j <= k && j < left && d + j <= EMPTY - LANES
      invariant forall i :: pos <= i < pos + j ==> Full(t, i) && t[i].tag >= d + (i - pos)
    {
      PlainCompare(t, pos, left, d, j);
      assert Step(pos, j, |t|) == pos + j;
      assert Full(t, pos + j) && !Stops(t[pos + j].tag, d + j);
      j := j + 1;
      GoFar(t, trip, m, w, key, value, d, pos, left, j);
    }
  }

  lemma {:induction false} StepLanes<V>(t: seq<Slot<V>>, trip: Trip<V>, b: nat, phase: Phase, m: map<int, V>,
                                        w: map<int, nat>, key: int, value: V, d: nat, pos: nat, left: nat, k: nat)
    requires Standing(t, trip, b, phase, m, w, key, value, d, pos, left) && pos % LANES == 0 && 0 < k <= LANES
    requires pos + k <= |t|
    requires forall i :: pos <= i < pos + k ==> Full(t, i) && !Stops(t[i].tag, d + (i - pos))
    ensures Standing(t, trip, b, phase, m, w, key, value, d + k, Step(pos, k, |t|), Fewer(left, k))
    ensures Ahead(t, b, phase, Step(pos, k, |t|), Fewer(left, k)) < Ahead(t, b, phase, pos, left)
  {
    assert Key(Lock.Insertion, 0);
    if phase.OnTrack? {
      LanesPlain(t, trip, m, w, key, value, d, pos, left, k);
      GoFar(t, trip, m, w, key, value, d, pos, left, k);
      RoomFar(t, pos, left, k);
    } else {
      assert Full(t, pos);
      AstrayMoves(t, trip, b, phase.key, phase.at, pos, k);
    }
  }

  lemma {:induction false} TrackSwap<V>(t: seq<Slot<V>>, trip: Trip<V>, b: nat, m: map<int, V>,
                                        w: map<int, nat>, key: int, value: V, d: nat, pos: nat, left: nat)
    requires OnTrackAt(t, trip, b, m, w, key, value, d, pos, left)
    requires Full(t, pos) && pos % LANES != 0 && t[pos].tag < d
    ensures var t', m' := t[pos := Written(d, key, value)], m[key := value] - {t[pos].key};
            OnTrackAt(t', trip, b, m', w[key := pos], t[pos].key, t[pos].value, t[pos].tag + 1,
                      Step(pos, 1, |t|), left - 1)
  {
    var x := Written(d, key, value);
    assert t[pos].tag < EMPTY - LANES by { assert Step(pos, 0, |t|) == pos; }
    assert d % 256 == d;
    GoSwap(t, trip, m, w, key, value, d, pos, left);
    RoomNext(t, t[pos := x], pos, left);
  }

  lemma {:induction false} StepSwap<V>(t: seq<Slot<V>>, trip: Trip<V>, b: nat, phase: Phase, m: map<int, V>,
                                       w: map<int, nat>, key: int, value: V, d: nat, pos: nat, left: nat)
    requires Standing(t, trip, b, phase, m, w, key, value, d, pos, left) && Full(t, pos) && pos % LANES != 0
    requires phase.OnTrack? ==> t[pos].tag < d
    ensures var t', m' := t[pos := Written(d, key, value)], m[key := value] - {t[pos].key};
            && Standing(t', trip, b, phase, m', w[key := pos], t[pos].key, t[pos].value, t[pos].tag + 1,
                      Step(pos, 1, |t|), Fewer(left, 1))
            && Ahead(t', b, phase, Step(pos, 1, |t|), Fewer(left, 1)) < Ahead(t, b, phase, pos, left)
  {
    assert Key(Lock.Insertion, 0);
    if phase.OnTrack? {
      TrackSwap(t, trip, b, m, w, key, value, d, pos, left);
    } else {
      AstrayMoves(t, trip, b, phase.key, phase.at, pos, 1);
      AstrayElsewhere(t, trip, b, phase.key, phase.at, pos, Written(d, key, value), Step(pos, 1, |t|));
    }
  }

  lemma {:induction false} AstrayElsewhere<V>(t: seq<Slot<V>>, trip: Trip<V>, b: nat, k: int, at: nat, pos: nat,
                                              x: Slot<V>, pos': nat)
    requires AstrayAt(t, trip, b, k, at, pos) && Full(t, pos) && AstrayAt(t, trip, b, k, at, pos')
    ensures AstrayAt(t[pos := x], trip, b, k, at, pos')
  {
    AstrayWrites(t, trip, b, k, at, pos, x);
  }

  lemma {:induction false} PlaceOnTrack<V>(t: seq<Slot<V>>, trip: Trip<V>, m: map<int, V>, w: map<int, nat>,
                                          key: int, value: V, d: nat, pos: nat, left: nat)
    requires UnderWay(t, trip, m, w, key, value, d, pos, left) && d < EMPTY && !Full(t, pos)
    ensures trip.clear && Verdict(t[pos := Written(d, key, value)], trip, w[key := pos])
  {
    Arrive(t, trip, m, w, key, value, d, pos, left);
  }

  lemma {:induction false} AstrayPlace<V>(t: seq<Slot<V>>, trip: Trip<V>, b: nat, k: int, at: nat, pos: nat, x: Slot<V>)
    requires AstrayAt(t, trip, b, k, at, pos)
    ensures !trip.clear && trip.victim in trip.goal && Missed(t[pos := x], trip.size, trip.victim)
  {
    StillStranded(t, trip.size, k, at, Dist(at, b, |t|), pos, x);
    StrandedIsMissed(t[pos := x], trip.size, k, at, Dist(at, b, |t|));
  }

  lemma {:induction false} StepPlace<V>(t: seq<Slot<V>>, trip: Trip<V>, b: nat, phase: Phase, m: map<int, V>,
                                        w: map<int, nat>, key: int, value: V, d: nat, pos: nat, left: nat)
    requires Standing(t, trip, b, phase, m, w, key, value, d, pos, left) && !Full(t, pos)
    ensures Verdict(t[pos := Written(d, key, value)], trip, w[key := pos])
  {
    assert Stands(t, trip, b, phase, m, w, key, value, d, pos, left) by { assert Key(Lock.Insertion, 0); }
    if phase.OnTrack? {
      PlaceOnTrack(t, trip, m, w, key, value, d, pos, left);
    } else {
      AstrayPlace(t, trip, b, phase.key, phase.at, pos, Written(d, key, value));
    }
  }

  lemma {:induction false} NextBucket(pos: nat, b: nat, n: nat)
    requires n % LANES == 0 && pos < n && b < n && pos % LANES == 0 && b % LANES == 0 && pos != b
    ensures pos + LANES <= n && Between(pos, Step(pos, LANES, n), b, n)
  {
    Aligned(pos, n, LANES);
    DistLane(pos, b, n);
    Aligned(0, Dist(pos, b, n), LANES);
  }

  lemma {:induction false} WholeBuckets(size: nat)
    ensures (LANES * size) % LANES == 0
  {
    AddMultiple(0, size, LANES);
  }

  lemma {:induction false} GoneAstray<V>(t: seq<Slot<V>>, trip: Trip<V>, b: nat, key: int, pos: nat)
    requires !trip.clear && key in trip.goal && key == trip.victim && |t| == LANES * trip.size && OpenBucket(t, b)
    requires Full(t, pos) && pos % LANES == 0 && Stranded(t, trip.size, key, pos, Dist(pos, b, |t|))
    ensures pos + LANES <= |t| && AstrayAt(t, trip, b, key, pos, Step(pos, LANES, |t|))
  {
    WholeBuckets(trip.size);
    NextBucket(pos, b, LANES * trip.size);
  }

  /** The skipped bucket is where a walk goes astray. */
  lemma {:induction false} StepSkip<V>(t: seq<Slot<V>>, trip: Trip<V>, b: nat, phase: Phase, m: map<int, V>,
                                       w: map<int, nat>, key: int, value: V, d: nat, pos: nat, left: nat)
    requires Standing(t, trip, b, phase, m, w, key, value, d, pos, left) && Full(t, pos) && pos % LANES == 0
    requires phase.OnTrack? ==> t[pos].tag < d
    ensures pos + LANES <= |t|
    ensures var phase' := if phase.OnTrack? then Astray(key, pos) else phase;
            && Standing(t, trip, b, phase', m, w, key, value, d + LANES, Step(pos, LANES, |t|), left)
            && Ahead(t, b, phase', Step(pos, LANES, |t|), left) < Ahead(t, b, phase, pos, left)
  {
    assert Key(Lock.Insertion, 0);
    if phase.OnTrack? {
      GoAstray(t, trip, m, w, key, value, d, pos, left, b);
      GoneAstray(t, trip, b, key, pos);
    } else {
      AstrayMoves(t, trip, b, phase.key, phase.at, pos, LANES);
    }
  }

  lemma {:induction false} Exhausted<V>(t: seq<Slot<V>>, trip: Trip<V>, b: nat, phase: Phase, m: map<int, V>,
                                        w: map<int, nat>, key: int, value: V, d: nat, pos: nat, left: nat)
    requires Standing(t, trip, b, phase, m, w, key, value, d, pos, left) && d >= |t|
    ensures Verdict(t, trip, w)
  {
    assert Key(Lock.Insertion, 0);
    if phase.Astray? { StrandedIsMissed(t, trip.size, phase.key, phase.at, Dist(phase.at, b, |t|)); }
  }
}
