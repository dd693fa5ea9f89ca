/** A reader copies the visible state cell by cell while the writer goes on. The writer only ever writes cells
    of the copy after the visible one, and publishes by advancing the index. Every interleaving is a run of
    these steps. */
module TornReads {
  import opened Funds
  import opened TripleBuffer
  import GatewayStates

  datatype Memory<V> = Memory(copies: seq<seq<V>>, complete: nat)

  /** `since` names the published version that was visible when the reader loaded the index. */
  datatype Reader<V> = Away | Copying(from: nat, got: seq<V>, since: int)

  datatype Scene<V> = Scene(memory: Memory<V>, published: seq<seq<V>>, reader: Reader<V>)

  datatype Action<V> = WriteCell(cell: nat, value: V) | Publish | Load | ReadCell

  ghost predicate Sized<V>(m: Memory<V>, n: nat) {
    |m.copies| == 3 && m.complete < 3 && forall j :: 0 <= j < 3 ==> |m.copies[j]| == n
  }

  ghost predicate Possible<V>(s: Scene<V>, a: Action<V>, n: nat) {
    && Sized(s.memory, n)
    && (a.WriteCell? ==> a.cell < n)
    && (a.ReadCell? ==> s.reader.Copying? && s.reader.from < 3 && |s.reader.got| < n)
  }

  ghost function Act<V>(s: Scene<V>, a: Action<V>, n: nat): (r: Scene<V>)
    requires Possible(s, a, n)
    ensures Sized(r.memory, n)
  {
    var m := s.memory;
    var next := Next(m.complete);
    match a
    case WriteCell(i, v) => s.(memory := m.(copies := m.copies[next := m.copies[next][i := v]]))
    case Publish => s.(memory := m.(complete := next), published := s.published + [m.copies[next]])
    case Load => s.(reader := Copying(m.complete, [], |s.published| - 1))
    case ReadCell =>
      var got := s.reader.got;
      s.(reader := s.reader.(got := got + [m.copies[s.reader.from][|got|]]))
  }

  /** How often the index has changed since the reader loaded it. */
  ghost function Changes<V>(s: Scene<V>): int
    requires s.reader.Copying?
  {
    |s.published| - 1 - s.reader.since
  }

  ghost predicate Untorn<V>(s: Scene<V>, n: nat) {
    && Sized(s.memory, n) && |s.published| > 0
    && s.memory.copies[s.memory.complete] == s.published[|s.published| - 1]
    && (s.reader.Copying? ==>
          && s.reader.from < 3 && 0 <= s.reader.since < |s.published| && |s.reader.got| <= n
          && (Changes(s) == 0 ==> s.reader.from == s.memory.complete)
          && (Changes(s) == 1 ==> Next(s.reader.from) == s.memory.complete)
          && (Changes(s) <= 1 ==>
                && s.memory.copies[s.reader.from] == s.published[s.reader.since]
                && s.reader.got == s.published[s.reader.since][..|s.reader.got|]))
  }

  lemma {:induction false} ActKeepsUntorn<V>(s: Scene<V>, a: Action<V>, n: nat)
    requires Untorn(s, n) && Possible(s, a, n)
    ensures Untorn(Act(s, a, n), n)
  {
    if a.ReadCell? && Changes(s) <= 1 {
      var version, got := s.published[s.reader.since], s.reader.got;
      assert version[..|got| + 1] == version[..|got|] + [version[|got|]];
    }
  }

  ghost predicate PossibleRun<V>(s: Scene<V>, actions: seq<Action<V>>, n: nat)
    decreases |actions|
  {
    actions != [] ==> Possible(s, actions[0], n) && PossibleRun(Act(s, actions[0], n), actions[1..], n)
  }

  ghost function RunScene<V>(s: Scene<V>, actions: seq<Action<V>>, n: nat): Scene<V>
    requires PossibleRun(s, actions, n)
    decreases |actions|
  {
    if actions == [] then s else RunScene(Act(s, actions[0], n), actions[1..], n)
  }

  lemma {:induction false} RunKeepsUntorn<V>(s: Scene<V>, actions: seq<Action<V>>, n: nat)
    requires Untorn(s, n) && PossibleRun(s, actions, n)
    ensures Untorn(RunScene(s, actions, n), n)
    decreases |actions|
  {
    if actions != [] {
      ActKeepsUntorn(s, actions[0], n);
      RunKeepsUntorn(Act(s, actions[0], n), actions[1..], n);
    }
  }

  /** A finished copy during which the index changed at most once is the version published when the reader
      loaded the index, whatever the writer did meanwhile. */
  lemma {:induction false} CopyIsOneVersion<V>(m: Memory<V>, actions: seq<Action<V>>, n: nat)
    requires Sized(m, n) && PossibleRun(Scene(m, [m.copies[m.complete]], Away), actions, n)
    ensures var s := RunScene(Scene(m, [m.copies[m.complete]], Away), actions, n);
            s.reader.Copying? && |s.reader.got| == n && Changes(s) <= 1 ==>
              0 <= s.reader.since < |s.published| && s.reader.got == s.published[s.reader.since]
  {
    var s0 := Scene(m, [m.copies[m.complete]], Away);
    RunKeepsUntorn(s0, actions, n);
    var s := RunScene(s0, actions, n);
    if s.reader.Copying? && |s.reader.got| == n && Changes(s) <= 1 {
      var version := s.published[s.reader.since];
      assert |version| == n by { assert version == s.memory.copies[s.reader.from]; }
      assert version[..n] == version;
    }
  }

  ghost function Start(): Scene<int> { Scene(Memory([[0, 0], [0, 0], [0, 0]], 0), [[0, 0]], Away) }

  /** The reader takes one cell, the writer publishes twice. */
  ghost function Overtake(): seq<Action<int>> { [Load, ReadCell, Publish, Publish] }

  /** The writer reuses the copy being read before the reader takes its second cell. */
  ghost function Reuse(): seq<Action<int>> { [WriteCell(1, 7), ReadCell] }

  lemma {:induction false} RunFirst<V>(s: Scene<V>, actions: seq<Action<V>>, n: nat)
    requires actions != [] && Possible(s, actions[0], n) && PossibleRun(Act(s, actions[0], n), actions[1..], n)
    ensures PossibleRun(s, actions, n)
    ensures RunScene(s, actions, n) == RunScene(Act(s, actions[0], n), actions[1..], n)
  {
  }

  lemma {:induction false} Overtaken()
    ensures PossibleRun(Start(), Overtake(), 2)
    ensures var s := RunScene(Start(), Overtake(), 2);
            && Sized(s.memory, 2) && s.memory.complete == 2 && s.reader == Copying(0, [0], 0)
            && s.published == [[0, 0], [0, 0], [0, 0]]
  {
    var t := Overtake();
    var s1 := Act(Start(), t[0], 2);
    var s2 := Act(s1, t[1], 2);
    var s3 := Act(s2, t[2], 2);
    var s4 := Act(s3, t[3], 2);
    assert t[3..][1..] == [] && t[2..][1..] == t[3..] && t[1..][1..] == t[2..];
    RunFirst(s3, t[3..], 2);
    RunFirst(s2, t[2..], 2);
    RunFirst(s1, t[1..], 2);
    RunFirst(Start(), t, 2);
  }

  lemma {:induction false} Reused(s: Scene<int>)
    requires Sized(s.memory, 2) && s.memory.complete == 2 && s.reader == Copying(0, [0], 0)
    ensures PossibleRun(s, Reuse(), 2)
    ensures RunScene(s, Reuse(), 2).reader == Copying(0, [0, 7], 0)
    ensures RunScene(s, Reuse(), 2).published == s.published
  {
    var t := Reuse();
    var s1 := Act(s, t[0], 2);
    assert t[1..][1..] == [];
    RunFirst(s1, t[1..], 2);
    RunFirst(s, t, 2);
  }

  /** Two changes are enough to tear: the reader ends with a state nobody published. */
  lemma {:induction false} TwoChangesTear()
    ensures PossibleRun(Start(), Overtake() + Reuse(), 2)
    ensures var s := RunScene(Start(), Overtake() + Reuse(), 2);
            s.reader.Copying? && |s.reader.got| == 2 && Changes(s) == 2 && s.reader.got !in s.published
  {
    Overtaken();
    var s := RunScene(Start(), Overtake(), 2);
    Reused(s);
    RunConcat(Start(), Overtake(), Reuse(), 2);
    assert [0, 7] !in s.published by { assert [0, 7][1] != [0, 0][1]; }
  }

  // ---------------------------------------------------------------- the flush is such a writer

  datatype Cell<G> = Asset(asset: nat) | Confirmed(amount: int) | Attempt(amount: int) | Part(part: G)

  /** `parts` splits the remaining fields of a state into `w` cells. */
  ghost predicate Splits<F(!new), G>(parts: F -> seq<G>, w: nat) { forall f :: |parts(f)| == w }

  ghost function Width(w: nat): nat { 3 * MAX_POSITIONS + w }

  /** A client state as the cells a copy goes through. */
  ghost function Cells<F(!new), G>(s: Copy<F>, parts: F -> seq<G>, w: nat): (r: seq<Cell<G>>)
    requires ShapedCopy(s) && Splits(parts, w)
    ensures |r| == Width(w)
  {
    seq(MAX_POSITIONS, i requires 0 <= i < MAX_POSITIONS => Asset(s.assets[i]))
    + seq(MAX_POSITIONS, i requires 0 <= i < MAX_POSITIONS => Confirmed(s.funds.confirmed[i]))
    + seq(MAX_POSITIONS, i requires 0 <= i < MAX_POSITIONS => Attempt(s.funds.attempt[i]))
    + seq(w, i requires 0 <= i < w => Part(parts(s.fields)[i]))
  }

  ghost function MemoryOf<F(!new), G>(b: Buffers<F>, parts: F -> seq<G>, w: nat): (m: Memory<Cell<G>>)
    requires Sound(b) && Splits(parts, w)
    ensures Sized(m, Width(w))
  {
    Memory([Cells(b.copies[0], parts, w), Cells(b.copies[1], parts, w), Cells(b.copies[2], parts, w)], b.complete)
  }

  /** Writes of single cells, any number, in any order. */
  ghost predicate Writes<V>(ws: seq<Action<V>>, n: nat) {
    forall i :: 0 <= i < |ws| ==> ws[i].WriteCell? && ws[i].cell < n
  }

  /** What a row of cells has become after the writes. */
  ghost function Effect<V>(ws: seq<Action<V>>, row: seq<V>): (r: seq<V>)
    requires Writes(ws, |row|)
    ensures |r| == |row|
    decreases |ws|
  {
    if ws == [] then row else Effect(ws[1..], row[ws[0].cell := ws[0].value])
  }

  /** Writes, whatever the reader is doing, change the copy after the visible one and nothing else. */
  lemma {:induction false} WritesTakeEffect<V>(s: Scene<V>, ws: seq<Action<V>>, n: nat)
    requires Sized(s.memory, n) && Writes(ws, n)
    ensures PossibleRun(s, ws, n)
    ensures var m := s.memory;
            var next := Next(m.complete);
            RunScene(s, ws, n) == s.(memory := m.(copies := m.copies[next := Effect(ws, m.copies[next])]))
    decreases |ws|
  {
    var m := s.memory;
    var next := Next(m.complete);
    if ws == [] {
      assert m.copies[next := m.copies[next]] == m.copies;
    } else {
      var s' := Act(s, ws[0], n);
      WritesTakeEffect(s', ws[1..], n);
      var row := Effect(ws, m.copies[next]);
      assert s'.memory.copies[next := row] == m.copies[next := row];
    }
  }

  lemma {:induction false} RunConcat<V>(s: Scene<V>, a: seq<Action<V>>, b: seq<Action<V>>, n: nat)
    requires PossibleRun(s, a, n) && PossibleRun(RunScene(s, a, n), b, n)
    ensures PossibleRun(s, a + b, n) && RunScene(s, a + b, n) == RunScene(RunScene(s, a, n), b, n)
    decreases |a|
  {
    if a == [] {
      assert a + b == b;
    } else {
      assert (a + b)[1..] == a[1..] + b;
      RunConcat(Act(s, a[0], n), a[1..], b, n);
    }
  }

  /** Staging, in however many cell writes, is such a writer: it publishes nothing. */
  lemma {:induction false} StageIsWriter<F(!new), G>(b: Buffers<F>, next: Copy<F>, delta: Funds, parts: F -> seq<G>,
                                                     w: nat, ws: seq<Action<Cell<G>>>, published: seq<seq<Cell<G>>>,
                                                     reader: Reader<Cell<G>>)
    requires Sound(b) && |next.assets| == MAX_POSITIONS && Shaped(delta) && Splits(parts, w) && Writes(ws, Width(w))
    requires var n := Next(b.complete);
             Effect(ws, Cells(b.copies[n], parts, w)) == Cells(next.(funds := b.copies[n].funds), parts, w)
    ensures Sound(Written(b, next, delta))
    ensures var s := Scene(MemoryOf(b, parts, w), published, reader);
            && PossibleRun(s, ws, Width(w))
            && RunScene(s, ws, Width(w)) == Scene(MemoryOf(Written(b, next, delta), parts, w), published, reader)
  {
    WriteStages(b, next, delta);
    WritesTakeEffect(Scene(MemoryOf(b, parts, w), published, reader), ws, Width(w));
    var b', n := Written(b, next, delta), Next(b.complete);
    assert MemoryOf(b', parts, w).copies == MemoryOf(b, parts, w).copies[n := Cells(b'.copies[n], parts, w)];
  }

  /** A flush, whatever the reader is doing and in however many cell writes, is writes of the copy after the
      visible one, one publication of exactly the staged version, and writes of the copy after that. */
  lemma {:induction false} FlushIsWriter<F(!new), G>(b: Buffers<F>, parts: F -> seq<G>, w: nat,
                                                     ws: seq<Action<Cell<G>>>,
                                                     us: seq<Action<Cell<G>>>, published: seq<seq<Cell<G>>>,
                                                     reader: Reader<Cell<G>>)
    requires Sound(b) && Splits(parts, w) && Writes(ws, Width(w)) && Writes(us, Width(w))
    requires ShapedCopy(Flushed(b).copies[Next(b.complete)]) && ShapedCopy(Flushed(b).copies[Next(Next(b.complete))])
    requires var n, t := Next(b.complete), Next(Next(b.complete));
             && Effect(ws, Cells(b.copies[n], parts, w)) == Cells(Flushed(b).copies[n], parts, w)
             && Effect(us, Cells(b.copies[t], parts, w)) == Cells(Flushed(b).copies[t], parts, w)
    ensures Sound(Flushed(b))
    ensures var s := Scene(MemoryOf(b, parts, w), published, reader);
            && PossibleRun(s, ws + ([Publish] + us), Width(w))
            && RunScene(s, ws + ([Publish] + us), Width(w))
               == Scene(MemoryOf(Flushed(b), parts, w), published + [Cells(ViewOf(b).staged, parts, w)], reader)
  {
    FlushShows(b);
    var n := Width(w);
    var s, f := Scene(MemoryOf(b, parts, w), published, reader), Flushed(b);
    WritesTakeEffect(s, ws, n);
    var s1 := RunScene(s, ws, n);
    var p: Action<Cell<G>> := Publish;
    var s2 := Act(s1, p, n);
    WritesTakeEffect(s2, us, n);
    assert ([p] + us)[1..] == us;
    RunConcat(s, ws, [p] + us, n);
    assert RunScene(s2, us, n).memory.copies == MemoryOf(f, parts, w).copies;
    assert f.copies[f.complete] == ViewOf(f).visible;
  }

  // ---------------------------------------------------------------- the gateway's fields, one cell each

  datatype LoginField = ClientId(id: nat) | AuthFlag(on: bool) | SessionId(session: nat)

  function LoginFields(f: GatewayStates.Login): seq<LoginField> {
    [ClientId(f.clientId), AuthFlag(f.auth), SessionId(f.sessionId)]
  }

  /** From a copy that is one published version, client id, login flag and session number belong together. */
  lemma {:induction false} LoginIsWhole(s: GatewayStates.ClientState, t: GatewayStates.ClientState)
    requires ShapedCopy(s) && ShapedCopy(t)
    ensures Splits(LoginFields, 3)
    ensures Cells(s, LoginFields, 3) == Cells(t, LoginFields, 3) ==> s == t
  {
    assert Splits(LoginFields, 3);
    var x, y, n := Cells(s, LoginFields, 3), Cells(t, LoginFields, 3), MAX_POSITIONS;
    if x == y {
      forall i | 0 <= i < n ensures s.assets[i] == t.assets[i] { assert x[i] == y[i]; }
      forall i | 0 <= i < n ensures s.funds.confirmed[i] == t.funds.confirmed[i] { assert x[n + i] == y[n + i]; }
      forall i | 0 <= i < n ensures s.funds.attempt[i] == t.funds.attempt[i] { assert x[2 * n + i] == y[2 * n + i]; }
      forall i | 0 <= i < 3 ensures LoginFields(s.fields)[i] == LoginFields(t.fields)[i] {
        assert x[3 * n + i] == y[3 * n + i];
      }
      assert LoginFields(s.fields)[0] == LoginFields(t.fields)[0];
      assert LoginFields(s.fields)[1] == LoginFields(t.fields)[1];
      assert LoginFields(s.fields)[2] == LoginFields(t.fields)[2];
    }
  }
}
