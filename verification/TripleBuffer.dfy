/** Triple-buffered client states, as the order gateway and the account service both keep them. One copy is
    visible to readers, the next one collects the coming version and the third lags one generation behind; a
    flush rotates them. `F` holds the fields that are not per asset. */
module TripleBuffer {
  import opened Funds

  datatype Copy<F> = Copy(assets: seq<nat>, funds: Funds, fields: F)

  predicate ShapedCopy<F>(s: Copy<F>) { |s.assets| == MAX_POSITIONS && Shaped(s.funds) }

  /** What readers see, and what they will see after the next flush. */
  datatype View<F> = View(visible: Copy<F>, staged: Copy<F>)

  predicate ShapedView<F>(v: View<F>) { ShapedCopy(v.visible) && ShapedCopy(v.staged) }

  // ---------------------------------------------------------------- one client's buffers

  datatype Buffers<F> = Buffers(copies: seq<Copy<F>>, deltas: seq<Funds>, complete: nat)

  function CopyFunds<F>(copies: seq<Copy<F>>): seq<Funds>
    requires |copies| == 3
  {
    [copies[0].funds, copies[1].funds, copies[2].funds]
  }

  ghost predicate Sound<F>(b: Buffers<F>) {
    && |b.copies| == 3 && (forall j :: 0 <= j < 3 ==> ShapedCopy(b.copies[j]))
    && Rotates(CopyFunds(b.copies), b.deltas, b.complete)
  }

  ghost function ViewOf<F>(b: Buffers<F>): (v: View<F>)
    requires Sound(b)
    ensures ShapedView(v)
  {
    var visible := b.copies[b.complete];
    View(visible, b.copies[Next(b.complete)].(funds := Add(visible.funds, b.deltas[b.complete])))
  }

  /** The buffers after a write to the next copy's fields and the current change. */
  ghost function Written<F>(b: Buffers<F>, next: Copy<F>, delta: Funds): Buffers<F>
    requires Sound(b)
  {
    var n := Next(b.complete);
    b.(copies := b.copies[n := next.(funds := b.copies[n].funds)], deltas := b.deltas[b.complete := delta])
  }

  lemma {:induction false} WriteStages<F>(b: Buffers<F>, next: Copy<F>, delta: Funds)
    requires Sound(b) && |next.assets| == MAX_POSITIONS && Shaped(delta)
    ensures var b' := Written(b, next, delta);
            && Sound(b')
            && ViewOf(b') == View(b.copies[b.complete], next.(funds := Add(b.copies[b.complete].funds, delta)))
  {
    assert CopyFunds(Written(b, next, delta).copies) == CopyFunds(b.copies);
  }

  /** The buffers after a flush. */
  ghost function Flushed<F>(b: Buffers<F>): Buffers<F>
    requires Sound(b)
  {
    var n, t := Next(b.complete), Next(Next(b.complete));
    var funds := FlushedCopies(CopyFunds(b.copies), b.deltas, b.complete);
    Buffers(b.copies[n := b.copies[n].(funds := funds[n])][t := b.copies[n].(funds := funds[t])],
            b.deltas[n := Zero()], n)
  }

  lemma {:induction false} FlushedIs<F>(b: Buffers<F>, cur: Copy<F>, caught: Funds)
    requires Sound(b)
    requires var n, t := Next(b.complete), Next(Next(b.complete));
             && cur == b.copies[n].(funds := Add(b.copies[n].funds, b.deltas[b.complete]))
             && caught == Add(b.copies[t].funds, Add(b.deltas[t], b.deltas[b.complete]))
    ensures var n, t := Next(b.complete), Next(Next(b.complete));
            Flushed(b) == Buffers(b.copies[n := cur][t := cur.(funds := caught)], b.deltas[n := Zero()], n)
  {
  }

  lemma {:induction false} FlushShows<F>(b: Buffers<F>)
    requires Sound(b)
    ensures Sound(Flushed(b)) && ViewOf(Flushed(b)) == View(ViewOf(b).staged, ViewOf(b).staged)
  {
    var funds := FlushedCopies(CopyFunds(b.copies), b.deltas, b.complete);
    FlushRotates(CopyFunds(b.copies), b.deltas, b.complete);
    assert CopyFunds(Flushed(b).copies) == funds;
    AddNothing(funds[Next(b.complete)]);
  }

  // ---------------------------------------------------------------- every client's buffers

  /** The three copies of all clients, their changes and the visible index, as the vectors hold them. */
  datatype Bank<F> = Bank(states: seq<seq<Copy<F>>>, deltas: seq<seq<Funds>>, complete: seq<nat>)

  ghost predicate Laid<F>(b: Bank<F>) {
    |b.states| == 3 && |b.deltas| == |b.complete| && forall j :: 0 <= j < 3 ==> |b.states[j]| == |b.complete|
  }

  ghost function ClientOf<F>(b: Bank<F>, c: nat): Buffers<F>
    requires Laid(b) && c < |b.complete|
  {
    Buffers([b.states[0][c], b.states[1][c], b.states[2][c]], b.deltas[c], b.complete[c])
  }

  ghost predicate AllSound<F>(b: Bank<F>) {
    Laid(b) && forall c: nat {:trigger ClientOf(b, c)} :: c < |b.complete| ==> Sound(ClientOf(b, c))
  }

  ghost function ViewsOf<F>(b: Bank<F>): (vs: seq<View<F>>)
    requires AllSound(b)
    ensures |vs| == |b.complete| && forall c :: 0 <= c < |vs| ==> ShapedView(vs[c])
  {
    seq(|b.complete|, c requires 0 <= c < |b.complete| => ViewOf(ClientOf(b, c)))
  }

  /** Changing one client's buffers changes one view. */
  lemma {:induction false} OneViewChanges<F>(b: Bank<F>, b': Bank<F>, c: nat)
    requires AllSound(b) && Laid(b') && |b'.complete| == |b.complete| && c < |b.complete|
    requires Sound(ClientOf(b', c))
    requires forall d: nat {:trigger ClientOf(b', d)} ::
               d < |b.complete| && d != c ==> ClientOf(b', d) == ClientOf(b, d)
    ensures AllSound(b') && ViewsOf(b') == ViewsOf(b)[c := ViewOf(ClientOf(b', c))]
  {
  }

  class ClientStates<F> {
    var states: seq<seq<Copy<F>>>
    var deltas: seq<seq<Funds>>
    var complete: seq<nat>

    ghost function Contents(): Bank<F>
      reads this
    {
      Bank(states, deltas, complete)
    }

    ghost predicate Valid()
      reads this
    {
      AllSound(Contents())
    }

    ghost function Views(): (vs: seq<View<F>>)
      requires Valid()
      reads this
      ensures |vs| == |complete| && forall c :: 0 <= c < |vs| ==> ShapedView(vs[c])
    {
      ViewsOf(Contents())
    }

    /** All three copies of every client start as the given states. */
    constructor (initial: seq<Copy<F>>)
      requires forall c :: 0 <= c < |initial| ==> ShapedCopy(initial[c])
      ensures Valid() && |complete| == |initial|
      ensures forall c: nat :: c < |initial| ==> Views()[c] == View(initial[c], initial[c])
    {
      states := [initial, initial, initial];
      deltas := seq(|initial|, _ => [Zero(), Zero(), Zero()]);
      complete := seq(|initial|, _ => 0);
      new;
      var b := Contents();
      forall c: nat | c < |initial|
        ensures Sound(ClientOf(b, c)) && ViewOf(ClientOf(b, c)) == View(initial[c], initial[c])
      {
        AddNothing(initial[c].funds);
      }
    }

    /** A reader takes the copy named by `complete`. */
    method GetClientState(c: nat) returns (s: Copy<F>)
      requires Valid() && c < |complete|
      ensures s == Views()[c].visible
    {
      assert Sound(ClientOf(Contents(), c));
      s := if complete[c] == 0 then states[0][c] else if complete[c] == 1 then states[1][c] else states[2][c];
    }

    /** Where the writer of client `c` works: the next copy, the visible balances and the change so far. */
    method WriterView(c: nat) returns (next: Copy<F>, ref: Funds, delta: Funds)
      requires Valid() && c < |complete|
      ensures ShapedCopy(next) && Shaped(ref) && Shaped(delta)
      ensures ref == Views()[c].visible.funds
      ensures next.(funds := Add(ref, delta)) == Views()[c].staged
    {
      assert Sound(ClientOf(Contents(), c));
      next, ref, delta := states[Next(complete[c])][c], states[complete[c]][c].funds, deltas[c][complete[c]];
    }

    /** Stores the next copy's fields and the change; the balances of the copies stay. */
    method Stage(c: nat, assets: seq<nat>, fields: F, delta: Funds)
      requires Valid() && c < |complete| && |assets| == MAX_POSITIONS && Shaped(delta)
      modifies this
      ensures Valid() && |complete| == old(|complete|)
      ensures var v := old(Views()[c]);
              Views() == old(Views())[c := View(v.visible, Copy(assets, Add(v.visible.funds, delta), fields))]
    {
      ghost var bank := Contents();
      ghost var b := ClientOf(bank, c);
      assert Sound(b);
      var n := Next(complete[c]);
      var next := Copy(assets, states[n][c].funds, fields);
      states := states[n := states[n][c := next]];
      deltas := deltas[c := deltas[c][complete[c] := delta]];
      WriteStages(b, next, delta);
      assert ClientOf(Contents(), c) == Written(b, next, delta);
      OneViewChanges(bank, Contents(), c);
    }

    /** Makes the staged version visible and brings the oldest copy up to date. */
    method FlushTripleBuffer(c: nat)
      requires Valid() && c < |complete|
      modifies this
      ensures Valid() && |complete| == old(|complete|)
      ensures var v := old(Views()[c]); Views() == old(Views())[c := View(v.staged, v.staged)]
    {
      ghost var bank := Contents();
      ghost var b := ClientOf(bank, c);
      assert Sound(b);
      var k := complete[c];
      var n := Next(k);
      var t := Next(n);
      var cur := states[n][c];
      var funds := Merge(cur.funds, deltas[c][k]);
      cur := cur.(funds := funds);
      states := states[n := states[n][c := cur]];
      complete := complete[c := n];
      var caught, changes := Settle(states[t][c].funds, deltas[c], n);
      states := states[t := states[t][c := Copy(cur.assets, caught, cur.fields)]];
      deltas := deltas[c := changes];
      assert ClientOf(Contents(), c).copies == b.copies[n := cur][t := cur.(funds := caught)];
      assert ClientOf(Contents(), c) == Flushed(b) by { FlushedIs(b, cur, caught); }
      FlushShows(b);
      OneViewChanges(bank, Contents(), c);
    }
  }
}
