/** The account service applies reports to the ledger, one at a time or in batches. */
module LedgerWriter {
  import opened Domain
  import opened Sums
  import opened TripleBuffer
  import opened AccountStates
  import opened Reference
  import opened Priority
  import opened Settlement

  /** A report credits the bought asset, then the sold one with its attempt. */
  function Booked(v: View<Account>, r: Stamped): (w: View<Account>)
    requires ShapedView(v)
    ensures ShapedView(w) && w.visible == v.visible
  {
    var p := r.report;
    Apply(Apply(v, Assets(p.boughtAsset, p.bought, 0, r.id)), Assets(p.soldAsset, p.sold, p.attempt, r.id))
  }

  predicate ShapedViews(vs: seq<View<Account>>) { forall c :: 0 <= c < |vs| ==> ShapedView(vs[c]) }

  predicate Known(rs: seq<Stamped>, n: nat) { forall i :: 0 <= i < |rs| ==> rs[i].report.client < n }

  function BookAll(vs: seq<View<Account>>, rs: seq<Stamped>): (ws: seq<View<Account>>)
    requires ShapedViews(vs) && Known(rs, |vs|)
    ensures |ws| == |vs| && ShapedViews(ws)
  {
    if rs == [] then vs
    else
      var n := |rs| - 1;
      var ws := BookAll(vs, rs[..n]);
      var c := rs[n].report.client;
      ws[c := Booked(ws[c], rs[n])]
  }

  predicate Touches(rs: seq<Stamped>, c: nat) { exists i :: 0 <= i < |rs| && rs[i].report.client == c }

  function Shown(v: View<Account>): View<Account> { View(v.staged, v.staged) }

  /** Every client of the batch is flushed, nobody else. */
  ghost function FlushTouched(vs: seq<View<Account>>, rs: seq<Stamped>): seq<View<Account>> {
    seq(|vs|, c requires 0 <= c < |vs| => if Touches(rs, c) then Shown(vs[c]) else vs[c])
  }

  ghost function Handled(vs: seq<View<Account>>, rs: seq<Stamped>): (ws: seq<View<Account>>)
    requires ShapedViews(vs) && Known(rs, |vs|)
    ensures |ws| == |vs| && ShapedViews(ws)
  {
    FlushTouched(BookAll(vs, rs), rs)
  }

  // ---------------------------------------------------------------- the writer

  class ClientStatesWriter {
    const states: ClientStates<Account>
    var touched: set<nat>

    constructor (states: ClientStates<Account>)
      ensures this.states == states && touched == {}
    {
      this.states := states;
      touched := {};
    }

    method Book(r: Stamped)
      requires states.Valid() && r.report.client < |states.complete|
      modifies states
      ensures states.Valid() && |states.complete| == old(|states.complete|)
      ensures states.Views() == old(states.Views())[r.report.client := Booked(old(states.Views()[r.report.client]), r)]
    {
      var p := r.report;
      SetClientAssets(states, p.client, p.bought, 0, p.boughtAsset, r.id);
      SetClientAssets(states, p.client, p.sold, p.attempt, p.soldAsset, r.id);
    }

    method HandleReport(r: Stamped)
      requires states.Valid() && r.report.client < |states.complete|
      modifies states
      ensures states.Valid() && |states.complete| == old(|states.complete|)
      ensures Known([r], |states.complete|) && states.Views() == Handled(old(states.Views()), [r])
    {
      ghost var vs := states.Views();
      Book(r);
      states.FlushTripleBuffer(r.report.client);
      assert [r][..0] == [];
      assert BookAll(vs, []) == vs;
      assert [r][0].report.client == r.report.client;
      assert states.Views() == Handled(vs, [r]);
    }

    method HandleBatch(rs: seq<Stamped>)
      requires states.Valid() && Known(rs, |states.complete|) && touched == {}
      modifies this, states
      ensures states.Valid() && |states.complete| == old(|states.complete|) && touched == {}
      ensures states.Views() == Handled(old(states.Views()), rs)
    {
      ghost var vs := states.Views();
      for i := 0 to |rs|
        invariant states.Valid() && |states.complete| == old(|states.complete|)
        invariant states.Views() == BookAll(vs, rs[..i])
        invariant touched == {}
      {
        assert rs[..i + 1][..i] == rs[..i];
        Book(rs[i]);
      }
      assert rs[..|rs|] == rs;
      FlushClients(rs);
      touched := {};
    }

    /** One flush per client of the batch, however often it occurs. */
    method FlushClients(rs: seq<Stamped>)
      requires states.Valid() && Known(rs, |states.complete|) && touched == {}
      modifies this, states
      ensures states.Valid() && |states.complete| == old(|states.complete|)
      ensures states.Views() == FlushTouched(old(states.Views()), rs)
    {
      ghost var vs := states.Views();
      assert FlushTouched(vs, rs[..0]) == vs;
      for i := 0 to |rs|
        invariant states.Valid() && |states.complete| == old(|states.complete|)
        invariant forall c: nat :: c in touched <==> Touches(rs[..i], c)
        invariant states.Views() == FlushTouched(vs, rs[..i])
      {
        var c := rs[i].report.client;
        TouchesMore(rs, i);
        if c !in touched {
          states.FlushTripleBuffer(c);
          touched := touched + {c};
        }
        assert states.Views() == FlushTouched(vs, rs[..i + 1]);
      }
      assert rs[..|rs|] == rs;
    }
  }

  lemma {:induction false} TouchesMore(rs: seq<Stamped>, i: nat)
    requires i < |rs|
    ensures forall c :: Touches(rs[..i + 1], c) <==> Touches(rs[..i], c) || c == rs[i].report.client
  {
    assert rs[..i + 1] == rs[..i] + [rs[i]];
    forall c ensures Touches(rs[..i + 1], c) <==> Touches(rs[..i], c) || c == rs[i].report.client {
      if Touches(rs[..i], c) {
        var j :| 0 <= j < i && rs[..i][j].report.client == c;
        assert rs[..i + 1][j].report.client == c;
      }
      assert rs[..i + 1][i].report.client == rs[i].report.client;
    }
  }

  // ---------------------------------------------------------------- batching does not matter

  predicate Settled(vs: seq<View<Account>>) { forall c :: 0 <= c < |vs| ==> vs[c].visible == vs[c].staged }

  function ShowAll(vs: seq<View<Account>>): (ws: seq<View<Account>>)
    ensures |ws| == |vs|
  {
    seq(|vs|, c requires 0 <= c < |vs| => Shown(vs[c]))
  }

  ghost function HandleAll(vs: seq<View<Account>>, batches: seq<seq<Stamped>>): (ws: seq<View<Account>>)
    requires ShapedViews(vs) && forall k :: 0 <= k < |batches| ==> Known(batches[k], |vs|)
    ensures |ws| == |vs| && ShapedViews(ws)
  {
    if batches == [] then vs
    else
      var n := |batches| - 1;
      Handled(HandleAll(vs, batches[..n]), batches[n])
  }

  function Flatten(batches: seq<seq<Stamped>>): seq<Stamped> {
    if batches == [] then [] else Flatten(batches[..|batches| - 1]) + batches[|batches| - 1]
  }

  lemma {:induction false} UntouchedStay(vs: seq<View<Account>>, rs: seq<Stamped>, c: nat)
    requires ShapedViews(vs) && Known(rs, |vs|) && c < |vs| && !Touches(rs, c)
    ensures BookAll(vs, rs)[c] == vs[c]
  {
    if rs != [] {
      var n := |rs| - 1;
      assert rs[n].report.client != c;
      forall i | 0 <= i < n ensures rs[..n][i].report.client != c { assert rs[i].report.client != c; }
      UntouchedStay(vs, rs[..n], c);
    }
  }

  lemma {:induction false} HandledShowsAll(vs: seq<View<Account>>, rs: seq<Stamped>)
    requires ShapedViews(vs) && Settled(vs) && Known(rs, |vs|)
    ensures Handled(vs, rs) == ShowAll(BookAll(vs, rs))
  {
    var ws := BookAll(vs, rs);
    forall c | 0 <= c < |vs| ensures Handled(vs, rs)[c] == Shown(ws[c]) {
      if !Touches(rs, c) { UntouchedStay(vs, rs, c); }
    }
  }

  lemma {:induction false} BookShown(vs: seq<View<Account>>, rs: seq<Stamped>)
    requires ShapedViews(vs) && Known(rs, |vs|)
    ensures ShapedViews(ShowAll(vs)) && ShowAll(BookAll(ShowAll(vs), rs)) == ShowAll(BookAll(vs, rs))
  {
    if rs != [] {
      var n := |rs| - 1;
      BookShown(vs, rs[..n]);
      var x, y := BookAll(ShowAll(vs), rs[..n]), BookAll(vs, rs[..n]);
      forall c | 0 <= c < |vs| ensures x[c].staged == y[c].staged {
        assert ShowAll(x)[c] == ShowAll(y)[c];
      }
    }
  }

  lemma {:induction false} BookConcat(vs: seq<View<Account>>, x: seq<Stamped>, y: seq<Stamped>)
    requires ShapedViews(vs) && Known(x, |vs|) && Known(y, |vs|)
    ensures Known(x + y, |vs|) && BookAll(vs, x + y) == BookAll(BookAll(vs, x), y)
    decreases |y|
  {
    if y == [] {
      assert x + y == x;
    } else {
      var n, all := |y| - 1, x + y;
      assert Known(y[..n], |vs|) && Known(all, |vs|);
      assert all[..|all| - 1] == x + y[..n] && all[|all| - 1] == y[n];
      BookConcat(vs, x, y[..n]);
    }
  }

  /** From a settled ledger, any way of cutting a report stream into batches shows the same states: those of
      booking the reports one after another. */
  lemma {:induction false} BatchingIsIrrelevant(vs: seq<View<Account>>, batches: seq<seq<Stamped>>)
    requires ShapedViews(vs) && Settled(vs) && forall k :: 0 <= k < |batches| ==> Known(batches[k], |vs|)
    ensures Known(Flatten(batches), |vs|)
    ensures HandleAll(vs, batches) == ShowAll(BookAll(vs, Flatten(batches)))
  {
    if batches == [] {
      assert ShowAll(vs) == vs;
    } else {
      var n := |batches| - 1;
      BatchingIsIrrelevant(vs, batches[..n]);
      var ws, all := HandleAll(vs, batches[..n]), BookAll(vs, Flatten(batches[..n]));
      HandledShowsAll(ws, batches[n]);
      BookShown(all, batches[n]);
      BookConcat(vs, Flatten(batches[..n]), batches[n]);
    }
  }

  // ---------------------------------------------------------------- conservation

  /** What a client holds of one asset, over all positions. */
  function Holding(assets: seq<nat>, amounts: seq<int>, a: nat): int
    requires |assets| == |amounts|
  {
    if assets == [] then 0 else (if assets[0] == a then amounts[0] else 0) + Holding(assets[1..], amounts[1..], a)
  }

  function Positions(assets: seq<nat>, a: nat): nat {
    if assets == [] then 0 else (if assets[0] == a then 1 else 0) + Positions(assets[1..], a)
  }

  lemma {:induction false} CreditHolding(assets: seq<nat>, x: seq<int>, y: seq<int>, asset: nat, d: int, a: nat)
    requires |assets| == |x| == |y|
    requires forall i :: 0 <= i < |assets| ==> y[i] == x[i] + if assets[i] == asset then d else 0
    ensures Holding(assets, y, a) == Holding(assets, x, a) + (if a == asset then Positions(assets, a) * d else 0)
  {
    if assets != [] { CreditHolding(assets[1..], x[1..], y[1..], asset, d, a); }
  }

  function HeldIn(a: nat): View<Account> -> int {
    (v: View<Account>) => if ShapedView(v) then Holding(v.staged.assets, v.staged.funds.confirmed, a) else 0
  }

  /** All clients' confirmed holdings of an asset. */
  function Total(vs: seq<View<Account>>, a: nat): int { Sum(vs, HeldIn(a)) }

  /** Whoever trades an asset has exactly one position for it. */
  predicate TradesHeld(vs: seq<View<Account>>, rs: seq<Stamped>)
    requires Known(rs, |vs|)
  {
    forall i :: 0 <= i < |rs| ==>
      && (rs[i].report.bought != 0 ==> Positions(vs[rs[i].report.client].staged.assets, rs[i].report.boughtAsset) == 1)
      && (rs[i].report.sold != 0 ==> Positions(vs[rs[i].report.client].staged.assets, rs[i].report.soldAsset) == 1)
  }

  function StampMoved(a: nat): Stamped -> int { (r: Stamped) => Moved(r.report, a) }

  lemma {:induction false} BookKeepsAssets(vs: seq<View<Account>>, rs: seq<Stamped>, c: nat)
    requires ShapedViews(vs) && Known(rs, |vs|) && c < |vs|
    ensures BookAll(vs, rs)[c].staged.assets == vs[c].staged.assets
  {
    if rs != [] { BookKeepsAssets(vs, rs[..|rs| - 1], c); }
  }

  lemma {:induction false} BookedHolding(v: View<Account>, r: Stamped, a: nat)
    requires ShapedView(v)
    requires r.report.bought != 0 ==> Positions(v.staged.assets, r.report.boughtAsset) == 1
    requires r.report.sold != 0 ==> Positions(v.staged.assets, r.report.soldAsset) == 1
    ensures HeldIn(a)(Booked(v, r)) == HeldIn(a)(v) + Moved(r.report, a)
  {
    var p := r.report;
    var w := Apply(v, Assets(p.boughtAsset, p.bought, 0, r.id));
    var u := Booked(v, r);
    CreditHolding(v.staged.assets, v.staged.funds.confirmed, w.staged.funds.confirmed, p.boughtAsset, p.bought, a);
    CreditHolding(v.staged.assets, w.staged.funds.confirmed, u.staged.funds.confirmed, p.soldAsset, p.sold, a);
  }

  lemma {:induction false} BookTotal(vs: seq<View<Account>>, rs: seq<Stamped>, a: nat)
    requires ShapedViews(vs) && Known(rs, |vs|) && TradesHeld(vs, rs)
    ensures Total(BookAll(vs, rs), a) == Total(vs, a) + Sum(rs, StampMoved(a))
  {
    if rs != [] {
      var n := |rs| - 1;
      var ws, c := BookAll(vs, rs[..n]), rs[n].report.client;
      BookTotal(vs, rs[..n], a);
      BookKeepsAssets(vs, rs[..n], c);
      BookedHolding(ws[c], rs[n], a);
      SumUpdate(ws, c, Booked(ws[c], rs[n]), HeldIn(a));
      assert rs == rs[..n] + [rs[n]];
      SumConcat(rs[..n], [rs[n]], StampMoved(a));
      SumOne(rs[n], StampMoved(a));
    }
  }

  lemma {:induction false} ShowKeepsTotal(vs: seq<View<Account>>, a: nat)
    requires ShapedViews(vs)
    ensures Total(ShowAll(vs), a) == Total(vs, a)
  {
    if vs != [] {
      ShowKeepsTotal(vs[1..], a);
      assert ShowAll(vs)[1..] == ShowAll(vs[1..]);
    }
  }

  lemma {:induction false} StampsMove(rs: seq<Stamped>, reports: seq<Report>, a: nat)
    requires |rs| == |reports| && forall i :: 0 <= i < |rs| ==> rs[i].report == reports[i]
    ensures Sum(rs, StampMoved(a)) == AssetDelta(reports, a)
  {
    if rs != [] { StampsMove(rs[1..], reports[1..], a); }
  }

  /** However reports that sum to zero in an asset are batched, the visible ledger holds as much of it afterwards
      as before. */
  lemma {:induction false} BatchesConserve(vs: seq<View<Account>>, batches: seq<seq<Stamped>>, reports: seq<Report>,
                                           a: nat)
    requires ShapedViews(vs) && Settled(vs) && forall k :: 0 <= k < |batches| ==> Known(batches[k], |vs|)
    requires var rs := Flatten(batches); |rs| == |reports| && forall i :: 0 <= i < |rs| ==> rs[i].report == reports[i]
    requires Known(Flatten(batches), |vs|) && TradesHeld(vs, Flatten(batches)) && AssetDelta(reports, a) == 0
    ensures Settled(HandleAll(vs, batches)) && Total(HandleAll(vs, batches), a) == Total(vs, a)
  {
    var rs := Flatten(batches);
    BatchingIsIrrelevant(vs, batches);
    ShowKeepsTotal(BookAll(vs, rs), a);
    BookTotal(vs, rs, a);
    StampsMove(rs, reports, a);
  }

  /** However the reports of an engine run are batched, the visible ledger holds as much of every asset
      afterwards as before. */
  lemma {:induction false} LedgerConserves(e: Engine, inputs: seq<Input>, vs: seq<View<Account>>,
                                           batches: seq<seq<Stamped>>, a: nat)
    requires Coherent(e) && AdmissibleRun(e, inputs)
    requires ShapedViews(vs) && Settled(vs) && forall k :: 0 <= k < |batches| ==> Known(batches[k], |vs|)
    requires var rs, reports := Flatten(batches), Run(e, inputs).reports;
             |rs| == |reports| && forall i :: 0 <= i < |rs| ==> rs[i].report == reports[i]
    requires Known(Flatten(batches), |vs|) && TradesHeld(vs, Flatten(batches))
    ensures Settled(HandleAll(vs, batches)) && Total(HandleAll(vs, batches), a) == Total(vs, a)
  {
    RunConserves(e, inputs, a);
    BatchesConserve(vs, batches, Run(e, inputs).reports, a);
  }
}
