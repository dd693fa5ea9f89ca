/** The account service's own ledger under the whole exchange: it books every report the engines emit, in any
    batches, and never shows a negative balance. */
module LedgerSolvency {
  import opened Domain
  import opened Reference
  import opened Sums
  import opened Funds
  import opened TripleBuffer
  import opened Solvency
  import opened RiskCheck
  import AccountStates
  import Settlement
  import CatchUp
  import LedgerWriter

  type Ledgers = seq<View<AccountStates.Account>>

  /** What an event adds to the report stream. */
  ghost function EmittedBy(x: System, e: Event): seq<Report>
    requires Happens(x, e)
  {
    if e.Process? then Step(x.desks[e.desk].engine, x.desks[e.desk].inbox[0], e.eager).reports else []
  }

  ghost function Emitted(x: System, events: seq<Event>): seq<Report>
    requires Occurs(x, events)
    decreases |events|
  {
    if events == [] then [] else EmittedBy(x, events[0]) + Emitted(After(x, events[0]), events[1..])
  }

  /** Balance and pending reports together move only by what is emitted. */
  lemma {:induction false} EventMovesLedger(x: System, e: Event, c: nat, i: nat)
    requires WellFormed(x) && Happens(x, e) && c < |x.seats| && i < MAX_POSITIONS && WellFormed(After(x, e))
    ensures |After(x, e).seats| == |x.seats| && After(x, e).seats[c].state.assets == x.seats[c].state.assets
    ensures Ledger(After(x, e), c, i) == Ledger(x, c, i) + Sum(EmittedBy(x, e), MovedFor(c, x.seats[c].state.assets[i]))
  {
    var a, y := x.seats[c].state.assets[i], After(x, e);
    var d, d' := x.desks[e.desk], y.desks[e.desk];
    SumUpdate(x.desks, e.desk, d', PendingOf(c, a));
    match e {
      case Submit(_, _, _, _) =>
      case Process(_, _) =>
        SumConcat(d.outbox, EmittedBy(x, e), MovedFor(c, a));
      case Deliver(_) =>
        var r := d.outbox[0];
        if r.client < |x.seats| { SettledAt(x.seats[r.client].state, r, i); }
    }
  }

  lemma {:induction false} RunMovesLedger(x: System, events: seq<Event>, c: nat, i: nat, owed: int, slack: nat)
    requires WellFormed(x) && Occurs(x, events) && c < |x.seats| && FirstHolding(x.seats[c].state.assets, i)
    requires Covered(x, c, i, owed, slack)
    ensures var y := Played(x, events);
            && WellFormed(y) && c < |y.seats|
            && Ledger(y, c, i) == Ledger(x, c, i) + Sum(Emitted(x, events), MovedFor(c, x.seats[c].state.assets[i]))
    decreases |events|
  {
    if events != [] {
      var x1 := After(x, events[0]);
      var owed1 := EventCovers(x, events[0], c, i, owed, slack);
      EventMovesLedger(x, events[0], c, i);
      RunMovesLedger(x1, events[1..], c, i, owed1, slack);
      SumConcat(EmittedBy(x, events[0]), Emitted(x1, events[1..]), MovedFor(c, x.seats[c].state.assets[i]));
    }
  }

  lemma {:induction false} BookedPosition(v: View<AccountStates.Account>, r: Stamped, j: nat)
    requires ShapedView(v) && j < MAX_POSITIONS
    ensures LedgerWriter.Booked(v, r).staged.funds.confirmed[j]
            == v.staged.funds.confirmed[j] + CatchUp.MovedFor(r.report.client, v.staged.assets[j])(r)
  {
    var p, a := r.report, v.staged.assets[j];
    assert CatchUp.MovedFor(p.client, a)(r) == MovedFor(p.client, a)(p);
    var w := AccountStates.Apply(v, AccountStates.Assets(p.boughtAsset, p.bought, 0, r.id));
    assert w.staged.assets == v.staged.assets;
    assert w.staged.funds.confirmed[j] == v.staged.funds.confirmed[j] + if a == p.boughtAsset then p.bought else 0;
  }

  lemma {:induction false} BookedAt(vs: Ledgers, rs: seq<Stamped>, c: nat, j: nat)
    requires LedgerWriter.ShapedViews(vs) && LedgerWriter.Known(rs, |vs|) && c < |vs| && j < MAX_POSITIONS
    ensures LedgerWriter.BookAll(vs, rs)[c].staged.funds.confirmed[j]
            == vs[c].staged.funds.confirmed[j] + Sum(rs, CatchUp.MovedFor(c, vs[c].staged.assets[j]))
  {
    if rs != [] {
      var n := |rs| - 1;
      BookedAt(vs, rs[..n], c, j);
      var ws, d := LedgerWriter.BookAll(vs, rs[..n]), rs[n].report.client;
      LedgerWriter.BookKeepsAssets(vs, rs[..n], c);
      BookedPosition(ws[d], rs[n], j);
      if d != c {
        assert CatchUp.MovedFor(c, vs[c].staged.assets[j])(rs[n]) == 0;
      }
      assert rs == rs[..n] + [rs[n]];
      SumConcat(rs[..n], [rs[n]], CatchUp.MovedFor(c, vs[c].staged.assets[j]));
      SumOne(rs[n], CatchUp.MovedFor(c, vs[c].staged.assets[j]));
    }
  }

  /** The id of a client's last report, or of what came before. */
  function LastStamp(rs: seq<Stamped>, c: nat, was: nat): nat {
    if rs == [] then was
    else
      var r := rs[|rs| - 1];
      if r.report.client == c then r.id else LastStamp(rs[..|rs| - 1], c, was)
  }

  lemma {:induction false} BookedAttempt(v: View<AccountStates.Account>, r: Stamped, j: nat)
    requires ShapedView(v) && j < MAX_POSITIONS
    ensures var w := LedgerWriter.Booked(v, r).staged;
            && w.assets == v.staged.assets && w.fields == v.staged.fields.(sequenceId := r.id)
            && w.funds.attempt[j]
               == v.staged.funds.attempt[j] + if r.report.soldAsset == v.staged.assets[j] then r.report.attempt else 0
  {
    var p := r.report;
    var w := AccountStates.Apply(v, AccountStates.Assets(p.boughtAsset, p.bought, 0, r.id));
    assert w.staged.assets == v.staged.assets && w.staged.funds.attempt[j] == v.staged.funds.attempt[j];
  }

  /** Attempts and the sequence id after booking a stream: the attempts of the client's reports that sell the
      position's asset, and the id of the client's last report. */
  lemma {:induction false} AttemptsBookedAt(vs: Ledgers, rs: seq<Stamped>, c: nat, j: nat)
    requires LedgerWriter.ShapedViews(vs) && LedgerWriter.Known(rs, |vs|) && c < |vs| && j < MAX_POSITIONS
    ensures var w := LedgerWriter.BookAll(vs, rs)[c].staged;
            && w.funds.attempt[j]
               == vs[c].staged.funds.attempt[j] + Sum(rs, CatchUp.LedgerAttempt(c, vs[c].staged.assets[j]))
            && w.fields == vs[c].staged.fields.(sequenceId := LastStamp(rs, c, vs[c].staged.fields.sequenceId))
  {
    if rs != [] {
      var n, f := |rs| - 1, CatchUp.LedgerAttempt(c, vs[c].staged.assets[j]);
      AttemptsBookedAt(vs, rs[..n], c, j);
      var ws, d := LedgerWriter.BookAll(vs, rs[..n]), rs[n].report.client;
      LedgerWriter.BookKeepsAssets(vs, rs[..n], c);
      BookedAttempt(ws[d], rs[n], j);
      assert rs == rs[..n] + [rs[n]];
      SumConcat(rs[..n], [rs[n]], f);
      SumOne(rs[n], f);
    }
  }

  /** What the account service shows of a client after any batches: confirmed balances, attempts and sequence id. */
  lemma {:induction false} ServiceShows(vs: Ledgers, batches: seq<seq<Stamped>>, c: nat, j: nat)
    requires LedgerWriter.ShapedViews(vs) && LedgerWriter.Settled(vs) && c < |vs| && j < MAX_POSITIONS
    requires forall k :: 0 <= k < |batches| ==> LedgerWriter.Known(batches[k], |vs|)
    ensures var rs, was := LedgerWriter.Flatten(batches), vs[c].visible;
            var now := LedgerWriter.HandleAll(vs, batches)[c].visible;
            && now.assets == was.assets
            && now.fields == was.fields.(sequenceId := LastStamp(rs, c, was.fields.sequenceId))
            && now.funds.confirmed[j] == was.funds.confirmed[j] + Sum(rs, CatchUp.MovedFor(c, was.assets[j]))
            && now.funds.attempt[j] == was.funds.attempt[j] + Sum(rs, CatchUp.LedgerAttempt(c, was.assets[j]))
  {
    var rs := LedgerWriter.Flatten(batches);
    LedgerWriter.BatchingIsIrrelevant(vs, batches);
    LedgerWriter.BookKeepsAssets(vs, rs, c);
    BookedAt(vs, rs, c, j);
    AttemptsBookedAt(vs, rs, c, j);
  }

  lemma {:induction false} StampsMoveFor(rs: seq<Stamped>, reports: seq<Report>, c: nat, a: nat)
    requires |rs| == |reports| && forall k :: 0 <= k < |rs| ==> rs[k].report == reports[k]
    ensures Sum(rs, CatchUp.MovedFor(c, a)) == Sum(reports, MovedFor(c, a))
  {
    if rs != [] { StampsMoveFor(rs[1..], reports[1..], c, a); }
  }

  /** However the emitted reports are batched: if the account's position starts at what the gateway's view and
      the reports under way say, it shows exactly that after every run, and never a negative balance. */
  lemma {:induction false} AccountNeverNegative(x: System, events: seq<Event>, c: nat, i: nat,
                                                vs: Ledgers, batches: seq<seq<Stamped>>, j: nat)
    requires WellFormed(x) && Occurs(x, events) && c < |x.seats| && FirstHolding(x.seats[c].state.assets, i)
    requires var s, committed := x.seats[c], Committed(x, c, x.seats[c].state.assets[i]);
             committed <= s.state.funds.confirmed[i] && committed <= s.state.funds.attempt[i] + s.local.attempt[i]
    requires LedgerWriter.ShapedViews(vs) && LedgerWriter.Settled(vs) && c < |vs| && j < MAX_POSITIONS
    requires forall k :: 0 <= k < |batches| ==> LedgerWriter.Known(batches[k], |vs|)
    requires vs[c].staged.assets[j] == x.seats[c].state.assets[i]
    requires vs[c].staged.funds.confirmed[j] == Ledger(x, c, i)
    requires var rs, reports := LedgerWriter.Flatten(batches), Emitted(x, events);
             |rs| == |reports| && forall k :: 0 <= k < |rs| ==> rs[k].report == reports[k]
    ensures var y := Played(x, events);
            && WellFormed(y) && c < |y.seats|
            && LedgerWriter.HandleAll(vs, batches)[c].visible.funds.confirmed[j] == Ledger(y, c, i) >= 0
  {
    var a, rs := x.seats[c].state.assets[i], LedgerWriter.Flatten(batches);
    NeverNegative(x, events, c, i);
    var owed, short := CoveredAtStart(x, c, i);
    RunMovesLedger(x, events, c, i, owed, short);
    LedgerWriter.BatchingIsIrrelevant(vs, batches);
    BookedAt(vs, rs, c, j);
    StampsMoveFor(rs, Emitted(x, events), c, a);
  }

  // ---------------------------------------------------------------- conservation over all engines

  lemma {:induction false} EventKeepsForm(x: System, e: Event)
    requires WellFormed(x) && Happens(x, e)
    ensures WellFormed(After(x, e))
  {
    if e.Process? { ProcessKeeps(x.desks[e.desk], e.eager); }
  }

  /** Whatever happens, on however many engines, the reports emitted sum to zero in every asset. */
  lemma {:induction false} EmittedConserves(x: System, events: seq<Event>, a: nat)
    requires WellFormed(x) && Occurs(x, events)
    ensures Settlement.AssetDelta(Emitted(x, events), a) == 0
    decreases |events|
  {
    if events != [] {
      var e, x1 := events[0], After(x, events[0]);
      EventKeepsForm(x, e);
      EmittedConserves(x1, events[1..], a);
      if e.Process? { Settlement.StepConserves(x.desks[e.desk].engine, x.desks[e.desk].inbox[0], e.eager, a); }
      SumConcat(EmittedBy(x, e), Emitted(x1, events[1..]), Settlement.MovedOf(a));
    }
  }

  /** However the reports of all engines over any run of the exchange are interleaved and batched, the visible
      ledger holds as much of every asset afterwards as before. */
  lemma {:induction false} ExchangeConserves(x: System, events: seq<Event>, vs: Ledgers, batches: seq<seq<Stamped>>,
                                             a: nat)
    requires WellFormed(x) && Occurs(x, events)
    requires LedgerWriter.ShapedViews(vs) && LedgerWriter.Settled(vs)
    requires forall k :: 0 <= k < |batches| ==> LedgerWriter.Known(batches[k], |vs|)
    requires var rs, reports := LedgerWriter.Flatten(batches), Emitted(x, events);
             |rs| == |reports| && forall k :: 0 <= k < |rs| ==> rs[k].report == reports[k]
    requires LedgerWriter.Known(LedgerWriter.Flatten(batches), |vs|)
    requires LedgerWriter.TradesHeld(vs, LedgerWriter.Flatten(batches))
    ensures LedgerWriter.Settled(LedgerWriter.HandleAll(vs, batches))
    ensures LedgerWriter.Total(LedgerWriter.HandleAll(vs, batches), a) == LedgerWriter.Total(vs, a)
  {
    EmittedConserves(x, events, a);
    LedgerWriter.BatchesConserve(vs, batches, Emitted(x, events), a);
  }
}
