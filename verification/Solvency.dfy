/** The whole exchange: a gateway that checks and reserves, one matching engine per asset, and reports that
    come back late. Every interleaving of submissions, matching and report deliveries within one session is a
    run of these steps. */
module Solvency {
  import opened Domain
  import opened Reference
  import opened Sums
  import opened Lifetime
  import opened Reserves
  import opened Funds
  import opened TripleBuffer
  import opened GatewayStates
  import opened RiskCheck

  /** An engine with the accepted orders it has not read and the reports the gateway has not applied. */
  datatype Desk = Desk(engine: Engine, inbox: seq<Order>, outbox: seq<Report>)

  /** A client's connection: the state its risk check reads and its reservations. */
  datatype Seat = Seat(state: ClientState, local: Local)

  datatype System = System(seats: seq<Seat>, desks: seq<Desk>)

  datatype Event =
    | Submit(fd: nat, desk: nat, order: Order, position: nat)
    | Process(desk: nat, eager: bool)
    | Deliver(desk: nat)

  /** Clients keep their connection, and no reservation belongs to another session. */
  predicate WellSeated(s: Seat, fd: nat) {
    && ShapedCopy(s.state) && ShapedLocal(s.local)
    && s.state.fields.clientId == fd && s.state.fields.sessionId == s.local.session
  }

  ghost predicate WellFormed(x: System) {
    && (forall c: nat {:trigger x.seats[c]} :: c < |x.seats| ==> WellSeated(x.seats[c], c))
    && (forall k: nat {:trigger x.desks[k]} :: k < |x.desks| ==> WellKept(x.desks[k]))
  }

  predicate WellKept(d: Desk) {
    && d.engine.asset != CASH && Decent(d.engine) && AllHonest(d.outbox)
    && (forall i :: 0 <= i < |d.inbox| ==> d.inbox[i].price >= 0)
  }

  /** An order is sent only when the risk check accepts it; a refused one changes nothing. */
  ghost predicate Happens(x: System, e: Event) {
    match e
    case Submit(fd, k, o, i) =>
      && fd < |x.seats| && k < |x.desks| && x.desks[k].engine.asset == o.asset && o.price >= 0
      && ShapedCopy(x.seats[fd].state) && ShapedLocal(x.seats[fd].local)
      && Affords(x.seats[fd].state, x.seats[fd].local, o, i)
    case Process(k, _) => k < |x.desks| && x.desks[k].inbox != []
    case Deliver(k) => k < |x.desks| && x.desks[k].outbox != []
                       && forall c: nat {:trigger x.seats[c]} :: c < |x.seats| ==> ShapedCopy(x.seats[c].state)
  }

  ghost function After(x: System, e: Event): System
    requires Happens(x, e)
  {
    match e
    case Submit(fd, k, o, i) =>
      var seat, d := x.seats[fd], x.desks[k];
      var l := Renewed(seat.state, seat.local);
      System(x.seats[fd := seat.(local := l.(attempt := l.attempt[i := l.attempt[i] + Reserve(o)]))],
             x.desks[k := d.(inbox := d.inbox + [o])])
    case Process(k, eager) =>
      x.(desks := x.desks[k := Processed(x.desks[k], eager)])
    case Deliver(k) =>
      var d := x.desks[k];
      var r := d.outbox[0];
      var desks := x.desks[k := d.(outbox := d.outbox[1..])];
      if r.client < |x.seats|
      then System(x.seats[r.client := x.seats[r.client].(state := Settled(x.seats[r.client].state, r))], desks)
      else x.(desks := desks)
  }

  // ---------------------------------------------------------------- committed funds

  /** Funds of client `c` in asset `a` that this desk has locked, may lock, or has taken without the gateway
      knowing yet. */
  function Commits(d: Desk, c: nat, a: nat): int {
    Held(d.engine, LockedBy(d.engine.asset, c, a)) + Sum(d.inbox, LockedBy(d.engine.asset, c, a))
    + Sum(d.outbox, TakenBy(c, a))
  }

  function CommitsOf(c: nat, a: nat): Desk -> int { (d: Desk) => Commits(d, c, a) }

  function Committed(x: System, c: nat, a: nat): int { Sum(x.desks, CommitsOf(c, a)) }

  lemma {:induction false} SubmitCommits(d: Desk, o: Order, c: nat, a: nat)
    ensures Commits(d.(inbox := d.inbox + [o]), c, a) == Commits(d, c, a) + LockedBy(d.engine.asset, c, a)(o)
  {
    SumConcat(d.inbox, [o], LockedBy(d.engine.asset, c, a));
    SumOne(o, LockedBy(d.engine.asset, c, a));
  }

  function Processed(d: Desk, eager: bool): Desk
    requires d.inbox != []
  {
    var out := Step(d.engine, d.inbox[0], eager);
    Desk(out.engine, d.inbox[1..], d.outbox + out.reports)
  }

  lemma {:induction false} ProcessKeeps(d: Desk, eager: bool)
    requires WellKept(d) && d.inbox != []
    ensures WellKept(Processed(d, eager))
  {
    StepKeepsAsset(d.engine, d.inbox[0], eager);
    StepKeepsDecent(d.engine, d.inbox[0], eager);
    StepHonest(d.engine, d.inbox[0], eager);
  }

  lemma {:induction false} ProcessCommits(d: Desk, eager: bool, c: nat, a: nat)
    requires WellKept(d) && d.inbox != []
    ensures Commits(Processed(d, eager), c, a) <= Commits(d, c, a)
  {
    var o := d.inbox[0];
    var rs := Step(d.engine, o, eager).reports;
    StepTakes(d.engine, o, eager, c, a);
    StepKeepsAsset(d.engine, o, eager);
    SumConcat(d.outbox, rs, TakenBy(c, a));
  }

  lemma {:induction false} DeliverCommits(d: Desk, c: nat, a: nat)
    requires d.outbox != []
    ensures Commits(d.(outbox := d.outbox[1..]), c, a) == Commits(d, c, a) - TakenBy(c, a)(d.outbox[0])
  {
  }

  lemma {:induction false} CommitsIsPositive(d: Desk, c: nat, a: nat)
    requires WellKept(d)
    ensures Commits(d, c, a) >= Sum(d.outbox, TakenBy(c, a)) >= 0
  {
    HeldIsPositive(d.engine, c, a);
    forall i | 0 <= i < |d.inbox| ensures LockedBy(d.engine.asset, c, a)(d.inbox[i]) >= 0 { ValueSigns(d.inbox[i]); }
    SumNonNegative(d.inbox, LockedBy(d.engine.asset, c, a));
    SumNonNegative(d.outbox, TakenBy(c, a));
  }

  // ---------------------------------------------------------------- the invariant

  /** `owed` is the client's attempt at position `i` without the positive amounts cancels have added to it.
      It covers every commitment with `slack` to spare, and the confirmed balance falls short of it, together
      with the local reservations, by at most that slack. */
  ghost predicate Covered(x: System, c: nat, i: nat, owed: int, slack: nat)
    requires WellFormed(x) && c < |x.seats| && i < MAX_POSITIONS
  {
    var s := x.seats[c];
    && owed <= s.state.funds.attempt[i]
    && Committed(x, c, s.state.assets[i]) + slack <= owed + s.local.attempt[i]
    && owed + s.local.attempt[i] - slack <= s.state.funds.confirmed[i]
  }

  /** How applying a report moves one position. */
  lemma {:induction false} SettledAt(s: ClientState, r: Report, i: nat)
    requires ShapedCopy(s) && i < MAX_POSITIONS
    ensures var t, a := Settled(s, r), s.assets[i];
            && t.assets == s.assets && t.fields == s.fields
            && t.funds.confirmed[i] == s.funds.confirmed[i] + (if r.boughtAsset == a then r.bought else 0)
                                       + (if r.soldAsset == a then r.sold else 0)
            && t.funds.attempt[i] == s.funds.attempt[i]
                                     + (if r.soldAsset == a && !r.state.Added? then r.attempt else 0)
  {
  }

  lemma {:induction false} SubmitCovers(x: System, e: Event, c: nat, i: nat, owed: int, slack: nat)
    requires WellFormed(x) && e.Submit? && Happens(x, e)
    requires c < |x.seats| && FirstHolding(x.seats[c].state.assets, i) && Covered(x, c, i, owed, slack)
    ensures WellFormed(After(x, e)) && Covered(After(x, e), c, i, owed, slack)
  {
    var a, d, o := x.seats[c].state.assets[i], x.desks[e.desk], e.order;
    var d' := d.(inbox := d.inbox + [o]);
    SubmitCommits(d, o, c, a);
    SumUpdate(x.desks, e.desk, d', CommitsOf(c, a));
    var f := LockedBy(d.engine.asset, c, a);
    if c == e.fd {
      assert o.client == c;
      var j := e.position;
      if a == PaysWith(o.side, o.asset) { OneFirst(x.seats[c].state.assets, i, j); }
      assert f(o) == if i == j then Reserve(o) else 0;
    } else {
      assert f(o) == 0;
    }
  }

  lemma {:induction false} ProcessCovers(x: System, e: Event, c: nat, i: nat, owed: int, slack: nat)
    requires WellFormed(x) && e.Process? && Happens(x, e)
    requires c < |x.seats| && i < MAX_POSITIONS && Covered(x, c, i, owed, slack)
    ensures WellFormed(After(x, e)) && Covered(After(x, e), c, i, owed, slack)
  {
    var a, d := x.seats[c].state.assets[i], x.desks[e.desk];
    ProcessKeeps(d, e.eager);
    ProcessCommits(d, e.eager, c, a);
    SumUpdate(x.desks, e.desk, Processed(d, e.eager), CommitsOf(c, a));
  }

  lemma {:induction false} DeliverCovers(x: System, e: Event, c: nat, i: nat, owed: int, slack: nat)
    returns (owed': int)
    requires WellFormed(x) && e.Deliver? && Happens(x, e)
    requires c < |x.seats| && i < MAX_POSITIONS && Covered(x, c, i, owed, slack)
    ensures WellFormed(After(x, e)) && Covered(After(x, e), c, i, owed', slack)
  {
    var a, d := x.seats[c].state.assets[i], x.desks[e.desk];
    var r := d.outbox[0];
    owed' := owed - TakenBy(c, a)(r);
    assert Honest(r);
    assert Committed(After(x, e), c, a) == Committed(x, c, a) - TakenBy(c, a)(r) by {
      DeliverCommits(d, c, a);
      SumUpdate(x.desks, e.desk, d.(outbox := d.outbox[1..]), CommitsOf(c, a));
    }
    if r.client < |x.seats| { SettledAt(x.seats[r.client].state, r, i); }
  }

  lemma {:induction false} EventCovers(x: System, e: Event, c: nat, i: nat, owed: int, slack: nat)
    returns (owed': int)
    requires WellFormed(x) && Happens(x, e)
    requires c < |x.seats| && FirstHolding(x.seats[c].state.assets, i) && Covered(x, c, i, owed, slack)
    ensures WellFormed(After(x, e)) && |After(x, e).seats| == |x.seats|
    ensures After(x, e).seats[c].state.assets == x.seats[c].state.assets
    ensures Covered(After(x, e), c, i, owed', slack)
  {
    owed' := owed;
    match e {
      case Submit(_, _, _, _) => SubmitCovers(x, e, c, i, owed, slack);
      case Process(_, _) => ProcessCovers(x, e, c, i, owed, slack);
      case Deliver(_) => owed' := DeliverCovers(x, e, c, i, owed, slack);
    }
  }

  // ---------------------------------------------------------------- every run

  ghost predicate Occurs(x: System, events: seq<Event>)
    decreases |events|
  {
    events != [] ==> Happens(x, events[0]) && Occurs(After(x, events[0]), events[1..])
  }

  ghost function Played(x: System, events: seq<Event>): System
    requires Occurs(x, events)
    decreases |events|
  {
    if events == [] then x else Played(After(x, events[0]), events[1..])
  }

  lemma {:induction false} RunCovers(x: System, events: seq<Event>, c: nat, i: nat, owed: int, slack: nat)
    returns (owed': int)
    requires WellFormed(x) && Occurs(x, events)
    requires c < |x.seats| && FirstHolding(x.seats[c].state.assets, i) && Covered(x, c, i, owed, slack)
    ensures var y := Played(x, events);
            && WellFormed(y) && |y.seats| == |x.seats| && y.seats[c].state.assets == x.seats[c].state.assets
            && Covered(y, c, i, owed', slack)
    decreases |events|
  {
    if events == [] {
      owed' := owed;
    } else {
      var o1 := EventCovers(x, events[0], c, i, owed, slack);
      owed' := RunCovers(After(x, events[0]), events[1..], c, i, o1, slack);
    }
  }

  function MovedFor(c: nat, a: nat): Report -> int {
    (r: Report) => if r.client != c then 0
                   else (if r.boughtAsset == a then r.bought else 0) + (if r.soldAsset == a then r.sold else 0)
  }

  function PendingOf(c: nat, a: nat): Desk -> int { (d: Desk) => Sum(d.outbox, MovedFor(c, a)) }

  /** What the account ledger says of a client's asset: the gateway's view plus the reports still under way. */
  function Ledger(x: System, c: nat, i: nat): int
    requires c < |x.seats| && ShapedCopy(x.seats[c].state) && i < MAX_POSITIONS
  {
    x.seats[c].state.funds.confirmed[i] + Sum(x.desks, PendingOf(c, x.seats[c].state.assets[i]))
  }

  lemma {:induction false} PendingCosts(rs: seq<Report>, c: nat, a: nat)
    requires AllHonest(rs)
    ensures Sum(rs, MovedFor(c, a)) >= -Sum(rs, TakenBy(c, a))
  {
    if rs != [] {
      assert Honest(rs[0]);
      assert MovedFor(c, a)(rs[0]) >= -TakenBy(c, a)(rs[0]);
      PendingCosts(rs[1..], c, a);
    }
  }

  lemma {:induction false} DesksCover(desks: seq<Desk>, c: nat, a: nat)
    requires forall k :: 0 <= k < |desks| ==> WellKept(desks[k])
    ensures Sum(desks, PendingOf(c, a)) + Sum(desks, CommitsOf(c, a)) >= 0
    ensures Sum(desks, CommitsOf(c, a)) >= 0
  {
    if desks != [] {
      CommitsIsPositive(desks[0], c, a);
      PendingCosts(desks[0].outbox, c, a);
      DesksCover(desks[1..], c, a);
    }
  }

  lemma {:induction false} CoveredAtStart(x: System, c: nat, i: nat) returns (owed: int, slack: nat)
    requires WellFormed(x) && c < |x.seats| && i < MAX_POSITIONS
    requires var s, committed := x.seats[c], Committed(x, c, x.seats[c].state.assets[i]);
             committed <= s.state.funds.confirmed[i] && committed <= s.state.funds.attempt[i] + s.local.attempt[i]
    ensures Covered(x, c, i, owed, slack)
  {
    var s := x.seats[c];
    var promised := s.state.funds.attempt[i] + s.local.attempt[i];
    owed := s.state.funds.attempt[i];
    slack := if promised > s.state.funds.confirmed[i] then promised - s.state.funds.confirmed[i] else 0;
  }

  /** Whatever clients submit and however late reports arrive: if at the start the confirmed balance and the
      attempts cover what is already committed, then ever after the visible confirmed balance covers all
      commitments, and neither it nor the ledger's balance is negative. */
  lemma {:induction false} NeverNegative(x: System, events: seq<Event>, c: nat, i: nat)
    requires WellFormed(x) && Occurs(x, events) && c < |x.seats| && FirstHolding(x.seats[c].state.assets, i)
    requires var s, committed := x.seats[c], Committed(x, c, x.seats[c].state.assets[i]);
             committed <= s.state.funds.confirmed[i] && committed <= s.state.funds.attempt[i] + s.local.attempt[i]
    ensures var y := Played(x, events);
            && WellFormed(y) && c < |y.seats| && y.seats[c].state.assets == x.seats[c].state.assets
            && 0 <= Committed(y, c, x.seats[c].state.assets[i]) <= y.seats[c].state.funds.confirmed[i]
            && 0 <= Ledger(y, c, i)
  {
    var owed, short := CoveredAtStart(x, c, i);
    owed := RunCovers(x, events, c, i, owed, short);
    DesksCover(Played(x, events).desks, c, x.seats[c].state.assets[i]);
  }

  /** No engine has anything resting, unread or unreported. */
  predicate Idle(x: System) {
    forall k :: 0 <= k < |x.desks| ==>
      && x.desks[k].inbox == [] && x.desks[k].outbox == []
      && x.desks[k].engine.bids == [] && x.desks[k].engine.asks == []
  }

  /** A fresh session: nothing committed, neither the balance nor the attempts together negative. */
  lemma {:induction false} FreshSessionIsSolvent(x: System, events: seq<Event>, c: nat, i: nat)
    requires WellFormed(x) && Occurs(x, events) && c < |x.seats| && FirstHolding(x.seats[c].state.assets, i) && Idle(x)
    requires x.seats[c].state.funds.confirmed[i] >= 0
    requires x.seats[c].state.funds.attempt[i] + x.seats[c].local.attempt[i] >= 0
    ensures var y := Played(x, events);
            && WellFormed(y) && c < |y.seats|
            && y.seats[c].state.funds.confirmed[i] >= 0 && Ledger(y, c, i) >= 0
  {
    SumZero(x.desks, CommitsOf(c, x.seats[c].state.assets[i]));
    NeverNegative(x, events, c, i);
  }
}
