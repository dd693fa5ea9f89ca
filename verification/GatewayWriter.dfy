/** The gateway's writer: applies reports to the client states, remembers them in the ring, and loads account
    snapshots at login. */
module GatewayWriter {
  import opened Domain
  import opened Sums
  import opened Funds
  import opened TripleBuffer
  import opened GatewayStates
  import opened CatchUp

  // ---------------------------------------------------------------- what a batch does to each client

  /** The reports of the client connected as `fd`. */
  function Mine(fds: map<nat, nat>, rs: seq<Stamped>, fd: nat): seq<Report> {
    if rs == [] then []
    else
      var n := |rs| - 1;
      var c := rs[n].report.client;
      Mine(fds, rs[..n], fd) + (if c in fds && fds[c] == fd then [rs[n].report] else [])
  }

  function AppliedAll(v: View<Login>, reports: seq<Report>): (w: View<Login>)
    requires ShapedView(v)
    ensures ShapedView(w) && w.visible == v.visible
  {
    if reports == [] then v else Applied(AppliedAll(v, reports[..|reports| - 1]), reports[|reports| - 1])
  }

  predicate ShapedViews(vs: seq<View<Login>>) { forall c :: 0 <= c < |vs| ==> ShapedView(vs[c]) }

  ghost function Staged(vs: seq<View<Login>>, fds: map<nat, nat>, rs: seq<Stamped>): (ws: seq<View<Login>>)
    requires ShapedViews(vs)
    ensures |ws| == |vs| && ShapedViews(ws)
  {
    seq(|vs|, fd requires 0 <= fd < |vs| => AppliedAll(vs[fd], Mine(fds, rs, fd)))
  }

  /** The connections with a report in `rs`. */
  function Reached(fds: map<nat, nat>, rs: seq<Stamped>): set<nat> {
    if rs == [] then {}
    else
      var n := |rs| - 1;
      var c := rs[n].report.client;
      Reached(fds, rs[..n]) + (if c in fds then {fds[c]} else {})
  }

  lemma {:induction false} ReachedHaveReports(fds: map<nat, nat>, rs: seq<Stamped>, fd: nat)
    ensures fd in Reached(fds, rs) <==> Mine(fds, rs, fd) != []
  {
    if rs != [] { ReachedHaveReports(fds, rs[..|rs| - 1], fd); }
  }

  /** The given connections are flushed, the others are not. */
  ghost function Shown(vs: seq<View<Login>>, fds: set<nat>): (ws: seq<View<Login>>)
    requires ShapedViews(vs)
    ensures |ws| == |vs| && ShapedViews(ws)
  {
    seq(|vs|, fd requires 0 <= fd < |vs| => if fd in fds then Apply(vs[fd], Flush) else vs[fd])
  }

  lemma {:induction false} ShownMore(vs: seq<View<Login>>, fds: set<nat>, fd: nat)
    requires ShapedViews(vs) && fd < |vs| && fd !in fds
    ensures var v := Shown(vs, fds)[fd]; Shown(vs, fds + {fd}) == Shown(vs, fds)[fd := View(v.staged, v.staged)]
  {
  }

  function RecordAll(ring: seq<Stamped>, rs: seq<Stamped>): (r: seq<Stamped>)
    requires |ring| == RING
    ensures |r| == RING
  {
    if rs == [] then ring else Recorded(RecordAll(ring, rs[..|rs| - 1]), rs[|rs| - 1])
  }

  lemma {:induction false} RecordAllHolds(ring: seq<Stamped>, log: seq<Stamped>, first: nat, rs: seq<Stamped>)
    requires RingHolds(ring, log, first) && Consecutive(rs, first + |log|)
    ensures RingHolds(RecordAll(ring, rs), log + rs, first)
  {
    if rs == [] {
      assert log + rs == log;
    } else {
      var n := |rs| - 1;
      RecordAllHolds(ring, log, first, rs[..n]);
      assert rs[n].id == first + |log| + n;
      RecordHolds(RecordAll(ring, rs[..n]), log + rs[..n], first, rs[n]);
      assert log + rs == (log + rs[..n]) + [rs[n]];
    }
  }

  lemma {:induction false} NoneStaged(vs: seq<View<Login>>, fds: map<nat, nat>)
    requires ShapedViews(vs)
    ensures Staged(vs, fds, []) == vs
  {
  }

  lemma {:induction false} StagedOne(vs: seq<View<Login>>, fds: map<nat, nat>, rs: seq<Stamped>, i: nat)
    requires ShapedViews(vs) && i < |rs|
    ensures var c := rs[i].report.client;
            var ws := Staged(vs, fds, rs[..i]);
            Staged(vs, fds, rs[..i + 1])
            == if c in fds && fds[c] < |vs| then ws[fds[c] := Applied(ws[fds[c]], rs[i].report)] else ws
  {
    assert rs[..i + 1][..i] == rs[..i];
    var ws, ws' := Staged(vs, fds, rs[..i]), Staged(vs, fds, rs[..i + 1]);
    forall fd | 0 <= fd < |vs|
      ensures var c := rs[i].report.client;
              ws'[fd] == if c in fds && fds[c] == fd then Applied(ws[fd], rs[i].report) else ws[fd]
    {
      var mine := Mine(fds, rs[..i], fd);
      assert (mine + [rs[i].report])[..|mine|] == mine;
      assert mine + [] == mine;
    }
  }

  // ---------------------------------------------------------------- batches and single reports agree

  function SettledAll(s: ClientState, reports: seq<Report>): (t: ClientState)
    requires ShapedCopy(s)
    ensures ShapedCopy(t)
  {
    if reports == [] then s else Settled(SettledAll(s, reports[..|reports| - 1]), reports[|reports| - 1])
  }

  /** One flush after a whole batch shows what a flush after each report would have shown. */
  lemma {:induction false} BatchIsOneByOne(s: ClientState, reports: seq<Report>)
    requires ShapedCopy(s)
    ensures Apply(AppliedAll(View(s, s), reports), Flush).visible == SettledAll(s, reports)
  {
    if reports != [] { BatchIsOneByOne(s, reports[..|reports| - 1]); }
  }

  lemma {:induction false} ShowOne(vs: seq<View<Login>>, fd: nat, w: View<Login>)
    requires fd < |vs| && ShapedView(w)
    ensures vs[fd := w][fd := View(w.staged, w.staged)] == vs[fd := Apply(w, Flush)]
  {
  }

  // ---------------------------------------------------------------- the writer

  method LoadAndShow(states: ClientStates<Login>, response: Snapshot)
    requires states.Valid() && ShapedSnapshot(response) && response.clientFd < |states.complete|
    modifies states
    ensures states.Valid() && |states.complete| == old(|states.complete|)
    ensures var v := old(states.Views()[response.clientFd]);
            states.Views() == old(states.Views())[response.clientFd := Apply(Apply(v, Load(response)), Flush)]
  {
    SetClientState(states, response);
    states.FlushTripleBuffer(response.clientFd);
  }

  class ClientStatesWriter {
    const states: ClientStates<Login>
    var clientsFd: map<nat, nat>
    var touched: set<nat>
    var updates: seq<Stamped>
    var lastSeq: nat

    ghost predicate Valid()
      reads this, states
    {
      && states.Valid() && |updates| == RING && touched == {}
      && forall c :: c in clientsFd ==> clientsFd[c] < |states.complete|
    }

    /** Slot `i` of the ring starts with an id that does not belong there. */
    constructor (states: ClientStates<Login>, blank: Report)
      requires states.Valid()
      ensures this.states == states && Valid() && clientsFd == map[] && lastSeq == 0
      ensures forall first: nat :: RingHolds(updates, [], first)
    {
      this.states := states;
      clientsFd, touched, lastSeq := map[], {}, 0;
      updates := seq(RING, i requires 0 <= i < RING => Stamped(i + 1, blank));
    }

    /** Remembers a report and stages it for its client, if connected here. */
    method Take(r: Stamped)
      requires Valid()
      modifies this`lastSeq, this`updates, states
      ensures Valid() && |states.complete| == old(|states.complete|)
      ensures lastSeq == r.id && updates == Recorded(old(updates), r)
      ensures var c := r.report.client;
              states.Views()
              == if c in clientsFd
                 then old(states.Views())[clientsFd[c] := Applied(old(states.Views()[clientsFd[c]]), r.report)]
                 else old(states.Views())
    {
      lastSeq := r.id;
      updates := updates[r.id % RING := r];
      var p := r.report;
      if p.client in clientsFd {
        var fd := clientsFd[p.client];
        SetClientAssets(states, fd, p.bought, 0, p.boughtAsset);
        SetClientAssets(states, fd, p.sold, if p.state.Added? then 0 else p.attempt, p.soldAsset);
      }
    }

    /** A single report: staged and shown at once. */
    method HandleReport(r: Stamped)
      requires Valid()
      modifies this`lastSeq, this`updates, states
      ensures Valid() && |states.complete| == old(|states.complete|)
      ensures lastSeq == r.id && updates == Recorded(old(updates), r)
      ensures var c := r.report.client;
              states.Views()
              == if c in clientsFd
                 then old(states.Views())[clientsFd[c] :=
                        Apply(Applied(old(states.Views()[clientsFd[c]]), r.report), Flush)]
                 else old(states.Views())
    {
      ghost var vs := states.Views();
      Take(r);
      if r.report.client in clientsFd {
        var fd := clientsFd[r.report.client];
        ShowOne(vs, fd, Applied(vs[fd], r.report));
        states.FlushTripleBuffer(fd);
      }
    }

    /** A batch: all reports are staged and remembered in order, then each connected client is shown once. */
    method HandleBatch(rs: seq<Stamped>)
      requires Valid()
      modifies this`lastSeq, this`updates, this`touched, states
      ensures Valid() && |states.complete| == old(|states.complete|)
      ensures updates == RecordAll(old(updates), rs)
      ensures lastSeq == if rs == [] then old(lastSeq) else rs[|rs| - 1].id
      ensures states.Views() == Shown(Staged(old(states.Views()), clientsFd, rs), Reached(clientsFd, rs))
    {
      TakeAll(rs);
      FlushClients(rs);
      touched := {};
    }

    method TakeAll(rs: seq<Stamped>)
      requires Valid()
      modifies this`lastSeq, this`updates, states
      ensures Valid() && |states.complete| == old(|states.complete|)
      ensures updates == RecordAll(old(updates), rs)
      ensures lastSeq == if rs == [] then old(lastSeq) else rs[|rs| - 1].id
      ensures states.Views() == Staged(old(states.Views()), clientsFd, rs)
    {
      ghost var vs, ring := states.Views(), updates;
      NoneStaged(vs, clientsFd);
      for i := 0 to |rs|
        invariant Valid() && |states.complete| == old(|states.complete|)
        invariant updates == RecordAll(ring, rs[..i])
        invariant lastSeq == if i == 0 then old(lastSeq) else rs[i - 1].id
        invariant states.Views() == Staged(vs, clientsFd, rs[..i])
      {
        TakeNext(rs, i, vs, ring);
      }
      assert rs[..|rs|] == rs;
    }

    /** One more report of the batch. */
    method TakeNext(rs: seq<Stamped>, i: nat, ghost vs: seq<View<Login>>, ghost ring: seq<Stamped>)
      requires Valid() && i < |rs| && |ring| == RING && ShapedViews(vs) && |vs| == |states.complete|
      requires updates == RecordAll(ring, rs[..i]) && states.Views() == Staged(vs, clientsFd, rs[..i])
      modifies this`lastSeq, this`updates, states
      ensures Valid() && |states.complete| == old(|states.complete|) && lastSeq == rs[i].id
      ensures updates == RecordAll(ring, rs[..i + 1]) && states.Views() == Staged(vs, clientsFd, rs[..i + 1])
    {
      assert rs[i].report.client in clientsFd ==> clientsFd[rs[i].report.client] < |vs|;
      Take(rs[i]);
      assert states.Views() == Staged(vs, clientsFd, rs[..i + 1]) by { StagedOne(vs, clientsFd, rs, i); }
      assert updates == RecordAll(ring, rs[..i + 1]) by { assert rs[..i + 1][..i] == rs[..i]; }
    }

    method FlushClients(rs: seq<Stamped>)
      requires Valid()
      modifies this`touched, states
      ensures states.Valid() && |states.complete| == old(|states.complete|)
      ensures states.Views() == Shown(old(states.Views()), Reached(clientsFd, rs))
    {
      ghost var vs := states.Views();
      assert Shown(vs, {}) == vs;
      for i := 0 to |rs|
        invariant states.Valid() && |states.complete| == old(|states.complete|)
        invariant touched == Reached(clientsFd, rs[..i])
        invariant states.Views() == Shown(vs, touched)
      {
        assert rs[..i + 1][..i] == rs[..i];
        var c := rs[i].report.client;
        if c in clientsFd && clientsFd[c] !in touched {
          ShownMore(vs, touched, clientsFd[c]);
          states.FlushTripleBuffer(clientsFd[c]);
          touched := touched + {clientsFd[c]};
        }
      }
      assert rs[..|rs|] == rs;
    }

    /** A login response: dropped if its sequence id is no longer in the ring, otherwise brought up to date by
        replay, loaded and shown, and the client is connected. */
    method HandleResponse(response: Snapshot, ghost log: seq<Stamped>, ghost first: nat)
      requires Valid() && RingHolds(updates, log, first) && lastSeq == Last(log)
      requires ShapedSnapshot(response) && response.clientFd < |states.complete|
      modifies this`clientsFd, states
      ensures Valid() && |states.complete| == old(|states.complete|)
      ensures !Fresh(updates, lastSeq, response.sequenceId) ==>
                states.Views() == old(states.Views()) && clientsFd == old(clientsFd)
      ensures Fresh(updates, lastSeq, response.sequenceId) ==>
                var v := old(states.Views()[response.clientFd]);
                && states.Views()
                   == old(states.Views())[response.clientFd := LoggedIn(v, log, response)]
                && clientsFd == Connected(old(clientsFd), v.visible.fields.clientId, response)
      ensures Fresh(updates, lastSeq, response.sequenceId) ==>
                var c, fd, was := response.clientId, response.clientFd,
                                  old(states.Views()[response.clientFd].visible.fields.clientId);
                && c in clientsFd && clientsFd[c] == (if c in old(clientsFd) then old(clientsFd)[c] else fd)
                && (was != c ==> was !in clientsFd)
                && forall d: nat :: d != c && d != was ==>
                     && (d in clientsFd <==> d in old(clientsFd))
                     && (d in clientsFd ==> clientsFd[d] == old(clientsFd)[d])
    {
      if updates[response.sequenceId % RING].id != response.sequenceId && response.sequenceId != lastSeq {
        return;
      }
      var updated := ReplayRing(updates, lastSeq, response, log, first);
      Connect(updated);
    }

    /** Loads and shows a snapshot and connects its client. */
    method Connect(response: Snapshot)
      requires Valid() && ShapedSnapshot(response) && response.clientFd < |states.complete|
      modifies this`clientsFd, states
      ensures Valid() && |states.complete| == old(|states.complete|)
      ensures var v := old(states.Views()[response.clientFd]);
              && states.Views() == old(states.Views())[response.clientFd := Apply(Apply(v, Load(response)), Flush)]
              && clientsFd == Connected(old(clientsFd), v.visible.fields.clientId, response)
    {
      var current := states.GetClientState(response.clientFd);
      var fds := clientsFd;
      if current.fields.clientId != response.clientId {
        fds := fds - {current.fields.clientId};
        fds := AddNode(fds, response.clientId, response.clientFd);
      }
      LoadAndShow(states, response);
      clientsFd := AddNode(fds, response.clientId, response.clientFd);
    }

    /** A disconnect takes the client's authorisation away in the next version shown. */
    method HandleDisconnect(fd: nat)
      requires Valid() && fd < |states.complete|
      modifies states
      ensures Valid() && |states.complete| == old(|states.complete|)
      ensures states.Views() == old(states.Views())[fd := Apply(Apply(old(states.Views()[fd]), Auth(false)), Flush)]
    {
      SetAuthStatus(states, fd, 0);
      states.FlushTripleBuffer(fd);
    }
  }

  /** A snapshot brought up to date, loaded and shown. */
  function LoggedIn(v: View<Login>, log: seq<Stamped>, s: Snapshot): View<Login>
    requires ShapedView(v) && ShapedSnapshot(s)
  {
    Apply(Apply(v, Load(Replayed(s, After(log, s.sequenceId)))), Flush)
  }

  /** Inserting an id that is already there changes nothing. */
  function AddNode(fds: map<nat, nat>, client: nat, fd: nat): map<nat, nat> {
    if client in fds then fds else fds[client := fd]
  }

  function Connected(fds: map<nat, nat>, current: nat, s: Snapshot): map<nat, nat> {
    AddNode(if current == s.clientId then fds else fds - {current}, s.clientId, s.clientFd)
  }

  /** After a login that passes the test, the visible confirmed balances are the ledger's after the latest report
      if, and only if, the snapshot's are the ledger's after the report it is stamped with. */
  lemma {:induction false} LoginShowsLedger(v: View<Login>, ring: seq<Stamped>, log: seq<Stamped>, first: nat,
                                            s: Snapshot, start: seq<int>)
    requires ShapedView(v) && RingHolds(ring, log, first) && ShapedSnapshot(s) && |start| == MAX_POSITIONS
    requires Fresh(ring, Last(log), s.sequenceId) && Distinct(log)
    ensures var t := LoggedIn(v, log, s).visible;
            && t.fields.clientId == s.clientId && t.fields.auth && t.assets == s.assets
            && (forall i :: 0 <= i < MAX_POSITIONS ==>
                  t.funds.attempt[i]
                  == s.funds.attempt[i] + Sum(After(log, s.sequenceId), ReplayAttempt(s.clientId, s.assets[i])))
            && forall i :: 0 <= i < MAX_POSITIONS ==>
                 var f := MovedFor(s.clientId, s.assets[i]);
                 t.funds.confirmed[i] == start[i] + Sum(log, f)
                 <==> s.funds.confirmed[i] == start[i] + Sum(UpTo(log, s.sequenceId), f)
  {
    forall i | 0 <= i < MAX_POSITIONS
      ensures var f := MovedFor(s.clientId, s.assets[i]);
              Replayed(s, After(log, s.sequenceId)).funds.confirmed[i] == start[i] + Sum(log, f)
              <==> s.funds.confirmed[i] == start[i] + Sum(UpTo(log, s.sequenceId), f)
    {
      CatchUpIsLedger(ring, log, first, s, start[i], i);
    }
    forall i | 0 <= i < MAX_POSITIONS
      ensures Replayed(s, After(log, s.sequenceId)).funds.attempt[i]
              == s.funds.attempt[i] + Sum(After(log, s.sequenceId), ReplayAttempt(s.clientId, s.assets[i]))
    {
      ReplayedAttempt(s, After(log, s.sequenceId), i);
    }
  }

  /** A login of a client that is not connected, and a report of that client handled next: the report is shown on
      the connection of the login, on top of what the login showed there, and on no other. */
  method LoginThenReport(w: ClientStatesWriter, response: Snapshot, r: Stamped, ghost log: seq<Stamped>,
                         ghost first: nat)
    requires w.Valid() && RingHolds(w.updates, log, first) && w.lastSeq == Last(log)
    requires ShapedSnapshot(response) && response.clientFd < |w.states.complete|
    requires Fresh(w.updates, w.lastSeq, response.sequenceId)
    requires response.clientId !in w.clientsFd && r.report.client == response.clientId
    modifies w, w.states
    ensures w.Valid() && |w.states.complete| == old(|w.states.complete|)
    ensures var fd := response.clientFd;
            && w.states.Views()[fd]
               == Apply(Applied(LoggedIn(old(w.states.Views()[fd]), log, response), r.report), Flush)
            && forall k :: 0 <= k < |w.states.complete| && k != fd ==> w.states.Views()[k] == old(w.states.Views()[k])
  {
    w.HandleResponse(response, log, first);
    w.HandleReport(r);
  }
}
