/** A login from end to end: the account service answers with what its ledger shows, stamped 0, and the gateway
    brings the answer up to date out of its own ring. */
module Logins {
  import opened Domain
  import opened Sums
  import opened Funds
  import opened TripleBuffer
  import opened GatewayStates
  import opened CatchUp
  import opened GatewayWriter
  import AccountStates
  import LedgerWriter
  import LedgerSolvency

  /** The gateway that may ask for any client. */
  const ANY_GATEWAY: int := 10

  datatype Status = Accepted | WrongCredentials | Refused

  /** The answer to a login request. A refusal carries no balances, and either kind is stamped 0. The gateway does
      not look at the status, which is therefore not part of it. */
  function Answer(c: nat, fd: nat, state: Copy<AccountStates.Account>, status: Status): (s: Snapshot)
    requires ShapedCopy(state)
    ensures ShapedSnapshot(s) && s.sequenceId == 0 && s.clientId == c && s.clientFd == fd
  {
    if status.Accepted? then Snapshot(0, c, fd, state.assets, state.funds)
    else Snapshot(0, c, fd, seq(MAX_POSITIONS, _ => 0), Zero())
  }

  /** CheckKey: the stored bytes are the hash's. */
  method CheckKey(a: AccountStates.Account, keyHash: seq<nat>) returns (ok: bool)
    requires |a.key| == |keyHash|
    ensures ok <==> a.key == keyHash
  {
    for i := 0 to |keyHash|
      invariant a.key[..i] == keyHash[..i]
    {
      if keyHash[i] != a.key[i] { return false; }
    }
    assert a.key[..|keyHash|] == a.key && keyHash[..|keyHash|] == keyHash;
    ok := true;
  }

  /** One login request: accepted exactly with the right key and from the client's own gateway or the one that may
      ask for any; a wrong gateway is told so whatever the key. */
  method ProcessRequest(state: Copy<AccountStates.Account>, c: nat, fd: nat, gateway: int, keyHash: seq<nat>)
    returns (status: Status, s: Snapshot)
    requires ShapedCopy(state) && |state.fields.key| == |keyHash|
    ensures status.Refused? <==> state.fields.authorized != gateway && gateway != 10
    ensures status.Accepted? <==> (state.fields.authorized == gateway || gateway == 10) && state.fields.key == keyHash
    ensures s == Answer(c, fd, state, status)
    ensures status.Accepted? ==> s.assets == state.assets && s.funds == state.funds
    ensures !status.Accepted? ==>
              forall i :: 0 <= i < MAX_POSITIONS ==>
                s.assets[i] == CASH && s.funds.confirmed[i] == 0 && s.funds.attempt[i] == 0
  {
    var keyMatches := CheckKey(state.fields, keyHash);
    if state.fields.authorized != gateway && gateway != ANY_GATEWAY {
      status := Refused;
    } else if !keyMatches {
      status := WrongCredentials;
    } else {
      status := Accepted;
    }
    s := Answer(c, fd, state, status);
  }

  /** What the service shows of a client after any batches, and what it will have booked after the whole log. */
  lemma {:induction false} ShownByService(vs: LedgerSolvency.Ledgers, batches: seq<seq<Stamped>>, log: seq<Stamped>,
                                          c: nat, j: nat)
    requires LedgerWriter.ShapedViews(vs) && LedgerWriter.Settled(vs) && LedgerWriter.Known(log, |vs|)
    requires forall k :: 0 <= k < |batches| ==> LedgerWriter.Known(batches[k], |vs|)
    requires LedgerWriter.Flatten(batches) <= log && c < |vs| && j < MAX_POSITIONS
    ensures var n, shown := |LedgerWriter.Flatten(batches)|, LedgerWriter.HandleAll(vs, batches)[c].visible;
            var f := MovedFor(c, vs[c].staged.assets[j]);
            && shown.assets == vs[c].staged.assets
            && shown.funds.confirmed[j] == vs[c].staged.funds.confirmed[j] + Sum(log[..n], f)
            && LedgerWriter.BookAll(vs, log)[c].staged.funds.confirmed[j]
               == vs[c].staged.funds.confirmed[j] + Sum(log, f)
  {
    var rs := LedgerWriter.Flatten(batches);
    assert log[..|rs|] == rs;
    LedgerWriter.BatchingIsIrrelevant(vs, batches);
    LedgerWriter.BookKeepsAssets(vs, rs, c);
    LedgerSolvency.BookedAt(vs, rs, c, j);
    LedgerSolvency.BookedAt(vs, log, c, j);
  }

  /** A client whose account service has booked any part of the log, in any batches, logs in while the whole log
      is in the gateway's ring. Each position then shows what the service will have once it has booked the log if,
      and only if, the reports taken twice or not at all do not move it. */
  lemma {:induction false} LoginFromService(vs: LedgerSolvency.Ledgers, batches: seq<seq<Stamped>>, log: seq<Stamped>,
                                            ring: seq<Stamped>, v: View<Login>, c: nat, fd: nat, j: nat)
    requires LedgerWriter.ShapedViews(vs) && LedgerWriter.Settled(vs) && LedgerWriter.Known(log, |vs|)
    requires forall k :: 0 <= k < |batches| ==> LedgerWriter.Known(batches[k], |vs|)
    requires LedgerWriter.Flatten(batches) <= log && c < |vs| && j < MAX_POSITIONS
    requires RingHolds(ring, log, 0) && |log| <= RING && Distinct(log) && ShapedView(v)
    ensures Fresh(ring, Last(log), 0)
    ensures var n, shown := |LedgerWriter.Flatten(batches)|, LedgerWriter.HandleAll(vs, batches)[c].visible;
            LoggedIn(v, log, Answer(c, fd, shown, Accepted)).visible.funds.confirmed[j]
            == LedgerWriter.BookAll(vs, log)[c].staged.funds.confirmed[j]
            <==> Unharmed(log, n, MovedFor(c, vs[c].staged.assets[j]))
  {
    var n, shown := |LedgerWriter.Flatten(batches)|, LedgerWriter.HandleAll(vs, batches)[c].visible;
    ShownByService(vs, batches, log, c, j);
    ZeroStampPassesIff(ring, log, 0);
    ZeroStampIsLedgerIff(ring, log, n, Answer(c, fd, shown, Accepted), vs[c].staged.funds.confirmed[j], j);
  }

  /** The attempts of that login: what the service had booked of the sold positions' attempts, plus what the reports
      after report 0 sold. */
  lemma {:induction false} AttemptsFromService(vs: LedgerSolvency.Ledgers, batches: seq<seq<Stamped>>,
                                               log: seq<Stamped>, v: View<Login>, c: nat, fd: nat, j: nat)
    requires LedgerWriter.ShapedViews(vs) && LedgerWriter.Settled(vs) && c < |vs| && j < MAX_POSITIONS && ShapedView(v)
    requires forall k :: 0 <= k < |batches| ==> LedgerWriter.Known(batches[k], |vs|)
    ensures var shown, a := LedgerWriter.HandleAll(vs, batches)[c].visible, vs[c].visible.assets[j];
            LoggedIn(v, log, Answer(c, fd, shown, Accepted)).visible.funds.attempt[j]
            == vs[c].visible.funds.attempt[j] + Sum(LedgerWriter.Flatten(batches), LedgerAttempt(c, a))
               + Sum(After(log, 0), ReplayAttempt(c, a))
  {
    LedgerSolvency.ServiceShows(vs, batches, c, j);
    ReplayedAttempt(Answer(c, fd, LedgerWriter.HandleAll(vs, batches)[c].visible, Accepted), After(log, 0), j);
  }

  /** The gateway does not read the status: a refused client is shown as logged in too, with nothing but cash
      positions, each at what the client's reports after report 0 moved in cash. */
  lemma {:induction false} RefusalIsShownAsLogin(state: Copy<AccountStates.Account>, status: Status,
                                                 log: seq<Stamped>, v: View<Login>, c: nat, fd: nat, j: nat)
    requires ShapedCopy(state) && ShapedView(v) && j < MAX_POSITIONS && Distinct(After(log, 0))
    requires !status.Accepted?
    ensures var t := LoggedIn(v, log, Answer(c, fd, state, status)).visible;
            && t.fields.auth && t.fields.clientId == c && t.assets[j] == CASH
            && t.funds.confirmed[j] == Sum(After(log, 0), MovedFor(c, CASH))
            && t.funds.attempt[j] == Sum(After(log, 0), ReplayAttempt(c, CASH))
  {
    ReplayedConfirmed(Answer(c, fd, state, status), After(log, 0), j);
    ReplayedAttempt(Answer(c, fd, state, status), After(log, 0), j);
  }
}
