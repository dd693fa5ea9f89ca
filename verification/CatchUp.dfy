/** The gateway's ring of recent reports, and the replay that brings a client's account snapshot up to date
    at login. */
module CatchUp {
  import opened Domain
  import opened Modular
  import opened Sums
  import opened Funds
  import opened GatewayStates

  const RING: nat := 8192

  // ---------------------------------------------------------------- the ring

  /** Sequence ids run on from `first` without gaps. */
  ghost predicate Consecutive(log: seq<Stamped>, first: nat) {
    forall k {:trigger log[k]} :: 0 <= k < |log| ==> log[k].id == first + k
  }

  function Last(log: seq<Stamped>): nat { if log == [] then 0 else log[|log| - 1].id }

  /** A slot is still as constructed, or holds a report of the last `RING`. */
  ghost predicate Slotted(ring: seq<Stamped>, log: seq<Stamped>, first: nat, j: nat)
    requires j < |ring|
  {
    ring[j].id == j + 1 || (first <= ring[j].id < first + |log| <= ring[j].id + RING && ring[j].id % RING == j)
  }

  ghost predicate Kept(ring: seq<Stamped>, log: seq<Stamped>, k: nat)
    requires k < |log| && |ring| == RING
  {
    ring[log[k].id % RING] == log[k]
  }

  ghost predicate RingHolds(ring: seq<Stamped>, log: seq<Stamped>, first: nat) {
    && |ring| == RING && Consecutive(log, first)
    && (forall k {:trigger Kept(ring, log, k)} :: 0 <= k < |log| <= k + RING ==> Kept(ring, log, k))
    && (forall j {:trigger Slotted(ring, log, first, j)} :: 0 <= j < RING ==> Slotted(ring, log, first, j))
  }

  function Recorded(ring: seq<Stamped>, r: Stamped): seq<Stamped>
    requires |ring| == RING
  {
    ring[r.id % RING := r]
  }

  lemma {:induction false} RecordHolds(ring: seq<Stamped>, log: seq<Stamped>, first: nat, r: Stamped)
    requires RingHolds(ring, log, first) && r.id == first + |log|
    ensures RingHolds(Recorded(ring, r), log + [r], first)
  {
    var ring', log' := Recorded(ring, r), log + [r];
    forall k | 0 <= k < |log'| <= k + RING ensures Kept(ring', log', k) {
      if k < |log| {
        assert Kept(ring, log, k);
        WindowDistinct(first + k, first + |log|, RING);
      }
    }
    forall j | 0 <= j < RING ensures Slotted(ring', log', first, j) {
      assert Slotted(ring, log, first, j);
      if j != r.id % RING && ring[j].id != j + 1 { OldestSlot(ring[j].id, r.id); }
    }
  }

  lemma {:induction false} OldestSlot(id: nat, next: nat)
    requires id % RING != next % RING && id < next <= id + RING
    ensures next < id + RING
  {
    if next == id + RING { AddMultiple(id, 1, RING); }
  }

  /** The test a response must pass. */
  predicate Fresh(ring: seq<Stamped>, last: nat, s: nat)
    requires |ring| == RING
  {
    ring[s % RING].id == s || s == last
  }

  /** The slot test recognises exactly the ids still in the ring: an untouched slot never matches, and neither
      does an id that has been overwritten or has not arrived. */
  lemma {:induction false} StalenessIsExact(ring: seq<Stamped>, log: seq<Stamped>, first: nat, s: nat)
    requires RingHolds(ring, log, first)
    ensures Fresh(ring, Last(log), s) <==> s == Last(log) || first <= s < first + |log| <= s + RING
  {
    var j := s % RING;
    assert Slotted(ring, log, first, j);
    if ring[j].id == s {
      WindowDistinct(j, j + 1, RING);
      RemainderUnique(j, RING, 0, j);
    }
    if first <= s < first + |log| <= s + RING { assert Kept(ring, log, s - first); }
  }

  // ---------------------------------------------------------------- the replay

  /** What replaying one report adds at a position; the sold side is looked at only where the bought one does
      not match, and the attempt moves by the sold amount. */
  function ReplayAt(client: nat, asset: nat, r: Report): (int, int) {
    if r.client != client then (0, 0)
    else if asset == r.boughtAsset then (r.bought, 0)
    else if asset == r.soldAsset then (r.sold, r.sold)
    else (0, 0)
  }

  function ReplayDelta(client: nat, assets: seq<nat>, r: Report): (d: Funds)
    requires |assets| == MAX_POSITIONS
    ensures Shaped(d)
  {
    Funds(seq(MAX_POSITIONS, i requires 0 <= i < MAX_POSITIONS => ReplayAt(client, assets[i], r).0),
          seq(MAX_POSITIONS, i requires 0 <= i < MAX_POSITIONS => ReplayAt(client, assets[i], r).1))
  }

  function Replayed(s: Snapshot, rs: seq<Stamped>): (t: Snapshot)
    requires ShapedSnapshot(s)
    ensures ShapedSnapshot(t) && t == s.(funds := t.funds)
  {
    if rs == [] then s
    else
      var n := |rs| - 1;
      var t := Replayed(s, rs[..n]);
      t.(funds := Add(t.funds, ReplayDelta(s.clientId, s.assets, rs[n].report)))
  }

  method ReplayOne(s: Snapshot, r: Report) returns (t: Snapshot)
    requires ShapedSnapshot(s)
    ensures t == s.(funds := Add(s.funds, ReplayDelta(s.clientId, s.assets, r)))
  {
    var f := s.funds;
    if r.client == s.clientId {
      for i := 0 to MAX_POSITIONS
        invariant Shaped(f)
        invariant forall k :: 0 <= k < MAX_POSITIONS ==>
          f.confirmed[k] == s.funds.confirmed[k] + if k < i then ReplayAt(s.clientId, s.assets[k], r).0 else 0
        invariant forall k :: 0 <= k < MAX_POSITIONS ==>
          f.attempt[k] == s.funds.attempt[k] + if k < i then ReplayAt(s.clientId, s.assets[k], r).1 else 0
      {
        if s.assets[i] == r.boughtAsset {
          f := f.(confirmed := f.confirmed[i := f.confirmed[i] + r.bought]);
        } else if s.assets[i] == r.soldAsset {
          f := Funds(f.confirmed[i := f.confirmed[i] + r.sold], f.attempt[i := f.attempt[i] + r.sold]);
        }
      }
    }
    SameFunds(f, Add(s.funds, ReplayDelta(s.clientId, s.assets, r)));
    t := s.(funds := f);
  }

  /** The reports with ids above `s`. */
  function After(log: seq<Stamped>, s: nat): (r: seq<Stamped>)
    ensures |r| <= |log|
  {
    if log == [] then [] else if log[0].id > s then log else After(log[1..], s)
  }

  /** The reports a snapshot stamped `s` has seen. */
  function UpTo(log: seq<Stamped>, s: nat): seq<Stamped> { log[..|log| - |After(log, s)|] }

  lemma {:induction false} AfterStarts(log: seq<Stamped>, first: nat, s: nat)
    requires Consecutive(log, first) && (s == Last(log) || first <= s < first + |log|)
    ensures s == Last(log) ==> After(log, s) == []
    ensures log != [] ==> first <= s < first + |log| && After(log, s) == log[s + 1 - first..]
    decreases |log|
  {
    if log != [] {
      assert log[0].id == first;
      assert log[|log| - 1].id == first + |log| - 1;
      if s == first {
        if |log| > 1 { assert log[1].id == first + 1; }
        assert After(log[1..], s) == log[1..];
      } else {
        AfterStarts(log[1..], first + 1, s);
        assert log[1..][s - first..] == log[s + 1 - first..];
      }
    }
  }

  /** The reports to replay lie in the ring, each in the slot of its id. */
  lemma {:induction false} RestInRing(ring: seq<Stamped>, log: seq<Stamped>, first: nat, s: nat)
    requires RingHolds(ring, log, first) && Fresh(ring, Last(log), s)
    ensures var rest := After(log, s);
            && s + |rest| == Last(log)
            && forall k :: 0 <= k < |rest| ==> rest[k] == ring[(s + 1 + k) % RING]
  {
    StalenessIsExact(ring, log, first, s);
    AfterStarts(log, first, s);
    var rest := After(log, s);
    forall k | 0 <= k < |rest| ensures rest[k] == ring[(s + 1 + k) % RING] {
      assert Kept(ring, log, s + 1 + k - first);
    }
  }

  /** Replays every report after the snapshot's, out of the ring. */
  method ReplayRing(ring: seq<Stamped>, last: nat, response: Snapshot, ghost log: seq<Stamped>, ghost first: nat)
    returns (t: Snapshot)
    requires RingHolds(ring, log, first) && last == Last(log) && ShapedSnapshot(response)
    requires Fresh(ring, last, response.sequenceId)
    ensures t == Replayed(response, After(log, response.sequenceId))
  {
    RestInRing(ring, log, first, response.sequenceId);
    t := ReplayFrom(ring, last, response, After(log, response.sequenceId));
  }

  method ReplayFrom(ring: seq<Stamped>, last: nat, response: Snapshot, ghost rest: seq<Stamped>)
    returns (t: Snapshot)
    requires |ring| == RING && ShapedSnapshot(response) && response.sequenceId + |rest| == last
    requires forall k :: 0 <= k < |rest| ==> rest[k] == ring[(response.sequenceId + 1 + k) % RING]
    ensures t == Replayed(response, rest)
  {
    t := response;
    var seqId := response.sequenceId + 1;
    while seqId <= last
      invariant response.sequenceId < seqId <= last + 1
      invariant ShapedSnapshot(t) && t == Replayed(response, rest[..seqId - response.sequenceId - 1])
    {
      ghost var k := seqId - response.sequenceId - 1;
      assert rest[k] == ring[seqId % RING];
      assert rest[..k + 1][..k] == rest[..k];
      t := ReplayOne(t, ring[seqId % RING].report);
      seqId := seqId + 1;
    }
    assert rest[..|rest|] == rest;
  }

  // ---------------------------------------------------------------- the ledger

  function MovedFor(client: nat, asset: nat): Stamped -> int {
    (r: Stamped) =>
      if r.report.client != client then 0
      else (if r.report.boughtAsset == asset then r.report.bought else 0)
           + (if r.report.soldAsset == asset then r.report.sold else 0)
  }

  /** The replay moves a confirmed balance as the ledger does exactly for reports that do not sell the very
      asset they buy. */
  lemma {:induction false} ReplayMatchesIff(client: nat, r: Stamped)
    requires r.report.client == client
    ensures (forall asset: nat :: ReplayAt(client, asset, r.report).0 == MovedFor(client, asset)(r))
            <==> r.report.boughtAsset != r.report.soldAsset || r.report.sold == 0
  {
    if r.report.boughtAsset == r.report.soldAsset && r.report.sold != 0 {
      assert ReplayAt(client, r.report.boughtAsset, r.report).0 != MovedFor(client, r.report.boughtAsset)(r);
    }
  }

  lemma {:induction false} ReplayedConfirmed(s: Snapshot, rs: seq<Stamped>, i: nat)
    requires ShapedSnapshot(s) && i < MAX_POSITIONS
    requires forall k :: 0 <= k < |rs| ==> rs[k].report.boughtAsset != rs[k].report.soldAsset || rs[k].report.sold == 0
    ensures Replayed(s, rs).funds.confirmed[i] == s.funds.confirmed[i] + Sum(rs, MovedFor(s.clientId, s.assets[i]))
  {
    if rs != [] {
      var n := |rs| - 1;
      ReplayedConfirmed(s, rs[..n], i);
      assert rs == rs[..n] + [rs[n]];
      SumConcat(rs[..n], [rs[n]], MovedFor(s.clientId, s.assets[i]));
      SumOne(rs[n], MovedFor(s.clientId, s.assets[i]));
    }
  }

  /** What a replayed report adds to a position's attempt: the amount sold, unless the position is also bought. */
  function ReplayAttempt(client: nat, asset: nat): Stamped -> int {
    (r: Stamped) =>
      if r.report.client == client && r.report.soldAsset == asset && r.report.boughtAsset != asset then r.report.sold
      else 0
  }

  /** What the ledger adds to it: the report's attempt, if the position is sold. */
  function LedgerAttempt(client: nat, asset: nat): Stamped -> int {
    (r: Stamped) => if r.report.client == client && r.report.soldAsset == asset then r.report.attempt else 0
  }

  lemma {:induction false} ReplayedAttempt(s: Snapshot, rs: seq<Stamped>, i: nat)
    requires ShapedSnapshot(s) && i < MAX_POSITIONS
    ensures Replayed(s, rs).funds.attempt[i] == s.funds.attempt[i] + Sum(rs, ReplayAttempt(s.clientId, s.assets[i]))
  {
    if rs != [] {
      var n := |rs| - 1;
      var f := ReplayAttempt(s.clientId, s.assets[i]);
      ReplayedAttempt(s, rs[..n], i);
      assert ReplayAt(s.clientId, s.assets[i], rs[n].report).1 == f(rs[n]);
      assert rs == rs[..n] + [rs[n]];
      SumConcat(rs[..n], [rs[n]], f);
      SumOne(rs[n], f);
    }
  }

  /** The replay moves a client's attempts as the ledger does exactly for reports whose attempt is what they sell:
      fills, but neither orders added nor orders cancelled. */
  lemma {:induction false} AttemptMatchesIff(r: Stamped)
    ensures (forall asset: nat ::
               ReplayAttempt(r.report.client, asset)(r) == LedgerAttempt(r.report.client, asset)(r))
            <==> r.report.attempt == if r.report.boughtAsset == r.report.soldAsset then 0 else r.report.sold
  {
    var c, a := r.report.client, r.report.soldAsset;
    assert ReplayAttempt(c, a)(r) == LedgerAttempt(c, a)(r)
           <==> r.report.attempt == if r.report.boughtAsset == a then 0 else r.report.sold;
  }

  /** Over a whole replay: the attempt is the ledger's after the latest report if, and only if, the snapshot's
      differs from the ledger's after the report it is stamped with by just what the two treatments of the
      reports in between differ by. */
  lemma {:induction false} AttemptIsLedgerIff(ring: seq<Stamped>, log: seq<Stamped>, first: nat, s: Snapshot,
                                              start: int, i: nat)
    requires RingHolds(ring, log, first) && ShapedSnapshot(s) && i < MAX_POSITIONS
    requires Fresh(ring, Last(log), s.sequenceId)
    ensures var rest, f, g := After(log, s.sequenceId), ReplayAttempt(s.clientId, s.assets[i]),
                              LedgerAttempt(s.clientId, s.assets[i]);
            Replayed(s, rest).funds.attempt[i] == start + Sum(log, g)
            <==> s.funds.attempt[i] - (start + Sum(UpTo(log, s.sequenceId), g)) == Sum(rest, g) - Sum(rest, f)
  {
    var rest := After(log, s.sequenceId);
    StalenessIsExact(ring, log, first, s.sequenceId);
    AfterStarts(log, first, s.sequenceId);
    var upto := |log| - |rest|;
    assert rest == log[upto..];
    assert log == log[..upto] + log[upto..];
    SumConcat(log[..upto], rest, LedgerAttempt(s.clientId, s.assets[i]));
    ReplayedAttempt(s, rest, i);
  }

  /** No report sells the very asset it buys. */
  predicate Distinct(log: seq<Stamped>) {
    forall k :: 0 <= k < |log| ==> log[k].report.boughtAsset != log[k].report.soldAsset || log[k].report.sold == 0
  }

  /** The replay of a snapshot that passes the test is the ledger after the latest report if, and only if, the
      snapshot is the ledger after the report it is stamped with. */
  lemma {:induction false} CatchUpIsLedger(ring: seq<Stamped>, log: seq<Stamped>, first: nat, s: Snapshot,
                                           start: int, i: nat)
    requires RingHolds(ring, log, first) && ShapedSnapshot(s) && i < MAX_POSITIONS && Distinct(log)
    requires Fresh(ring, Last(log), s.sequenceId)
    ensures var f := MovedFor(s.clientId, s.assets[i]);
            Replayed(s, After(log, s.sequenceId)).funds.confirmed[i] == start + Sum(log, f)
            <==> s.funds.confirmed[i] == start + Sum(UpTo(log, s.sequenceId), f)
  {
    var rest := After(log, s.sequenceId);
    StalenessIsExact(ring, log, first, s.sequenceId);
    AfterStarts(log, first, s.sequenceId);
    var upto := |log| - |rest|;
    assert rest == log[upto..];
    assert log == log[..upto] + log[upto..];
    SumConcat(log[..upto], rest, MovedFor(s.clientId, s.assets[i]));
    ReplayedConfirmed(s, rest, i);
  }

  // ---------------------------------------------------------------- snapshots as they are sent, all stamped 0

  /** Every snapshot is stamped 0. The test lets it pass exactly while report 0 has not been overwritten, or if
      there is no report yet. */
  lemma {:induction false} ZeroStampPassesIff(ring: seq<Stamped>, log: seq<Stamped>, first: nat)
    requires RingHolds(ring, log, first)
    ensures Fresh(ring, Last(log), 0) <==> log == [] || (first == 0 && |log| <= RING)
  {
    StalenessIsExact(ring, log, first, 0);
    if log != [] { assert log[|log| - 1].id == first + |log| - 1; }
  }

  /** The reports that a replay from stamp 0 takes twice, or not at all, do not move the position: the ledger has
      booked the first `n` reports, and the replay begins with report 1. */
  predicate Unharmed(log: seq<Stamped>, n: nat, f: Stamped -> int)
    requires n <= |log|
  {
    if n == 0 then log == [] || f(log[0]) == 0 else Sum(log[1..n], f) == 0
  }

  /** A snapshot of the ledger after any number of reports, stamped 0, is replayed to the ledger after the
      latest report if, and only if, it is unharmed. */
  lemma {:induction false} ZeroStampIsLedgerIff(ring: seq<Stamped>, log: seq<Stamped>, n: nat, s: Snapshot,
                                                start: int, i: nat)
    requires RingHolds(ring, log, 0) && |log| <= RING && ShapedSnapshot(s) && i < MAX_POSITIONS && Distinct(log)
    requires n <= |log| && s.sequenceId == 0
    requires s.funds.confirmed[i] == start + Sum(log[..n], MovedFor(s.clientId, s.assets[i]))
    ensures var f := MovedFor(s.clientId, s.assets[i]);
            Replayed(s, After(log, 0)).funds.confirmed[i] == start + Sum(log, f) <==> Unharmed(log, n, f)
  {
    var f := MovedFor(s.clientId, s.assets[i]);
    ZeroStampPassesIff(ring, log, 0);
    CatchUpIsLedger(ring, log, 0, s, start, i);
    AfterStarts(log, 0, 0);
    if log != [] {
      assert UpTo(log, 0) == [log[0]];
      SumOne(log[0], f);
      if n > 0 {
        assert log[..n] == [log[0]] + log[1..n];
        SumConcat([log[0]], log[1..n], f);
      }
    }
  }

  /** Client 7 starts with 100 units of cash and spends 30 of them in report 0; a snapshot of the starting ledger
      is replayed to 100 instead of 70. */
  lemma {:induction false} UnseenReportIsLost(ring: seq<Stamped>, log: seq<Stamped>, s: Snapshot)
    requires RingHolds(ring, log, 0) && log == [Stamped(0, Report(3, -30, -30, 7, 1, 5, CASH, Filled))]
    requires ShapedSnapshot(s) && s.sequenceId == 0 && s.clientId == 7 && s.assets[0] == CASH
             && s.funds.confirmed[0] == 100
    ensures Fresh(ring, Last(log), 0)
    ensures Replayed(s, After(log, 0)).funds.confirmed[0] == 100
    ensures 100 + Sum(log, MovedFor(7, CASH)) == 70
  {
    ZeroStampPassesIff(ring, log, 0);
    SumOne(log[0], MovedFor(7, CASH));
    AfterStarts(log, 0, 0);
  }

  /** A snapshot of client 7 with 30 units of cash reserved, and the fill that pays them replayed: nothing is
      reserved any more. */
  lemma {:induction false} ReplayReleases(ring: seq<Stamped>, log: seq<Stamped>, s: Snapshot)
    requires RingHolds(ring, log, 0)
    requires log == [Stamped(0, Report(0, 0, 50, 3, 1, 5, CASH, Added)),
                     Stamped(1, Report(3, -30, -30, 7, 2, 5, CASH, Filled))]
    requires ShapedSnapshot(s) && s.sequenceId == 0 && s.clientId == 7 && s.assets[0] == CASH
             && s.funds.attempt[0] == 30
    ensures Replayed(s, After(log, 0)).funds.attempt[0] == 0
  {
    AfterStarts(log, 0, 0);
    assert log[1..] == [log[1]];
    SumOne(log[1], ReplayAttempt(7, CASH));
    ReplayedAttempt(s, log[1..], 0);
  }

  /** Report 0 is client 3's, and client 7 spends 30 of 100 units of cash in report 1. A snapshot taken after both
      shows 70 and is replayed to 40. */
  lemma {:induction false} BookedReportIsTakenTwice(ring: seq<Stamped>, log: seq<Stamped>, s: Snapshot)
    requires RingHolds(ring, log, 0)
    requires log == [Stamped(0, Report(0, 0, 50, 3, 1, 5, CASH, Added)),
                     Stamped(1, Report(3, -30, -30, 7, 2, 5, CASH, Filled))]
    requires ShapedSnapshot(s) && s.sequenceId == 0 && s.clientId == 7 && s.assets[0] == CASH
    requires s.funds.confirmed[0] == 100 + Sum(log, MovedFor(7, CASH))
    ensures Fresh(ring, Last(log), 0)
    ensures s.funds.confirmed[0] == 70
    ensures Replayed(s, After(log, 0)).funds.confirmed[0] == 40
  {
    var f := MovedFor(7, CASH);
    ZeroStampPassesIff(ring, log, 0);
    SumTwo(log[0], log[1], f);
    AfterStarts(log, 0, 0);
    assert log[1..] == [log[1]];
    SumOne(log[1], f);
    ReplayedConfirmed(s, log[1..], 0);
  }
}
