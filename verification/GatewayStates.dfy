/** The order gateway's client states: balances, login state and session number, in a triple buffer. */
module GatewayStates {
  import opened Domain
  import opened Funds
  import opened Sums
  import opened TripleBuffer

  datatype Login = Login(clientId: nat, auth: bool, sessionId: nat)

  type ClientState = Copy<Login>

  datatype Snapshot = Snapshot(sequenceId: nat, clientId: nat, clientFd: nat, assets: seq<nat>, funds: Funds)

  predicate ShapedSnapshot(s: Snapshot) { |s.assets| == MAX_POSITIONS && Shaped(s.funds) }

  // ---------------------------------------------------------------- the plain accumulator

  datatype Op = Load(snapshot: Snapshot) | Assets(asset: nat, confirmed: int, attempt: int) | Auth(on: bool) | Flush

  predicate ShapedOp(op: Op) { op.Load? ==> ShapedSnapshot(op.snapshot) }

  function NewSession(was: Login, s: Snapshot): Login { Login(s.clientId, true, (was.sessionId + 1) % U32) }

  function Apply(v: View<Login>, op: Op): (r: View<Login>)
    requires ShapedView(v) && ShapedOp(op)
    ensures ShapedView(r)
  {
    match op
    case Load(s) => v.(staged := Copy(s.assets, s.funds, NewSession(v.staged.fields, s)))
    case Assets(asset, confirmed, attempt) =>
      v.(staged := v.staged.(funds := Add(v.staged.funds, Credit(v.staged.assets, asset, confirmed, attempt))))
    case Auth(on) => v.(staged := v.staged.(fields := v.staged.fields.(auth := on)))
    case Flush => View(v.staged, v.staged)
  }

  /** How the writer applies a report: bought asset, then sold asset; the attempt of an ADD is left out, since
      the local reservation already counts it. */
  function Applied(v: View<Login>, r: Report): (w: View<Login>)
    requires ShapedView(v)
    ensures ShapedView(w) && w.visible == v.visible
  {
    Apply(Apply(v, Assets(r.boughtAsset, r.bought, 0)),
          Assets(r.soldAsset, r.sold, if r.state.Added? then 0 else r.attempt))
  }

  /** A state after one report has been applied and shown. */
  function Settled(s: ClientState, r: Report): (t: ClientState)
    requires ShapedCopy(s)
    ensures ShapedCopy(t)
  {
    Apply(Applied(View(s, s), r), Flush).visible
  }

  predicate ShapedOps(ops: seq<Op>) { forall k :: 0 <= k < |ops| ==> ShapedOp(ops[k]) }

  function ApplyAll(v: View<Login>, ops: seq<Op>): (r: View<Login>)
    requires ShapedView(v) && ShapedOps(ops)
    ensures ShapedView(r)
    decreases |ops|
  {
    if ops == [] then v else ApplyAll(Apply(v, ops[0]), ops[1..])
  }

  lemma {:induction false} ApplyConcat(v: View<Login>, a: seq<Op>, b: seq<Op>)
    requires ShapedView(v) && ShapedOps(a) && ShapedOps(b)
    ensures ShapedOps(a + b) && ApplyAll(v, a + b) == ApplyAll(ApplyAll(v, a), b)
    decreases |a|
  {
    if a == [] {
      assert a + b == b;
    } else {
      assert (a + b)[1..] == a[1..] + b;
      ApplyConcat(Apply(v, a[0]), a[1..], b);
    }
  }

  function ConfirmedAt(asset: nat): Op -> int {
    (op: Op) => if op.Assets? && op.asset == asset then op.confirmed else 0
  }

  function AttemptAt(asset: nat): Op -> int { (op: Op) => if op.Assets? && op.asset == asset then op.attempt else 0 }

  predicate NoLoad(ops: seq<Op>) { forall k :: 0 <= k < |ops| ==> !ops[k].Load? }

  predicate NoFlush(ops: seq<Op>) { forall k :: 0 <= k < |ops| ==> !ops[k].Flush? }

  lemma {:induction false} StagedAccumulates(v: View<Login>, ops: seq<Op>, i: nat)
    requires ShapedView(v) && ShapedOps(ops) && NoLoad(ops) && i < MAX_POSITIONS
    ensures var r := ApplyAll(v, ops).staged;
            && r.assets == v.staged.assets && r.fields.clientId == v.staged.fields.clientId
            && r.fields.sessionId == v.staged.fields.sessionId
            && r.funds.confirmed[i] == v.staged.funds.confirmed[i] + Sum(ops, ConfirmedAt(v.staged.assets[i]))
            && r.funds.attempt[i] == v.staged.funds.attempt[i] + Sum(ops, AttemptAt(v.staged.assets[i]))
    decreases |ops|
  {
    if ops != [] { StagedAccumulates(Apply(v, ops[0]), ops[1..], i); }
  }

  lemma {:induction false} HiddenUntilFlush(v: View<Login>, ops: seq<Op>)
    requires ShapedView(v) && ShapedOps(ops) && NoFlush(ops)
    ensures ApplyAll(v, ops).visible == v.visible
    decreases |ops|
  {
    if ops != [] { HiddenUntilFlush(Apply(v, ops[0]), ops[1..]); }
  }

  /** Whatever came before, once a snapshot has been loaded the visible balances at a flush are the snapshot's
      plus every delta on the position's asset staged since, and later unflushed updates do not show. */
  lemma {:induction false} VisibleBalances(v: View<Login>, before: seq<Op>, s: Snapshot, since: seq<Op>,
                                           after: seq<Op>, i: nat)
    requires ShapedView(v) && ShapedOps(before) && ShapedSnapshot(s) && ShapedOps(since) && ShapedOps(after)
    requires NoLoad(since) && NoFlush(after) && i < MAX_POSITIONS
    ensures ShapedOps(before + [Load(s)] + since + [Flush] + after)
    ensures var r := ApplyAll(v, before + [Load(s)] + since + [Flush] + after).visible;
            && r.fields.clientId == s.clientId && r.assets == s.assets
            && r.funds.confirmed[i] == s.funds.confirmed[i] + Sum(since, ConfirmedAt(s.assets[i]))
            && r.funds.attempt[i] == s.funds.attempt[i] + Sum(since, AttemptAt(s.assets[i]))
  {
    var v1 := ApplyAll(v, before);
    var v2 := Apply(v1, Load(s));
    var v3 := ApplyAll(v2, since);
    var v4 := Apply(v3, Flush);
    OneStep(v1, Load(s));
    OneStep(v3, Flush);
    ApplyConcat(v, before, [Load(s)]);
    ApplyConcat(v, before + [Load(s)], since);
    ApplyConcat(v, before + [Load(s)] + since, [Flush]);
    ApplyConcat(v, before + [Load(s)] + since + [Flush], after);
    StagedAccumulates(v2, since, i);
    HiddenUntilFlush(v4, after);
  }

  lemma {:induction false} OneStep(v: View<Login>, op: Op)
    requires ShapedView(v) && ShapedOp(op)
    ensures ShapedOps([op]) && ApplyAll(v, [op]) == Apply(v, op)
  {
    assert [op][1..] == [];
    assert ApplyAll(Apply(v, op), []) == Apply(v, op);
  }

  function IsLoad(): Op -> int { (op: Op) => if op.Load? then 1 else 0 }

  /** The session number counts snapshots, modulo 2^32: a session that has not wrapped is never reused. */
  lemma {:induction false} SessionsCount(v: View<Login>, ops: seq<Op>)
    requires ShapedView(v) && ShapedOps(ops) && v.staged.fields.sessionId < U32
    ensures ApplyAll(v, ops).staged.fields.sessionId == (v.staged.fields.sessionId + Sum(ops, IsLoad())) % U32
    decreases |ops|
  {
    if ops != [] { SessionsCount(Apply(v, ops[0]), ops[1..]); }
  }

  /** The login flag the last operation on it left behind. */
  function LastAuth(ops: seq<Op>, was: bool): bool {
    if ops == [] then was
    else
      var op := ops[|ops| - 1];
      if op.Load? then true else if op.Auth? then op.on else LastAuth(ops[..|ops| - 1], was)
  }

  lemma {:induction false} LastAuthFirst(op: Op, ops: seq<Op>, was: bool)
    ensures LastAuth([op] + ops, was) == LastAuth(ops, if op.Load? then true else if op.Auth? then op.on else was)
  {
    if ops == [] {
      assert ([op] + ops)[..0] == [];
    } else {
      var n := |ops| - 1;
      assert ([op] + ops)[n + 1] == ops[n] && ([op] + ops)[..n + 1] == [op] + ops[..n];
      LastAuthFirst(op, ops[..n], was);
    }
  }

  lemma {:induction false} StagedAuth(v: View<Login>, ops: seq<Op>)
    requires ShapedView(v) && ShapedOps(ops)
    ensures ApplyAll(v, ops).staged.fields.auth == LastAuth(ops, v.staged.fields.auth)
    decreases |ops|
  {
    if ops != [] {
      StagedAuth(Apply(v, ops[0]), ops[1..]);
      LastAuthFirst(ops[0], ops[1..], v.staged.fields.auth);
      assert ops == [ops[0]] + ops[1..];
    }
  }

  /** After any history with a flush, readers see the login flag of the last login, logout or snapshot before the
      last flush, and the session number that counts the snapshots up to it. */
  lemma {:induction false} VisibleLogin(v: View<Login>, before: seq<Op>, after: seq<Op>)
    requires ShapedView(v) && ShapedOps(before) && ShapedOps(after) && NoFlush(after) && v.staged.fields.sessionId < U32
    ensures ShapedOps(before + [Flush] + after)
    ensures var r := ApplyAll(v, before + [Flush] + after).visible.fields;
            && r.auth == LastAuth(before, v.staged.fields.auth)
            && r.sessionId == (v.staged.fields.sessionId + Sum(before, IsLoad())) % U32
  {
    var v1 := ApplyAll(v, before);
    OneStep(v1, Flush);
    ApplyConcat(v, before, [Flush]);
    ApplyConcat(v, before + [Flush], after);
    HiddenUntilFlush(Apply(v1, Flush), after);
    StagedAuth(v, before);
    SessionsCount(v, before);
  }

  // ---------------------------------------------------------------- the writer's operations

  method SetAuthStatus(states: ClientStates<Login>, c: nat, auth: nat)
    requires states.Valid() && c < |states.complete|
    modifies states
    ensures states.Valid() && |states.complete| == old(|states.complete|)
    ensures states.Views() == old(states.Views())[c := Apply(old(states.Views()[c]), Auth(auth != 0))]
  {
    var next, _, delta := states.WriterView(c);
    states.Stage(c, next.assets, next.fields.(auth := auth != 0), delta);
  }

  /** The snapshot's assets, and the change that turns the visible balances into the snapshot's. */
  method TakeSnapshot(response: Snapshot, held: seq<nat>, change: Funds, ref: Funds)
    returns (assets: seq<nat>, delta: Funds)
    requires ShapedSnapshot(response) && |held| == MAX_POSITIONS && Shaped(change) && Shaped(ref)
    ensures assets == response.assets && delta == Minus(response.funds, ref)
  {
    assets, delta := held, change;
    for i := 0 to MAX_POSITIONS
      invariant |assets| == MAX_POSITIONS && Shaped(delta)
      invariant forall j :: 0 <= j < i ==> assets[j] == response.assets[j]
      invariant forall j :: 0 <= j < i ==> delta.confirmed[j] == response.funds.confirmed[j] - ref.confirmed[j]
      invariant forall j :: 0 <= j < i ==> delta.attempt[j] == response.funds.attempt[j] - ref.attempt[j]
    {
      assets := assets[i := response.assets[i]];
      delta := Funds(delta.confirmed[i := response.funds.confirmed[i] - ref.confirmed[i]],
                     delta.attempt[i := response.funds.attempt[i] - ref.attempt[i]]);
    }
    SameFunds(delta, Minus(response.funds, ref));
  }

  method SetClientState(states: ClientStates<Login>, response: Snapshot)
    requires states.Valid() && response.clientFd < |states.complete| && ShapedSnapshot(response)
    modifies states
    ensures states.Valid() && |states.complete| == old(|states.complete|)
    ensures states.Views()
            == old(states.Views())[response.clientFd := Apply(old(states.Views()[response.clientFd]), Load(response))]
  {
    var next, ref, change := states.WriterView(response.clientFd);
    var assets, delta := TakeSnapshot(response, next.assets, change, ref);
    AddDifference(ref, response.funds);
    states.Stage(response.clientFd, assets, NewSession(next.fields, response), delta);
  }

  method SetClientAssets(states: ClientStates<Login>, c: nat, confirmed: int, attempt: int, asset: nat)
    requires states.Valid() && c < |states.complete|
    modifies states
    ensures states.Valid() && |states.complete| == old(|states.complete|)
    ensures states.Views() == old(states.Views())[c := Apply(old(states.Views()[c]), Assets(asset, confirmed, attempt))]
  {
    var next, ref, change := states.WriterView(c);
    var delta := CreditAsset(change, next.assets, asset, confirmed, attempt);
    AddAssociates(ref, change, Credit(next.assets, asset, confirmed, attempt));
    states.Stage(c, next.assets, next.fields, delta);
  }
}
