/** The gateway's check of an order against the client's visible balances and the funds it has reserved
    locally for orders whose reports have not come back yet. */
module RiskCheck {
  import opened Domain
  import opened Funds
  import opened TripleBuffer
  import opened GatewayStates

  const MAX_ASSETS: nat := 128

  datatype Status = Accepted | UserNotConnected | BadClientId | UnknownSymbol | MaxPositions | InsufficientFunds

  /** The reservations of one connection and the session they belong to. */
  datatype Local = Local(attempt: seq<int>, session: nat)

  predicate ShapedLocal(l: Local) { |l.attempt| == MAX_POSITIONS }

  function NoAttempts(): (r: seq<int>)
    ensures |r| == MAX_POSITIONS
  {
    seq(MAX_POSITIONS, _ => 0)
  }

  /** Position `i` is where a lookup of its asset ends. */
  predicate FirstHolding(assets: seq<nat>, i: nat) {
    i < |assets| && forall j :: 0 <= j < i ==> assets[j] != assets[i]
  }

  /** What the risk check sets aside for an order; a cancel request is charged like an order of its amount field. */
  function Reserve(o: Order): int { Value(o.side, o.amount, o.price) }

  /** Reservations of an earlier session are forgotten. */
  function Renewed(cur: ClientState, l: Local): (r: Local)
    requires ShapedLocal(l)
    ensures ShapedLocal(r)
  {
    if cur.fields.sessionId == l.session then l else Local(NoAttempts(), cur.fields.sessionId)
  }

  function Available(cur: ClientState, l: Local, i: nat): int
    requires ShapedCopy(cur) && ShapedLocal(l) && i < MAX_POSITIONS
  {
    cur.funds.confirmed[i] - (cur.funds.attempt[i] + l.attempt[i])
  }

  /** The order may be sent, paid from position `i`. */
  predicate Affords(cur: ClientState, l: Local, o: Order, i: nat)
    requires ShapedCopy(cur) && ShapedLocal(l)
  {
    && cur.fields.clientId == o.client
    && FirstHolding(cur.assets, i) && cur.assets[i] == PaysWith(o.side, o.asset)
    && Reserve(o) <= Available(cur, Renewed(cur, l), i)
  }

  method GetAssetIdx(assets: seq<nat>, asset: nat) returns (found: bool, i: nat)
    ensures found <==> asset in assets
    ensures found ==> FirstHolding(assets, i) && assets[i] == asset
  {
    i := 0;
    while i < |assets|
      invariant i <= |assets|
      invariant forall j :: 0 <= j < i ==> assets[j] != asset
    {
      if assets[i] == asset { return true, i; }
      i := i + 1;
    }
    found := false;
  }

  /** Accepts exactly the orders the client affords and reserves exactly their cost at the paying position. */
  method CheckOrderRisk(cur: ClientState, local: Local, o: Order, auth: bool) returns (status: Status, l: Local)
    requires ShapedCopy(cur) && ShapedLocal(local)
    ensures ShapedLocal(l)
    ensures status.UserNotConnected? <==> !auth
    ensures l.session == if auth then cur.fields.sessionId else local.session
    ensures status.Accepted? <==> auth && exists i: nat :: Affords(cur, local, o, i)
    ensures status.Accepted? ==>
              exists i: nat :: Affords(cur, local, o, i)
                && l.attempt == Renewed(cur, local).attempt[i := Renewed(cur, local).attempt[i] + Reserve(o)]
    ensures auth && !status.Accepted? ==> l == Renewed(cur, local)
    ensures auth ==>
              forall k {:trigger l.attempt[k]} :: 0 <= k < MAX_POSITIONS ==>
                var reserved := if cur.fields.sessionId == local.session then local.attempt[k] else 0;
                var cost := if o.side.Buy? then o.amount * o.price else o.amount as int;
                var pays := FirstHolding(cur.assets, k) && cur.assets[k] == if o.side.Buy? then CASH else o.asset;
                && l.attempt[k] == reserved + (if status.Accepted? && pays then cost else 0)
                && (cur.fields.clientId == o.client && pays ==>
                      (status.Accepted? <==> cost <= cur.funds.confirmed[k] - cur.funds.attempt[k] - reserved))
    ensures !auth ==> l == local
    ensures status.BadClientId? <==> auth && cur.fields.clientId != o.client
    ensures status.UnknownSymbol? || status.MaxPositions? <==>
              auth && cur.fields.clientId == o.client && PaysWith(o.side, o.asset) !in cur.assets
    ensures status.UnknownSymbol? ==> PaysWith(o.side, o.asset) >= MAX_ASSETS
    ensures status.MaxPositions? ==> PaysWith(o.side, o.asset) < MAX_ASSETS
  {
    l := local;
    if !auth { return UserNotConnected, l; }
    if cur.fields.sessionId != l.session { l := Local(NoAttempts(), cur.fields.sessionId); }
    assert l == Renewed(cur, local);
    if cur.fields.clientId != o.client { return BadClientId, l; }
    var asset := if o.side.Buy? then CASH else o.asset;
    var found, i := GetAssetIdx(cur.assets, asset);
    if !found {
      status := if asset >= MAX_ASSETS then UnknownSymbol else MaxPositions;
      return;
    }
    var confirmed := cur.funds.confirmed[i];
    var attempt := cur.funds.attempt[i] + l.attempt[i];
    forall k | 0 <= k < MAX_POSITIONS && FirstHolding(cur.assets, k) && cur.assets[k] == asset ensures k == i {
      OneFirst(cur.assets, i, k);
    }
    var amount := if o.side.Sell? then o.amount as int else o.amount * o.price;
    if amount > confirmed - attempt {
      forall k | Affords(cur, local, o, k) ensures k == i { OneFirst(cur.assets, i, k); }
      return InsufficientFunds, l;
    }
    assert Affords(cur, local, o, i);
    l := l.(attempt := l.attempt[i := l.attempt[i] + amount]);
    status := Accepted;
  }

  lemma {:induction false} OneFirst(assets: seq<nat>, i: nat, k: nat)
    requires FirstHolding(assets, i) && FirstHolding(assets, k) && assets[i] == assets[k]
    ensures i == k
  {
    if i < k { assert false; }
  }
}
