/** The account service's client states: the ledger, in a triple buffer, each version stamped with the
    sequence id of the last report applied to it. */
module AccountStates {
  import opened Funds
  import opened Sums
  import opened TripleBuffer

  /** `sequenceId` is kept in a vector of its own beside each copy. */
  datatype Account = Account(clientId: nat, key: seq<nat>, authorized: int, connected: int, sequenceId: nat)

  type ClientState = Copy<Account>

  // ---------------------------------------------------------------- the plain accumulator

  datatype Op = Load(state: ClientState, sequenceId: nat)
              | Assets(asset: nat, confirmed: int, attempt: int, sequenceId: nat)
              | Flush

  predicate ShapedOp(op: Op) { op.Load? ==> ShapedCopy(op.state) }

  /** A load stages the difference to the visible balances on top of what is already staged. */
  function Apply(v: View<Account>, op: Op): (r: View<Account>)
    requires ShapedView(v) && ShapedOp(op)
    ensures ShapedView(r)
  {
    match op
    case Load(s, id) =>
      v.(staged := Copy(s.assets, Add(v.staged.funds, Minus(s.funds, v.visible.funds)), s.fields.(sequenceId := id)))
    case Assets(asset, confirmed, attempt, id) =>
      v.(staged := Copy(v.staged.assets, Add(v.staged.funds, Credit(v.staged.assets, asset, confirmed, attempt)),
                        v.staged.fields.(sequenceId := id)))
    case Flush => View(v.staged, v.staged)
  }

  predicate ShapedOps(ops: seq<Op>) { forall k :: 0 <= k < |ops| ==> ShapedOp(ops[k]) }

  function ApplyAll(v: View<Account>, ops: seq<Op>): (r: View<Account>)
    requires ShapedView(v) && ShapedOps(ops)
    ensures ShapedView(r)
    decreases |ops|
  {
    if ops == [] then v else ApplyAll(Apply(v, ops[0]), ops[1..])
  }

  /** Loading a state makes exactly that state visible at the next flush if, and only if, no unflushed
      balance change was pending. */
  lemma {:induction false} LoadIsExactIffSettled(v: View<Account>, s: ClientState, id: nat)
    requires ShapedView(v) && ShapedCopy(s)
    ensures var r := Apply(Apply(v, Load(s, id)), Flush).visible;
            && r.assets == s.assets && r.fields == s.fields.(sequenceId := id)
            && (r.funds == s.funds <==> v.staged.funds == v.visible.funds)
  {
    var x := Add(v.staged.funds, Minus(s.funds, v.visible.funds));
    if v.staged.funds == v.visible.funds { AddDifference(v.visible.funds, s.funds); }
    if x == s.funds {
      forall i | 0 <= i < MAX_POSITIONS
        ensures v.staged.funds.confirmed[i] == v.visible.funds.confirmed[i]
                && v.staged.funds.attempt[i] == v.visible.funds.attempt[i]
      {
        assert x.confirmed[i] == s.funds.confirmed[i] && x.attempt[i] == s.funds.attempt[i];
      }
      SameFunds(v.staged.funds, v.visible.funds);
    }
  }

  function ConfirmedAt(asset: nat): Op -> int {
    (op: Op) => if op.Assets? && op.asset == asset then op.confirmed else 0
  }

  function AttemptAt(asset: nat): Op -> int { (op: Op) => if op.Assets? && op.asset == asset then op.attempt else 0 }

  predicate NoLoad(ops: seq<Op>) { forall k :: 0 <= k < |ops| ==> !ops[k].Load? }

  /** Without loads the staged balances are the starting ones plus every delta on the position's asset. */
  lemma {:induction false} StagedAccumulates(v: View<Account>, ops: seq<Op>, i: nat)
    requires ShapedView(v) && ShapedOps(ops) && NoLoad(ops) && i < MAX_POSITIONS
    ensures var r := ApplyAll(v, ops).staged;
            && r.assets == v.staged.assets
            && r.fields.(sequenceId := 0) == v.staged.fields.(sequenceId := 0)
            && r.funds.confirmed[i] == v.staged.funds.confirmed[i] + Sum(ops, ConfirmedAt(v.staged.assets[i]))
            && r.funds.attempt[i] == v.staged.funds.attempt[i] + Sum(ops, AttemptAt(v.staged.assets[i]))
    decreases |ops|
  {
    if ops != [] { StagedAccumulates(Apply(v, ops[0]), ops[1..], i); }
  }

  lemma {:induction false} ApplyConcat(v: View<Account>, a: seq<Op>, b: seq<Op>)
    requires ShapedView(v) && ShapedOps(a) && ShapedOps(b)
    ensures ShapedOps(a + b) && ApplyAll(v, a + b) == ApplyAll(ApplyAll(v, a), b)
    decreases |a|
  {
    if a == [] {
      assert a + b == b;
    } else {
      assert (a + b)[1..] == a[1..] + b;
      ApplyConcat(Apply(v, a[0]), a[1..], b);
    }
  }

  lemma {:induction false} OneStep(v: View<Account>, op: Op)
    requires ShapedView(v) && ShapedOp(op)
    ensures ShapedOps([op]) && ApplyAll(v, [op]) == Apply(v, op)
  {
    assert [op][1..] == [];
    assert ApplyAll(Apply(v, op), []) == Apply(v, op);
  }

  predicate NoFlush(ops: seq<Op>) { forall k :: 0 <= k < |ops| ==> !ops[k].Flush? }

  lemma {:induction false} HiddenUntilFlush(v: View<Account>, ops: seq<Op>)
    requires ShapedView(v) && ShapedOps(ops) && NoFlush(ops)
    ensures ApplyAll(v, ops).visible == v.visible
    decreases |ops|
  {
    if ops != [] { HiddenUntilFlush(Apply(v, ops[0]), ops[1..]); }
  }

  /** The sequence id the last update left behind. */
  function LastId(ops: seq<Op>, was: nat): nat {
    if ops == [] then was
    else
      var op := ops[|ops| - 1];
      if op.Flush? then LastId(ops[..|ops| - 1], was) else op.sequenceId
  }

  lemma {:induction false} LastIdFirst(op: Op, ops: seq<Op>, was: nat)
    ensures LastId([op] + ops, was) == LastId(ops, if op.Flush? then was else op.sequenceId)
  {
    if ops == [] {
      assert ([op] + ops)[..0] == [];
    } else {
      var n := |ops| - 1;
      assert ([op] + ops)[n + 1] == ops[n] && ([op] + ops)[..n + 1] == [op] + ops[..n];
      LastIdFirst(op, ops[..n], was);
    }
  }

  lemma {:induction false} StagedId(v: View<Account>, ops: seq<Op>)
    requires ShapedView(v) && ShapedOps(ops)
    ensures ApplyAll(v, ops).staged.fields.sequenceId == LastId(ops, v.staged.fields.sequenceId)
    decreases |ops|
  {
    if ops != [] {
      StagedId(Apply(v, ops[0]), ops[1..]);
      LastIdFirst(ops[0], ops[1..], v.staged.fields.sequenceId);
      assert ops == [ops[0]] + ops[1..];
    }
  }

  /** After any history with a flush, readers see the sequence id of the last update before the last flush. */
  lemma {:induction false} VisibleSequence(v: View<Account>, before: seq<Op>, after: seq<Op>)
    requires ShapedView(v) && ShapedOps(before) && ShapedOps(after) && NoFlush(after)
    ensures ShapedOps(before + [Flush] + after)
    ensures ApplyAll(v, before + [Flush] + after).visible.fields.sequenceId
            == LastId(before, v.staged.fields.sequenceId)
  {
    var v1 := ApplyAll(v, before);
    OneStep(v1, Flush);
    ApplyConcat(v, before, [Flush]);
    ApplyConcat(v, before + [Flush], after);
    HiddenUntilFlush(Apply(v1, Flush), after);
    StagedId(v, before);
  }

  /** Whatever came before, once a state has been loaded with nothing pending, the visible balances at a flush are
      the loaded ones plus every delta on the position's asset since, and later unflushed updates do not show. */
  lemma {:induction false} VisibleBalances(v: View<Account>, before: seq<Op>, s: ClientState, id: nat, since: seq<Op>,
                                           after: seq<Op>, i: nat)
    requires ShapedView(v) && ShapedOps(before) && ShapedCopy(s) && ShapedOps(since) && ShapedOps(after)
    requires NoLoad(since) && NoFlush(after) && i < MAX_POSITIONS
    requires ApplyAll(v, before).staged.funds == ApplyAll(v, before).visible.funds
    ensures ShapedOps(before + [Load(s, id)] + since + [Flush] + after)
    ensures var r := ApplyAll(v, before + [Load(s, id)] + since + [Flush] + after).visible;
            && r.assets == s.assets && r.fields == s.fields.(sequenceId := LastId(since, id))
            && r.funds.confirmed[i] == s.funds.confirmed[i] + Sum(since, ConfirmedAt(s.assets[i]))
            && r.funds.attempt[i] == s.funds.attempt[i] + Sum(since, AttemptAt(s.assets[i]))
  {
    var v1 := ApplyAll(v, before);
    var v2 := Apply(v1, Load(s, id));
    var v3 := ApplyAll(v2, since);
    OneStep(v1, Load(s, id));
    OneStep(v3, Flush);
    ApplyConcat(v, before, [Load(s, id)]);
    ApplyConcat(v, before + [Load(s, id)], since);
    ApplyConcat(v, before + [Load(s, id)] + since, [Flush]);
    ApplyConcat(v, before + [Load(s, id)] + since + [Flush], after);
    AddDifference(v1.visible.funds, s.funds);
    StagedAccumulates(v2, since, i);
    StagedId(v2, since);
    HiddenUntilFlush(Apply(v3, Flush), after);
  }

  // ---------------------------------------------------------------- the writer's operations

  method SetClientState(states: ClientStates<Account>, s: ClientState, sequenceId: nat)
    requires states.Valid() && s.fields.clientId < |states.complete| && ShapedCopy(s)
    modifies states
    ensures states.Valid() && |states.complete| == old(|states.complete|)
    ensures states.Views()
            == old(states.Views())[s.fields.clientId :=
                 Apply(old(states.Views()[s.fields.clientId]), Load(s, sequenceId))]
  {
    var c := s.fields.clientId;
    var next, ref, change := states.WriterView(c);
    var delta := change;
    for i := 0 to MAX_POSITIONS
      invariant Shaped(delta)
      invariant forall k :: 0 <= k < MAX_POSITIONS ==>
        delta.confirmed[k] == change.confirmed[k] + if k < i then s.funds.confirmed[k] - ref.confirmed[k] else 0
      invariant forall k :: 0 <= k < MAX_POSITIONS ==>
        delta.attempt[k] == change.attempt[k] + if k < i then s.funds.attempt[k] - ref.attempt[k] else 0
    {
      delta := Funds(delta.confirmed[i := delta.confirmed[i] + (s.funds.confirmed[i] - ref.confirmed[i])],
                     delta.attempt[i := delta.attempt[i] + (s.funds.attempt[i] - ref.attempt[i])]);
    }
    SameFunds(delta, Add(change, Minus(s.funds, ref)));
    AddAssociates(ref, change, Minus(s.funds, ref));
    states.Stage(c, s.assets, s.fields.(sequenceId := sequenceId), delta);
  }

  method SetClientAssets(states: ClientStates<Account>, c: nat, confirmed: int, attempt: int, asset: nat,
                         sequenceId: nat)
    requires states.Valid() && c < |states.complete|
    modifies states
    ensures states.Valid() && |states.complete| == old(|states.complete|)
    ensures states.Views()
            == old(states.Views())[c := Apply(old(states.Views()[c]), Assets(asset, confirmed, attempt, sequenceId))]
  {
    var next, ref, change := states.WriterView(c);
    var delta := CreditAsset(change, next.assets, asset, confirmed, attempt);
    AddAssociates(ref, change, Credit(next.assets, asset, confirmed, attempt));
    states.Stage(c, next.assets, next.fields.(sequenceId := sequenceId), delta);
  }
}
