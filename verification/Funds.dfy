/** Per-client balance columns and the rotation of their three copies. The same arithmetic serves the order
    gateway and the account service. */
module Funds {

  const MAX_POSITIONS: nat := 16

  /** One column of confirmed and one of attempted amounts; a balance, or a change to one. */
  datatype Funds = Funds(confirmed: seq<int>, attempt: seq<int>)

  predicate Shaped(f: Funds) { |f.confirmed| == MAX_POSITIONS && |f.attempt| == MAX_POSITIONS }

  function Zero(): (f: Funds)
    ensures Shaped(f)
  {
    Funds(seq(MAX_POSITIONS, _ => 0), seq(MAX_POSITIONS, _ => 0))
  }

  function Add(a: Funds, b: Funds): (r: Funds)
    requires Shaped(a) && Shaped(b)
    ensures Shaped(r)
  {
    Funds(seq(MAX_POSITIONS, i requires 0 <= i < MAX_POSITIONS => a.confirmed[i] + b.confirmed[i]),
          seq(MAX_POSITIONS, i requires 0 <= i < MAX_POSITIONS => a.attempt[i] + b.attempt[i]))
  }

  function Minus(a: Funds, b: Funds): (r: Funds)
    requires Shaped(a) && Shaped(b)
    ensures Shaped(r)
  {
    Funds(seq(MAX_POSITIONS, i requires 0 <= i < MAX_POSITIONS => a.confirmed[i] - b.confirmed[i]),
          seq(MAX_POSITIONS, i requires 0 <= i < MAX_POSITIONS => a.attempt[i] - b.attempt[i]))
  }

  /** The change that credits every position holding `asset`. */
  function Credit(assets: seq<nat>, asset: nat, confirmed: int, attempt: int): (r: Funds)
    requires |assets| == MAX_POSITIONS
    ensures Shaped(r)
  {
    Funds(seq(MAX_POSITIONS, i requires 0 <= i < MAX_POSITIONS => if assets[i] == asset then confirmed else 0),
          seq(MAX_POSITIONS, i requires 0 <= i < MAX_POSITIONS => if assets[i] == asset then attempt else 0))
  }

  lemma {:induction false} SameFunds(a: Funds, b: Funds)
    requires Shaped(a) && Shaped(b)
    requires forall i {:trigger a.confirmed[i]} {:trigger b.confirmed[i]} ::
               0 <= i < MAX_POSITIONS ==> a.confirmed[i] == b.confirmed[i]
    requires forall i {:trigger a.attempt[i]} {:trigger b.attempt[i]} ::
               0 <= i < MAX_POSITIONS ==> a.attempt[i] == b.attempt[i]
    ensures a == b
  {
    assert a.confirmed == b.confirmed && a.attempt == b.attempt;
  }

  lemma {:induction false} AddAssociates(a: Funds, b: Funds, c: Funds)
    requires Shaped(a) && Shaped(b) && Shaped(c)
    ensures Add(Add(a, b), c) == Add(a, Add(b, c))
  {
    SameFunds(Add(Add(a, b), c), Add(a, Add(b, c)));
  }

  lemma {:induction false} AddNothing(a: Funds)
    requires Shaped(a)
    ensures Add(a, Zero()) == a
  {
    SameFunds(Add(a, Zero()), a);
  }

  lemma {:induction false} AddDifference(a: Funds, b: Funds)
    requires Shaped(a) && Shaped(b)
    ensures Add(a, Minus(b, a)) == b
  {
    SameFunds(Add(a, Minus(b, a)), b);
  }

  // ---------------------------------------------------------------- the loops over positions

  /** Adds `change` to `f` position by position. */
  method Merge(f: Funds, change: Funds) returns (r: Funds)
    requires Shaped(f) && Shaped(change)
    ensures r == Add(f, change)
  {
    r := f;
    for i := 0 to MAX_POSITIONS
      invariant Shaped(r)
      invariant forall k :: 0 <= k < MAX_POSITIONS ==>
                  r.confirmed[k] == f.confirmed[k] + if k < i then change.confirmed[k] else 0
      invariant forall k :: 0 <= k < MAX_POSITIONS ==>
                  r.attempt[k] == f.attempt[k] + if k < i then change.attempt[k] else 0
    {
      r := r.(confirmed := r.confirmed[i := r.confirmed[i] + change.confirmed[i]],
              attempt := r.attempt[i := r.attempt[i] + change.attempt[i]]);
    }
    SameFunds(r, Add(f, change));
  }

  /** Adds to `f` at every position whose asset is `asset`. */
  method CreditAsset(f: Funds, assets: seq<nat>, asset: nat, confirmed: int, attempt: int) returns (r: Funds)
    requires Shaped(f) && |assets| == MAX_POSITIONS
    ensures r == Add(f, Credit(assets, asset, confirmed, attempt))
  {
    r := f;
    for i := 0 to MAX_POSITIONS
      invariant Shaped(r)
      invariant forall k :: 0 <= k < MAX_POSITIONS ==>
                  r.confirmed[k] == f.confirmed[k] + if k < i && assets[k] == asset then confirmed else 0
      invariant forall k :: 0 <= k < MAX_POSITIONS ==>
                  r.attempt[k] == f.attempt[k] + if k < i && assets[k] == asset then attempt else 0
    {
      if assets[i] == asset {
        r := r.(confirmed := r.confirmed[i := r.confirmed[i] + confirmed],
                attempt := r.attempt[i := r.attempt[i] + attempt]);
      }
    }
    SameFunds(r, Add(f, Credit(assets, asset, confirmed, attempt)));
  }

  /** Resets the change of generation `k` and brings the oldest copy up to date with all three changes,
      position by position. */
  method Settle(f: Funds, changes: seq<Funds>, k: nat) returns (r: Funds, settled: seq<Funds>)
    requires Shaped(f) && |changes| == 3 && k < 3 && forall j :: 0 <= j < 3 ==> Shaped(changes[j])
    ensures settled == changes[k := Zero()]
    ensures r == Add(f, Add(changes[Next(k)], changes[Next(Next(k))]))
  {
    r := f;
    var reset := changes[k];
    ghost var x, y := changes[Next(k)], changes[Next(Next(k))];
    settled := changes;
    for i := 0 to MAX_POSITIONS
      invariant Shaped(r) && Shaped(reset) && settled == changes[k := reset]
      invariant forall j :: 0 <= j < i ==> reset.confirmed[j] == 0 && reset.attempt[j] == 0
      invariant forall j :: 0 <= j < MAX_POSITIONS ==>
                  r.confirmed[j] == f.confirmed[j] + if j < i then x.confirmed[j] + y.confirmed[j] else 0
      invariant forall j :: 0 <= j < MAX_POSITIONS ==>
                  r.attempt[j] == f.attempt[j] + if j < i then x.attempt[j] + y.attempt[j] else 0
    {
      reset := reset.(confirmed := reset.confirmed[i := 0], attempt := reset.attempt[i := 0]);
      settled := settled[k := reset];
      var c := settled[0].confirmed[i] + settled[1].confirmed[i] + settled[2].confirmed[i];
      var a := settled[0].attempt[i] + settled[1].attempt[i] + settled[2].attempt[i];
      r := r.(confirmed := r.confirmed[i := r.confirmed[i] + c], attempt := r.attempt[i := r.attempt[i] + a]);
    }
    SameFunds(reset, Zero());
    SameFunds(r, Add(f, Add(x, y)));
  }

  // ---------------------------------------------------------------- rotation

  function Next(k: nat): (n: nat)
    requires k < 3
    ensures n < 3
  {
    if k == 2 then 0 else k + 1
  }

  /** The next copy equals the visible one; the third lags by exactly its own generation's change. */
  ghost predicate Rotates(copies: seq<Funds>, changes: seq<Funds>, k: nat) {
    && |copies| == 3 && |changes| == 3 && k < 3
    && (forall j :: 0 <= j < 3 ==> Shaped(copies[j]) && Shaped(changes[j]))
    && copies[Next(k)] == copies[k]
    && Add(copies[Next(Next(k))], changes[Next(Next(k))]) == copies[k]
  }

  function FlushedCopies(copies: seq<Funds>, changes: seq<Funds>, k: nat): seq<Funds>
    requires |copies| == 3 && |changes| == 3 && k < 3
    requires forall j :: 0 <= j < 3 ==> Shaped(copies[j]) && Shaped(changes[j])
  {
    var n, t := Next(k), Next(Next(k));
    copies[n := Add(copies[n], changes[k])][t := Add(copies[t], Add(changes[t], changes[k]))]
  }

  lemma {:induction false} FlushRotates(copies: seq<Funds>, changes: seq<Funds>, k: nat)
    requires Rotates(copies, changes, k)
    ensures var copies' := FlushedCopies(copies, changes, k);
            && Rotates(copies', changes[Next(k) := Zero()], Next(k))
            && copies'[Next(k)] == Add(copies[k], changes[k])
  {
    var t := Next(Next(k));
    AddAssociates(copies[t], changes[t], changes[k]);
  }
}
