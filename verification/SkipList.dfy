/** The ordered price index. A pointer is an index into the node pool's storage, -1 is null. The forward
    arrays are kept level by level: `forward[l][p]` is entry `l` of node `p`'s array. */
module SkipList {
  import opened Seqs
  import opened Sealing

  const NULL: int := -1

  datatype SkipNode = SkipNode(key: int, value: int, height: nat)

  /** Order of keys under the comparator: std::less for asks, std::greater for bids. */
  function Rank(descending: bool, key: int): int { if descending then -key else key }

  // ---------------------------------------------------------------- one level

  /** The next position after `i` whose node reaches level `l`; the last position reaches them all. */
  ghost function NextAt(hs: seq<nat>, i: nat, l: nat): (j: nat)
    requires i + 1 < |hs| && hs[|hs| - 1] >= l
    ensures i < j < |hs| && hs[j] >= l
    ensures forall k :: i < k < j ==> hs[k] < l
    decreases |hs| - i
  {
    if hs[i + 1] >= l then i + 1 else NextAt(hs, i + 1, l)
  }

  lemma {:induction false} NextUnique(hs: seq<nat>, i: nat, l: nat, j: nat)
    requires i < j < |hs| && hs[|hs| - 1] >= l && hs[j] >= l
    requires forall k :: i < k < j ==> hs[k] < l
    ensures NextAt(hs, i, l) == j
  {
  }

  ghost predicate Links(next: seq<int>, path: seq<int>, hs: seq<nat>, l: nat, i: nat)
    requires |hs| == |path| && InRange(path, |next|) && i + 1 < |path| && hs[|hs| - 1] >= l
  {
    next[path[i]] == path[NextAt(hs, i, l)]
  }

  /** Level `l` links exactly the nodes that reach it, in path order, so that each level is a sublist of
      the one below. */
  ghost predicate LevelOk(next: seq<int>, path: seq<int>, hs: seq<nat>, l: nat) {
    && |hs| == |path| >= 2 && InRange(path, |next|) && hs[|hs| - 1] >= l
    && forall i {:trigger Links(next, path, hs, l, i)} :: 0 <= i < |path| - 1 && hs[i] >= l ==>
         Links(next, path, hs, l, i)
  }

  /** Where position `i`'s link leads once height `h` stands at position `k`. */
  lemma {:induction false} SplicedNext(hs: seq<nat>, k: nat, h: nat, i: nat, l: nat)
    requires 1 <= k < |hs| && hs[|hs| - 1] >= l && i + 1 < |hs|
    ensures var j := NextAt(hs, i, l);
            NextAt(Spliced(hs, k, h), if i >= k then i + 1 else i, l)
            == if i >= k then j + 1 else if j < k then j else if l <= h then k else j + 1
  {
    var j, hs' := NextAt(hs, i, l), Spliced(hs, k, h);
    NextUnique(hs', if i >= k then i + 1 else i, l,
               if i >= k then j + 1 else if j < k then j else if l <= h then k else j + 1);
  }

  lemma {:induction false} SplicedOwnNext(hs: seq<nat>, k: nat, h: nat, a: nat, l: nat)
    requires a < k < |hs| && hs[|hs| - 1] >= l && NextAt(hs, a, l) >= k
    ensures NextAt(Spliced(hs, k, h), k, l) == NextAt(hs, a, l) + 1
  {
    NextUnique(Spliced(hs, k, h), k, l, NextAt(hs, a, l) + 1);
  }

  lemma {:induction false} CutNext(hs: seq<nat>, d: nat, i: nat, l: nat)
    requires 1 <= d < |hs| - 1 && hs[|hs| - 1] >= l && i + 1 < |hs| && i != d
    ensures var j := NextAt(hs, i, l);
            NextAt(Cut(hs, d), if i > d then i - 1 else i, l)
            == if j < d then j else if j == d then NextAt(hs, d, l) - 1 else j - 1
  {
    var j, hs' := NextAt(hs, i, l), Cut(hs, d);
    var i' := if i > d then i - 1 else i;
    var j' := if j < d then j else if j == d then NextAt(hs, d, l) - 1 else j - 1;
    forall m | i' < m < j' ensures hs'[m] < l {
      assert hs'[m] == hs[if m < d then m else m + 1];
    }
    NextUnique(hs', i', l, j');
  }

  /** `a` is the last position before `k` that reaches level `l`. */
  ghost predicate Precedes(hs: seq<nat>, l: nat, a: nat, k: nat) {
    a < k < |hs| && hs[a] >= l && hs[|hs| - 1] >= l && NextAt(hs, a, l) >= k
  }

  lemma {:induction false} OnlyPredecessor(hs: seq<nat>, l: nat, a: nat, k: nat, i: nat)
    requires Precedes(hs, l, a, k) && i + 1 < |hs| && hs[i] >= l
    ensures i < k <= NextAt(hs, i, l) <==> i == a
  {
  }

  /** The node position `i`'s level-`l` link leads to once `n` stands at `k`. */
  lemma {:induction false} SplicedTarget(path: seq<int>, hs: seq<nat>, l: nat, k: nat, n: int, h: nat, i: nat)
    requires |path| == |hs| && 1 <= k < |hs| && hs[|hs| - 1] >= l && i + 1 < |hs|
    ensures Spliced(path, k, n)[NextAt(Spliced(hs, k, h), if i >= k then i + 1 else i, l)]
            == if i < k <= NextAt(hs, i, l) && l <= h then n else path[NextAt(hs, i, l)]
  {
    SplicedNext(hs, k, h, i, l);
  }

  lemma {:induction false} CutTarget(path: seq<int>, hs: seq<nat>, l: nat, d: nat, i: nat)
    requires |path| == |hs| && 1 <= d < |hs| - 1 && hs[|hs| - 1] >= l && i + 1 < |hs| && i != d
    ensures Cut(path, d)[NextAt(Cut(hs, d), if i > d then i - 1 else i, l)]
            == path[NextAt(hs, if NextAt(hs, i, l) == d then d else i, l)]
  {
    CutNext(hs, d, i, l);
  }

  /** Splicing `n` in at `k`: on a level it reaches it goes between its predecessor `a` and the
      predecessor's successor; on the others only its own, unused entry is set. */
  ghost function SplicedLinks(next: seq<int>, path: seq<int>, l: nat, n: int, h: nat, a: nat): seq<int>
    requires InRange(path, |next|) && path != [] && a < |path| && 0 <= n < |next|
  {
    if l > h then next[n := path[|path| - 1]] else next[n := next[path[a]]][path[a] := n]
  }

  lemma {:induction false} SpliceLink(next: seq<int>, path: seq<int>, hs: seq<nat>, l: nat, k: nat, n: int, h: nat,
                                      a: nat, i: nat)
    requires |hs| == |path| && InRange(path, |next|) && NoRepeats(path) && 1 <= k < |path|
    requires 0 <= n < |next| && n !in path && Precedes(hs, l, a, k)
    requires i + 1 < |path| && hs[i] >= l && Links(next, path, hs, l, i)
    requires InRange(Spliced(path, k, n), |next|)
    ensures Links(SplicedLinks(next, path, l, n, h, a), Spliced(path, k, n), Spliced(hs, k, h), l,
                  if i >= k then i + 1 else i)
  {
    SplicedTarget(path, hs, l, k, n, h, i);
    OnlyPredecessor(hs, l, a, k, i);
    if i < a { assert Differ(path, i, a); } else if a < i { assert Differ(path, a, i); }
  }

  lemma {:induction false} SpliceOwnLink(next: seq<int>, path: seq<int>, hs: seq<nat>, l: nat, k: nat, n: int, h: nat,
                                         a: nat)
    requires |hs| == |path| && InRange(path, |next|) && 1 <= k < |path|
    requires 0 <= n < |next| && n !in path && Precedes(hs, l, a, k) && l <= h
    requires Links(next, path, hs, l, a)
    requires InRange(Spliced(path, k, n), |next|)
    ensures Links(SplicedLinks(next, path, l, n, h, a), Spliced(path, k, n), Spliced(hs, k, h), l, k)
  {
    SplicedOwnNext(hs, k, h, a, l);
  }

  lemma {:induction false} SpliceLevel(next: seq<int>, path: seq<int>, hs: seq<nat>, l: nat, k: nat, n: int, h: nat,
                                       a: nat)
    requires LevelOk(next, path, hs, l) && NoRepeats(path) && 1 <= k < |path|
    requires 0 <= n < |next| && n !in path && Precedes(hs, l, a, k)
    ensures LevelOk(SplicedLinks(next, path, l, n, h, a), Spliced(path, k, n), Spliced(hs, k, h), l)
  {
    var path', hs', next' := Spliced(path, k, n), Spliced(hs, k, h), SplicedLinks(next, path, l, n, h, a);
    SplicedRange(path, k, n, |next|);
    assert |next'| == |next| && |path'| == |hs'|;
    if l <= h {
      assert Links(next, path, hs, l, a);
      SpliceOwnLink(next, path, hs, l, k, n, h, a);
    }
    forall i {:trigger Links(next', path', hs', l, i)} | 0 <= i < |path'| - 1 && hs'[i] >= l
      ensures Links(next', path', hs', l, i)
    {
      if i < k {
        assert Links(next, path, hs, l, i);
        SpliceLink(next, path, hs, l, k, n, h, a, i);
      } else if i > k {
        assert Links(next, path, hs, l, i - 1);
        SpliceLink(next, path, hs, l, k, n, h, a, i - 1);
      }
    }
  }

  /** Cutting position `d` out: on the levels it reaches its predecessor takes over its link. */
  ghost function CutLinks(next: seq<int>, path: seq<int>, hs: seq<nat>, l: nat, d: nat, a: nat): seq<int>
    requires InRange(path, |next|) && a < |path| && d < |path| && |hs| == |path|
  {
    if l > hs[d] then next else next[path[a] := next[path[d]]]
  }

  lemma {:induction false} CutLink(next: seq<int>, path: seq<int>, hs: seq<nat>, l: nat, d: nat, a: nat, i: nat)
    requires |hs| == |path| && InRange(path, |next|) && NoRepeats(path) && 1 <= d < |path| - 1 && Precedes(hs, l, a, d)
    requires i + 1 < |path| && i != d && hs[i] >= l && Links(next, path, hs, l, i)
    requires hs[d] >= l ==> Links(next, path, hs, l, d)
    requires InRange(Cut(path, d), |next|)
    ensures Links(CutLinks(next, path, hs, l, d, a), Cut(path, d), Cut(hs, d), l, if i > d then i - 1 else i)
  {
    CutTarget(path, hs, l, d, i);
    OnlyPredecessor(hs, l, a, d, i);
    if i < a { assert Differ(path, i, a); } else if a < i { assert Differ(path, a, i); }
    if i == a && hs[d] >= l { NextUnique(hs, i, l, d); }
  }

  lemma {:induction false} CutLevel(next: seq<int>, path: seq<int>, hs: seq<nat>, l: nat, d: nat, a: nat)
    requires LevelOk(next, path, hs, l) && NoRepeats(path) && 1 <= d < |path| - 1 && Precedes(hs, l, a, d)
    ensures LevelOk(CutLinks(next, path, hs, l, d, a), Cut(path, d), Cut(hs, d), l)
  {
    var path', hs', next' := Cut(path, d), Cut(hs, d), CutLinks(next, path, hs, l, d, a);
    CutRange(path, d, |next|);
    forall i | 0 <= i < |path'| - 1 && hs'[i] >= l ensures Links(next', path', hs', l, i) {
      var o := if i < d then i else i + 1;
      assert Links(next, path, hs, l, o);
      if hs[d] >= l { assert Links(next, path, hs, l, d); }
      CutLink(next, path, hs, l, d, a, o);
    }
  }

  // ---------------------------------------------------------------- the whole list

  ghost predicate Ordered(desc: bool, nodes: seq<SkipNode>, path: seq<int>, i: nat, j: nat)
    requires InRange(path, |nodes|) && i < |path| && j < |path|
  {
    Rank(desc, nodes[path[i]].key) < Rank(desc, nodes[path[j]].key)
  }

  ghost predicate Increasing(desc: bool, nodes: seq<SkipNode>, path: seq<int>)
    requires InRange(path, |nodes|)
  {
    forall i, j {:trigger Ordered(desc, nodes, path, i, j)} :: 0 <= i < j < |path| ==> Ordered(desc, nodes, path, i, j)
  }

  ghost predicate Heights(nodes: seq<SkipNode>, path: seq<int>, hs: seq<nat>, max: nat)
    requires InRange(path, |nodes|)
  {
    && |hs| == |path| >= 2 && hs[0] == max && hs[|hs| - 1] == max
    && forall i :: 0 <= i < |path| ==> nodes[path[i]].height == hs[i] <= max
  }

  ghost predicate Linked(forward: seq<seq<int>>, size: nat, path: seq<int>, hs: seq<nat>, max: nat) {
    && |forward| == max + 1
    && forall l {:trigger forward[l]} :: 0 <= l <= max ==> |forward[l]| == size && LevelOk(forward[l], path, hs, l)
  }

  /** Strictly sorted by rank, linked level by level. */
  ghost predicate Ok(desc: bool, nodes: seq<SkipNode>, forward: seq<seq<int>>, path: seq<int>, hs: seq<nat>, max: nat) {
    && InRange(path, |nodes|) && NoRepeats(path)
    && Increasing(desc, nodes, path) && Heights(nodes, path, hs, max)
    && Linked(forward, |nodes|, path, hs, max)
  }

  ghost predicate HasKey(nodes: seq<SkipNode>, path: seq<int>, key: int)
    requires InRange(path, |nodes|)
  {
    exists i :: 1 <= i < |path| - 1 && nodes[path[i]].key == key
  }

  /** The list stands for the map `m`; the sentinels at both ends hold no entry. */
  ghost predicate Represents(nodes: seq<SkipNode>, path: seq<int>, m: map<int, int>)
    requires InRange(path, |nodes|)
  {
    && (forall i :: 1 <= i < |path| - 1 ==> nodes[path[i]].key in m && m[nodes[path[i]].key] == nodes[path[i]].value)
    && (forall k {:trigger HasKey(nodes, path, k)} :: k in m ==> HasKey(nodes, path, k))
  }

  /** Every pool slot is free once or on the path, never both. */
  ghost predicate PoolOk(size: nat, free: seq<int>, path: seq<int>) {
    && NoRepeats(free) && InRange(free, size)
    && |free| + |path| == size
    && (forall x {:trigger InOne(free, path, x)} :: 0 <= x < size ==> InOne(free, path, x))
  }

  ghost predicate InOne(free: seq<int>, path: seq<int>, x: int) { x in free <==> x !in path }

  /** A new node in its place keeps the order, the heights and the map. */
  lemma {:induction false} SpliceNodes(desc: bool, nodes: seq<SkipNode>, path: seq<int>, hs: seq<nat>, max: nat,
                                       k: nat, n: int, node: SkipNode)
    requires InRange(path, |nodes|) && NoRepeats(path) && Increasing(desc, nodes, path) && Heights(nodes, path, hs, max)
    requires 1 <= k < |path| && 0 <= n < |nodes| && n !in path && node.height <= max
    requires Rank(desc, nodes[path[k - 1]].key) < Rank(desc, node.key) < Rank(desc, nodes[path[k]].key)
    ensures var path' := Spliced(path, k, n);
            && InRange(path', |nodes|) && NoRepeats(path')
            && Increasing(desc, nodes[n := node], path')
            && Heights(nodes[n := node], path', Spliced(hs, k, node.height), max)
  {
    SplicedRange(path, k, n, |nodes|);
    SpliceIncreasing(desc, nodes, path, k, n, node);
    SpliceHeights(nodes, path, hs, max, k, n, node);
  }

  lemma {:induction false} SpliceHeights(nodes: seq<SkipNode>, path: seq<int>, hs: seq<nat>, max: nat,
                                         k: nat, n: int, node: SkipNode)
    requires InRange(path, |nodes|) && Heights(nodes, path, hs, max)
    requires 1 <= k < |path| && 0 <= n < |nodes| && n !in path && node.height <= max
    requires InRange(Spliced(path, k, n), |nodes|)
    ensures Heights(nodes[n := node], Spliced(path, k, n), Spliced(hs, k, node.height), max)
  {
    var path', hs' := Spliced(path, k, n), Spliced(hs, k, node.height);
    forall i | 0 <= i < |path'| ensures nodes[n := node][path'[i]].height == hs'[i] <= max {
      if i != k { assert path'[i] == path[if i < k then i else i - 1]; }
    }
  }

  lemma {:induction false} SpliceIncreasing(desc: bool, nodes: seq<SkipNode>, path: seq<int>, k: nat, n: int,
                                            node: SkipNode)
    requires InRange(path, |nodes|) && NoRepeats(path) && Increasing(desc, nodes, path)
    requires 1 <= k < |path| && 0 <= n < |nodes| && n !in path
    requires Rank(desc, nodes[path[k - 1]].key) < Rank(desc, node.key) < Rank(desc, nodes[path[k]].key)
    requires InRange(Spliced(path, k, n), |nodes|)
    ensures NoRepeats(Spliced(path, k, n)) && Increasing(desc, nodes[n := node], Spliced(path, k, n))
  {
    var path', nodes' := Spliced(path, k, n), nodes[n := node];
    forall i, j | 0 <= i < j < |path'|
      ensures Differ(path', i, j) && Ordered(desc, nodes', path', i, j)
    {
      var a, b := if i > k then i - 1 else i, if j > k then j - 1 else j;
      if i == k {
        assert path'[j] == path[b] && (b > k ==> Ordered(desc, nodes, path, k, b));
      } else if j == k {
        assert path'[i] == path[a] && (a < k - 1 ==> Ordered(desc, nodes, path, a, k - 1));
      } else {
        assert path'[i] == path[a] && path'[j] == path[b] && Ordered(desc, nodes, path, a, b) && Differ(path, a, b);
      }
    }
  }

  lemma {:induction false} SpliceRepresents(desc: bool, nodes: seq<SkipNode>, path: seq<int>, k: nat, n: int,
                                            node: SkipNode, m: map<int, int>)
    requires InRange(path, |nodes|) && Represents(nodes, path, m)
    requires 1 <= k < |path| && 0 <= n < |nodes| && n !in path
    requires InRange(Spliced(path, k, n), |nodes|) && Increasing(desc, nodes[n := node], Spliced(path, k, n))
    ensures Represents(nodes[n := node], Spliced(path, k, n), m[node.key := node.value])
  {
    var path', nodes', m' := Spliced(path, k, n), nodes[n := node], m[node.key := node.value];
    forall i | 1 <= i < |path'| - 1
      ensures nodes'[path'[i]].key in m' && m'[nodes'[path'[i]].key] == nodes'[path'[i]].value
    {
      if i != k {
        assert path'[i] == path[if i < k then i else i - 1];
        assert if i < k then Ordered(desc, nodes', path', i, k) else Ordered(desc, nodes', path', k, i);
      }
    }
    forall x | x in m' ensures HasKey(nodes', path', x) {
      if x == node.key {
        assert nodes'[path'[k]].key == x;
      } else {
        assert HasKey(nodes, path, x);
        var i :| 1 <= i < |path| - 1 && nodes[path[i]].key == x;
        assert path'[if i < k then i else i + 1] == path[i];
      }
    }
  }

  lemma {:induction false} CutNodes(desc: bool, nodes: seq<SkipNode>, path: seq<int>, hs: seq<nat>, max: nat, d: nat)
    requires InRange(path, |nodes|) && NoRepeats(path) && Increasing(desc, nodes, path) && Heights(nodes, path, hs, max)
    requires 1 <= d < |path| - 1
    ensures var path' := Cut(path, d);
            && InRange(path', |nodes|) && NoRepeats(path')
            && Increasing(desc, nodes, path') && Heights(nodes, path', Cut(hs, d), max)
  {
    CutRange(path, d, |nodes|);
    var path' := Cut(path, d);
    forall i, j | 0 <= i < j < |path'| ensures Differ(path', i, j) && Ordered(desc, nodes, path', i, j) {
      var a, b := if i < d then i else i + 1, if j < d then j else j + 1;
      assert Differ(path, a, b) && Ordered(desc, nodes, path, a, b);
    }
  }

  lemma {:induction false} CutRepresents(desc: bool, nodes: seq<SkipNode>, path: seq<int>, d: nat, m: map<int, int>)
    requires InRange(path, |nodes|) && Represents(nodes, path, m) && Increasing(desc, nodes, path)
    requires 1 <= d < |path| - 1 && InRange(Cut(path, d), |nodes|)
    ensures Represents(nodes, Cut(path, d), m - {nodes[path[d]].key})
  {
    var path' := Cut(path, d);
    forall i | 1 <= i < |path'| - 1
      ensures nodes[path'[i]].key in m && nodes[path'[i]].key != nodes[path[d]].key
      ensures m[nodes[path'[i]].key] == nodes[path'[i]].value
    {
      assert path'[i] == path[if i < d then i else i + 1];
      assert if i < d then Ordered(desc, nodes, path, i, d) else Ordered(desc, nodes, path, d, i + 1);
    }
    forall x | x in m && x != nodes[path[d]].key ensures HasKey(nodes, path', x) {
      CutHasKey(nodes, path, d, x);
    }
  }

  lemma {:induction false} CutHasKey(nodes: seq<SkipNode>, path: seq<int>, d: nat, x: int)
    requires InRange(path, |nodes|) && 1 <= d < |path| - 1 && InRange(Cut(path, d), |nodes|)
    requires HasKey(nodes, path, x) && x != nodes[path[d]].key
    ensures HasKey(nodes, Cut(path, d), x)
  {
    var i :| 1 <= i < |path| - 1 && nodes[path[i]].key == x;
    assert Cut(path, d)[if i < d then i else i - 1] == path[i];
  }

  lemma {:induction false} SplicePool(size: nat, free: seq<int>, path: seq<int>, k: nat)
    requires PoolOk(size, free, path) && free != [] && k <= |path|
    ensures var n := free[|free| - 1];
            0 <= n < size && n !in path && PoolOk(size, free[..|free| - 1], Spliced(path, k, n))
  {
    var n, free' := free[|free| - 1], free[..|free| - 1];
    var path' := Spliced(path, k, n);
    forall i, j | 0 <= i < j < |free'| ensures Differ(free', i, j) { assert Differ(free, i, j); }
    forall i | 0 <= i < |free'| ensures free'[i] != n { assert Differ(free, i, |free| - 1); }
    assert n in free && InOne(free, path, n);
    forall x {:trigger InOne(free', path', x)} | 0 <= x < size ensures InOne(free', path', x) {
      assert InOne(free, path, x);
      SplicedMembers(path, k, n, x);
      if x in free && x != n { var i :| 0 <= i < |free| && free[i] == x; assert free'[i] == x; }
    }
  }

  lemma {:induction false} CutPool(size: nat, free: seq<int>, path: seq<int>, d: nat)
    requires PoolOk(size, free, path) && NoRepeats(path) && InRange(path, size) && d < |path|
    ensures PoolOk(size, free + [path[d]], Cut(path, d))
  {
    var n, free', path' := path[d], free + [path[d]], Cut(path, d);
    assert path[d] in path && InOne(free, path, n);
    forall i, j | 0 <= i < j < |free'| ensures Differ(free', i, j) {
      if j < |free| { assert Differ(free, i, j); } else { assert free[i] in free; }
    }
    forall x {:trigger InOne(free', path', x)} | 0 <= x < size ensures InOne(free', path', x) {
      assert InOne(free, path, x);
      CutMembers(path, d, x);
      if x in free { var i :| 0 <= i < |free| && free[i] == x; assert free'[i] == x; }
      assert free'[|free|] == n;
    }
  }

  lemma {:induction false} SpliceAll(desc: bool, nodes: seq<SkipNode>, path: seq<int>, hs: seq<nat>, max: nat,
                                     free: seq<int>, m: map<int, int>, k: nat, node: SkipNode)
    requires InRange(path, |nodes|) && NoRepeats(path) && Increasing(desc, nodes, path) && Heights(nodes, path, hs, max)
    requires PoolOk(|nodes|, free, path) && Represents(nodes, path, m) && free != []
    requires 1 <= k < |path| && node.height <= max
    requires Rank(desc, nodes[path[k - 1]].key) < Rank(desc, node.key) < Rank(desc, nodes[path[k]].key)
    ensures var n := free[|free| - 1];
            var nodes', path' := nodes[n := node], Spliced(path, k, n);
            && 0 <= n < |nodes| && n !in path && |nodes'| == |nodes|
            && InRange(path', |nodes'|) && NoRepeats(path')
            && Increasing(desc, nodes', path') && Heights(nodes', path', Spliced(hs, k, node.height), max)
            && PoolOk(|nodes'|, free[..|free| - 1], path')
            && Represents(nodes', path', m[node.key := node.value])
            && path'[0] == path[0] && path'[|path'| - 1] == path[|path| - 1]
            && nodes'[path[0]] == nodes[path[0]] && nodes'[path[|path| - 1]] == nodes[path[|path| - 1]]
  {
    var n := free[|free| - 1];
    var nodes', path' := nodes[n := node], Spliced(path, k, n);
    assert 0 <= n < |nodes| && n !in path && PoolOk(|nodes'|, free[..|free| - 1], path') by {
      SplicePool(|nodes|, free, path, k);
    }
    assert && InRange(path', |nodes'|) && NoRepeats(path')
           && Increasing(desc, nodes', path') && Heights(nodes', path', Spliced(hs, k, node.height), max) by {
      SpliceNodes(desc, nodes, path, hs, max, k, n, node);
    }
    assert Represents(nodes', path', m[node.key := node.value]) by {
      SpliceRepresents(desc, nodes, path, k, n, node, m);
    }
    SpliceEnds(nodes, path, k, n, node);
  }

  lemma {:induction false} SpliceEnds(nodes: seq<SkipNode>, path: seq<int>, k: nat, n: int, node: SkipNode)
    requires InRange(path, |nodes|) && 1 <= k < |path| && 0 <= n < |nodes| && n !in path
    ensures var nodes', path' := nodes[n := node], Spliced(path, k, n);
            && path'[0] == path[0] && path'[|path'| - 1] == path[|path| - 1]
            && nodes'[path[0]] == nodes[path[0]] && nodes'[path[|path| - 1]] == nodes[path[|path| - 1]]
  {
    assert path[0] in path && path[|path| - 1] in path;
  }

  lemma {:induction false} CutAll(desc: bool, nodes: seq<SkipNode>, path: seq<int>, hs: seq<nat>, max: nat,
                                  free: seq<int>, m: map<int, int>, d: nat)
    requires InRange(path, |nodes|) && NoRepeats(path) && Increasing(desc, nodes, path) && Heights(nodes, path, hs, max)
    requires PoolOk(|nodes|, free, path) && Represents(nodes, path, m)
    requires 1 <= d < |path| - 1
    ensures var path' := Cut(path, d);
            && InRange(path', |nodes|) && NoRepeats(path')
            && Increasing(desc, nodes, path') && Heights(nodes, path', Cut(hs, d), max)
            && PoolOk(|nodes|, free + [path[d]], path')
            && Represents(nodes, path', m - {nodes[path[d]].key})
            && path'[0] == path[0] && path'[|path'| - 1] == path[|path| - 1]
  {
    CutPool(|nodes|, free, path, d);
    CutNodes(desc, nodes, path, hs, max, d);
    CutRepresents(desc, nodes, path, d, m);
  }

  lemma {:induction false} NonEmptyPath(nodes: seq<SkipNode>, path: seq<int>, m: map<int, int>)
    requires InRange(path, |nodes|) && Represents(nodes, path, m)
    ensures |path| <= 2 ==> m == map[]
  {
    if |path| <= 2 {
      assert forall k :: k in m ==> HasKey(nodes, path, k);
      assert forall k :: k !in m;
    }
  }

  // ---------------------------------------------------------------- searching

  /** Position `a` at level `l` stops short of the bound, its successor does not. */
  ghost predicate Stops(desc: bool, nodes: seq<SkipNode>, path: seq<int>, hs: seq<nat>, a: nat, l: nat, bound: int)
    requires InRange(path, |nodes|)
  {
    && |hs| == |path| && a + 1 < |path| && hs[a] >= l && hs[|hs| - 1] >= l
    && Rank(desc, nodes[path[NextAt(hs, a, l)]].key) >= bound
  }

  /** Per level, the last position whose key ranks below the bound. */
  ghost predicate Found(desc: bool, nodes: seq<SkipNode>, path: seq<int>, hs: seq<nat>, max: nat, at: seq<nat>,
                        bound: int)
    requires InRange(path, |nodes|)
  {
    && |at| == max + 1 && at[0] < |path|
    && (forall l :: 0 <= l <= max ==> Stops(desc, nodes, path, hs, at[l], l, bound) && at[l] <= at[0])
    && (at[0] == 0 || Rank(desc, nodes[path[at[0]]].key) < bound)
  }

  /** A search splits the path at `at[0]`: what comes later does not rank below the bound, and on every
      level the pointer found jumps across the split. */
  lemma {:induction false} FoundSplits(desc: bool, nodes: seq<SkipNode>, path: seq<int>, hs: seq<nat>, max: nat,
                                       at: seq<nat>, bound: int, l: nat)
    requires InRange(path, |nodes|) && Increasing(desc, nodes, path) && Found(desc, nodes, path, hs, max, at, bound)
    requires l <= max
    ensures at[0] + 1 < |path| && Rank(desc, nodes[path[at[0] + 1]].key) >= bound
    ensures Precedes(hs, l, at[l], at[0] + 1)
  {
    assert Stops(desc, nodes, path, hs, at[0], 0, bound);
    assert Stops(desc, nodes, path, hs, at[l], l, bound);
    forall j | 1 <= j <= at[0] ensures Rank(desc, nodes[path[j]].key) < bound {
      if j < at[0] { assert Ordered(desc, nodes, path, j, at[0]); }
    }
  }

  lemma {:induction false} NotFound(desc: bool, nodes: seq<SkipNode>, path: seq<int>, k: nat, key: int)
    requires InRange(path, |nodes|) && Increasing(desc, nodes, path) && 1 <= k < |path|
    requires k - 1 == 0 || Rank(desc, nodes[path[k - 1]].key) < Rank(desc, key)
    requires Rank(desc, nodes[path[k]].key) > Rank(desc, key)
    ensures !HasKey(nodes, path, key)
  {
    forall i | 1 <= i < |path| - 1 ensures nodes[path[i]].key != key {
      if i > k { assert Ordered(desc, nodes, path, k, i); }
      if 0 < i < k - 1 { assert Ordered(desc, nodes, path, i, k - 1); }
    }
  }

  // ---------------------------------------------------------------- pointer rewrites

  /** Per level, the search found the node just before position `k`. */
  ghost predicate FoundBefore(path: seq<int>, hs: seq<nat>, max: nat, prev: seq<int>, at: seq<nat>, k: nat) {
    && |at| == |prev| == max + 1 && |hs| == |path|
    && forall l {:trigger at[l]} :: 0 <= l <= max ==> Precedes(hs, l, at[l], k) && prev[l] == path[at[l]]
  }

  lemma {:induction false} FoundIsBefore(desc: bool, nodes: seq<SkipNode>, path: seq<int>, hs: seq<nat>, max: nat,
                                         prev: seq<int>, at: seq<nat>, bound: int)
    requires InRange(path, |nodes|) && Increasing(desc, nodes, path) && Found(desc, nodes, path, hs, max, at, bound)
    requires |prev| == max + 1 && forall l :: 0 <= l <= max ==> at[l] < |path| && prev[l] == path[at[l]]
    ensures at[0] + 1 < |path| && Rank(desc, nodes[path[at[0] + 1]].key) >= bound
    ensures FoundBefore(path, hs, max, prev, at, at[0] + 1)
  {
    FoundSplits(desc, nodes, path, hs, max, at, bound, 0);
    forall l | 0 <= l <= max ensures Precedes(hs, l, at[l], at[0] + 1) {
      FoundSplits(desc, nodes, path, hs, max, at, bound, l);
    }
  }

  /** AddNode's pointer writes: link `n` on its levels, point its other entries at the tail. */
  method LinkIn(forward: seq<seq<int>>, n: int, tail: int, prev: seq<int>, level: nat, max: nat,
                ghost size: nat, ghost path: seq<int>, ghost hs: seq<nat>, ghost at: seq<nat>, ghost k: nat)
    returns (r: seq<seq<int>>)
    requires Linked(forward, size, path, hs, max) && NoRepeats(path)
    requires 1 <= k < |path| && 0 <= n < size && n !in path && path[|path| - 1] == tail
    requires FoundBefore(path, hs, max, prev, at, k)
    ensures Linked(r, size, Spliced(path, k, n), Spliced(hs, k, level), max)
  {
    r := forward;
    var i := 0;
    while i <= max
      invariant 0 <= i <= max + 1 && |r| == max + 1
      invariant forall l {:trigger r[l]} :: 0 <= l < i ==>
                  |r[l]| == size && LevelOk(r[l], Spliced(path, k, n), Spliced(hs, k, level), l)
      invariant forall l {:trigger r[l]} :: i <= l <= max ==> r[l] == forward[l]
    {
      assert |forward[i]| == size && LevelOk(forward[i], path, hs, i) && Precedes(hs, i, at[i], k);
      SpliceLevel(forward[i], path, hs, i, k, n, level, at[i]);
      var next := if i <= level then r[i][n := r[i][prev[i]]][prev[i] := n] else r[i][n := tail];
      r := r[i := next];
      i := i + 1;
    }
  }

  /** DeleteNode's pointer writes: bypass `cur` on the levels it reaches. */
  method LinkOut(forward: seq<seq<int>>, cur: int, height: nat, prev: seq<int>, ghost max: nat,
                 ghost size: nat, ghost path: seq<int>, ghost hs: seq<nat>, ghost at: seq<nat>, ghost d: nat)
    returns (r: seq<seq<int>>)
    requires Linked(forward, size, path, hs, max) && NoRepeats(path)
    requires 1 <= d < |path| - 1 && path[d] == cur && |hs| == |path| && hs[d] == height <= max
    requires FoundBefore(path, hs, max, prev, at, d)
    ensures Linked(r, size, Cut(path, d), Cut(hs, d), max)
  {
    r := forward;
    var i := 0;
    while i <= height
      invariant 0 <= i <= height + 1 && |r| == max + 1
      invariant forall l {:trigger r[l]} :: 0 <= l < i ==> |r[l]| == size && LevelOk(r[l], Cut(path, d), Cut(hs, d), l)
      invariant forall l {:trigger r[l]} :: i <= l <= max ==> r[l] == forward[l]
    {
      assert |forward[i]| == size && LevelOk(forward[i], path, hs, i) && Precedes(hs, i, at[i], d);
      CutLevel(forward[i], path, hs, i, d, at[i]);
      r := r[i := r[i][prev[i] := r[i][cur]]];
      i := i + 1;
    }
    forall l {:trigger r[l]} | i <= l <= max ensures |r[l]| == size && LevelOk(r[l], Cut(path, d), Cut(hs, d), l) {
      assert |forward[l]| == size && LevelOk(forward[l], path, hs, l) && Precedes(hs, l, at[l], d);
      CutLevel(forward[l], path, hs, l, d, at[l]);
    }
  }

  // ---------------------------------------------------------------- the class

  class SkipList {
    const descending: bool
    const maxLevel: nat
    const lowest: int
    const highest: int
    var nodes: seq<SkipNode>
    var forward: seq<seq<int>>
    var free: seq<int>
    var head: int
    var tail: int
    ghost var path: seq<int>
    ghost var hs: seq<nat>
    ghost var contents: map<int, int>

    ghost predicate Structure()
      reads this
    {
      && Ok(descending, nodes, forward, path, hs, maxLevel)
      && path[0] == head && path[|path| - 1] == tail
    }

    ghost predicate Valid()
      reads this
    {
      && Structure()
      && lowest < highest
      && nodes[head] == SkipNode(if descending then highest else lowest, NULL, maxLevel)
      && nodes[tail] == SkipNode(if descending then lowest else highest, NULL, maxLevel)
      && PoolOk(|nodes|, free, path)
      && Represents(nodes, path, contents)
    }

    constructor (descending: bool, maxLevel: nat, lowest: int, highest: int, size: nat)
      requires lowest < highest && size >= 2
      ensures Valid() && contents == map[]
      ensures this.descending == descending && this.lowest == lowest && this.highest == highest
      ensures |nodes| == size && |free| == size - 2
    {
      this.descending, this.maxLevel, this.lowest, this.highest := descending, maxLevel, lowest, highest;
      var n := size - 2;
      var t := SkipNode(if descending then lowest else highest, NULL, maxLevel);
      var h := SkipNode(if descending then highest else lowest, NULL, maxLevel);
      nodes := seq(size, i => if i == n then h else if i == n + 1 then t else SkipNode(0, NULL, 0));
      forward := seq(maxLevel + 1, _ => seq(size, i => if i == n then n + 1 else NULL));
      free := seq(n, i => i);
      head, tail := n, n + 1;
      path, hs, contents := [n, n + 1], [maxLevel, maxLevel], map[];
      new;
      forall x | 0 <= x < size ensures x in free <==> x !in path {
        if x < n { assert free[x] == x; }
      }
    }

    /** Follow one level from `from` while keys rank below `bound`. */
    method Advance(from: int, level: nat, bound: int, ghost c0: nat) returns (cur: int, ghost c: nat)
      requires Structure()
      requires level <= maxLevel && bound <= Rank(descending, nodes[tail].key)
      requires c0 < |path| - 1 && from == path[c0] && hs[c0] >= level
      ensures c0 <= c && Stops(descending, nodes, path, hs, c, level, bound) && cur == path[c]
      ensures c == c0 || Rank(descending, nodes[path[c]].key) < bound
    {
      cur, c := from, c0;
      assert LevelOk(forward[level], path, hs, level);
      assert Links(forward[level], path, hs, level, c);
      while Rank(descending, nodes[forward[level][cur]].key) < bound
        invariant c0 <= c < |path| - 1 && cur == path[c] && hs[c] >= level
        invariant c == c0 || Rank(descending, nodes[path[c]].key) < bound
        invariant Links(forward[level], path, hs, level, c)
        decreases |path| - c
      {
        cur := forward[level][cur];
        c := NextAt(hs, c, level);
        assert Links(forward[level], path, hs, level, c);
      }
    }

    /** Walk down from the top level, at each level as far as keys ranked below `bound` go. */
    method Descend(bound: int) returns (prev: seq<int>, ghost at: seq<nat>)
      requires Structure()
      requires bound <= Rank(descending, nodes[tail].key)
      ensures Found(descending, nodes, path, hs, maxLevel, at, bound)
      ensures |prev| == maxLevel + 1 && forall l :: 0 <= l <= maxLevel ==> at[l] < |path| && prev[l] == path[at[l]]
    {
      var start := head;
      prev := seq(maxLevel + 1, _ => start);
      at := seq(maxLevel + 1, _ => 0);
      var cur := head;
      ghost var c: nat := 0;
      var level := maxLevel + 1;
      while level > 0
        invariant 0 <= level <= maxLevel + 1
        invariant |prev| == |at| == maxLevel + 1
        invariant c < |path| - 1 && cur == path[c] && hs[c] >= level - 1
        invariant c == 0 || Rank(descending, nodes[path[c]].key) < bound
        invariant forall l :: level <= l <= maxLevel ==>
                    Stops(descending, nodes, path, hs, at[l], l, bound) && at[l] <= c && prev[l] == path[at[l]]
        invariant level <= maxLevel ==> at[level] == c
      {
        level := level - 1;
        cur, c := Advance(cur, level, bound, c);
        prev := prev[level := cur];
        at := at[level := c];
      }
    }

    /** Exact lookup of any key but a sentinel's. */
    method GetVal(key: int) returns (found: bool, value: int)
      requires Valid()
      requires lowest < key < highest
      ensures found <==> key in contents
      ensures value == if found then contents[key] else NULL
    {
      var bound := Rank(descending, key);
      var prev, at := Descend(bound);
      FoundSplits(descending, nodes, path, hs, maxLevel, at, bound, 0);
      assert LevelOk(forward[0], path, hs, 0) && Links(forward[0], path, hs, 0, at[0]);
      var cur := forward[0][prev[0]];
      ghost var c := at[0] + 1;
      assert cur == path[c];
      if nodes[cur].key != key {
        NotFound(descending, nodes, path, c, key);
        return false, nodes[head].value;
      }
      return true, nodes[cur].value;
    }

    /** The value of the best key, or null. */
    method GetHead() returns (value: int)
      requires Valid()
      ensures contents == map[] ==> value == NULL
      ensures contents != map[] ==>
                exists k :: k in contents && value == contents[k]
                            && forall x :: x in contents ==> Rank(descending, k) <= Rank(descending, x)
    {
      assert LevelOk(forward[0], path, hs, 0) && Links(forward[0], path, hs, 0, 0);
      value := nodes[forward[0][head]].value;
      NonEmptyPath(nodes, path, contents);
      if |path| > 2 {
        ghost var k := nodes[path[1]].key;
        assert k in contents && value == contents[k];
        forall x | x in contents ensures Rank(descending, k) <= Rank(descending, x) {
          assert HasKey(nodes, path, x);
          var i :| 1 <= i < |path| - 1 && nodes[path[i]].key == x;
          if i > 1 { assert Ordered(descending, nodes, path, 1, i); }
        }
      }
    }

    /** Insert if absent. The new node's level is the generator's choice, any value up to the maximum;
        an exhausted node pool terminates the process, so the caller keeps a slot free. */
    method AddNode(key: int, val: int)
      requires Valid() && lowest < key < highest
      requires key in contents || |free| > 0
      modifies this
      ensures Valid()
      ensures contents == if key in old(contents) then old(contents) else old(contents)[key := val]
      ensures |free| + |path| == old(|free| + |path|)
    {
      var bound := Rank(descending, key) + 1;
      var prev, at := Descend(bound);
      FoundIsBefore(descending, nodes, path, hs, maxLevel, prev, at, bound);
      ghost var k := at[0] + 1;
      if nodes[prev[0]].key == key {
        return;
      }
      NotFound(descending, nodes, path, k, key);
      InsertNew(key, val, prev, at, k);
    }

    method InsertNew(key: int, val: int, prev: seq<int>, ghost at: seq<nat>, ghost k: nat)
      requires Valid() && |free| > 0
      requires 1 <= k < |path| && FoundBefore(path, hs, maxLevel, prev, at, k)
      requires Rank(descending, nodes[path[k - 1]].key) < Rank(descending, key) < Rank(descending, nodes[path[k]].key)
      modifies this
      ensures Valid() && contents == old(contents)[key := val]
      ensures |free| + |path| == old(|free| + |path|)
    {
      var level: nat :| level <= maxLevel;
      var n := free[|free| - 1];
      assert 0 <= n < |nodes| && n !in path by { SplicePool(|nodes|, free, path, k); }
      var links := LinkIn(forward, n, tail, prev, level, maxLevel, |nodes|, path, hs, at, k);
      SpliceInstalls(links, SkipNode(key, val, level), k);
      Commit(nodes[n := SkipNode(key, val, level)], links, free[..|free| - 1],
             Spliced(path, k, n), Spliced(hs, k, level), contents[key := val]);
    }

    /** What a new node table, its links and its free list must satisfy. */
    ghost predicate Fit(nodes': seq<SkipNode>, forward': seq<seq<int>>, free': seq<int>, path': seq<int>, hs': seq<nat>,
                        contents': map<int, int>)
      reads this`head, this`tail
    {
      && Ok(descending, nodes', forward', path', hs', maxLevel)
      && lowest < highest && path'[0] == head && path'[|path'| - 1] == tail
      && nodes'[head] == SkipNode(if descending then highest else lowest, NULL, maxLevel)
      && nodes'[tail] == SkipNode(if descending then lowest else highest, NULL, maxLevel)
      && PoolOk(|nodes'|, free', path') && Represents(nodes', path', contents')
    }

    /** `Fit`, folded. */
    ghost predicate SealedFit(nodes': seq<SkipNode>, forward': seq<seq<int>>, free': seq<int>, path': seq<int>,
                              hs': seq<nat>, contents': map<int, int>)
      reads this`head, this`tail
    {
      forall k {:trigger Key(Lock.Skip, k)} :: Key(Lock.Skip, k) ==> Fit(nodes', forward', free', path', hs', contents')
    }

    lemma {:induction false} SpliceInstalls(links: seq<seq<int>>, node: SkipNode, k: nat)
      requires Valid() && |free| > 0 && 1 <= k < |path| && node.height <= maxLevel
      requires Rank(descending, nodes[path[k - 1]].key) < Rank(descending, node.key)
               < Rank(descending, nodes[path[k]].key)
      requires Linked(links, |nodes|, Spliced(path, k, free[|free| - 1]), Spliced(hs, k, node.height), maxLevel)
      ensures var n := free[|free| - 1];
              && 0 <= n < |nodes|
              && SealedFit(nodes[n := node], links, free[..|free| - 1], Spliced(path, k, n),
                           Spliced(hs, k, node.height), contents[node.key := node.value])
    {
      SpliceAll(descending, nodes, path, hs, maxLevel, free, contents, k, node);
    }

    /** Install a new node table, its links and its free list. */
    method Commit(nodes': seq<SkipNode>, forward': seq<seq<int>>, free': seq<int>, ghost path': seq<int>,
                  ghost hs': seq<nat>, ghost contents': map<int, int>)
      requires SealedFit(nodes', forward', free', path', hs', contents')
      modifies this`nodes, this`forward, this`free, this`path, this`hs, this`contents
      ensures Valid() && contents == contents' && path == path' && free == free'
    {
      assert Key(Lock.Skip, 0);
      nodes, forward, free, path, hs, contents := nodes', forward', free', path', hs', contents';
    }

    /** Remove a key if present. */
    method DeleteNode(key: int)
      requires Valid() && lowest < key < highest
      modifies this
      ensures Valid()
      ensures contents == old(contents) - {key}
      ensures |free| + |path| == old(|free| + |path|)
    {
      var bound := Rank(descending, key);
      var prev, at := Descend(bound);
      FoundIsBefore(descending, nodes, path, hs, maxLevel, prev, at, bound);
      ghost var d := at[0] + 1;
      assert LevelOk(forward[0], path, hs, 0) && Links(forward[0], path, hs, 0, at[0]);
      var cur := forward[0][prev[0]];
      assert cur == path[d];
      if nodes[cur].key == key {
        Remove(cur, prev, at, d);
      } else {
        NotFound(descending, nodes, path, d, key);
      }
    }

    method Remove(cur: int, prev: seq<int>, ghost at: seq<nat>, ghost d: nat)
      requires Valid()
      requires 1 <= d < |path| - 1 && cur == path[d] && FoundBefore(path, hs, maxLevel, prev, at, d)
      modifies this
      ensures Valid() && contents == old(contents) - {old(nodes[cur].key)}
      ensures |free| + |path| == old(|free| + |path|)
    {
      var links := LinkOut(forward, cur, nodes[cur].height, prev, maxLevel, |nodes|, path, hs, at, d);
      CutAll(descending, nodes, path, hs, maxLevel, free, contents, d);
      Commit(nodes, links, free + [cur], Cut(path, d), Cut(hs, d), contents - {nodes[cur].key});
    }
  }
}
