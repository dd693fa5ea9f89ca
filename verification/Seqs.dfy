/** Sequences of pool indices with one position spliced in or cut out. */
module Seqs {

  ghost function Spliced<T>(s: seq<T>, k: nat, x: T): (r: seq<T>)
    requires k <= |s|
    ensures |r| == |s| + 1
    ensures forall m :: 0 <= m < k ==> r[m] == s[m]
    ensures r[k] == x
    ensures forall m :: k < m < |r| ==> r[m] == s[m - 1]
  {
    s[..k] + [x] + s[k..]
  }

  ghost function Cut<T>(s: seq<T>, k: nat): (r: seq<T>)
    requires k < |s|
    ensures |r| == |s| - 1
    ensures forall m :: 0 <= m < k ==> r[m] == s[m]
    ensures forall m :: k <= m < |r| ==> r[m] == s[m + 1]
  {
    s[..k] + s[k + 1..]
  }

  ghost predicate InRange(path: seq<int>, size: nat) {
    forall i :: 0 <= i < |path| ==> 0 <= path[i] < size
  }

  ghost predicate Differ(s: seq<int>, i: nat, j: nat)
    requires i < |s| && j < |s|
  {
    s[i] != s[j]
  }

  ghost predicate NoRepeats(s: seq<int>) {
    forall i, j {:trigger Differ(s, i, j)} :: 0 <= i < j < |s| ==> Differ(s, i, j)
  }

  lemma {:induction false} SplicedRange(path: seq<int>, k: nat, n: int, size: nat)
    requires InRange(path, size) && k <= |path| && 0 <= n < size
    ensures InRange(Spliced(path, k, n), size)
  {
    forall i | 0 <= i <= |path| ensures 0 <= Spliced(path, k, n)[i] < size {
      if i > k { assert Spliced(path, k, n)[i] == path[i - 1]; }
    }
  }

  lemma {:induction false} CutRange(path: seq<int>, d: nat, size: nat)
    requires InRange(path, size) && d < |path|
    ensures InRange(Cut(path, d), size)
  {
  }

  lemma {:induction false} SplicedDistinct(s: seq<int>, k: nat, n: int)
    requires NoRepeats(s) && k <= |s| && n !in s
    ensures NoRepeats(Spliced(s, k, n))
  {
    var r := Spliced(s, k, n);
    forall i, j | 0 <= i < j < |r| ensures Differ(r, i, j) {
      var a, b := if i > k then i - 1 else i, if j > k then j - 1 else j;
      if i == k {
        assert r[j] == s[b] && s[b] in s;
      } else if j == k {
        assert r[i] == s[a] && s[a] in s;
      } else {
        assert Differ(s, a, b);
      }
    }
  }

  lemma {:induction false} CutDistinct(s: seq<int>, k: nat)
    requires NoRepeats(s) && k < |s|
    ensures NoRepeats(Cut(s, k)) && s[k] !in Cut(s, k)
  {
    var r := Cut(s, k);
    forall i, j | 0 <= i < j < |r| ensures Differ(r, i, j) {
      assert Differ(s, if i < k then i else i + 1, if j < k then j else j + 1);
    }
    forall i | 0 <= i < |r| ensures r[i] != s[k] {
      assert if i < k then Differ(s, i, k) else Differ(s, k, i + 1);
    }
  }

  lemma {:induction false} SplicedMembers(s: seq<int>, k: nat, n: int, x: int)
    requires k <= |s|
    ensures x in Spliced(s, k, n) <==> x == n || x in s
  {
    var r := Spliced(s, k, n);
    assert r[k] == n;
    if x in s { var i :| 0 <= i < |s| && s[i] == x; assert r[if i < k then i else i + 1] == x; }
    if x in r { var i :| 0 <= i < |r| && r[i] == x; if i > k { assert r[i] == s[i - 1]; } }
  }

  lemma {:induction false} CutMembers(s: seq<int>, k: nat, x: int)
    requires NoRepeats(s) && k < |s|
    ensures x in Cut(s, k) <==> x != s[k] && x in s
  {
    var r := Cut(s, k);
    CutDistinct(s, k);
    if x in s && x != s[k] { var i :| 0 <= i < |s| && s[i] == x; assert r[if i < k then i else i - 1] == x; }
    if x in r { var i :| 0 <= i < |r| && r[i] == x; assert r[i] == s[if i < k then i else i + 1]; }
  }
}
