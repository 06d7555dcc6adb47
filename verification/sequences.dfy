/** Lists without repetition, and bitmaps. */
module Sequences {

  ghost predicate NoDup<A>(s: seq<A>) {
    forall i, j | 0 <= i < j < |s| :: s[i] != s[j]
  }

  /** The first occurrence of x leaves its place. */
  function Remove<A(==)>(s: seq<A>, x: A): seq<A> {
    if s == [] then [] else if s[0] == x then s[1..] else [s[0]] + Remove(s[1..], x)
  }

  lemma {:induction false} RemoveBag<A>(s: seq<A>, x: A)
    ensures multiset(Remove(s, x)) == multiset(s) - multiset{x}
  {
    if s != [] {
      assert multiset(s) == multiset{s[0]} + multiset(s[1..]) by { assert s == [s[0]] + s[1..]; }
      if s[0] != x { RemoveBag(s[1..], x); }
    }
  }

  lemma {:induction false} RemoveSet<A>(s: seq<A>, x: A)
    requires NoDup(s)
    ensures NoDup(Remove(s, x)) && forall y :: y in Remove(s, x) <==> y in s && y != x
  {
    if s != [] {
      assert s[0] !in s[1..];
      assert forall y :: y in s <==> y == s[0] || y in s[1..];
      if s[0] != x {
        RemoveSet(s[1..], x);
        var r := Remove(s[1..], x);
        assert forall j | 1 <= j < |[s[0]] + r| :: ([s[0]] + r)[j] == r[j - 1] && r[j - 1] in r;
      }
    }
  }

  /** The number of clear bits. */
  function Zeros(bits: seq<bool>): nat {
    if bits == [] then 0 else Zeros(bits[..|bits| - 1]) + if bits[|bits| - 1] then 0 else 1
  }

  lemma ZerosUpdate(bits: seq<bool>, j: nat, v: bool)
    requires j < |bits| && bits[j] != v
    ensures Zeros(bits[j := v]) == if v then Zeros(bits) - 1 else Zeros(bits) + 1
  {
    var n := |bits| - 1;
    if j == n {
      assert bits[j := v][..n] == bits[..n];
    } else {
      assert bits[j := v][..n] == bits[..n][j := v];
      ZerosUpdate(bits[..n], j, v);
    }
  }

  lemma ZeroFound(bits: seq<bool>) returns (j: nat)
    requires Zeros(bits) > 0
    ensures j < |bits| && !bits[j]
  {
    j := |bits| - 1;
    if bits[j] { j := ZeroFound(bits[..|bits| - 1]); }
  }

  lemma {:induction false} ZerosMost(bits: seq<bool>)
    ensures Zeros(bits) <= |bits|
  {
    if bits != [] { ZerosMost(bits[..|bits| - 1]); }
  }

  lemma {:induction false} ZerosBound(bits: seq<bool>, n: nat, j: nat)
    requires j < n <= |bits| && bits[j] && forall k | n <= k < |bits| :: bits[k]
    ensures Zeros(bits) < n
  {
    var m := |bits| - 1;
    if n <= m {
      ZerosBound(bits[..m], n, j);
    } else {
      ZerosMost(bits[..m]);
      if j < m { ZerosBound(bits[..m], m, j); }
    }
  }

  /** Clear below cols, set from there on. */
  lemma {:induction false} ZerosFresh(cols: nat, bits: seq<bool>)
    requires forall j | 0 <= j < |bits| :: bits[j] == (j >= cols)
    ensures Zeros(bits) == if |bits| < cols then |bits| else cols
  {
    if bits != [] { ZerosFresh(cols, bits[..|bits| - 1]); }
  }
}
