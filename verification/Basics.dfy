/** Options and the few facts about finite sets and sequences that the proofs share. */
module Basics {

  datatype Option<+T> = None | Some(value: T)

  /** The node ids `1..n` of a system of `n` nodes. */
  function Ids(n: nat): (ids: set<nat>)
    ensures forall i :: i in ids <==> 1 <= i <= n
  {
    if n == 0 then {} else Ids(n - 1) + {n}
  }

  /** `n / 2 + 1`, the number of distinct ackers that a uniform delivery waits for. */
  function Majority(n: nat): nat
  {
    n / 2 + 1
  }

  lemma {:induction false} IdsSize(n: nat)
    ensures |Ids(n)| == n
  {
    if n != 0 {
      IdsSize(n - 1);
    }
  }

  lemma SubsetSize<T>(a: set<T>, b: set<T>)
    requires a <= b
    ensures |a| <= |b|
    ensures |a| == |b| ==> a == b
  {
    assert b == a + (b - a);
  }

  /** Any two majorities of the same system share a node. */
  lemma QuorumsMeet(n: nat, a: set<nat>, b: set<nat>) returns (x: nat)
    requires a <= Ids(n) && b <= Ids(n)
    requires |a| >= Majority(n) && |b| >= Majority(n)
    ensures x in a && x in b
  {
    IdsSize(n);
    SubsetSize(a + b, Ids(n));
    assert |a + b| == |a| + |b| - |a * b|;
    x :| x in a * b;
  }

  lemma DropKeySize<K, V>(m: map<K, V>, k: K)
    requires k in m
    ensures |m - {k}| == |m| - 1
  {
    assert (m - {k}).Keys == m.Keys - {k};
    assert |(m - {k}).Keys| == |m - {k}|;
  }

  /** Prefixes of a sequence do not see what is appended to it. */
  lemma PrefixOfAppend<T>(s: seq<T>, t: seq<T>, k: nat)
    requires k <= |s|
    ensures (s + t)[..k] == s[..k]
  {
  }
}
