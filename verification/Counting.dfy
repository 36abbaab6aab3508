/** Sequences of indices without repetition, and the pigeonhole argument the tables and the
    cache need: fewer indices than places leave a place free. */
module Counting {

  predicate NoDup(us: seq<nat>) {
    forall i, j :: 0 <= i < j < |us| ==> us[i] != us[j]
  }

  function Below(n: nat): (r: set<nat>)
    ensures |r| == n && forall z: nat :: z in r <==> z < n
  {
    if n == 0 then {} else Below(n - 1) + {n - 1}
  }

  function Elements(at: seq<nat>): (r: set<nat>)
    ensures |r| <= |at| && forall z: nat :: z in r <==> z in at
  {
    if at == [] then {} else
      assert at == [at[0]] + at[1..];
      Elements(at[1..]) + {at[0]}
  }

  lemma SomeFree(at: seq<nat>, n: nat)
    requires |at| < n
    ensures exists z: nat :: z < n && z !in at
  {
    if Below(n) <= Elements(at) {
      Subset(Below(n), Elements(at));
      assert false;
    }
    var z :| z in Below(n) && z !in Elements(at);
  }

  lemma Subset(a: set<nat>, b: set<nat>)
    requires a <= b
    ensures |a| <= |b|
  {
    assert b == a + (b - a);
  }
}
