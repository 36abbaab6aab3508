/** Building the target distribution (c/engines/glm.c, dist_build): exponentiated logits
    normalised, then cut to the smallest set of most likely tokens that reaches the nucleus
    mass, and normalised again. */
module Nucleus {
  import opened Counting
  import opened Sampling

  lemma {:induction false} SumUpdate(p: seq<real>, i: nat, x: real)
    requires i < |p|
    ensures Sum(p[i := x]) == Sum(p) - p[i] + x
  {
    var n := |p| - 1;
    if i == n {
      assert p[i := x][..n] == p[..n];
    } else {
      SumUpdate(p[..n], i, x);
      assert p[i := x][..n] == p[..n][i := x];
    }
  }

  lemma {:induction false} SumOfZeros(p: seq<real>)
    requires forall i :: 0 <= i < |p| ==> p[i] == 0.0
    ensures Sum(p) == 0.0
  {
    if p != [] { SumOfZeros(p[..|p| - 1]); }
  }

  lemma {:induction false} SumScales(p: seq<real>, q: seq<real>, s: real)
    requires |p| == |q| && s > 0.0 && forall i :: 0 <= i < |p| ==> q[i] == p[i] / s
    ensures Sum(q) == Sum(p) / s
  {
    if p != [] {
      var n := |p| - 1;
      SumScales(p[..n], q[..n], s);
      AddFractions(Sum(p[..n]), p[n], s);
    }
  }

  lemma AddFractions(a: real, b: real, s: real)
    requires s > 0.0
    ensures a / s + b / s == (a + b) / s
  {
  }

  /** Dividing by their positive sum makes non-negative weights a distribution. */
  lemma Normalised(p: seq<real>, q: seq<real>)
    requires p != [] && |p| == |q| && Sum(p) > 0.0 && forall i :: 0 <= i < |p| ==> p[i] >= 0.0 && q[i] == p[i] / Sum(p)
    ensures IsDist(q)
  {
    SumScales(p, q, Sum(p));
    Whole(Sum(p));
    forall i | 0 <= i < |q| ensures q[i] >= 0.0 { Quotient(p[i], Sum(p)); }
  }

  lemma Whole(s: real)
    requires s > 0.0
    ensures s / s == 1.0
  {
  }

  lemma Quotient(a: real, s: real)
    requires a >= 0.0 && s > 0.0
    ensures a / s >= 0.0
  {
  }

  /** Exponentials of logits that were shifted by their maximum: small ones may underflow
      to zero, the largest does not. */
  predicate Exponentials(e: seq<real>) {
    (forall i :: 0 <= i < |e| ==> e[i] >= 0.0) && exists i :: 0 <= i < |e| && e[i] > 0.0
  }

  lemma {:induction false} SumAtLeast(p: seq<real>, i: nat)
    requires i < |p| && forall k :: 0 <= k < |p| ==> p[k] >= 0.0
    ensures Sum(p) >= p[i]
  {
    var n := |p| - 1;
    if i < n { SumAtLeast(p[..n], i); } else if n > 0 { SumAtLeast(p[..n], 0); }
  }

  /** All indices below n, each once, most likely first. */
  ghost predicate Ranking(order: seq<nat>, p: seq<real>) {
    && |order| == |p| && NoDup(order) && (forall k :: 0 <= k < |order| ==> order[k] < |p|)
    && (forall i: nat :: i < |p| ==> i in order)
    && (forall j, k :: 0 <= j < k < |order| ==> p[order[j]] >= p[order[k]])
  }

  /** The mass of the first n tokens of the ranking. */
  function TopMass(p: seq<real>, order: seq<nat>, n: nat): real
    requires n <= |order| && forall k :: 0 <= k < |order| ==> order[k] < |p|
  {
    if n == 0 then 0.0 else TopMass(p, order, n - 1) + p[order[n - 1]]
  }

  function Masked(p: seq<real>, kept: seq<nat>): (m: seq<real>)
    ensures |m| == |p| && forall i: nat :: i < |p| ==> m[i] == if i in kept then p[i] else 0.0
  {
    seq(|p|, i requires 0 <= i < |p| => if i in kept then p[i] else 0.0)
  }

  lemma {:induction false} MaskedSum(p: seq<real>, order: seq<nat>, n: nat)
    requires n <= |order| && NoDup(order) && forall k :: 0 <= k < |order| ==> order[k] < |p|
    ensures Sum(Masked(p, order[..n])) == TopMass(p, order, n)
  {
    if n == 0 {
      SumOfZeros(Masked(p, order[..0]));
    } else {
      MaskedSum(p, order, n - 1);
      var i := order[n - 1];
      assert order[..n] == order[..n - 1] + [i] && i !in order[..n - 1];
      OneMore(p, order[..n - 1], i);
    }
  }

  lemma OneMore(p: seq<real>, kept: seq<nat>, i: nat)
    requires i < |p| && i !in kept
    ensures Sum(Masked(p, kept + [i])) == Sum(Masked(p, kept)) + p[i]
  {
    SumUpdate(Masked(p, kept), i, p[i]);
    assert Masked(p, kept + [i]) == Masked(p, kept)[i := p[i]];
  }

  /** The whole ranking has the whole mass. */
  lemma AllMassRanked(p: seq<real>, order: seq<nat>)
    requires Ranking(order, p)
    ensures TopMass(p, order, |order|) == Sum(p)
  {
    MaskedSum(p, order, |order|);
    assert order[..|order|] == order;
    assert Masked(p, order) == p;
  }

  /** The smallest number of top tokens whose mass reaches the nucleus. */
  ghost predicate Cut(p: seq<real>, order: seq<nat>, nuc: real, keep: nat) {
    && 0 < keep <= |order| && (forall k :: 0 <= k < |order| ==> order[k] < |p|)
    && TopMass(p, order, keep) >= nuc && TopMass(p, order, keep - 1) < nuc
  }

  /** q is p cut to the kept tokens and scaled to mass 1. */
  ghost predicate Truncated(q: seq<real>, p: seq<real>, kept: seq<nat>, mass: real) {
    && |q| == |p| && mass > 0.0
    && forall i: nat :: i < |p| ==> q[i] == if i in kept then p[i] / mass else 0.0
  }

  /** The softmax of the logits, given their exponentials. */
  method Softmax(e: seq<real>) returns (p: array<real>)
    requires Exponentials(e)
    ensures fresh(p) && IsDist(p[..]) && p.Length == |e| && Sum(e) > 0.0
    ensures forall i :: 0 <= i < |e| ==> p[i] == e[i] / Sum(e)
  {
    p := new real[|e|];
    var s := 0.0;
    for i := 0 to |e|
      invariant p[..i] == e[..i] && s == Sum(e[..i])
    {
      assert e[..i + 1][..i] == e[..i];
      p[i] := e[i];
      s := s + p[i];
    }
    assert e[..|e|] == e && p[..] == e;
    ghost var top :| 0 <= top < |e| && e[top] > 0.0;
    SumAtLeast(e, top);
    Divide(p, s);
    Normalised(e, p[..]);
  }

  method Divide(p: array<real>, s: real)
    requires s != 0.0
    modifies p
    ensures forall i :: 0 <= i < p.Length ==> p[i] == old(p[i]) / s
  {
    for i := 0 to p.Length
      invariant forall k :: 0 <= k < p.Length ==> p[k] == if k < i then old(p[k]) / s else old(p[k])
    {
      p[i] := p[i] / s;
    }
  }

  /** The nucleus cut, in place: what is kept is the smallest set of most likely tokens with
      the wanted mass, each in proportion, and the result is a distribution. */
  method Truncate(p: array<real>, order: seq<nat>, nuc: real) returns (keep: nat)
    requires IsDist(p[..]) && Ranking(order, p[..])
    modifies p
    ensures IsDist(p[..])
    ensures !(0.0 < nuc < 1.0) ==> p[..] == old(p[..])
    ensures 0.0 < nuc < 1.0 ==>
      Cut(old(p[..]), order, nuc, keep) && Truncated(p[..], old(p[..]), order[..keep], TopMass(old(p[..]), order, keep))
    ensures 0.0 < nuc < 1.0 ==> forall j, k :: 0 <= j < keep <= k < |order| ==>
        old(p[..])[order[j]] >= old(p[..])[order[k]]
  {
    keep := p.Length;
    if !(0.0 < nuc < 1.0) { return; }
    ghost var was := p[..];
    keep := FindCut(p, order, nuc);
    ZeroRest(p, order, keep);
    MaskedSum(was, order, keep);
    var s2 := KeptMass(p, order, keep, was);
    ScaleKept(p, order, keep, s2, was);
    Normalised(Masked(was, order[..keep]), p[..]);
  }

  method FindCut(p: array<real>, order: seq<nat>, nuc: real) returns (keep: nat)
    requires IsDist(p[..]) && Ranking(order, p[..]) && 0.0 < nuc < 1.0
    ensures Cut(p[..], order, nuc, keep)
  {
    var cum := 0.0;
    keep := 0;
    AllMassRanked(p[..], order);
    for i := 0 to |order|
      invariant cum == TopMass(p[..], order, i) && cum < nuc
    {
      cum := cum + p[order[i]];
      if cum >= nuc { return i + 1; }
    }
    assert false;
  }

  method ZeroRest(p: array<real>, order: seq<nat>, keep: nat)
    requires Ranking(order, p[..]) && keep <= |order|
    modifies p
    ensures p[..] == Masked(old(p[..]), order[..keep])
  {
    ghost var was := p[..];
    for i := keep to |order|
      invariant forall j: nat :: j < p.Length ==> p[j] == if j in order[keep..i] then 0.0 else was[j]
    {
      assert order[keep..i + 1] == order[keep..i] + [order[i]];
      p[order[i]] := 0.0;
    }
    assert order == order[..keep] + order[keep..];
    forall j: nat | j < p.Length ensures p[j] == Masked(was, order[..keep])[j] {
      Sides(order, keep, j);
    }
    assert order[keep..|order|] == order[keep..];
  }

  lemma Sides(order: seq<nat>, keep: nat, j: nat)
    requires keep <= |order| && NoDup(order) && j in order
    ensures j in order[..keep] <==> j !in order[keep..]
  {
    var k :| 0 <= k < |order| && order[k] == j;
    if k < keep { assert order[..keep][k] == j; } else { assert order[keep..][k - keep] == j; }
  }

  method KeptMass(p: array<real>, order: seq<nat>, keep: nat, ghost was: seq<real>) returns (s2: real)
    requires p.Length == |was| && keep <= |order| && NoDup(order) && forall k :: 0 <= k < |order| ==> order[k] < |was|
    requires p[..] == Masked(was, order[..keep])
    ensures s2 == TopMass(was, order, keep)
  {
    s2 := 0.0;
    for i := 0 to keep
      invariant s2 == TopMass(was, order, i)
    {
      assert order[..keep][i] == order[i] && p[..][order[i]] == was[order[i]];
      s2 := s2 + p[order[i]];
    }
  }

  method ScaleKept(p: array<real>, order: seq<nat>, keep: nat, s2: real, ghost was: seq<real>)
    requires p.Length == |was| && keep <= |order| && NoDup(order) && forall k :: 0 <= k < |order| ==> order[k] < |was|
    requires p[..] == Masked(was, order[..keep]) && s2 > 0.0
    modifies p
    ensures Truncated(p[..], was, order[..keep], s2)
    ensures forall i :: 0 <= i < p.Length ==> p[i] == Masked(was, order[..keep])[i] / s2
  {
    ghost var m := p[..];
    for i := 0 to keep
      invariant forall j: nat :: j < p.Length ==> p[j] == if j in order[..i] then m[j] / s2 else m[j]
    {
      assert order[..i + 1] == order[..i] + [order[i]] && order[i] !in order[..i];
      p[order[i]] := p[order[i]] / s2;
    }
    assert 0.0 / s2 == 0.0;
  }

  lemma QuotientsKeepOrder(a: real, b: real, s: real)
    requires a >= b && s > 0.0
    ensures a / s >= b / s
  {
    AddFractions(b, a - b, s);
    Quotient(a - b, s);
  }

  /** dist_build, from the exponentials of the logits and their ranking: the distribution
      that every draw and every acceptance test uses is the softmax cut to its nucleus. */
  method Build(e: seq<real>, order: seq<nat>, nuc: real) returns (p: array<real>, ghost soft: seq<real>, keep: nat)
    requires Exponentials(e) && Ranking(order, e)
    ensures fresh(p) && IsDist(p[..]) && IsDist(soft) && |soft| == |e| && Sum(e) > 0.0
    ensures forall i :: 0 <= i < |e| ==> soft[i] == e[i] / Sum(e)
    ensures if 0.0 < nuc < 1.0 then Cut(soft, order, nuc, keep)
        && Truncated(p[..], soft, order[..keep], TopMass(soft, order, keep))
            else p[..] == soft
  {
    p := Softmax(e);
    soft := p[..];
    forall j, k | 0 <= j < k < |order| ensures soft[order[j]] >= soft[order[k]] {
      QuotientsKeepOrder(e[order[j]], e[order[k]], Sum(e));
    }
    keep := Truncate(p, order, nuc);
  }
}
