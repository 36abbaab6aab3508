/** The two-stage output head (c/nn/head.c): a quickselect for the k-th largest score, a
    threshold found through a strided sample, and exact logits for the 4-row blocks that
    hold a score at or above it. */
module HeadSelect {

  const STRIDE := 16
  const MASKED := -1000000000000000000000000000000.0

  // ----- ranks

  /** Scores above v. */
  function Above(s: seq<real>, v: real): (n: nat)
    ensures n <= |s|
  {
    if s == [] then 0 else Above(s[..|s| - 1], v) + if s[|s| - 1] > v then 1 else 0
  }

  /** Scores of at least v. */
  function AtLeast(s: seq<real>, v: real): (n: nat)
    ensures n <= |s|
  {
    if s == [] then 0 else AtLeast(s[..|s| - 1], v) + if s[|s| - 1] >= v then 1 else 0
  }

  /** v is the k-th largest of s: fewer than k are above it, and k are not below it. */
  ghost predicate IsKth(s: seq<real>, k: nat, v: real) {
    Above(s, v) < k <= AtLeast(s, v)
  }

  lemma {:induction false} BetweenCounts(s: seq<real>, v: real, w: real)
    requires v < w
    ensures AtLeast(s, w) <= Above(s, v)
  {
    if s != [] { BetweenCounts(s[..|s| - 1], v, w); }
  }

  lemma KthIsUnique(s: seq<real>, k: nat, v: real, w: real)
    requires IsKth(s, k, v) && IsKth(s, k, w)
    ensures v == w
  {
    if v < w { BetweenCounts(s, v, w); } else if w < v { BetweenCounts(s, w, v); }
  }

  lemma {:induction false} CountsWithout(s: seq<real>, i: nat, v: real)
    requires i < |s|
    ensures Above(s, v) == Above(s[..i] + s[i + 1..], v) + if s[i] > v then 1 else 0
    ensures AtLeast(s, v) == AtLeast(s[..i] + s[i + 1..], v) + if s[i] >= v then 1 else 0
    decreases |s|
  {
    var n := |s| - 1;
    if i < n {
      CountsWithout(s[..n], i, v);
      var t := s[..i] + s[i + 1..];
      assert t[..|t| - 1] == s[..n][..i] + s[..n][i + 1..];
    } else {
      assert s[..i] + s[i + 1..] == s[..n];
    }
  }

  /** x, somewhere in a permutation of s + [x], and the permutation without it. */
  lemma Extract(s: seq<real>, x: real, t: seq<real>) returns (i: nat)
    requires multiset(s + [x]) == multiset(t)
    ensures i < |t| && t[i] == x && multiset(t[..i] + t[i + 1..]) == multiset(s)
  {
    assert x in multiset(s + [x]);
    i :| 0 <= i < |t| && t[i] == x;
    var a, b := t[..i], t[i + 1..];
    assert t == a + [x] + b;
    Cancel(multiset(a + b), multiset(s), x);
  }

  lemma Cancel(a: multiset<real>, b: multiset<real>, x: real)
    requires a + multiset{x} == b + multiset{x}
    ensures a == b
  {
    assert a == (a + multiset{x}) - multiset{x};
    assert b == (b + multiset{x}) - multiset{x};
  }

  lemma {:induction false} PermutationKeepsCounts(s: seq<real>, t: seq<real>, v: real)
    requires multiset(s) == multiset(t)
    ensures Above(s, v) == Above(t, v) && AtLeast(s, v) == AtLeast(t, v)
    decreases |s|
  {
    if s == [] {
      assert |t| == |multiset(t)| == 0;
    } else {
      var n := |s| - 1;
      assert s == s[..n] + [s[n]];
      var i := Extract(s[..n], s[n], t);
      PermutationKeepsCounts(s[..n], t[..i] + t[i + 1..], v);
      CountsWithout(t, i, v);
    }
  }

  /** Everything before m is at least everything from m on. */
  ghost predicate Split(s: seq<real>, m: int) {
    forall p, q :: 0 <= p < m <= q < |s| ==> s[p] >= s[q]
  }

  lemma {:induction false} CountsSplit(s: seq<real>, v: real, m: nat)
    requires m <= |s|
    requires forall q :: m <= q < |s| ==> s[q] <= v
    ensures Above(s, v) <= m
    decreases |s|
  {
    if m < |s| { CountsSplit(s[..|s| - 1], v, m); }
  }

  lemma {:induction false} CountsPrefix(s: seq<real>, v: real, m: nat)
    requires m <= |s|
    requires forall p :: 0 <= p < m ==> s[p] >= v
    ensures AtLeast(s, v) >= m
    decreases |s|
  {
    if m < |s| {
      CountsPrefix(s[..|s| - 1], v, m);
    } else if m > 0 {
      CountsPrefix(s[..m - 1], v, m - 1);
    }
  }

  /** With the larger scores before it and the smaller after it, s[w] is in its place. */
  lemma InPlaceIsKth(s: seq<real>, w: nat)
    requires w < |s| && Split(s, w) && Split(s, w + 1)
    ensures IsKth(s, w + 1, s[w])
  {
    CountsSplit(s, s[w], w);
    CountsPrefix(s, s[w], w + 1);
  }

  // ----- the quickselect

  method Swap(a: array<real>, n: nat, i: nat, j: nat)
    requires i < n <= a.Length && j < n
    modifies a
    ensures a[i] == old(a[j]) && a[j] == old(a[i])
    ensures forall k :: 0 <= k < a.Length && k != i && k != j ==> a[k] == old(a[k])
    ensures a[..n] == old(a[..n])[i := old(a[j])][j := old(a[i])] && multiset(a[..n]) == multiset(old(a[..n]))
  {
    ghost var s := a[..n];
    a[i], a[j] := a[j], a[i];
    assert a[..n] == s[i := s[j]][j := s[i]];
  }

  lemma SwapKeepsFrame(s: seq<real>, was: seq<real>, lo: nat, hi: nat, i: nat, j: nat)
    requires Framed(s, was, lo, hi) && lo <= i <= hi && lo <= j <= hi
    ensures Framed(s[i := s[j]][j := s[i]], was, lo, hi)
  {
  }

  /** while (a[i] > piv) i++ — stopped by the element at `stop`. */
  method ScanUp(a: array<real>, from: nat, piv: real, ghost stop: nat) returns (i: nat)
    requires from <= stop < a.Length && a[stop] <= piv
    ensures from <= i <= stop && a[i] <= piv && forall k :: from <= k < i ==> a[k] > piv
  {
    i := from;
    while a[i] > piv
      invariant from <= i <= stop && forall k :: from <= k < i ==> a[k] > piv
      decreases stop - i
    {
      i := i + 1;
    }
  }

  method ScanDown(a: array<real>, from: nat, piv: real, ghost stop: nat) returns (j: nat)
    requires stop <= from < a.Length && a[stop] >= piv
    ensures stop <= j <= from && a[j] >= piv && forall k :: j < k <= from ==> a[k] < piv
  {
    j := from;
    while a[j] < piv
      invariant stop <= j <= from && forall k :: j < k <= from ==> a[k] < piv
      decreases j
    {
      j := j - 1;
    }
  }

  /** Between lo and hi: at least piv before i, at most piv after j; and either nothing has
      been exchanged yet and the pivot lies between them, or something has. */
  ghost predicate Parting(a: array<real>, lo: int, hi: int, i: int, j: int, piv: real)
    reads a
  {
    && 0 <= lo <= i <= hi + 1 && lo - 1 <= j <= hi < a.Length && i <= j + 2
    && (forall p :: lo <= p < i ==> a[p] >= piv)
    && (forall q :: j < q <= hi ==> a[q] <= piv)
    && (if i == lo && j == hi then exists m :: lo <= m <= hi && a[m] == piv else lo < i && j < hi)
  }

  /** Nothing outside lo..hi moves, and what lies outside stays on its side. */
  ghost predicate Framed(s: seq<real>, was: seq<real>, lo: nat, hi: nat) {
    && |s| == |was| && hi < |s| && multiset(s) == multiset(was)
    && Split(s, lo) && Split(s, hi + 1)
  }

  method PartStep(a: array<real>, n: nat, ghost lo: nat, ghost hi: nat, i0: int, j0: int, piv: real,
                  ghost was: seq<real>)
    returns (i: int, j: int)
    requires n <= a.Length && hi < n && Parting(a, lo, hi, i0, j0, piv) && i0 <= j0 && Framed(a[..n], was, lo, hi)
    modifies a
    ensures Parting(a, lo, hi, i, j, piv) && Framed(a[..n], was, lo, hi)
    ensures forall k :: n <= k < a.Length ==> a[k] == old(a[k])
    ensures j - i < j0 - i0 && lo < i && j < hi
  {
    ghost var m: int;
    if i0 == lo && j0 == hi {
      m :| lo <= m <= hi && a[m] == piv;
    }
    i := ScanUp(a, i0, piv, if i0 == lo && j0 == hi then m else j0 + 1);
    j := ScanDown(a, j0, piv, if i0 == lo && j0 == hi then m else i - 1);
    if i <= j {
      SwapKeepsFrame(a[..n], was, lo, hi, i, j);
      Swap(a, n, i, j);
      i, j := i + 1, j - 1;
    }
  }

  /** Exchanges elements of lo..hi around the middle one until the scans meet. */
  method Partition(a: array<real>, n: nat, lo: nat, hi: nat, ghost was: seq<real>) returns (i: int, j: int)
    requires lo < hi < n <= a.Length && Framed(a[..n], was, lo, hi)
    modifies a
    ensures lo < i && j < hi && lo - 1 <= j < i <= hi + 1 && i <= j + 2
    ensures Framed(a[..n], was, lo, hi) && Split(a[..n], i) && Split(a[..n], j + 1)
    ensures forall k :: n <= k < a.Length ==> a[k] == old(a[k])
  {
    var piv := a[lo + (hi - lo) / 2];
    i, j := lo, hi;
    while i <= j
      invariant Parting(a, lo, hi, i, j, piv) && Framed(a[..n], was, lo, hi)
      invariant forall k :: n <= k < a.Length ==> a[k] == old(a[k])
      decreases j - i + 2
    {
      i, j := PartStep(a, n, lo, hi, i, j, piv, was);
    }
  }

  /** kth_largest: permutes the first n elements and returns the k-th largest of them. */
  method KthLargest(a: array<real>, n: nat, k: nat) returns (v: real)
    requires 0 < k <= n <= a.Length
    modifies a
    ensures IsKth(old(a[..n]), k, v) && multiset(a[..n]) == multiset(old(a[..n]))
    ensures forall j :: n <= j < a.Length ==> a[j] == old(a[j])
  {
    ghost var was := a[..n];
    var lo, hi, want := 0, n - 1, k - 1;
    while lo < hi
      invariant 0 <= lo <= want <= hi < n && Framed(a[..n], was, lo, hi)
      invariant forall j :: n <= j < a.Length ==> a[j] == old(a[j])
      decreases hi - lo
    {
      var i, j := Partition(a, n, lo, hi, was);
      if want <= j {
        hi := j;
      } else if want >= i {
        lo := i;
      } else {
        assert want == j + 1 && want + 1 == i;
        break;
      }
    }
    assert Split(a[..n], want) && Split(a[..n], want + 1);
    v := a[want];
    InPlaceIsKth(a[..n], want);
    PermutationKeepsCounts(a[..n], was, v);
  }

  // ----- the sampled threshold

  /** The scores of at least t, in order. */
  function Clearing(s: seq<real>, t: real): seq<real> {
    if s == [] then []
    else if s[|s| - 1] >= t then Clearing(s[..|s| - 1], t) + [s[|s| - 1]]
    else Clearing(s[..|s| - 1], t)
  }

  lemma CountsPush(c: seq<real>, x: real, v: real)
    ensures Above(c + [x], v) == Above(c, v) + if x > v then 1 else 0
    ensures AtLeast(c + [x], v) == AtLeast(c, v) + if x >= v then 1 else 0
  {
    assert (c + [x])[..|c|] == c;
  }

  lemma {:induction false} ClearingCounts(s: seq<real>, t: real, v: real)
    requires v >= t
    ensures Above(Clearing(s, t), v) == Above(s, v) && AtLeast(Clearing(s, t), v) == AtLeast(s, v)
  {
    if s != [] {
      var n := |s| - 1;
      ClearingCounts(s[..n], t, v);
      CountsPush(Clearing(s[..n], t), s[n], v);
    }
  }

  lemma {:induction false} ClearingIsAbove(s: seq<real>, t: real, v: real)
    requires v < t
    ensures Above(Clearing(s, t), v) == |Clearing(s, t)|
  {
    if s != [] {
      var n := |s| - 1;
      ClearingIsAbove(s[..n], t, v);
      CountsPush(Clearing(s[..n], t), s[n], v);
    }
  }

  /** Selecting among the scores that clear any provisional bound gives the k-th largest of
      them all, provided at least k clear it. */
  lemma ClearingSelects(s: seq<real>, t: real, k: nat, v: real)
    requires IsKth(Clearing(s, t), k, v)
    ensures IsKth(s, k, v)
  {
    if v < t {
      ClearingIsAbove(s, t, v);
      assert false;
    }
    ClearingCounts(s, t, v);
  }

  method Sample(score: array<real>, tmp: array<real>) returns (ns: nat)
    requires score.Length == tmp.Length > 0 && score != tmp
    modifies tmp
    ensures 0 < ns <= tmp.Length
  {
    ns := 0;
    var v := 0;
    while v < score.Length
      invariant v == STRIDE * ns && (v < score.Length + STRIDE) && (v == 0 || ns > 0)
      invariant ns <= tmp.Length
    {
      tmp[ns] := score[v];
      ns, v := ns + 1, v + STRIDE;
    }
  }

  method Clear(score: array<real>, tmp: array<real>, t: real) returns (nc: nat)
    requires score.Length == tmp.Length && score != tmp
    modifies tmp
    ensures nc <= tmp.Length && tmp[..nc] == Clearing(score[..], t)
  {
    nc := 0;
    for v := 0 to score.Length
      invariant nc <= v && tmp[..nc] == Clearing(score[..v], t)
    {
      assert score[..v + 1][..v] == score[..v];
      if score[v] >= t {
        tmp[nc] := score[v];
        nc := nc + 1;
        assert tmp[..nc] == tmp[..nc - 1] + [score[v]];
      }
    }
    assert score[..score.Length] == score[..];
  }

  /** The threshold, by way of a sampled bound, is the k-th largest of all the scores. */
  method Threshold(score: array<real>, tmp: array<real>, k: nat) returns (thr: real)
    requires score.Length == tmp.Length && score != tmp && 0 < k <= score.Length
    modifies tmp
    ensures IsKth(score[..], k, thr)
  {
    var ns := Sample(score, tmp);
    var ks := 2 * k / STRIDE + 1;
    if ks > ns { ks := ns; }
    var thr0 := KthLargest(tmp, ns, ks);
    var nc := Clear(score, tmp, thr0);
    if nc >= k {
      thr := KthLargest(tmp, nc, k);
      ClearingSelects(score[..], thr0, k, thr);
    } else {
      forall i | 0 <= i < tmp.Length { tmp[i] := score[i]; }
      assert tmp[..tmp.Length] == score[..];
      thr := KthLargest(tmp, tmp.Length, k);
    }
  }

  // ----- the candidate blocks and the logits

  /** Block b of four rows holds a row that scores at least t. */
  ghost predicate Chosen(s: seq<real>, t: real, b: nat) {
    exists v :: 0 <= v < |s| && v / 4 == b && s[v] >= t
  }

  lemma ChosenNext(s: seq<real>, t: real, v: nat, b: nat)
    requires v < |s|
    ensures Chosen(s[..v + 1], t, b) <==> Chosen(s[..v], t, b) || (v / 4 == b && s[v] >= t)
  {
    if Chosen(s[..v], t, b) {
      var u :| 0 <= u < v && u / 4 == b && s[..v][u] >= t;
      assert s[..v + 1][u] == s[..v][u];
    }
    if v / 4 == b && s[v] >= t {
      assert s[..v + 1][v] == s[v];
    }
    if Chosen(s[..v + 1], t, b) && !(v / 4 == b && s[v] >= t) {
      var u :| 0 <= u < v + 1 && u / 4 == b && s[..v + 1][u] >= t;
      assert s[..v][u] == s[..v + 1][u];
    }
  }

  /** The blocks chosen, each once. */
  method Mark(score: array<real>, thr: real) returns (blk: seq<nat>)
    ensures forall b: nat :: b in blk <==> Chosen(score[..], thr, b)
    ensures forall i, j :: 0 <= i < j < |blk| ==> blk[i] != blk[j]
  {
    var mark := new bool[(score.Length + 3) / 4](_ => false);
    blk := [];
    for v := 0 to score.Length
      invariant forall b: nat :: b in blk <==> b < mark.Length && mark[b]
      invariant forall b: nat :: b in blk <==> Chosen(score[..][..v], thr, b)
      invariant forall i, j :: 0 <= i < j < |blk| ==> blk[i] != blk[j]
    {
      forall b: nat
        ensures Chosen(score[..][..v + 1], thr, b) <==>
                Chosen(score[..][..v], thr, b) || (v / 4 == b && score[v] >= thr)
      {
        ChosenNext(score[..], thr, v, b);
      }
      if score[v] >= thr && !mark[v / 4] {
        mark[v / 4] := true;
        blk := blk + [v / 4];
      }
    }
    assert score[..][..score.Length] == score[..];
  }

  /** exact_part: the logits of one block's rows, the last block being ragged. */
  method ExactBlock(logit: array<real>, b: nat, exact: nat -> real)
    modifies logit
    ensures forall v :: 0 <= v < logit.Length ==> logit[v] == if v / 4 == b then exact(v) else old(logit[v])
  {
    for r := 0 to 4
      invariant forall v :: 0 <= v < logit.Length ==>
          logit[v] == if v / 4 == b && v % 4 < r then exact(v) else old(logit[v])
    {
      if b * 4 + r < logit.Length { logit[b * 4 + r] := exact(b * 4 + r); }
    }
  }

  /** moty_nn_head_apply with a shortlist, given the scores and the exact logit of each
      row: exact logits in the blocks chosen by the true k-th largest score, a mask in all
      others. At least k rows are exact, and every row that scores as high as the k-th. */
  method Apply(logit: array<real>, score: array<real>, tmp: array<real>, k: nat, exact: nat -> real)
    returns (ghost thr: real)
    requires logit.Length == score.Length == tmp.Length && logit != score && logit != tmp && score != tmp
    requires 0 < k <= score.Length
    modifies logit, tmp
    ensures IsKth(score[..], k, thr) && AtLeast(score[..], thr) >= k
    ensures forall v :: 0 <= v < logit.Length ==>
      logit[v] == if Chosen(score[..], thr, v / 4) then exact(v) else MASKED
    ensures forall v :: 0 <= v < logit.Length && score[v] >= thr ==> logit[v] == exact(v)
  {
    ghost var s := score[..];
    var t := Threshold(score, tmp, k);
    thr := t;
    assert score[..] == s;
    var blk := Mark(score, t);
    forall v | 0 <= v < logit.Length { logit[v] := MASKED; }
    for i := 0 to |blk|
      invariant forall v :: 0 <= v < logit.Length ==> logit[v] == if v / 4 in blk[..i] then exact(v) else MASKED
    {
      assert blk[..i + 1] == blk[..i] + [blk[i]];
      ExactBlock(logit, blk[i], exact);
    }
    assert blk[..|blk|] == blk && score[..] == s;
    assert forall v :: 0 <= v < |score[..]| && score[..][v] >= t ==> Chosen(score[..], t, v / 4);
    assert forall v :: 0 <= v < score.Length ==> score[..][v] == score[v];
  }
}
