/** Sampling with deterministic drafts (c/engines/glm.c, dist_sample and the rejection
    step of spec_decode), over exact reals: a draft d is accepted with probability p(d),
    and after a rejection the token is drawn with d banned. */
module Sampling {

  function Sum(p: seq<real>): real {
    if p == [] then 0.0 else Sum(p[..|p| - 1]) + p[|p| - 1]
  }

  ghost predicate IsDist(p: seq<real>) {
    p != [] && (forall i :: 0 <= i < |p| ==> p[i] >= 0.0) && Sum(p) == 1.0
  }

  /** Mass below index i, the banned token left out. */
  function Cum(p: seq<real>, ban: int, i: nat): real
    requires i <= |p|
  {
    if i == 0 then 0.0
    else Cum(p, ban, i - 1) + if i - 1 == ban then 0.0 else p[i - 1]
  }

  const TINY := 0.000000000001

  /** What the uniform draw is scaled by: the mass left, but never below TINY. */
  function Scale(p: seq<real>, ban: int): (z: real)
    requires ban < |p|
    ensures z >= TINY
  {
    var z := 1.0 - if ban >= 0 then p[ban] else 0.0;
    if z <= TINY then TINY else z
  }

  /** The first token from i on at which the running mass reaches t, or |p|. */
  function Reach(p: seq<real>, ban: int, t: real, i: nat, cum: real): (r: nat)
    requires i <= |p|
    ensures i <= r <= |p|
    decreases |p| - i
  {
    if i == |p| then i
    else if i == ban then Reach(p, ban, t, i + 1, cum)
    else if cum + p[i] >= t then i
    else Reach(p, ban, t, i + 1, cum + p[i])
  }

  /** The last token below n that has mass and is not banned, or -1. */
  function LastPositive(p: seq<real>, ban: int, n: nat): (l: int)
    requires n <= |p|
    ensures -1 <= l < n && (l >= 0 ==> l != ban && p[l] > 0.0)
    ensures forall i :: l < i < n ==> i == ban || p[i] <= 0.0
  {
    if n == 0 then -1
    else if n - 1 != ban && p[n - 1] > 0.0 then n - 1
    else LastPositive(p, ban, n - 1)
  }

  function Times(a: real, b: real): real { a * b }

  /** The token a draw u in [0, 1) selects. */
  function TokenAt(p: seq<real>, ban: int, u: real): int
    requires ban < |p|
  {
    TokenOf(p, ban, Times(u, Scale(p, ban)))
  }

  /** The token selected when the scaled draw is t. */
  function TokenOf(p: seq<real>, ban: int, t: real): int
    requires ban < |p|
  {
    Selected(p, ban, Reach(p, ban, t, 0, 0.0))
  }

  /** The token the running mass reached, else the last one with mass. */
  function Selected(p: seq<real>, ban: int, r: nat): int {
    var l := LastPositive(p, ban, |p|);
    if r < |p| then r else if l >= 0 then l else 0
  }

  /** dist_sample, given the value u of the uniform draw. */
  method DistSample(p: array<real>, ban: int, u: real) returns (x: int)
    requires ban < p.Length
    ensures x == TokenAt(p[..], ban, u)
  {
    ghost var q := p[..];
    var z := 1.0 - if ban >= 0 then p[ban] else 0.0;
    if z <= TINY { z := TINY; }
    assert z == Scale(q, ban);
    var t, cum := Times(u, z), 0.0;
    assert TokenAt(q, ban, u) == TokenOf(q, ban, t);
    for i := 0 to p.Length
      invariant p[..] == q && Reach(q, ban, t, 0, 0.0) == Reach(q, ban, t, i, cum)
    {
      if i == ban { continue; }
      assert cum + q[i] >= t ==> Reach(q, ban, t, i, cum) == i;
      cum := cum + p[i];
      if cum >= t { return i; }
    }
    for i := p.Length downto 0
      invariant p[..] == q && LastPositive(q, ban, p.Length) == LastPositive(q, ban, i)
    {
      if i != ban && p[i] > 0.0 { return i; }
    }
    x := 0;
  }

  // ----- probabilities as lengths of intervals of the draw

  /** The draws in [0, 1) that select x fill an interval of length m, up to its ends. */
  ghost predicate Interval(f: real -> int, x: int, a: real, b: real) {
    && 0.0 <= a <= b <= 1.0
    && forall u: real :: 0.0 <= u < 1.0 ==> (a < u < b ==> f(u) == x) && (f(u) == x ==> a <= u <= b)
  }

  ghost predicate HasMass(f: real -> int, x: int, m: real) {
    exists a, b :: Interval(f, x, a, b) && b - a == m
  }

  /** A selection gives each token at most one mass, so HasMass is its probability. */
  lemma MassIsUnique(f: real -> int, x: int, m: real, m': real)
    requires HasMass(f, x, m) && HasMass(f, x, m')
    ensures m == m'
  {
    var a, b :| Interval(f, x, a, b) && b - a == m;
    var a', b' :| Interval(f, x, a', b') && b' - a' == m';
    IntervalWithin(f, x, a, b, a', b');
    IntervalWithin(f, x, a', b', a, b);
  }

  lemma Inside(f: real -> int, x: int, a: real, b: real, u: real)
    requires Interval(f, x, a, b) && a < u < b
    ensures f(u) == x
  {
    assert 0.0 <= u < 1.0;
  }

  lemma IntervalWithin(f: real -> int, x: int, a: real, b: real, a': real, b': real)
    requires Interval(f, x, a, b) && Interval(f, x, a', b')
    ensures a < b ==> a' <= a && b <= b'
    ensures a == b ==> a' == b'
  {
    if a < b {
      if a < a' {
        Inside(f, x, a, b, (a + if a' < b then a' else b) / 2.0);
        assert false;
      }
      if b' < b {
        Inside(f, x, a, b, ((if a < b' then b' else a) + b) / 2.0);
        assert false;
      }
    } else if a' < b' {
      Inside(f, x, a', b', (2.0 * a' + b') / 3.0);
      Inside(f, x, a', b', (a' + 2.0 * b') / 3.0);
      assert false;
    }
  }

  /** The probability with which dist_sample returns x. */
  function SampleLaw(p: seq<real>, ban: int, x: int): real
    requires ban < |p| && 0 <= x < |p|
  {
    var l := LastPositive(p, ban, |p|);
    if l < 0 then (if x == 0 then 1.0 else 0.0)
    else if x == ban then 0.0
    else if x == l then 1.0 - Cum(p, ban, l) / Scale(p, ban)
    else p[x] / Scale(p, ban)
  }

  lemma {:induction false} CumGrows(p: seq<real>, ban: int, i: nat, j: nat)
    requires i <= j <= |p| && forall k :: 0 <= k < |p| ==> p[k] >= 0.0
    ensures Cum(p, ban, i) <= Cum(p, ban, j)
    decreases j
  {
    if i < j { CumGrows(p, ban, i, j - 1); }
  }

  lemma {:induction false} CumIsSum(p: seq<real>, ban: int, i: nat)
    requires i <= |p|
    ensures Cum(p, ban, i) == Sum(p[..i]) - if 0 <= ban < i then p[ban] else 0.0
  {
    if i > 0 {
      CumIsSum(p, ban, i - 1);
      assert p[..i][..i - 1] == p[..i - 1];
    }
  }

  lemma {:induction false} CumFlat(p: seq<real>, ban: int, i: nat, j: nat)
    requires i <= j <= |p| && forall k :: i <= k < j ==> k == ban || p[k] == 0.0
    ensures Cum(p, ban, i) == Cum(p, ban, j)
    decreases j
  {
    if i < j { CumFlat(p, ban, i, j - 1); }
  }

  /** The mass left without the banned token, and the scale that covers it. */
  lemma MassLeft(p: seq<real>, ban: int)
    requires IsDist(p) && ban < |p|
    ensures Cum(p, ban, |p|) == 1.0 - (if ban >= 0 then p[ban] else 0.0) <= Scale(p, ban)
  {
    CumIsSum(p, ban, |p|);
    assert p[..|p|] == p;
  }

  lemma {:induction false} ReachBetween(p: seq<real>, ban: int, t: real, i: nat)
    requires i <= |p| && Cum(p, ban, i) <= t
    ensures var r := Reach(p, ban, t, i, Cum(p, ban, i));
            if r < |p| then r != ban && Cum(p, ban, r) <= t <= Cum(p, ban, r + 1) else Cum(p, ban, |p|) <= t
    decreases |p| - i
  {
    if i < |p| && (i == ban || Cum(p, ban, i + 1) < t) {
      ReachBetween(p, ban, t, i + 1);
    }
  }

  lemma {:induction false} ReachAt(p: seq<real>, ban: int, t: real, i: nat, x: nat)
    requires i <= x <= |p| && forall k :: 0 <= k < |p| ==> p[k] >= 0.0
    requires Cum(p, ban, x) < t && (x < |p| ==> x != ban && t <= Cum(p, ban, x + 1))
    ensures Reach(p, ban, t, i, Cum(p, ban, i)) == x
    decreases |p| - i
  {
    if i < x {
      CumGrows(p, ban, i + 1, x);
      ReachAt(p, ban, t, i + 1, x);
    }
  }

  lemma Rescale(u: real, z: real, c: real)
    requires z > 0.0
    ensures u < c / z <==> u * z < c
    ensures c / z < u <==> c < u * z
  {
    assert c == (c / z) * z;
    if u < c / z { assert (c / z - u) * z > 0.0; }
    if c / z < u { assert (u - c / z) * z > 0.0; }
  }

  /** dist_sample returns x on an interval of draws as long as SampleLaw says. */
  lemma SampleMass(p: seq<real>, ban: int, x: int)
    requires IsDist(p) && ban < |p| && 0 <= x < |p|
    ensures HasMass((u: real) => TokenAt(p, ban, u), x, SampleLaw(p, ban, x))
  {
    var f := (u: real) => TokenAt(p, ban, u);
    var z, l := Scale(p, ban), LastPositive(p, ban, |p|);
    MassLeft(p, ban);
    if l < 0 || x == ban {
      NoMass(p, ban, x);
      var b := SampleLaw(p, ban, x);
      assert Interval(f, x, 0.0, b);
    } else {
      var a := Cum(p, ban, x) / z;
      var b := if x == l then 1.0 else Cum(p, ban, x + 1) / z;
      CumGrows(p, ban, 0, x);
      CumGrows(p, ban, x, x + 1);
      CumGrows(p, ban, x + 1, |p|);
      Fractions(Cum(p, ban, x), Cum(p, ban, x + 1), z);
      Shares(p, ban, x);
      Unscaled(f, t => TokenOf(p, ban, t), x, z, Cum(p, ban, x), Cum(p, ban, x + 1), x == l);
      assert Interval(f, x, a, b);
      assert b - a == SampleLaw(p, ban, x);
    }
  }

  lemma Fractions(c: real, c': real, z: real)
    requires z > 0.0 && 0.0 <= c <= c' <= z
    ensures 0.0 <= c / z <= c' / z <= 1.0 && c' / z - c / z == (c' - c) / z
  {
    Rescale(0.0, z, c);
    Rescale(1.0, z, c');
    Rescale(c / z, z, c');
  }

  /** hit tells, up to the ends, whether t lies between c and c' (or beyond c, if last). */
  predicate Marks(c: real, t: real, c': real, last: bool, hit: bool) {
    && (c < t && (last || t < c') ==> hit)
    && (hit ==> c <= t && (last || t <= c'))
  }

  /** A token with mass is drawn when the scaled draw t falls strictly inside its share
      of the running mass (the last one also beyond it), and nowhere outside it. */
  lemma DrawnOf(p: seq<real>, ban: int, x: int, t: real)
    requires IsDist(p) && ban < |p| && 0 <= x < |p| && x != ban && LastPositive(p, ban, |p|) >= 0
    requires !(t < 0.0)
    ensures Marks(Cum(p, ban, x), t, Cum(p, ban, x + 1), x == LastPositive(p, ban, |p|), TokenOf(p, ban, t) == x)
  {
    ReachBetween(p, ban, t, 0);
    CumGrows(p, ban, x, |p|);
    if Cum(p, ban, x) < t {
      if t <= Cum(p, ban, x + 1) {
        ReachAt(p, ban, t, 0, x);
      } else if x == LastPositive(p, ban, |p|) {
        CumFlat(p, ban, x + 1, |p|);
        ReachAt(p, ban, t, 0, |p|);
      }
    }
  }

  ghost predicate Shared(g: real -> int, x: int, c: real, c': real, last: bool) {
    forall t: real :: !(t < 0.0) ==> Marks(c, t, c', last, g(t) == x)
  }

  lemma Shares(p: seq<real>, ban: int, x: int)
    requires IsDist(p) && ban < |p| && 0 <= x < |p| && x != ban && LastPositive(p, ban, |p|) >= 0
    ensures Shared(t => TokenOf(p, ban, t), x, Cum(p, ban, x), Cum(p, ban, x + 1), x == LastPositive(p, ban, |p|))
  {
    forall t: real | !(t < 0.0)
      ensures Marks(Cum(p, ban, x), t, Cum(p, ban, x + 1), x == LastPositive(p, ban, |p|), TokenOf(p, ban, t) == x)
    {
      DrawnOf(p, ban, x, t);
    }
  }

  /** The draws are the scaled draws divided by the scale. */
  lemma Unscaled(f: real -> int, g: real -> int, x: int, z: real, c: real, c': real, last: bool)
    requires z > 0.0 && Shared(g, x, c, c', last) && forall u :: f(u) == g(Times(u, z))
    ensures forall u: real :: 0.0 <= u < 1.0 ==> Marks(c / z, u, c' / z, last, f(u) == x)
  {
    forall u: real | 0.0 <= u < 1.0 ensures Marks(c / z, u, c' / z, last, f(u) == x) {
      NonNegative(u, z);
      assert Marks(c, Times(u, z), c', last, g(Times(u, z)) == x);
      Unscale(u, z, c, c', f(u) == x, last);
    }
  }

  lemma NonNegative(u: real, z: real)
    requires u >= 0.0 && z > 0.0
    ensures !(Times(u, z) < 0.0) && (u > 0.0 ==> Times(u, z) > 0.0)
  {
  }

  lemma Unscale(u: real, z: real, c: real, c': real, hit: bool, last: bool)
    requires z > 0.0
    requires Marks(c, u * z, c', last, hit)
    ensures Marks(c / z, u, c' / z, last, hit)
  {
    Rescale(u, z, c);
    Rescale(u, z, c');
  }

  /** A banned token, or any token when nothing but the ban has mass. */
  lemma NoMass(p: seq<real>, ban: int, x: int)
    requires IsDist(p) && ban < |p| && 0 <= x < |p|
    requires LastPositive(p, ban, |p|) < 0 || x == ban
    ensures Interval((u: real) => TokenAt(p, ban, u), x, 0.0, SampleLaw(p, ban, x))
  {
    forall u: real | 0.0 <= u < 1.0
      ensures var m := SampleLaw(p, ban, x);
              (0.0 < u < m ==> TokenAt(p, ban, u) == x) && (TokenAt(p, ban, u) == x ==> u <= m)
    {
      NonNegative(u, Scale(p, ban));
      NoMassOf(p, ban, x, Times(u, Scale(p, ban)));
    }
  }

  lemma NoMassOf(p: seq<real>, ban: int, x: int, t: real)
    requires IsDist(p) && ban < |p| && 0 <= x < |p| && !(t < 0.0)
    requires LastPositive(p, ban, |p|) < 0 || x == ban
    ensures SampleLaw(p, ban, x) == 0.0 || SampleLaw(p, ban, x) == 1.0
    ensures t > 0.0 && SampleLaw(p, ban, x) == 1.0 ==> TokenOf(p, ban, t) == x
    ensures t > 0.0 && SampleLaw(p, ban, x) == 0.0 ==> TokenOf(p, ban, t) != x
  {
    ReachBetween(p, ban, t, 0);
    if LastPositive(p, ban, |p|) < 0 && t > 0.0 {
      CumFlat(p, ban, 0, |p|);
      ReachAt(p, ban, t, 0, |p|);
    }
  }

  // ----- the rejection step, and chains of drafts

  /** The probability that draft d is accepted and is x, or is rejected and x is drawn. */
  function StepLaw(p: seq<real>, d: int, x: int): real
    requires 0 <= d < |p| && 0 <= x < |p|
  {
    (if x == d then p[d] else 0.0) + Times(1.0 - p[d], SampleLaw(p, d, x))
  }

  /** The acceptance test: the draw is below the probability of the draft. */
  lemma AcceptMass(p: seq<real>, d: int)
    requires IsDist(p) && 0 <= d < |p|
    ensures HasMass((u: real) => if u < p[d] then 1 else 0, 1, p[d])
    ensures HasMass((u: real) => if u < p[d] then 1 else 0, 0, 1.0 - p[d])
  {
    MassLeft(p, d);
    CumGrows(p, d, 0, |p|);
    assert Interval((u: real) => if u < p[d] then 1 else 0, 1, 0.0, p[d]);
    assert Interval((u: real) => if u < p[d] then 1 else 0, 0, p[d], 1.0);
  }

  /** At least TINY of the mass is not the draft's, or none is, or one token has it all. */
  ghost predicate ScaleCovers(p: seq<real>, d: int)
    requires 0 <= d < |p|
  {
    || 1.0 - p[d] >= TINY
    || p[d] >= 1.0
    || (forall i, j :: 0 <= i < |p| && 0 <= j < |p| && i != d && j != d && p[i] > 0.0 && p[j] > 0.0 ==> i == j)
  }

  /** Over the reals, speculation leaves the distribution of the next token unchanged exactly
      when the floor under the scale does not distort the draw after a rejection. It never
      does in the buffer's own numbers: see SpacedIsCovered. */
  lemma RejectionIsExact(p: seq<real>, d: int)
    requires IsDist(p) && 0 <= d < |p|
    ensures (forall x :: 0 <= x < |p| ==> StepLaw(p, d, x) == p[x]) <==> ScaleCovers(p, d)
  {
    if ScaleCovers(p, d) {
      forall x | 0 <= x < |p| ensures StepLaw(p, d, x) == p[x] { ExactAt(p, d, x); }
    } else {
      var x := DistortedAt(p, d);
    }
  }

  lemma DistortedAt(p: seq<real>, d: int) returns (x: int)
    requires IsDist(p) && 0 <= d < |p| && !ScaleCovers(p, d)
    ensures 0 <= x < |p| && StepLaw(p, d, x) != p[x]
  {
    var l := LastPositive(p, d, |p|);
    x := OtherPositive(p, d, l);
    assert SampleLaw(p, d, x) == p[x] / TINY;
    Distorted(1.0 - p[d], p[x]);
  }

  lemma Distorted(r: real, q: real)
    requires 0.0 < q && r < TINY
    ensures r * (q / TINY) != q
  {
    assert q == (q / TINY) * TINY;
    assert (TINY - r) * (q / TINY) > 0.0;
  }

  lemma OtherPositive(p: seq<real>, d: int, l: int) returns (x: int)
    requires IsDist(p) && 0 <= d < |p| && l == LastPositive(p, d, |p|) && !ScaleCovers(p, d)
    ensures 0 <= x < |p| && x != d && x != l && p[x] > 0.0 && l >= 0
  {
    var i, j :| 0 <= i < |p| && 0 <= j < |p| && i != d && j != d && p[i] > 0.0 && p[j] > 0.0 && i != j;
    x := if i == l then j else i;
  }

  /** Nothing but the draft has mass: it is always accepted. */
  lemma ExactAlone(p: seq<real>, d: int, x: int)
    requires IsDist(p) && 0 <= d < |p| && 0 <= x < |p| && LastPositive(p, d, |p|) < 0
    ensures StepLaw(p, d, x) == p[x]
  {
    MassLeft(p, d);
    CumFlat(p, d, 0, |p|);
    assert p[d] == 1.0;
  }

  /** The scale is the mass left: every token but the draft gets its share of it. */
  lemma ExactScaled(p: seq<real>, d: int, x: int)
    requires IsDist(p) && 0 <= d < |p| && 0 <= x < |p| && LastPositive(p, d, |p|) >= 0 && 1.0 - p[d] >= TINY
    ensures StepLaw(p, d, x) == p[x]
  {
    var l := LastPositive(p, d, |p|);
    if x == l { LastTakesTheRest(p, d, l); }
    ScaledStep(x == d, x == l, p[x], 1.0 - p[d], Scale(p, d), Cum(p, d, l),
        SampleLaw(p, d, x), Times(1.0 - p[d], SampleLaw(p, d, x)));
  }

  lemma ScaledStep(draft: bool, last: bool, px: real, left: real, z: real, below: real, law: real, redrawn: real)
    requires 0.0 < left == z && redrawn == Times(left, law)
    requires law == if draft then 0.0 else if last then 1.0 - below / z else px / z
    requires !draft && last ==> below == left - px
    ensures redrawn == if draft then 0.0 else px
  {
    if !draft {
      if last { Share(left, below, law); } else { Portion(left, px, law); }
    }
  }

  lemma LastTakesTheRest(p: seq<real>, d: int, l: int)
    requires IsDist(p) && 0 <= d < |p| && l == LastPositive(p, d, |p|) >= 0
    ensures Cum(p, d, l) == 1.0 - p[d] - p[l]
  {
    MassLeft(p, d);
    CumFlat(p, d, l + 1, |p|);
  }

  /** One other token has all the mass left. */
  lemma ExactSingle(p: seq<real>, d: int, x: int)
    requires IsDist(p) && 0 <= d < |p| && 0 <= x < |p| && LastPositive(p, d, |p|) >= 0
    requires forall i :: 0 <= i < |p| && i != d && p[i] > 0.0 ==> i == LastPositive(p, d, |p|)
    ensures StepLaw(p, d, x) == p[x]
  {
    var l := LastPositive(p, d, |p|);
    MassLeft(p, d);
    CumFlat(p, d, l + 1, |p|);
    CumFlat(p, d, 0, l);
    ZeroShare(1.0 - p[d], Scale(p, d));
  }

  lemma ExactAt(p: seq<real>, d: int, x: int)
    requires IsDist(p) && 0 <= d < |p| && 0 <= x < |p| && ScaleCovers(p, d)
    ensures StepLaw(p, d, x) == p[x]
  {
    var l := LastPositive(p, d, |p|);
    if l < 0 {
      ExactAlone(p, d, x);
    } else if 1.0 - p[d] >= TINY {
      ExactScaled(p, d, x);
    } else {
      if p[d] >= 1.0 { AllMass(p, d, l); }
      ExactSingle(p, d, x);
    }
  }

  /** A draft with all the mass leaves none for another token. */
  lemma AllMass(p: seq<real>, d: int, l: int)
    requires IsDist(p) && 0 <= d < |p| && 0 <= l < |p| && l != d && p[d] >= 1.0
    ensures p[l] == 0.0
  {
    MassLeft(p, d);
    CumGrows(p, d, 0, l);
    CumGrows(p, d, l + 1, |p|);
  }

  lemma Portion(r: real, q: real, s: real)
    requires r > 0.0 && s == q / r
    ensures r * s == q
  {
  }

  lemma Share(r: real, q: real, s: real)
    requires r > 0.0 && s == 1.0 - q / r
    ensures r * s == r - q
  {
    Portion(r, q, q / r);
  }

  lemma ZeroShare(r: real, z: real)
    requires z > 0.0
    ensures r * (0.0 / z) == 0.0 && r * (1.0 - 0.0 / z) == r
  {
  }

  /** Without a ban dist_sample draws from p itself. */
  lemma NoBanIsExact(p: seq<real>, x: int)
    requires IsDist(p) && 0 <= x < |p|
    ensures SampleLaw(p, -1, x) == p[x]
  {
    MassLeft(p, -1);
    var l := LastPositive(p, -1, |p|);
    if l < 0 {
      CumFlat(p, -1, 0, |p|);
    } else {
      CumFlat(p, -1, l + 1, |p|);
    }
  }

  /** A model: the distribution of the next token after each history. */
  type Model = seq<nat> -> seq<real>

  /** Every token of out is one of the model's at its place after h. */
  predicate InRange(law: Model, h: seq<nat>, out: seq<nat>)
    decreases |out|
  {
    out != [] ==> out[0] < |law(h)| && InRange(law, h + [out[0]], out[1..])
  }

  /** The probability that autoregressive sampling after h starts with `out`. */
  function AutoLaw(law: Model, times: (real, real) -> real, h: seq<nat>, out: seq<nat>): real
    requires InRange(law, h, out)
    decreases |out|
  {
    if out == [] then 1.0 else times(law(h)[out[0]], AutoLaw(law, times, h + [out[0]], out[1..]))
  }

  /** A speculating sampler: the model, the probability of a drawn token given history and
      banned token, the drafts proposed after each history, and the product of reals. */
  datatype Chain = Chain(
    law: Model, draw: (seq<nat>, int, nat) -> real, guess: seq<nat> -> seq<nat>, times: (real, real) -> real)

  /** The sampler that draws with dist_sample. */
  function Sampler(law: Model, guess: seq<nat> -> seq<nat>): Chain {
    Chain(law,
          (h: seq<nat>, ban: int, x: nat) => if ban < |law(h)| && x < |law(h)| then SampleLaw(law(h), ban, x) else 0.0,
          guess,
          Times)
  }

  /** The probability that speculative sampling starts with `out`, from the top of a
      round (token `ban` just rejected, or -1): draw, then guess and verify. */
  function TopLaw(c: Chain, h: seq<nat>, ban: int, out: seq<nat>): real
    requires InRange(c.law, h, out)
    decreases |out|, 0
  {
    if out == [] then 1.0 else
      var h' := h + [out[0]];
      c.times(c.draw(h, ban, out[0]), VerifyLaw(c, h', c.guess(h'), out[1..]))
  }

  /** The same from within the verification of the drafts `ds`: the first is accepted
      with its own probability, otherwise the round ends with it banned. */
  function VerifyLaw(c: Chain, h: seq<nat>, ds: seq<nat>, out: seq<nat>): real
    requires InRange(c.law, h, out)
    decreases |out|, 1
  {
    if out == [] then 1.0
    else if ds == [] || ds[0] >= |c.law(h)| then TopLaw(c, h, -1, out)
    else
      var d := ds[0];
      (if out[0] == d then c.times(c.law(h)[d], VerifyLaw(c, h + [d], ds[1..], out[1..])) else 0.0)
      + c.times(1.0 - c.law(h)[d], TopLaw(c, h, d, out))
  }

  /** Accepting d or redrawing with d banned gives x its probability after h, whatever
      probability v the rest has. */
  ghost predicate StepIsExact(c: Chain, h: seq<nat>, d: nat, x: nat)
    requires d < |c.law(h)| && x < |c.law(h)|
  {
    forall v :: (if x == d then c.times(c.law(h)[d], v) else 0.0)
              + c.times(1.0 - c.law(h)[d], c.times(c.draw(h, d, x), v)) == c.times(c.law(h)[x], v)
  }

  /** Along the tokens of out: a draw without a ban gives each its probability, and so does
      every step with a draft. */
  ghost predicate ExactAlong(c: Chain, h: seq<nat>, out: seq<nat>)
    requires InRange(c.law, h, out)
    decreases |out|
  {
    out != [] ==>
      && c.draw(h, -1, out[0]) == c.law(h)[out[0]]
      && (forall d: nat :: d < |c.law(h)| ==> StepIsExact(c, h, d, out[0]))
      && ExactAlong(c, h + [out[0]], out[1..])
  }

  /** Along out the model gives distributions whose scale is not below its floor. */
  ghost predicate CoveredAlong(law: Model, h: seq<nat>, out: seq<nat>)
    requires InRange(law, h, out)
    decreases |out|
  {
    out != [] ==>
      && IsDist(law(h)) && (forall d: nat :: d < |law(h)| ==> ScaleCovers(law(h), d))
      && CoveredAlong(law, h + [out[0]], out[1..])
  }

  lemma Distribute(hit: bool, a: real, v: real, s: real, p: real)
    requires (if hit then a else 0.0) + Times(1.0 - a, s) == p
    ensures (if hit then Times(a, v) else 0.0) + Times(1.0 - a, Times(s, v)) == Times(p, v)
  {
    assert (1.0 - a) * (s * v) == ((1.0 - a) * s) * v;
  }

  lemma StepLawUnfolds(p: seq<real>, d: int, x: int, s: real)
    requires 0 <= d < |p| && 0 <= x < |p| && s == SampleLaw(p, d, x)
    ensures StepLaw(p, d, x) == (if x == d then p[d] else 0.0) + Times(1.0 - p[d], s)
  {
  }

  lemma StepFromLaw(law: Model, guess: seq<nat> -> seq<nat>, h: seq<nat>, d: nat, x: nat)
    requires d < |law(h)| && x < |law(h)| && StepLaw(law(h), d, x) == law(h)[x]
    ensures StepIsExact(Sampler(law, guess), h, d, x)
  {
    var c := Sampler(law, guess);
    var a, s, p := law(h)[d], c.draw(h, d, x), law(h)[x];
    StepLawUnfolds(law(h), d, x, s);
    forall v ensures (if x == d then c.times(a, v) else 0.0) + c.times(1.0 - a, c.times(s, v)) == c.times(p, v) {
      Distribute(x == d, a, v, s, p);
    }
  }

  lemma {:induction false} CoveredIsExact(law: Model, guess: seq<nat> -> seq<nat>, h: seq<nat>, out: seq<nat>)
    requires InRange(law, h, out) && CoveredAlong(law, h, out)
    ensures ExactAlong(Sampler(law, guess), h, out)
    decreases |out|
  {
    if out != [] {
      NoBanIsExact(law(h), out[0]);
      forall d: nat | d < |law(h)| ensures StepIsExact(Sampler(law, guess), h, d, out[0]) {
        ExactAt(law(h), d, out[0]);
        StepFromLaw(law, guess, h, d, out[0]);
      }
      CoveredIsExact(law, guess, h + [out[0]], out[1..]);
    }
  }

  /** Exact steps make speculation invisible: whatever is guessed, the emitted tokens
      follow the model's own product law. */
  lemma {:induction false} ChainIsExact(c: Chain, h: seq<nat>, ds: seq<nat>, out: seq<nat>)
    requires InRange(c.law, h, out) && ExactAlong(c, h, out)
    ensures VerifyLaw(c, h, ds, out) == AutoLaw(c.law, c.times, h, out)
    ensures TopLaw(c, h, -1, out) == AutoLaw(c.law, c.times, h, out)
    decreases |out|
  {
    if out != [] {
      var h' := h + [out[0]];
      ChainIsExact(c, h', c.guess(h'), out[1..]);
      if ds != [] && ds[0] < |c.law(h)| {
        ChainIsExact(c, h', ds[1..], out[1..]);
        assert StepIsExact(c, h, ds[0], out[0]);
      }
    }
  }

  /** Sampling with guessed tokens: where the model's distributions along the emitted tokens
      are not distorted by the floor under the scale, the law of those tokens is the
      model's, for every guesser. */
  lemma SpeculationIsInvisible(law: Model, guess: seq<nat> -> seq<nat>, h: seq<nat>, ds: seq<nat>, out: seq<nat>)
    requires InRange(law, h, out) && CoveredAlong(law, h, out)
    ensures var c := Sampler(law, guess);
            VerifyLaw(c, h, ds, out) == TopLaw(c, h, -1, out) == AutoLaw(law, Times, h, out)
  {
    CoveredIsExact(law, guess, h, out);
    ChainIsExact(Sampler(law, guess), h, ds, out);
  }

  /** The distance of 1 from the next smaller single-precision number is 2^-24. */
  ghost predicate Spaced(p: seq<real>) {
    forall d :: 0 <= d < |p| && p[d] < 1.0 ==> 1.0 - p[d] >= 1.0 / 16777216.0
  }

  /** The probabilities are single-precision numbers, so the floor is never reached: what a
      rejected draft leaves is at least 2^-24. */
  lemma SpacedIsCovered(p: seq<real>, d: int)
    requires Spaced(p) && 0 <= d < |p|
    ensures ScaleCovers(p, d)
  {
  }

  /** Along out the model's distributions are ones the buffer can hold. */
  ghost predicate SpacedAlong(law: Model, h: seq<nat>, out: seq<nat>)
    requires InRange(law, h, out)
    decreases |out|
  {
    out != [] ==> IsDist(law(h)) && Spaced(law(h)) && SpacedAlong(law, h + [out[0]], out[1..])
  }

  lemma {:induction false} SpacedAlongIsCovered(law: Model, h: seq<nat>, out: seq<nat>)
    requires InRange(law, h, out) && SpacedAlong(law, h, out)
    ensures CoveredAlong(law, h, out)
    decreases |out|
  {
    if out != [] {
      forall d: nat | d < |law(h)| ensures ScaleCovers(law(h), d) { SpacedIsCovered(law(h), d); }
      SpacedAlongIsCovered(law, h + [out[0]], out[1..]);
    }
  }

  /** So with single-precision distributions speculation is always invisible. */
  lemma SpeculationOnFloats(law: Model, guess: seq<nat> -> seq<nat>, h: seq<nat>, ds: seq<nat>, out: seq<nat>)
    requires InRange(law, h, out) && SpacedAlong(law, h, out)
    ensures var c := Sampler(law, guess);
            VerifyLaw(c, h, ds, out) == TopLaw(c, h, -1, out) == AutoLaw(law, Times, h, out)
  {
    SpacedAlongIsCovered(law, h, out);
    SpeculationIsInvisible(law, guess, h, ds, out);
  }
}
