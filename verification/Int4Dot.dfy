/** Dot products of 4-bit weights and 8-bit activations: the AVX-512 forms on permuted or
    plain activations with a deferred offset (c/hw/hw_avx512.h) against the portable loops
    (c/hw/hw_scalar.h, c/hw/hw_quant.h). A vector register is the sequence of its lanes. */
module Int4Dot {

  type int32 = v: int | -0x8000_0000 <= v < 0x8000_0000

  /** The length up to which no 32-bit sum can overflow: 15 * 127 * LIMIT < 2^31. */
  const LIMIT := 1127288

  function Times(a: int, b: int): int { a * b }

  /** A weight: its code less 8. */
  function Centred(n: nat): (v: int)
    ensures n < 16 ==> -8 <= v <= 7
  {
    n as int - 8
  }

  predicate Bytes(w: seq<nat>, n: nat) {
    2 * |w| >= n && forall i :: 0 <= i < |w| ==> w[i] < 256
  }

  predicate Int8(x: seq<int>) {
    forall i :: 0 <= i < |x| ==> -127 <= x[i] <= 127
  }

  predicate Int4(c: seq<nat>) {
    forall i :: 0 <= i < |c| ==> c[i] < 16
  }

  /** The weight code of element e: low nibbles at even positions. */
  function Nibble(w: seq<nat>, e: nat): (n: nat)
    requires Bytes(w, e + 1)
    ensures n < 16
  {
    if e % 2 == 1 then w[e / 2] / 16 else w[e / 2] % 16
  }

  function Codes(w: seq<nat>, n: nat): (c: seq<nat>)
    requires Bytes(w, n)
    ensures |c| == n && Int4(c) && forall e :: 0 <= e < n ==> c[e] == Nibble(w, e)
  {
    seq(n, e requires 0 <= e < n => Nibble(w, e))
  }

  /** c are the codes of the weights of x. */
  ghost predicate IsCodes(c: seq<nat>, w: seq<nat>, x: seq<int>) {
    |c| == |x| && Bytes(w, |x|) && Int4(c) && forall e :: 0 <= e < |c| ==> c[e] == Nibble(w, e)
  }

  // ----- sums

  /** The sum of (c - 8) * x over [a, b). */
  function Dot(c: seq<nat>, x: seq<int>, a: nat, b: nat): int
    requires a <= b <= |c| == |x|
    decreases b
  {
    if a == b then 0 else Dot(c, x, a, b - 1) + Times(Centred(c[b - 1]), x[b - 1])
  }

  /** The sum of c * x over [a, b). */
  function RawDot(c: seq<nat>, x: seq<int>, a: nat, b: nat): int
    requires a <= b <= |c| == |x|
    decreases b
  {
    if a == b then 0 else RawDot(c, x, a, b - 1) + Times(c[b - 1], x[b - 1])
  }

  function Sum(x: seq<int>, a: nat, b: nat): int
    requires a <= b <= |x|
    decreases b
  {
    if a == b then 0 else Sum(x, a, b - 1) + x[b - 1]
  }

  lemma {:induction false} Offset(c: seq<nat>, x: seq<int>, a: nat, b: nat)
    requires a <= b <= |c| == |x|
    ensures Dot(c, x, a, b) == RawDot(c, x, a, b) - 8 * Sum(x, a, b)
    decreases b
  {
    if a < b { Offset(c, x, a, b - 1); }
  }

  lemma {:induction false} DotSplits(c: seq<nat>, x: seq<int>, a: nat, m: nat, b: nat)
    requires a <= m <= b <= |c| == |x|
    ensures Dot(c, x, a, b) == Dot(c, x, a, m) + Dot(c, x, m, b)
    ensures Sum(x, a, b) == Sum(x, a, m) + Sum(x, m, b)
    decreases b
  {
    if m < b { DotSplits(c, x, a, m, b - 1); }
  }

  lemma {:induction false} RawSplits(c: seq<nat>, x: seq<int>, a: nat, m: nat, b: nat)
    requires a <= m <= b <= |c| == |x|
    ensures RawDot(c, x, a, b) == RawDot(c, x, a, m) + RawDot(c, x, m, b)
    decreases b
  {
    if m < b { RawSplits(c, x, a, m, b - 1); }
  }

  lemma ProductBound(n: int, v: int, bound: int)
    requires -bound <= n <= bound && -127 <= v <= 127
    ensures -127 * bound <= Times(n, v) <= 127 * bound
  {
    if v >= 0 {
      Monotone(n, bound, v);
      Monotone(-bound, n, v);
      Monotone(v, 127, bound);
    } else {
      Monotone(n, bound, -v);
      Monotone(-bound, n, -v);
      Monotone(-v, 127, bound);
    }
  }

  lemma Monotone(a: int, b: int, v: int)
    requires a <= b && v >= 0
    ensures a * v <= b * v
  {
  }

  lemma {:induction false} SumBound(x: seq<int>, a: nat, b: nat)
    requires a <= b <= |x| && Int8(x)
    ensures -127 * (b - a) <= Sum(x, a, b) <= 127 * (b - a)
    decreases b
  {
    if a < b { SumBound(x, a, b - 1); }
  }

  lemma {:induction false} DotBound(c: seq<nat>, x: seq<int>, a: nat, b: nat)
    requires a <= b <= |c| == |x| && Int4(c) && Int8(x)
    ensures -1016 * (b - a) <= Dot(c, x, a, b) <= 1016 * (b - a)
    decreases b
  {
    if a < b {
      DotBound(c, x, a, b - 1);
      ProductBound(Centred(c[b - 1]), x[b - 1], 8);
    }
  }

  // ----- the portable loops

  /** dot_i4i8: two elements of a byte at a time. */
  method DotScalar(w: seq<nat>, ghost c: seq<nat>, x: seq<int>) returns (sum: int32)
    requires IsCodes(c, w, x) && Int8(x) && |x| <= LIMIT
    ensures sum == Dot(c, x, 0, |x|)
  {
    sum := 0;
    var i := 0;
    ghost var h := 0;
    while i + 1 < |x|
      invariant i == 2 * h && i <= |x| && sum == Dot(c, x, 0, i)
    {
      assert c[i] == Nibble(w, i) && c[i + 1] == Nibble(w, i + 1) && i / 2 == h;
      var b := w[i / 2];
      sum := AddPair(sum, b % 16, b / 16, c, x, i);
      i, h := i + 2, h + 1;
    }
    if i < |x| {
      DotBound(c, x, 0, i + 1);
      sum := sum + Times(Centred(w[i / 2] % 16), x[i]);
    }
  }

  method AddPair(sum: int32, n: nat, m: nat, ghost c: seq<nat>, x: seq<int>, i: nat) returns (r: int32)
    requires i + 2 <= |c| == |x| <= LIMIT && Int4(c) && Int8(x) && n == c[i] && m == c[i + 1]
    requires sum == Dot(c, x, 0, i)
    ensures r == Dot(c, x, 0, i + 2)
  {
    DotBound(c, x, 0, i + 2);
    assert Dot(c, x, 0, i + 2) == Dot(c, x, 0, i + 1) + Times(Centred(m), x[i + 1]);
    r := sum + (Times(Centred(n), x[i]) + Times(Centred(m), x[i + 1]));
  }

  method PxSum(x: seq<int>) returns (s: int32)
    requires Int8(x) && |x| <= LIMIT
    ensures s == Sum(x, 0, |x|)
  {
    s := 0;
    for i := 0 to |x|
      invariant s == Sum(x, 0, i)
    {
      SumBound(x, 0, i + 1);
      s := s + x[i];
    }
  }

  // ----- the permutation of the activations

  /** Where lane k of a granule of 64 comes from: [0-15, 32-47, 16-31, 48-63]. */
  function Perm(k: nat): (p: nat)
    requires k < 64
    ensures p < 64
  {
    if 16 <= k < 32 then k + 16 else if 32 <= k < 48 then k - 16 else k
  }

  /** xp is x with every whole granule permuted and the rest as it is. */
  ghost predicate Permuted(xp: seq<int>, x: seq<int>) {
    && |xp| == |x|
    && (forall g: nat :: 64 * g + 64 <= |x| ==> Granular(xp, x, g))
    && (forall g: nat :: 64 * g <= |x| < 64 * g + 64 ==> Trailing(xp, x, g))
  }

  ghost predicate Granular(xp: seq<int>, x: seq<int>, g: nat)
    requires |xp| == |x| && 64 * g + 64 <= |x|
  {
    forall k :: 0 <= k < 64 ==> xp[64 * g + k] == x[64 * g + Perm(k)]
  }

  ghost predicate Trailing(xp: seq<int>, x: seq<int>, g: nat)
    requires |xp| == |x|
  {
    forall e :: 64 * g <= e < |x| ==> xp[e] == x[e]
  }

  /** memcpy of n elements. */
  method Copy(xp: array<int>, at: nat, x: seq<int>, from: nat, n: nat)
    requires at + n <= xp.Length && from + n <= |x|
    modifies xp
    ensures forall k :: 0 <= k < xp.Length ==> xp[k] == if at <= k < at + n then x[from + k - at] else old(xp[k])
  {
    forall k | 0 <= k < n { xp[at + k] := x[from + k]; }
  }

  method PxPermute(x: seq<int>, xp: array<int>)
    requires xp.Length == |x|
    modifies xp
    ensures Permuted(xp[..], x)
  {
    var i := 0;
    ghost var n := 0;
    while i + 64 <= |x|
      invariant i == 64 * n && i <= |x|
      invariant forall g: nat :: g < n ==> Granular(xp[..], x, g)
    {
      PermuteGranule(x, xp, i, n);
      i, n := i + 64, n + 1;
    }
    if i < |x| { PermuteRest(x, xp, i, n); }
  }

  method PermuteGranule(x: seq<int>, xp: array<int>, i: nat, ghost n: nat)
    requires xp.Length == |x| && i + 64 <= |x| && i == 64 * n
    requires forall g: nat :: g < n ==> Granular(xp[..], x, g)
    modifies xp
    ensures forall g: nat :: g < n + 1 ==> Granular(xp[..], x, g)
  {
    ghost var was := xp[..];
    Copy(xp, i, x, i, 16);
    Copy(xp, i + 16, x, i + 32, 16);
    Copy(xp, i + 32, x, i + 16, 16);
    Copy(xp, i + 48, x, i + 48, 16);
    forall g: nat | g < n ensures Granular(xp[..], x, g) {
      assert Granular(was, x, g);
      assert forall e :: 0 <= e < i ==> xp[..][e] == was[e];
    }
    assert forall k :: 0 <= k < 64 ==> xp[..][64 * n + k] == x[64 * n + Perm(k)];
  }

  method PermuteRest(x: seq<int>, xp: array<int>, i: nat, ghost n: nat)
    requires xp.Length == |x| && i <= |x| < i + 64 && i == 64 * n
    requires forall g: nat :: g < n ==> Granular(xp[..], x, g)
    modifies xp
    ensures Permuted(xp[..], x)
  {
    ghost var was := xp[..];
    Copy(xp, i, x, i, |x| - i);
    forall g: nat | g < n ensures Granular(xp[..], x, g) {
      assert Granular(was, x, g);
      assert forall e :: 0 <= e < i ==> xp[..][e] == was[e];
    }
  }

  // ----- vector registers

  /** Byte-wise and with 0x0F, and the same after a shift by 4. */
  function Low(bytes: seq<nat>): (r: seq<nat>)
    ensures |r| == |bytes| && forall k :: 0 <= k < |bytes| ==> r[k] == bytes[k] % 16
  {
    seq(|bytes|, k requires 0 <= k < |bytes| => bytes[k] % 16)
  }

  function High(bytes: seq<nat>): (r: seq<nat>)
    ensures |r| == |bytes| && forall k :: 0 <= k < |bytes| ==> r[k] == bytes[k] / 16
  {
    seq(|bytes|, k requires 0 <= k < |bytes| => bytes[k] / 16)
  }

  /** punpcklbw and punpckhbw: in every 128-bit lane, the low (or high) eight bytes of the
      two operands interleaved. */
  function Unpack(lo: seq<nat>, hi: seq<nat>, half: nat): (r: seq<nat>)
    requires |lo| == |hi| && |lo| % 16 == 0 && half < 2
    ensures |r| == |lo|
    ensures forall k :: 0 <= k < |lo| ==>
      r[k] == (if k % 2 == 0 then lo else hi)[k - k % 16 + 8 * half + k % 16 / 2]
  {
    seq(|lo|, k requires 0 <= k < |lo| =>
      assert k - k % 16 + 8 * half + k % 16 / 2 < |lo| by { assert k - k % 16 + 16 <= |lo|; }
      (if k % 2 == 0 then lo else hi)[k - k % 16 + 8 * half + k % 16 / 2])
  }

  lemma UnpackAt(bytes: seq<nat>, half: nat, j: nat)
    requires |bytes| % 16 == 0 && half < 2 && j < |bytes|
    ensures j - j % 16 + 8 * half + j % 16 / 2 < |bytes|
    ensures var b := bytes[j - j % 16 + 8 * half + j % 16 / 2];
            Unpack(Low(bytes), High(bytes), half)[j] == if j % 2 == 0 then b % 16 else b / 16
  {
    assert j - j % 16 + 16 <= |bytes|;
  }

  /** The codes as they come out of the two unpackings of a register. */
  function Unpacked(bytes: seq<nat>): (r: seq<nat>)
    requires |bytes| % 16 == 0
    ensures |r| == 2 * |bytes|
  {
    Unpack(Low(bytes), High(bytes), 0) + Unpack(Low(bytes), High(bytes), 1)
  }

  lemma Halves(h: nat, k: nat)
    ensures (2 * h + k) / 2 == h + k / 2 && (2 * h + k) % 2 == k % 2
  {
  }

  /** Which byte a lane's code comes from. */
  lemma Source(k: nat)
    requires k < 64
    ensures var half, j := k / 32, k % 32;
            j - j % 16 + 8 * half + j % 16 / 2 == Perm(k) / 2 && j % 2 == Perm(k) % 2
  {
  }

  lemma UnpackedAt(bytes: seq<nat>, k: nat)
    requires |bytes| == 32 && k < 64
    ensures var b := bytes[Perm(k) / 2];
            Unpacked(bytes)[k] == if Perm(k) % 2 == 0 then b % 16 else b / 16
  {
    var half, j := k / 32, k % 32;
    UnpackAt(bytes, half, j);
    Source(k);
    assert Unpacked(bytes)[k] == Unpack(Low(bytes), High(bytes), half)[j];
  }

  /** Unpacking 32 bytes permutes the codes of a granule like px_permute the activations. */
  lemma UnpackedIsPermuted(w: seq<nat>, h: nat, k: nat)
    requires Bytes(w, 2 * h + 64) && k < 64
    ensures Unpacked(w[h..h + 32])[k] == Nibble(w, 2 * h + Perm(k))
  {
    UnpackedAt(w[h..h + 32], k);
    Halves(h, Perm(k));
  }

  /** vpdpbusd: each 32-bit lane gains four products of unsigned and signed bytes. */
  function Lane(u: seq<nat>, s: seq<int>, t: nat): int
    requires |u| == |s| && 4 * t + 4 <= |u|
  {
    Times(u[4 * t], s[4 * t]) + Times(u[4 * t + 1], s[4 * t + 1]) + Times(u[4 * t + 2], s[4 * t + 2])
        + Times(u[4 * t + 3], s[4 * t + 3])
  }

  lemma LaneBound(u: seq<nat>, s: seq<int>, t: nat)
    requires |u| == |s| && 4 * t + 4 <= |u| && Int4(u) && Int8(s)
    ensures -7620 <= Lane(u, s, t) <= 7620
  {
    ProductBound(u[4 * t], s[4 * t], 15);
    ProductBound(u[4 * t + 1], s[4 * t + 1], 15);
    ProductBound(u[4 * t + 2], s[4 * t + 2], 15);
    ProductBound(u[4 * t + 3], s[4 * t + 3], 15);
  }

  ghost predicate Within(a: seq<int32>, bound: int) {
    |a| == 16 && forall t :: 0 <= t < 16 ==> -bound <= a[t] <= bound
  }

  method Dpbusd(acc: seq<int32>, u: seq<nat>, s: seq<int>, ghost bound: int) returns (r: seq<int32>)
    requires |u| == |s| == 64 && Int4(u) && Int8(s) && Within(acc, bound) && 0 <= bound <= 0x7000_0000
    ensures Within(r, bound + 7620) && forall t :: 0 <= t < 16 ==> r[t] == acc[t] + Lane(u, s, t)
  {
    r := [];
    for t := 0 to 16
      invariant |r| == t && forall k :: 0 <= k < t ==>
          r[k] == acc[k] + Lane(u, s, k) && -bound - 7620 <= r[k] <= bound + 7620
    {
      LaneBound(u, s, t);
      r := r + [acc[t] + Lane(u, s, t)];
    }
  }

  /** The lanes [a, b) of a vpdpbusd together gain the products of bytes [4a, 4b). */
  lemma {:induction false} LanesGain(acc: seq<int>, r: seq<int>, u: seq<nat>, s: seq<int>, a: nat, b: nat)
    requires a <= b <= 16 && |acc| == |r| == 16 && |u| == |s| == 64
    requires forall t :: 0 <= t < 16 ==> r[t] == acc[t] + Lane(u, s, t)
    ensures Sum(r, a, b) == Sum(acc, a, b) + RawDot(u, s, 4 * a, 4 * b)
    decreases b
  {
    if a < b {
      LanesGain(acc, r, u, s, a, b - 1);
      FourMore(u, s, a, b - 1);
    }
  }

  lemma FourMore(u: seq<nat>, s: seq<int>, a: nat, t: nat)
    requires a <= t && 4 * t + 4 <= |u| == |s|
    ensures RawDot(u, s, 4 * a, 4 * t + 4) == RawDot(u, s, 4 * a, 4 * t) + Lane(u, s, t)
  {
    assert RawDot(u, s, 4 * a, 4 * t + 4) == RawDot(u, s, 4 * a, 4 * t + 3) + Times(u[4 * t + 3], s[4 * t + 3]);
    assert RawDot(u, s, 4 * a, 4 * t + 3) == RawDot(u, s, 4 * a, 4 * t + 2) + Times(u[4 * t + 2], s[4 * t + 2]);
    assert RawDot(u, s, 4 * a, 4 * t + 2) == RawDot(u, s, 4 * a, 4 * t + 1) + Times(u[4 * t + 1], s[4 * t + 1]);
  }

  // ----- granules

  /** Lanes [a, b) hold elements [from, from + b - a). */
  ghost predicate Run(u: seq<nat>, s: seq<int>, a: nat, b: nat, c: seq<nat>, x: seq<int>, from: nat) {
    && a <= b <= |u| == |s| && from + (b - a) <= |c| == |x|
    && forall k :: a <= k < b ==> u[k] == c[from + (k - a)] && s[k] == x[from + (k - a)]
  }

  lemma {:induction false} RunIsRawDot(u: seq<nat>, s: seq<int>, a: nat, b: nat, c: seq<nat>, x: seq<int>,
                                       from: nat, to: nat)
    requires Run(u, s, a, b, c, x, from) && to == from + (b - a)
    ensures RawDot(u, s, a, b) == RawDot(c, x, from, to)
    decreases b
  {
    if a < b { RunIsRawDot(u, s, a, b - 1, c, x, from, to - 1); }
  }

  lemma FourRuns(c: seq<nat>, x: seq<int>, i: nat, q: nat)
    requires i + 4 * q <= |c| == |x|
    ensures RawDot(c, x, i, i + 4 * q) == RawDot(c, x, i, i + q) + RawDot(c, x, i + q, i + 2 * q)
                                          + RawDot(c, x, i + 2 * q, i + 3 * q) + RawDot(c, x, i + 3 * q, i + 4 * q)
  {
    RawSplits(c, x, i, i + q, i + 4 * q);
    RawSplits(c, x, i + q, i + 2 * q, i + 4 * q);
    RawSplits(c, x, i + 2 * q, i + 3 * q, i + 4 * q);
  }

  /** Lanes that hold granule i in the permuted order. */
  ghost predicate Lanes(u: seq<nat>, s: seq<int>, c: seq<nat>, x: seq<int>, i: nat) {
    && |u| == |s| == 64 && i + 64 <= |c| == |x|
    && forall k :: 0 <= k < 64 ==> u[k] == c[i + Perm(k)] && s[k] == x[i + Perm(k)]
  }

  lemma LanesRun(u: seq<nat>, s: seq<int>, c: seq<nat>, x: seq<int>, i: nat, q: nat, a: nat, from: nat)
    requires Lanes(u, s, c, x, i) && q == 16
    requires (a == 0 && from == i) || (a == q && from == i + 2 * q) || (a == 2 * q && from == i + q)
        || (a == 3 * q && from == i + 3 * q)
    ensures RawDot(u, s, a, a + q) == RawDot(c, x, from, from + q)
  {
    assert Run(u, s, a, a + q, c, x, from);
    RunIsRawDot(u, s, a, a + q, c, x, from, from + q);
  }

  /** Four runs of lanes, the middle two exchanged, are the granule. */
  lemma GranuleIsRawDot(u: seq<nat>, s: seq<int>, c: seq<nat>, x: seq<int>, i: nat, q: nat)
    requires Lanes(u, s, c, x, i) && q == 16
    ensures RawDot(u, s, 0, 4 * q) == RawDot(c, x, i, i + 4 * q)
  {
    LanesRun(u, s, c, x, i, q, 0, i);
    LanesRun(u, s, c, x, i, q, q, i + 2 * q);
    LanesRun(u, s, c, x, i, q, 2 * q, i + q);
    LanesRun(u, s, c, x, i, q, 3 * q, i + 3 * q);
    Exchanged(u, s, c, x, i, q);
  }

  lemma Exchanged(u: seq<nat>, s: seq<int>, c: seq<nat>, x: seq<int>, i: nat, q: nat)
    requires |u| == |s| == 4 * q && i + 4 * q <= |c| == |x|
    requires RawDot(u, s, 0, q) == RawDot(c, x, i, i + q)
    requires RawDot(u, s, q, 2 * q) == RawDot(c, x, i + 2 * q, i + 3 * q)
    requires RawDot(u, s, 2 * q, 3 * q) == RawDot(c, x, i + q, i + 2 * q)
    requires RawDot(u, s, 3 * q, 4 * q) == RawDot(c, x, i + 3 * q, i + 4 * q)
    ensures RawDot(u, s, 0, 4 * q) == RawDot(c, x, i, i + 4 * q)
  {
    FourRuns(u, s, 0, q);
    FourRuns(c, x, i, q);
  }

  lemma UnpackedLanes(w: seq<nat>, xp: seq<int>, c: seq<nat>, x: seq<int>, g: nat)
    requires IsCodes(c, w, x) && 64 * g + 64 <= |x| && Permuted(xp, x)
    ensures Lanes(Unpacked(w[32 * g..32 * g + 32]), xp[64 * g..64 * g + 64], c, x, 64 * g)
  {
    var u, s := Unpacked(w[32 * g..32 * g + 32]), xp[64 * g..64 * g + 64];
    LaneCodes(w, c, x, g, u);
    LaneInputs(xp, x, g, s);
  }

  lemma LaneCodes(w: seq<nat>, c: seq<nat>, x: seq<int>, g: nat, u: seq<nat>)
    requires IsCodes(c, w, x) && 64 * g + 64 <= |x| && 32 * g + 32 <= |w| && u == Unpacked(w[32 * g..32 * g + 32])
    ensures |u| == 64 && forall k :: 0 <= k < 64 ==> u[k] == c[64 * g + Perm(k)]
  {
    forall k | 0 <= k < 64 ensures u[k] == c[64 * g + Perm(k)] { UnpackedIsPermuted(w, 32 * g, k); }
  }

  lemma LaneInputs(xp: seq<int>, x: seq<int>, g: nat, s: seq<int>)
    requires Permuted(xp, x) && 64 * g + 64 <= |x| && |xp| == |x| && s == xp[64 * g..64 * g + 64]
    ensures forall k :: 0 <= k < 64 ==> s[k] == x[64 * g + Perm(k)]
  {
    assert Granular(xp, x, g);
  }

  lemma LoadedLanes(w: seq<nat>, xp: seq<int>, c: seq<nat>, x: seq<int>, i: nat, h: nat, g: nat)
    requires IsCodes(c, w, x) && i == 64 * g && h == 32 * g && i + 64 <= |x| && Permuted(xp, x)
    ensures i / 2 == h && h + 32 <= |w| && |xp| == |x|
    ensures Lanes(Unpacked(w[h..h + 32]), xp[i..i + 64], c, x, i)
  {
    UnpackedLanes(w, xp, c, x, g);
  }

  // ----- the dot product on permuted activations

  /** One granule: load, unpack, multiply and accumulate. */
  method Granule(acc: seq<int32>, w: seq<nat>, xp: seq<int>, i: nat, ghost g: nat, ghost c: seq<nat>,
                 ghost x: seq<int>, ghost bound: int)
    returns (r: seq<int32>)
    requires IsCodes(c, w, x) && i == 64 * g && i + 64 <= |x| && Permuted(xp, x) && Int8(x)
    requires Within(acc, bound) && 0 <= bound <= 0x7000_0000
    ensures Within(r, bound + 7620) && Sum(r, 0, |r|) == Sum(acc, 0, |acc|) + RawDot(c, x, i, i + 64)
  {
    LoadedLanes(w, xp, c, x, i, i / 2, g);
    r := Accumulate(acc, Unpacked(w[i / 2..i / 2 + 32]), xp[i..i + 64], c, x, i, bound, 16);
  }

  method Accumulate(acc: seq<int32>, u: seq<nat>, s: seq<int>, ghost c: seq<nat>, ghost x: seq<int>, ghost i: nat,
                    ghost bound: int, ghost q: nat)
    returns (r: seq<int32>)
    requires Lanes(u, s, c, x, i) && Int4(c) && Int8(x) && Within(acc, bound) && 0 <= bound <= 0x7000_0000 && q == 16
    ensures Within(r, bound + 7620) && Sum(r, 0, |r|) == Sum(acc, 0, |acc|) + RawDot(c, x, i, i + 4 * q)
  {
    r := Dpbusd(acc, u, s, bound);
    LanesGain(acc, r, u, s, 0, q);
    GranuleIsRawDot(u, s, c, x, i, q);
  }

  method AddLanes(a: seq<int32>, b: seq<int32>, ghost bound: int) returns (r: seq<int32>)
    requires Within(a, bound) && Within(b, bound) && 0 <= bound <= 0x3800_0000
    ensures Within(r, 2 * bound) && Sum(r, 0, |r|) == Sum(a, 0, |a|) + Sum(b, 0, |b|)
  {
    r := [];
    for t := 0 to 16
      invariant |r| == t && forall k :: 0 <= k < t ==> r[k] == a[k] + b[k]
    {
      r := r + [a[t] + b[t]];
    }
    SumOfLanes(a, b, r, |r|);
  }

  lemma {:induction false} SumOfLanes(a: seq<int>, b: seq<int>, r: seq<int>, n: nat)
    requires n <= |a| && n <= |b| && n <= |r| && forall k :: 0 <= k < n ==> r[k] == a[k] + b[k]
    ensures Sum(r, 0, n) == Sum(a, 0, n) + Sum(b, 0, n)
  {
    if n > 0 { SumOfLanes(a, b, r, n - 1); }
  }

  /** The sum of lanes [from, to). */
  method Reduce(a: seq<int32>, from: nat, to: nat, ghost bound: int) returns (s: int32)
    requires from <= to <= 16 && Within(a, bound) && 0 <= bound && (to - from) * bound < 0x8000_0000
    ensures s == Sum(a, from, to)
  {
    s := 0;
    for t := from to to
      invariant s == Sum(a, from, t) && -(t - from) * bound <= s <= (t - from) * bound
    {
      Grow(t - from, to - from, bound);
      s := s + a[t];
    }
  }

  lemma Grow(n: int, m: int, bound: int)
    requires 0 <= n < m && 0 <= bound && m * bound < 0x8000_0000
    ensures (n + 1) * bound == n * bound + bound && (n + 1) * bound < 0x8000_0000
    ensures -(n + 1) * bound == -n * bound - bound
  {
    assert (m - n - 1) * bound >= 0;
  }

  lemma ReduceFits(lanes: nat, g: nat)
    requires lanes == 16 && 64 * g <= LIMIT
    ensures (lanes - 0) * (7620 * g) < 0x8000_0000
  {
    assert lanes * (7620 * g) == 121920 * g;
  }

  /** The horizontal sum of the accumulator after g granules. */
  method ReduceAll(a: seq<int32>, ghost g: nat) returns (s: int32)
    requires Within(a, 7620 * g) && 64 * g <= LIMIT
    ensures s == Sum(a, 0, |a|)
  {
    ReduceFits(|a|, g);
    s := Reduce(a, 0, |a|, 7620 * g);
  }

  /** The scalar tail: what is left after the last whole granule. */
  method Tail(w: seq<nat>, xp: seq<int>, i: nat, ghost c: seq<nat>, ghost x: seq<int>) returns (sc: int32, tailx: int32)
    requires IsCodes(c, w, x) && Int8(x) && |xp| == |x| <= LIMIT && i <= |x| && xp[i..] == x[i..]
    ensures sc == Dot(c, x, i, |x|) && tailx == Sum(x, i, |x|)
  {
    sc, tailx := 0, 0;
    for j := i to |xp|
      invariant sc == Dot(c, x, i, j) && tailx == Sum(x, i, j)
    {
      assert xp[j] == xp[i..][j - i] && x[j] == x[i..][j - i];
      sc, tailx := TailStep(sc, tailx, Nibble(w, j), xp[j], c, x, i, j);
    }
  }

  method TailStep(sc: int32, tailx: int32, v: nat, xj: int, ghost c: seq<nat>, ghost x: seq<int>, ghost i: nat,
                  ghost j: nat)
    returns (sc': int32, tailx': int32)
    requires i <= j < |c| == |x| <= LIMIT && Int4(c) && Int8(x) && v == c[j] && xj == x[j]
    requires sc == Dot(c, x, i, j) && tailx == Sum(x, i, j)
    ensures sc' == Dot(c, x, i, j + 1) && tailx' == Sum(x, i, j + 1)
  {
    DotBound(c, x, i, j + 1);
    SumBound(x, i, j + 1);
    sc' := sc + Times(Centred(v), xj);
    tailx' := tailx + xj;
  }

  method Zeros() returns (a: seq<int32>)
    ensures Within(a, 0) && Sum(a, 0, |a|) == 0
  {
    a := seq(16, _ => 0);
    SumOfLanes(a, a, a, |a|);
  }

  /** dot_i4i8p with four accumulators, for every length and tail. */
  method DotPermuted(w: seq<nat>, xp: seq<int>, sxsum: int32, ghost c: seq<nat>, ghost x: seq<int>) returns (r: int32)
    requires IsCodes(c, w, x) && Int8(x) && |x| <= LIMIT && Permuted(xp, x) && sxsum == Sum(x, 0, |x|)
    ensures r == Dot(c, x, 0, |x|)
  {
    var i, acc, g := Fours(w, xp, c, x);
    i, acc, g := Singles(w, xp, i, acc, g, c, x);
    assert Trailing(xp, x, g);
    var sum := ReduceAll(acc, g);
    var sc, tailx := Tail(w, xp, i, c, x);
    r := Finish(sum, sxsum, tailx, sc, c, x, i);
  }

  /** After g granules the accumulator holds the sum of i products. */
  ghost predicate Summed(acc: seq<int32>, g: nat, c: seq<nat>, x: seq<int>, i: nat)
    requires i <= |x| == |c|
  {
    Within(acc, 7620 * g) && Sum(acc, 0, |acc|) == RawDot(c, x, 0, i)
  }

  /** The loop over the whole granules that are left. */
  method Singles(w: seq<nat>, xp: seq<int>, i0: nat, acc0: seq<int32>, ghost g0: nat, ghost c: seq<nat>,
                 ghost x: seq<int>)
    returns (i: nat, acc: seq<int32>, ghost g: nat)
    requires IsCodes(c, w, x) && Int8(x) && |x| <= LIMIT && Permuted(xp, x)
    requires i0 == 64 * g0 && i0 <= |x| && Summed(acc0, g0, c, x, i0)
    ensures i == 64 * g && i <= |x| < i + 64 && Summed(acc, g, c, x, i)
  {
    i, acc, g := i0, acc0, g0;
    while i + 64 <= |xp|
      invariant i == 64 * g && i <= |x| && Summed(acc, g, c, x, i)
    {
      acc := Single(acc, w, xp, i, g, c, x);
      i, g := i + 64, g + 1;
    }
  }

  method Single(acc: seq<int32>, w: seq<nat>, xp: seq<int>, i: nat, ghost g: nat, ghost c: seq<nat>,
                ghost x: seq<int>) returns (r: seq<int32>)
    requires IsCodes(c, w, x) && Int8(x) && |x| <= LIMIT && Permuted(xp, x)
    requires i == 64 * g && i + 64 <= |x| && Summed(acc, g, c, x, i)
    ensures Summed(r, g + 1, c, x, i + 64)
  {
    r := Granule(acc, w, xp, i, g, c, x, 7620 * g);
    RawSplits(c, x, 0, i, i + 64);
  }

  /** sum - 8 * (sxsum - tailx) + sc, each step within 32 bits. */
  method Finish(sum: int32, sxsum: int32, tailx: int32, sc: int32, ghost c: seq<nat>, ghost x: seq<int>,
                ghost i: nat) returns (r: int32)
    requires Int4(c) && Int8(x) && i <= |x| == |c| <= LIMIT
    requires sum == RawDot(c, x, 0, i) && sxsum == Sum(x, 0, |x|) && tailx == Sum(x, i, |x|) && sc == Dot(c, x, i, |x|)
    ensures r == Dot(c, x, 0, |x|)
  {
    DotSplits(c, x, 0, i, |x|);
    Offset(c, x, 0, i);
    SumBound(x, 0, i);
    DotBound(c, x, 0, i);
    DotBound(c, x, 0, |x|);
    var head: int32 := sxsum - tailx;
    var offset: int32 := 8 * head;
    var dot: int32 := sum - offset;
    r := dot + sc;
  }

  /** The unrolled loop over 256 elements, and the addition of its four accumulators. */
  method Fours(w: seq<nat>, xp: seq<int>, ghost c: seq<nat>, ghost x: seq<int>) returns (i: nat, acc: seq<int32>,
               ghost g: nat)
    requires IsCodes(c, w, x) && Int8(x) && |x| <= LIMIT && Permuted(xp, x)
    ensures i == 64 * g && i <= |x| && Summed(acc, g, c, x, i)
  {
    var a0 := Zeros();
    var a1, a2, a3 := a0, a0, a0;
    i := 0;
    ghost var b := 0;
    while i + 256 <= |xp|
      invariant i == 256 * b && i <= |x|
      invariant Running(a0, a1, a2, a3, b, c, x, i)
    {
      a0, a1, a2, a3 := FourGranules(a0, a1, a2, a3, w, xp, i, b, c, x);
      i, b := i + 256, b + 1;
    }
    acc := AddFour(a0, a1, a2, a3, b, c, x, i);
    g := 4 * b;
  }

  /** After b rounds the four accumulators hold the sum of i products between them. */
  ghost predicate Running(a0: seq<int32>, a1: seq<int32>, a2: seq<int32>, a3: seq<int32>, b: nat, c: seq<nat>,
                          x: seq<int>, i: nat)
    requires i <= |x| == |c|
  {
    && Within(a0, 7620 * b) && Within(a1, 7620 * b) && Within(a2, 7620 * b) && Within(a3, 7620 * b)
    && Sum(a0, 0, |a0|) + Sum(a1, 0, |a1|) + Sum(a2, 0, |a2|) + Sum(a3, 0, |a3|) == RawDot(c, x, 0, i)
  }

  method FourGranules(a0: seq<int32>, a1: seq<int32>, a2: seq<int32>, a3: seq<int32>, w: seq<nat>, xp: seq<int>, i: nat,
                      ghost b: nat, ghost c: seq<nat>, ghost x: seq<int>)
    returns (b0: seq<int32>, b1: seq<int32>, b2: seq<int32>, b3: seq<int32>)
    requires IsCodes(c, w, x) && Int8(x) && |x| <= LIMIT && Permuted(xp, x)
    requires i == 256 * b && i + 256 <= |x| && Running(a0, a1, a2, a3, b, c, x, i)
    ensures Running(b0, b1, b2, b3, b + 1, c, x, i + 256)
  {
    b0 := Granule(a0, w, xp, i, 4 * b, c, x, 7620 * b);
    b1 := Granule(a1, w, xp, i + 64, 4 * b + 1, c, x, 7620 * b);
    b2 := Granule(a2, w, xp, i + 128, 4 * b + 2, c, x, 7620 * b);
    b3 := Granule(a3, w, xp, i + 192, 4 * b + 3, c, x, 7620 * b);
    FourRuns(c, x, i, 64);
    RawSplits(c, x, 0, i, i + 256);
  }

  method AddFour(a0: seq<int32>, a1: seq<int32>, a2: seq<int32>, a3: seq<int32>, ghost b: nat, ghost c: seq<nat>,
                 ghost x: seq<int>, ghost i: nat)
    returns (acc: seq<int32>)
    requires i == 256 * b && i <= |x| == |c| <= LIMIT && Running(a0, a1, a2, a3, b, c, x, i)
    ensures Summed(acc, 4 * b, c, x, i)
  {
    var a01 := AddLanes(a0, a1, 7620 * b);
    var a23 := AddLanes(a2, a3, 7620 * b);
    acc := AddLanes(a01, a23, 15240 * b);
  }

  /** The fast form on permuted activations returns what the portable loop returns, for
      every length, tail and content; no 32-bit sum overflows up to LIMIT elements. */
  method SameAsPortable(w: seq<nat>, x: seq<int>) returns (fast: int32, plain: int32)
    requires Bytes(w, |x|) && Int8(x) && |x| <= LIMIT
    ensures fast == plain == Dot(Codes(w, |x|), x, 0, |x|)
  {
    var xp := new int[|x|];
    PxPermute(x, xp);
    var sxsum := PxSum(x);
    fast := DotPermuted(w, xp[..], sxsum, Codes(w, |x|), x);
    plain := DotScalar(w, Codes(w, |x|), x);
  }

  // ----- weights grouped by 32, each group with its own scale

  /** The integer value of group g. */
  function Group(c: seq<nat>, x: seq<int>, g: nat): int
    requires 32 * g + 32 <= |c| == |x|
  {
    Dot(c, x, 32 * g, 32 * g + 32)
  }

  function Scaled(a: real, d: int): real { a * d as real }

  /** The scaled sum of the first n groups. */
  function Grouped(scl: seq<real>, c: seq<nat>, x: seq<int>, n: nat): real
    requires n <= |scl| && 32 * n <= |c| == |x|
  {
    if n == 0 then 0.0 else Grouped(scl, c, x, n - 1) + Scaled(scl[n - 1], Group(c, x, n - 1))
  }

  /** The portable dot_i4g8p, for lengths that are multiples of the group. */
  method GroupedPortable(w: seq<nat>, scl: seq<real>, ghost c: seq<nat>, x: seq<int>, ghost n: nat) returns (acc: real)
    requires IsCodes(c, w, x) && Int8(x) && |x| == 32 * n && |scl| >= n && |x| <= LIMIT
    ensures acc == Grouped(scl, c, x, n)
  {
    acc := 0.0;
    var g := 0;
    while g * 32 < |x|
      invariant 32 * g <= |x| && acc == Grouped(scl, c, x, g)
    {
      var d := PortableGroup(w, c, x, g);
      acc := acc + Scaled(scl[g], d);
      g := g + 1;
    }
  }

  method PortableGroup(w: seq<nat>, ghost c: seq<nat>, x: seq<int>, g: nat) returns (d: int32)
    requires IsCodes(c, w, x) && Int8(x) && 32 * g + 32 <= |x| <= LIMIT
    ensures d == Group(c, x, g)
  {
    d := 0;
    var j := 0;
    while j < 32 && g * 32 + j < |x|
      invariant j <= 32 && d == Dot(c, x, 32 * g, 32 * g + j)
    {
      var e := g * 32 + j;
      d := PortableTerm(d, Nibble(w, e), c, x, 32 * g, e);
      j := j + 1;
    }
  }

  method PortableTerm(d: int32, v: nat, ghost c: seq<nat>, x: seq<int>, ghost a: nat, e: nat) returns (r: int32)
    requires a <= e < |c| == |x| <= LIMIT && Int4(c) && Int8(x) && v == c[e] && d == Dot(c, x, a, e)
    ensures r == Dot(c, x, a, e + 1)
  {
    DotBound(c, x, a, e + 1);
    r := d + Times(Centred(v), x[e]);
  }

  lemma SourceInOrder(k: nat)
    requires k < 32
    ensures var half, j := k / 16, k % 16;
            j - j % 16 + 8 * half + j % 16 / 2 == k / 2 && j % 2 == k % 2
  {
  }

  lemma UnpackedInOrderAt(bytes: seq<nat>, k: nat)
    requires |bytes| == 16 && k < 32
    ensures var b := bytes[k / 2];
            Unpacked(bytes)[k] == if k % 2 == 0 then b % 16 else b / 16
  {
    var half, j := k / 16, k % 16;
    UnpackAt(bytes, half, j);
    SourceInOrder(k);
    var low, high := Unpack(Low(bytes), High(bytes), 0), Unpack(Low(bytes), High(bytes), 1);
    if k < 16 { assert (low + high)[k] == low[k]; } else { assert (low + high)[k] == high[k - 16]; }
  }

  /** Unpacking 16 bytes at a time keeps the codes in order. */
  lemma UnpackedInOrder(w: seq<nat>, h: nat, k: nat)
    requires Bytes(w, 2 * h + 32) && k < 32
    ensures Unpacked(w[h..h + 16])[k] == Nibble(w, 2 * h + k)
  {
    UnpackedInOrderAt(w[h..h + 16], k);
    Halves(h, k);
  }

  /** Lanes that hold 64 elements in order. */
  ghost predicate InOrder(u: seq<nat>, s: seq<int>, c: seq<nat>, x: seq<int>, i: nat) {
    && |u| == |s| == 64 && i + 64 <= |c| == |x| && s == x[i..i + 64]
    && (forall k :: 0 <= k < 64 ==> u[k] == c[i + k])
  }

  lemma HalfInOrder(w: seq<nat>, c: seq<nat>, x: seq<int>, i: nat, h: nat, u: seq<nat>)
    requires IsCodes(c, w, x) && i + 32 <= |x| && i == 2 * h && h + 16 <= |w| && u == Unpacked(w[h..h + 16])
    ensures |u| == 32 && forall k :: 0 <= k < 32 ==> u[k] == c[i + k]
  {
    forall k | 0 <= k < 32 ensures u[k] == c[i + k] { UnpackedInOrder(w, h, k); }
  }

  lemma LoadedInOrder(w: seq<nat>, c: seq<nat>, x: seq<int>, i: nat, h: nat)
    requires IsCodes(c, w, x) && i + 64 <= |x| && i == 2 * h
    ensures h + 32 <= |w|
    ensures InOrder(Unpacked(w[h..h + 16]) + Unpacked(w[h + 16..h + 32]), x[i..i + 64], c, x, i)
  {
    var a, b := Unpacked(w[h..h + 16]), Unpacked(w[h + 16..h + 32]);
    HalfInOrder(w, c, x, i, h, a);
    HalfInOrder(w, c, x, i + 32, h + 16, b);
    Joined(a, b, c, x, i);
  }

  lemma Joined(a: seq<nat>, b: seq<nat>, c: seq<nat>, x: seq<int>, i: nat)
    requires |a| == |b| == 32 && i + 64 <= |c| == |x|
    requires (forall k :: 0 <= k < 32 ==> a[k] == c[i + k]) && forall k :: 0 <= k < 32 ==> b[k] == c[i + 32 + k]
    ensures InOrder(a + b, x[i..i + 64], c, x, i)
  {
    forall k | 0 <= k < 64 ensures (a + b)[k] == c[i + k] {
      if k >= 32 { assert (a + b)[k] == b[k - 32]; }
    }
  }

  /** The product register of 64 elements in order: lanes 0-7 make up the code sum of the
      first 32, lanes 8-15 that of the others. */
  method OrderedLanes(u: seq<nat>, s: seq<int>, ghost c: seq<nat>, ghost x: seq<int>, ghost i: nat, ghost q: nat)
    returns (dv: seq<int32>)
    requires InOrder(u, s, c, x, i) && Int4(c) && Int8(x) && q == 8
    ensures Within(dv, 7620)
    ensures Sum(dv, 0, q) == RawDot(c, x, i, i + 4 * q)
    ensures Sum(dv, q, 2 * q) == RawDot(c, x, i + 4 * q, i + 8 * q)
  {
    var zero := Zeros();
    dv := Dpbusd(zero, u, s, 0);
    HalfLanes(zero, dv, u, s, c, x, i, 0, q, i, i + 4 * q);
    HalfLanes(zero, dv, u, s, c, x, i, q, 2 * q, i + 4 * q, i + 8 * q);
  }

  lemma HalfLanes(zero: seq<int32>, dv: seq<int32>, u: seq<nat>, s: seq<int>, c: seq<nat>, x: seq<int>, i: nat,
                  a: nat, b: nat, from: nat, to: nat)
    requires InOrder(u, s, c, x, i) && Within(zero, 0) && |dv| == 16
    requires forall t :: 0 <= t < 16 ==> dv[t] == zero[t] + Lane(u, s, t)
    requires a <= b <= 16 && from == i + 4 * a && to == i + 4 * b
    ensures Sum(dv, a, b) == RawDot(c, x, from, to)
  {
    ZeroLanes(zero, a, b);
    LanesGain(zero, dv, u, s, a, b);
    RunIsRawDot(u, s, 4 * a, 4 * b, c, x, from, to);
  }

  lemma {:induction false} ZeroLanes(z: seq<int32>, a: nat, b: nat)
    requires a <= b <= 16 && Within(z, 0)
    ensures Sum(z, a, b) == 0
    decreases b
  {
    if a < b { ZeroLanes(z, a, b - 1); }
  }

  /** Sums per group, as the caller prepares them. */
  ghost predicate GroupSums(xgsum: seq<int32>, x: seq<int>) {
    32 * |xgsum| == |x| && forall g: nat :: g < |xgsum| ==> xgsum[g] == Sum(x, 32 * g, 32 * g + 32)
  }

  /** One group from its lanes: their sum less eight times the group's activations. */
  method FromLanes(dv: seq<int32>, from: nat, to: nat, xsum: int32, ghost c: seq<nat>, ghost x: seq<int>,
                   ghost g: nat) returns (d: int32)
    requires from + 8 == to <= 16 && Within(dv, 7620) && Int4(c) && Int8(x) && 32 * g + 32 <= |c| == |x| <= LIMIT
    requires Sum(dv, from, to) == RawDot(c, x, 32 * g, 32 * g + 32) && xsum == Sum(x, 32 * g, 32 * g + 32)
    ensures d == Group(c, x, g)
  {
    var s := Reduce(dv, from, to, 7620);
    Offset(c, x, 32 * g, 32 * g + 32);
    SumBound(x, 32 * g, 32 * g + 32);
    DotBound(c, x, 32 * g, 32 * g + 32);
    var offset: int32 := 8 * xsum;
    d := s - offset;
  }

  /** Two groups at a time: the lanes 0-7 and 8-15 of one product register. */
  method TwoGroups(w: seq<nat>, ghost c: seq<nat>, x: seq<int>, xgsum: seq<int32>, i: nat, g: nat)
    returns (d0: int32, d1: int32)
    requires IsCodes(c, w, x) && Int8(x) && |x| <= LIMIT && GroupSums(xgsum, x)
    requires i == 32 * g && i + 64 <= |x|
    ensures d0 == Group(c, x, g) && d1 == Group(c, x, g + 1)
  {
    LoadedInOrder(w, c, x, i, 16 * g);
    assert i / 2 == 16 * g;
    var u := Unpacked(w[i / 2..i / 2 + 16]) + Unpacked(w[i / 2 + 16..i / 2 + 32]);
    var dv := OrderedLanes(u, x[i..i + 64], c, x, i, 8);
    d0 := FromLanes(dv, 0, 8, xgsum[g], c, x, g);
    d1 := FromLanes(dv, 8, 16, xgsum[g + 1], c, x, g + 1);
  }

  /** dot_i4g8p with deferred offsets. */
  method GroupedVector(w: seq<nat>, scl: seq<real>, ghost c: seq<nat>, x: seq<int>, xgsum: seq<int32>,
                       ghost n: nat) returns (acc: real)
    requires IsCodes(c, w, x) && Int8(x) && |x| == 64 * n && |scl| >= 2 * n && |x| <= LIMIT && GroupSums(xgsum, x)
    ensures acc == Grouped(scl, c, x, 2 * n)
  {
    acc := 0.0;
    var i, g := 0, 0;
    ghost var m := 0;
    while i + 64 <= |x|
      invariant i == 64 * m && g == 2 * m && m <= n && acc == Grouped(scl, c, x, g)
    {
      acc := TakeTwo(acc, w, scl, c, x, xgsum, i, g, m, n);
      i, g, m := i + 64, g + 2, m + 1;
    }
  }

  method TakeTwo(acc: real, w: seq<nat>, scl: seq<real>, ghost c: seq<nat>, x: seq<int>, xgsum: seq<int32>, i: nat,
                 g: nat, ghost m: nat, ghost n: nat)
    returns (r: real)
    requires IsCodes(c, w, x) && Int8(x) && |x| == 64 * n && |scl| >= 2 * n && |x| <= LIMIT && GroupSums(xgsum, x)
    requires i == 64 * m && g == 2 * m && m < n && acc == Grouped(scl, c, x, g)
    ensures r == Grouped(scl, c, x, g + 2)
  {
    var d0, d1 := TwoGroups(w, c, x, xgsum, i, g);
    r := AddTwo(acc, scl, d0, d1, c, x, g);
  }

  method AddTwo(acc: real, scl: seq<real>, d0: int32, d1: int32, ghost c: seq<nat>, ghost x: seq<int>,
                g: nat) returns (r: real)
    requires g + 2 <= |scl| && 32 * (g + 2) <= |c| == |x| && acc == Grouped(scl, c, x, g)
    requires d0 == Group(c, x, g) && d1 == Group(c, x, g + 1)
    ensures r == Grouped(scl, c, x, g + 2)
  {
    r := acc + Scaled(scl[g], d0);
    assert r == Grouped(scl, c, x, g + 1);
    r := r + Scaled(scl[g + 1], d1);
  }

  /** For every length that is a multiple of 64 both grouped forms have the same integer
      group values, and over the reals the same sum. */
  method GroupedSameAsPortable(w: seq<nat>, scl: seq<real>, x: seq<int>, xgsum: seq<int32>, ghost n: nat)
    returns (fast: real, plain: real)
    requires Bytes(w, |x|) && Int8(x) && |x| == 64 * n && |scl| >= 2 * n && |x| <= LIMIT && GroupSums(xgsum, x)
    ensures fast == plain == Grouped(scl, Codes(w, |x|), x, 2 * n)
  {
    ghost var c := Codes(w, |x|);
    fast := GroupedVector(w, scl, c, x, xgsum, n);
    plain := GroupedPortable(w, scl, c, x, 2 * n);
  }
}
