/** The scores of the output head's first stage (c/nn/head.c, sl_build_part, head_planes,
    scores_part; c/hw/hw_ops.h, popc4x3): weight signs as bits, activations as three
    bit-planes, and a dot product from popcounts. */
module HeadPopcount {

  // ----- bits and bytes

  function Mask(k: nat): bv8
    requires k < 8
  {
    if k == 0 then 1 else if k == 1 then 2 else if k == 2 then 4 else if k == 3 then 8
    else if k == 4 then 16 else if k == 5 then 32 else if k == 6 then 64 else 128
  }

  predicate Bit(b: bv8, k: nat)
    requires k < 8
  {
    b & Mask(k) != 0
  }

  /** At most one bit is set. */
  predicate Single(m: bv8) {
    m & (m - 1) == 0
  }

  lemma MaskIsSingle(k: nat)
    requires k < 8
    ensures Single(Mask(k))
  {
  }

  lemma AndMask(x: bv8, y: bv8, m: bv8)
    requires Single(m)
    ensures (x & y) & m != 0 <==> x & m != 0 && y & m != 0
  {
  }

  lemma BitOfAnd(x: bv8, y: bv8, k: nat)
    requires k < 8
    ensures Bit(x & y, k) <==> Bit(x, k) && Bit(y, k)
  {
    MaskIsSingle(k);
    AndMask(x, y, Mask(k));
  }

  lemma BitOfOr(x: bv8, k: nat, j: nat)
    requires k < 8 && j < 8
    ensures Bit(x | Mask(k), j) <==> j == k || Bit(x, j)
  {
    OrMask(x, Mask(k), Mask(j));
    MasksDiffer(k, j);
  }

  lemma MasksDiffer(k: nat, j: nat)
    requires k < 8 && j < 8
    ensures if j == k then Mask(k) & Mask(j) != 0 else Mask(k) & Mask(j) == 0
  {
  }

  lemma OrMask(x: bv8, m: bv8, n: bv8)
    ensures (x | m) & n == (x & n) | (m & n)
  {
  }

  /** Bits set below k. */
  function CountBits(b: bv8, k: nat): nat
    requires k <= 8
  {
    if k == 0 then 0 else CountBits(b, k - 1) + if Bit(b, k - 1) then 1 else 0
  }

  function PopCount(b: bv8): nat {
    CountBits(b, 8)
  }

  /** Bit j of a row of bytes. */
  predicate BitAt(row: seq<bv8>, j: nat)
    requires j < 8 * |row|
  {
    Bit(row[j / 8], j % 8)
  }

  /** Positions below n whose bit is set in both rows. */
  function Both(x: seq<bv8>, y: seq<bv8>, n: nat): nat
    requires |x| == |y| && n <= 8 * |x|
  {
    if n == 0 then 0 else Both(x, y, n - 1) + if BitAt(x, n - 1) && BitAt(y, n - 1) then 1 else 0
  }

  function Ones(x: seq<bv8>, n: nat): nat
    requires n <= 8 * |x|
  {
    if n == 0 then 0 else Ones(x, n - 1) + if BitAt(x, n - 1) then 1 else 0
  }

  lemma {:induction false} BothInByte(x: seq<bv8>, y: seq<bv8>, i: nat, k: nat)
    requires |x| == |y| && i < |x| && k <= 8
    ensures Both(x, y, 8 * i + k) == Both(x, y, 8 * i) + CountBits(x[i] & y[i], k)
    decreases k
  {
    if k > 0 {
      BothInByte(x, y, i, k - 1);
      assert (8 * i + k - 1) / 8 == i && (8 * i + k - 1) % 8 == k - 1;
      BitOfAnd(x[i], y[i], k - 1);
    }
  }

  // ----- the dot product

  function Total(u: seq<nat>): nat {
    if u == [] then 0 else Total(u[..|u| - 1]) + u[|u| - 1]
  }

  /** Sum of sign(j) * (u[j] - 4), the sign being + where the row's bit is set. */
  function SignedDot(row: seq<bv8>, u: seq<nat>): int
    requires |u| <= 8 * |row|
  {
    if u == [] then 0
    else
      var n := |u| - 1;
      var c: int := u[n];
      SignedDot(row, u[..n]) + if BitAt(row, n) then c - 4 else 4 - c
  }

  /** The three planes hold the three bits of each code. */
  ghost predicate Planes(p0: seq<bv8>, p1: seq<bv8>, p2: seq<bv8>, u: seq<nat>) {
    && |p0| == |p1| == |p2| && |u| <= 8 * |p0|
    && forall j :: 0 <= j < |u| ==> Coded(p0, p1, p2, j, u[j])
  }

  predicate Coded(p0: seq<bv8>, p1: seq<bv8>, p2: seq<bv8>, j: nat, u: nat)
    requires |p0| == |p1| == |p2| && j < 8 * |p0|
  {
    u == (if BitAt(p0, j) then 1 else 0) + (if BitAt(p1, j) then 2 else 0) + if BitAt(p2, j) then 4 else 0
  }

  /** The popcount formula is the signed dot product. */
  lemma {:induction false} FormulaIsDot(row: seq<bv8>, p0: seq<bv8>, p1: seq<bv8>, p2: seq<bv8>, u: seq<nat>)
    requires Planes(p0, p1, p2, u) && |row| == |p0|
    ensures var n := |u|;
            2 * (Both(row, p0, n) + 2 * Both(row, p1, n) + 4 * Both(row, p2, n)) - 8 * Ones(row, n) - Total(u) + 4 * n
            == SignedDot(row, u)
    decreases |u|
  {
    if u != [] {
      var n := |u| - 1;
      FormulaIsDot(row, p0, p1, p2, u[..n]);
      assert Coded(p0, p1, p2, n, u[n]);
    }
  }

  lemma {:induction false} DotIsBounded(row: seq<bv8>, u: seq<nat>)
    requires |u| <= 8 * |row| && forall j :: 0 <= j < |u| ==> 1 <= u[j] <= 7
    ensures -3 * |u| <= SignedDot(row, u) <= 3 * |u|
  {
    if u != [] { DotIsBounded(row, u[..|u| - 1]); }
  }

  // ----- the buffers

  ghost function Row(m: array2<bv8>, v: nat): (r: seq<bv8>)
    requires v < m.Length0
    reads m
    ensures |r| == m.Length1 && forall i :: 0 <= i < m.Length1 ==> r[i] == m[v, i]
  {
    seq(m.Length1, i requires 0 <= i < m.Length1 reads m => m[v, i])
  }

  /** m[v][j >> 3] |= 1 << (j & 7). */
  method SetBit(m: array2<bv8>, v: nat, j: nat)
    requires v < m.Length0 && j < 8 * m.Length1
    modifies m
    ensures forall w, i :: 0 <= w < m.Length0 && 0 <= i < m.Length1 && w != v ==> m[w, i] == old(m[w, i])
    ensures forall w: nat :: w < m.Length0 && w != v ==> Row(m, w) == old(Row(m, w))
    ensures forall k: nat :: k < 8 * m.Length1 ==> (BitAt(Row(m, v), k) <==> k == j || old(BitAt(Row(m, v), k)))
  {
    ghost var was := Row(m, v);
    m[v, j / 8] := m[v, j / 8] | Mask(j % 8);
    forall k: nat | k < 8 * m.Length1 ensures BitAt(Row(m, v), k) <==> k == j || BitAt(was, k) {
      if k / 8 == j / 8 { BitOfOr(was[j / 8], j % 8, k % 8); }
    }
  }

  method Zero(m: array2<bv8>, v: nat)
    requires v < m.Length0
    modifies m
    ensures forall w, i :: 0 <= w < m.Length0 && 0 <= i < m.Length1 ==> m[w, i] == if w == v then 0 else old(m[w, i])
  {
    for i := 0 to m.Length1
      invariant forall w, k :: 0 <= w < m.Length0 && 0 <= k < m.Length1 ==>
          m[w, k] == if w == v && k < i then 0 else old(m[w, k])
    {
      m[v, i] := 0;
    }
  }

  /** A weight from the packed codes: the low nibbles of 16 bytes, then the high ones. */
  function Weight(q4: seq<seq<seq<nat>>>, scale: seq<seq<seq<real>>>, v: nat, j: nat): real
    requires Packed(q4, scale, v, j)
  {
    var b, r, g, k := v / 4, v % 4, j / 32, j % 32;
    var q: int := if k < 16 then q4[b][g][r * 16 + k] % 16 else q4[b][g][r * 16 + k - 16] / 16;
    (q - 8) as real * scale[b][g][r]
  }

  predicate Packed(q4: seq<seq<seq<nat>>>, scale: seq<seq<seq<real>>>, v: nat, j: nat) {
    && v / 4 < |q4| && v / 4 < |scale| && j / 32 < |q4[v / 4]| && j / 32 < |scale[v / 4]|
    && |q4[v / 4][j / 32]| == 64 && |scale[v / 4][j / 32]| == 4
  }

  /** sl_build_part for row v: the signs of its weights and how many are not negative. */
  method BuildRow(bits: array2<bv8>, v: nat, q4: seq<seq<seq<nat>>>, scale: seq<seq<seq<real>>>) returns (pc: nat)
    requires v < bits.Length0 && forall j: nat :: j < 8 * bits.Length1 ==> Packed(q4, scale, v, j)
    modifies bits
    ensures forall w: nat :: w < bits.Length0 && w != v ==> Row(bits, w) == old(Row(bits, w))
    ensures forall j: nat :: j < 8 * bits.Length1 ==> (BitAt(Row(bits, v), j) <==> Weight(q4, scale, v, j) >= 0.0)
    ensures pc == Ones(Row(bits, v), 8 * bits.Length1)
  {
    ClearRow(bits, v);
    pc := 0;
    for j := 0 to 8 * bits.Length1
      invariant forall w: nat :: w < bits.Length0 && w != v ==> Row(bits, w) == old(Row(bits, w))
      invariant Signs(Row(bits, v), j, q4, scale, v) && pc == Ones(Row(bits, v), j)
    {
      assert Packed(q4, scale, v, j);
      pc := AddSign(bits, v, j, Weight(q4, scale, v, j) >= 0.0, pc);
    }
  }

  method ClearRow(m: array2<bv8>, v: nat)
    requires v < m.Length0
    modifies m
    ensures forall w: nat :: w < m.Length0 && w != v ==> Row(m, w) == old(Row(m, w))
    ensures forall k: nat :: k < 8 * m.Length1 ==> !BitAt(Row(m, v), k)
  {
    Zero(m, v);
  }

  /** The row's bits below n are the signs of the weights, the others are clear. */
  ghost predicate Signs(row: seq<bv8>, n: nat, q4: seq<seq<seq<nat>>>, scale: seq<seq<seq<real>>>, v: nat)
    requires forall j: nat :: j < 8 * |row| ==> Packed(q4, scale, v, j)
  {
    forall k: nat :: k < 8 * |row| ==> (BitAt(row, k) <==> k < n && Weight(q4, scale, v, k) >= 0.0)
  }

  method AddSign(bits: array2<bv8>, v: nat, j: nat, positive: bool, pc: nat) returns (c: nat)
    requires v < bits.Length0 && j < 8 * bits.Length1 && !BitAt(Row(bits, v), j) && pc == Ones(Row(bits, v), j)
    modifies bits
    ensures forall w: nat :: w < bits.Length0 && w != v ==> Row(bits, w) == old(Row(bits, w))
    ensures forall k: nat :: k < 8 * bits.Length1 ==>
        (BitAt(Row(bits, v), k) <==> (k == j && positive) || old(BitAt(Row(bits, v), k)))
    ensures c == Ones(Row(bits, v), j + 1)
  {
    ghost var was := Row(bits, v);
    c := pc;
    if positive {
      SetBit(bits, v, j);
      c := c + 1;
    }
    SameOnes(was, Row(bits, v), j);
  }

  lemma {:induction false} SameOnes(x: seq<bv8>, y: seq<bv8>, n: nat)
    requires |x| == |y| && n <= 8 * |x| && forall k: nat :: k < n ==> (BitAt(x, k) <==> BitAt(y, k))
    ensures Ones(x, n) == Ones(y, n)
  {
    if n > 0 { SameOnes(x, y, n - 1); }
  }

  function Clamp(r: int): int {
    if r < -3 then -3 else if r > 3 then 3 else r
  }

  /** head_planes, from the rounded activations: the codes, their planes and their sum. */
  method BuildPlanes(pl: array2<bv8>, rounded: seq<int>) returns (ghost u: seq<nat>, su: nat)
    requires pl.Length0 == 3 && |rounded| == 8 * pl.Length1
    modifies pl
    ensures |u| == |rounded| && forall j :: 0 <= j < |u| ==> u[j] == Clamp(rounded[j]) + 4
    ensures Planes(Row(pl, 0), Row(pl, 1), Row(pl, 2), u) && su == Total(u)
  {
    ClearPlanes(pl);
    u, su := Codes(rounded), 0;
    for j := 0 to |rounded|
      invariant su == Total(u[..j]) && Laid(Row(pl, 0), Row(pl, 1), Row(pl, 2), u[..j])
    {
      var c := Clamp(rounded[j]) + 4;
      AddCode(pl, j, c, u[..j]);
      NextTotal(u, j);
      su := su + c;
    }
    assert u[..|rounded|] == u;
  }

  lemma NextTotal(u: seq<nat>, j: nat)
    requires j < |u|
    ensures u[..j + 1] == u[..j] + [u[j]] && Total(u[..j + 1]) == Total(u[..j]) + u[j]
  {
    assert u[..j + 1][..j] == u[..j];
  }

  function Codes(rounded: seq<int>): (u: seq<nat>)
    ensures |u| == |rounded| && forall j :: 0 <= j < |u| ==> u[j] == Clamp(rounded[j]) + 4
  {
    seq(|rounded|, j requires 0 <= j < |rounded| => Clamp(rounded[j]) + 4)
  }

  /** The first codes are in the planes, and nothing else. */
  ghost predicate Laid(p0: seq<bv8>, p1: seq<bv8>, p2: seq<bv8>, u: seq<nat>) {
    && Planes(p0, p1, p2, u)
    && forall k: nat :: |u| <= k < 8 * |p0| ==> Coded(p0, p1, p2, k, 0)
  }

  method ClearPlanes(pl: array2<bv8>)
    requires pl.Length0 == 3
    modifies pl
    ensures Laid(Row(pl, 0), Row(pl, 1), Row(pl, 2), [])
  {
    Zero(pl, 0);
    Zero(pl, 1);
    Zero(pl, 2);
  }

  method AddCode(pl: array2<bv8>, j: nat, c: nat, ghost u: seq<nat>)
    requires pl.Length0 == 3 && j == |u| < 8 * pl.Length1 && c < 8
    requires Laid(Row(pl, 0), Row(pl, 1), Row(pl, 2), u)
    modifies pl
    ensures Laid(Row(pl, 0), Row(pl, 1), Row(pl, 2), u + [c])
  {
    SetPlanes(pl, j, c);
  }

  /** for p in 0..3: if (u >> p & 1) set bit j of plane p. */
  method SetPlanes(pl: array2<bv8>, j: nat, c: nat)
    requires pl.Length0 == 3 && j < 8 * pl.Length1 && c < 8
    requires Coded(Row(pl, 0), Row(pl, 1), Row(pl, 2), j, 0)
    modifies pl
    ensures Coded(Row(pl, 0), Row(pl, 1), Row(pl, 2), j, c)
    ensures forall k: nat, x: nat ::
      k < 8 * pl.Length1 && k != j && old(Coded(Row(pl, 0), Row(pl, 1), Row(pl, 2), k, x)) ==>
      Coded(Row(pl, 0), Row(pl, 1), Row(pl, 2), k, x)
  {
    if c % 2 == 1 { SetBit(pl, 0, j); }
    if c / 2 % 2 == 1 { SetBit(pl, 1, j); }
    if c / 4 % 2 == 1 { SetBit(pl, 2, j); }
  }

  /** The popcount loop over one row and one plane. */
  method CountBoth(bits: array2<bv8>, v: nat, pl: array2<bv8>, p: nat) returns (c: nat)
    requires v < bits.Length0 && p < pl.Length0 && bits.Length1 == pl.Length1
    ensures c == Both(Row(bits, v), Row(pl, p), 8 * bits.Length1)
  {
    c := 0;
    for i := 0 to bits.Length1
      invariant c == Both(Row(bits, v), Row(pl, p), 8 * i)
    {
      c := CountByte(bits[v, i], pl[p, i], c, i, Row(bits, v), Row(pl, p));
    }
  }

  method CountByte(a: bv8, b: bv8, c0: nat, ghost i: nat, ghost x: seq<bv8>, ghost y: seq<bv8>) returns (c: nat)
    requires i < |x| == |y| && a == x[i] && b == y[i] && c0 == Both(x, y, 8 * i)
    ensures c == Both(x, y, 8 * (i + 1))
  {
    BothInByte(x, y, i, 8);
    c := c0 + PopCount(a & b);
  }

  /** The counts of row 4b + r against the three planes, at cnt[3r..3r+3]. */
  method CountRow(bits: array2<bv8>, b: nat, pl: array2<bv8>, cnt: array<nat>, r: nat)
    requires b * 4 + r < bits.Length0 && pl.Length0 == 3 && bits.Length1 == pl.Length1 && cnt.Length == 12 && r < 4
    modifies cnt
    ensures Counted(bits, b, pl, cnt[..], r)
    ensures forall q: nat :: q < r && old(Counted(bits, b, pl, cnt[..], q)) ==> Counted(bits, b, pl, cnt[..], q)
  {
    var c0 := CountBoth(bits, b * 4 + r, pl, 0);
    var c1 := CountBoth(bits, b * 4 + r, pl, 1);
    var c2 := CountBoth(bits, b * 4 + r, pl, 2);
    Store(cnt, r, c0, c1, c2);
    assert Counted(bits, b, pl, cnt[..], r);
  }

  method Store(cnt: array<nat>, r: nat, c0: nat, c1: nat, c2: nat)
    requires cnt.Length == 12 && r < 4
    modifies cnt
    ensures cnt[..][r * 3] == c0 && cnt[..][r * 3 + 1] == c1 && cnt[..][r * 3 + 2] == c2
    ensures forall i :: 0 <= i < r * 3 ==> cnt[..][i] == old(cnt[..][i])
  {
    cnt[r * 3], cnt[r * 3 + 1], cnt[r * 3 + 2] := c0, c1, c2;
  }

  ghost predicate Counted(bits: array2<bv8>, b: nat, pl: array2<bv8>, cnt: seq<nat>, r: nat)
    requires pl.Length0 == 3 && bits.Length1 == pl.Length1 && |cnt| == 12 && r < 4
    reads bits, pl
  {
    var v := b * 4 + r;
    v < bits.Length0 ==>
      && cnt[r * 3] == Both(Row(bits, v), Row(pl, 0), 8 * bits.Length1)
      && cnt[r * 3 + 1] == Both(Row(bits, v), Row(pl, 1), 8 * bits.Length1)
      && cnt[r * 3 + 2] == Both(Row(bits, v), Row(pl, 2), 8 * bits.Length1)
  }

  /** The counts of block b: four rows at once, or the rows of a ragged tail. */
  method CountBlock(bits: array2<bv8>, b: nat, pl: array2<bv8>) returns (cnt: array<nat>)
    requires b * 4 < bits.Length0 && pl.Length0 == 3 && bits.Length1 == pl.Length1
    ensures fresh(cnt) && cnt.Length == 12
    ensures forall r: nat :: r < 4 ==> Counted(bits, b, pl, cnt[..], r)
  {
    cnt := new nat[12];
    var full := b < bits.Length0 / 4;
    for r := 0 to 4
      invariant forall q: nat :: q < r ==> Counted(bits, b, pl, cnt[..], q)
    {
      if !full && b * 4 + r >= bits.Length0 { break; }
      CountRow(bits, b, pl, cnt, r);
    }
  }

  /** scores_part, up to the row's scale factor: every row's score is its signed dot
      product with the codes, in full blocks and in the ragged last one. */
  method Scores(bits: array2<bv8>, pc: array<nat>, pl: array2<bv8>, ghost u: seq<nat>, su: nat, score: array<int>)
    requires pl.Length0 == 3 && bits.Length1 == pl.Length1 && pc.Length == score.Length == bits.Length0
    requires score as object != pc as object && |u| == 8 * pl.Length1 && su == Total(u)
    requires Planes(Row(pl, 0), Row(pl, 1), Row(pl, 2), u)
    requires forall v: nat :: v < pc.Length ==> pc[v] == Ones(Row(bits, v), 8 * bits.Length1)
    modifies score
    ensures forall v: nat :: v < score.Length ==> score[v] == SignedDot(Row(bits, v), u)
  {
    for b := 0 to (bits.Length0 + 3) / 4
      invariant forall v: nat :: v < score.Length && v < b * 4 ==> score[v] == SignedDot(Row(bits, v), u)
    {
      var cnt := CountBlock(bits, b, pl);
      ScoreBlock(bits, pc, pl, u, su, score, b, cnt[..]);
    }
  }

  method ScoreBlock(bits: array2<bv8>, pc: array<nat>, pl: array2<bv8>, ghost u: seq<nat>, su: nat,
                    score: array<int>, b: nat, cnt: seq<nat>)
    requires pl.Length0 == 3 && bits.Length1 == pl.Length1 && pc.Length == score.Length == bits.Length0 && |cnt| == 12
    requires score as object != pc as object && |u| == 8 * pl.Length1 && su == Total(u)
    requires Planes(Row(pl, 0), Row(pl, 1), Row(pl, 2), u)
    requires forall v: nat :: v < pc.Length ==> pc[v] == Ones(Row(bits, v), 8 * bits.Length1)
    requires forall r: nat :: r < 4 ==> Counted(bits, b, pl, cnt, r)
    modifies score
    ensures forall v: nat :: v < score.Length ==>
        score[v] == if b * 4 <= v < b * 4 + 4 then SignedDot(Row(bits, v), u) else old(score[v])
  {
    var r := 0;
    while r < 4 && b * 4 + r < score.Length
      invariant r <= 4
      invariant forall v: nat :: v < score.Length ==>
        score[v] == if b * 4 <= v < b * 4 + r then SignedDot(Row(bits, v), u) else old(score[v])
    {
      var v := b * 4 + r;
      assert Counted(bits, b, pl, cnt, r);
      score[v] := ScoreRow(bits, pc[v], pl, u, su, b, cnt, r);
      r := r + 1;
    }
  }

  method ScoreRow(bits: array2<bv8>, pc: nat, pl: array2<bv8>, ghost u: seq<nat>, su: nat, b: nat, cnt: seq<nat>,
                  r: nat) returns (s: int)
    requires pl.Length0 == 3 && bits.Length1 == pl.Length1 && |cnt| == 12 && r < 4 && b * 4 + r < bits.Length0
    requires |u| == 8 * pl.Length1 && su == Total(u) && Planes(Row(pl, 0), Row(pl, 1), Row(pl, 2), u)
    requires pc == Ones(Row(bits, b * 4 + r), 8 * bits.Length1) && Counted(bits, b, pl, cnt, r)
    ensures s == SignedDot(Row(bits, b * 4 + r), u)
  {
    var sb := cnt[r * 3] + 2 * cnt[r * 3 + 1] + 4 * cnt[r * 3 + 2];
    FormulaIsDot(Row(bits, b * 4 + r), Row(pl, 0), Row(pl, 1), Row(pl, 2), u);
    s := 2 * sb - 8 * pc - su + 4 * (8 * bits.Length1);
  }

  /** sl_build_part: all rows. */
  method BuildRows(bits: array2<bv8>, pc: array<nat>, q4: seq<seq<seq<nat>>>, scale: seq<seq<seq<real>>>)
    requires pc.Length == bits.Length0
    requires forall v: nat, j: nat :: v < bits.Length0 && j < 8 * bits.Length1 ==> Packed(q4, scale, v, j)
    modifies bits, pc
    ensures forall v: nat :: v < pc.Length ==> Built(bits, v, pc[v], q4, scale)
  {
    for v := 0 to bits.Length0
      invariant forall w: nat :: w < v ==> Built(bits, w, pc[w], q4, scale)
    {
      label L:
      var c := BuildRow(bits, v, q4, scale);
      pc[v] := c;
      forall w: nat | w < v ensures Built(bits, w, pc[w], q4, scale) {
        assert Row(bits, w) == old@L(Row(bits, w));
      }
    }
  }

  ghost predicate Built(bits: array2<bv8>, v: nat, pc: nat, q4: seq<seq<seq<nat>>>, scale: seq<seq<seq<real>>>)
    requires v < bits.Length0 && forall j: nat :: j < 8 * bits.Length1 ==> Packed(q4, scale, v, j)
    reads bits
  {
    && pc == Ones(Row(bits, v), 8 * bits.Length1)
    && forall j: nat :: j < 8 * bits.Length1 ==> (BitAt(Row(bits, v), j) <==> Weight(q4, scale, v, j) >= 0.0)
  }

  /** The whole first stage, from packed weights and rounded activations: the score of row v
      is the sum over j of the sign of its weight times the clamped activation. */
  method Score(q4: seq<seq<seq<nat>>>, scale: seq<seq<seq<real>>>, rounded: seq<int>, V: nat)
    returns (score: array<int>)
    requires |rounded| % 32 == 0
    requires forall v: nat, j: nat :: v < V && j < |rounded| ==> Packed(q4, scale, v, j)
    ensures score.Length == V
    ensures forall v: nat :: v < V ==> score[v] == Dot(q4, scale, rounded, v, |rounded|)
  {
    var rb := |rounded| / 8;
    var bits, pc, pl := new bv8[V, rb], new nat[V], new bv8[3, rb];
    score := new int[V];
    BuildRows(bits, pc, q4, scale);
    var u, su := BuildPlanes(pl, rounded);
    assert forall v: nat :: v < V ==> Built(bits, v, pc[v], q4, scale);
    Scores(bits, pc, pl, u, su, score);
    forall v: nat | v < V ensures score[v] == Dot(q4, scale, rounded, v, |rounded|) {
      assert Built(bits, v, pc[v], q4, scale);
      SignedIsDot(Row(bits, v), u, q4, scale, rounded, v);
    }
  }

  /** Sum over j below n of sign(weight(v, j)) * clamp(rounded[j]). */
  function Dot(q4: seq<seq<seq<nat>>>, scale: seq<seq<seq<real>>>, rounded: seq<int>, v: nat, n: nat): int
    requires n <= |rounded| && forall j: nat :: j < n ==> Packed(q4, scale, v, j)
  {
    if n == 0 then 0
    else
      var sign := if Weight(q4, scale, v, n - 1) >= 0.0 then 1 else -1;
      Dot(q4, scale, rounded, v, n - 1) + sign * Clamp(rounded[n - 1])
  }

  lemma {:induction false} SignedIsDot(row: seq<bv8>, u: seq<nat>, q4: seq<seq<seq<nat>>>,
                                       scale: seq<seq<seq<real>>>, rounded: seq<int>, v: nat)
    requires |u| <= 8 * |row| && |u| <= |rounded| && forall j :: 0 <= j < |u| ==> u[j] == Clamp(rounded[j]) + 4
    requires forall j: nat :: j < |u| ==> Packed(q4, scale, v, j)
    requires forall j: nat :: j < |u| ==> (BitAt(row, j) <==> Weight(q4, scale, v, j) >= 0.0)
    ensures SignedDot(row, u) == Dot(q4, scale, rounded, v, |u|)
    decreases |u|
  {
    if u != [] {
      var n := |u| - 1;
      SignedIsDot(row, u[..n], q4, scale, rounded, v);
      assert Packed(q4, scale, v, n);
    }
  }
}
