/** Multi-head latent attention (c/nn/mla.h; c/engines/glm.c, attention_rows) over the reals:
    keys and values rebuilt from the latents, against kv_b folded into the query and the
    value projection applied once to the weighted latents. One head; a matrix is the
    function of its rows. */
module Mla {

  type Vec = int -> real
  type Matrix = int -> Vec

  function Times(a: real, b: real): real { a * b }

  /** The sum of a(i) * b(i) for i < n. */
  function Dot(n: nat, a: Vec, b: Vec): real {
    if n == 0 then 0.0 else Dot(n - 1, a, b) + Times(a(n - 1), b(n - 1))
  }

  /** Coordinate i of the sum of q(d) * w(d) for d < n. */
  function Mix(n: nat, q: Vec, w: Matrix, i: int): real {
    if n == 0 then 0.0 else Mix(n - 1, q, w, i) + Times(q(n - 1), w(n - 1)(i))
  }

  /** The sum of q(d) * (w(d) . l) for d < n: every row rebuilt against l. */
  function Rebuilt(n: nat, r: nat, q: Vec, w: Matrix, l: Vec): real {
    if n == 0 then 0.0 else Rebuilt(n - 1, r, q, w, l) + Times(q(n - 1), Dot(r, w(n - 1), l))
  }

  /** The sum of (q . w)(i) * l(i) for i < r: the rows folded first. */
  function Folded(n: nat, r: nat, q: Vec, w: Matrix, l: Vec): real {
    if r == 0 then 0.0 else Folded(n, r - 1, q, w, l) + Times(Mix(n, q, w, r - 1), l(r - 1))
  }

  lemma Distribute(a: real, b: real, c: real)
    ensures Times(a + b, c) == Times(a, c) + Times(b, c)
    ensures Times(c, a + b) == Times(c, a) + Times(c, b)
  {
  }

  lemma Associate(a: real, b: real, c: real)
    ensures Times(Times(a, b), c) == Times(a, Times(b, c))
  {
  }

  lemma Commute(a: real, b: real)
    ensures Times(a, b) == Times(b, a)
  {
  }

  lemma {:induction false} DotCommutes(n: nat, a: Vec, b: Vec)
    ensures Dot(n, a, b) == Dot(n, b, a)
  {
    if n > 0 {
      DotCommutes(n - 1, a, b);
      Commute(a(n - 1), b(n - 1));
    }
  }

  /** One more row: its share of the folded sum is its share of the rebuilt one. */
  lemma {:induction false} FoldedRow(n: nat, r: nat, q: Vec, w: Matrix, l: Vec)
    ensures Folded(n + 1, r, q, w, l) == Folded(n, r, q, w, l) + Times(q(n), Dot(r, w(n), l))
    decreases r
  {
    if r > 0 {
      var i := r - 1;
      FoldedRow(n, i, q, w, l);
      Distribute(Mix(n, q, w, i), Times(q(n), w(n)(i)), l(i));
      Associate(q(n), w(n)(i), l(i));
      Distribute(Dot(i, w(n), l), Times(w(n)(i), l(i)), q(n));
    } else {
      assert Times(q(n), 0.0) == 0.0;
    }
  }

  lemma {:induction false} FoldedNothing(r: nat, q: Vec, w: Matrix, l: Vec)
    ensures Folded(0, r, q, w, l) == 0.0
  {
    if r > 0 {
      FoldedNothing(r - 1, q, w, l);
      assert Times(0.0, l(r - 1)) == 0.0;
    }
  }

  /** q . (W l) == (q . W) l. */
  lemma {:induction false} FoldingIsRebuilding(n: nat, r: nat, q: Vec, w: Matrix, l: Vec)
    ensures Folded(n, r, q, w, l) == Rebuilt(n, r, q, w, l)
  {
    if n == 0 {
      FoldedNothing(r, q, w, l);
    } else {
      FoldingIsRebuilding(n - 1, r, q, w, l);
      FoldedRow(n - 1, r, q, w, l);
    }
  }

  // ----- the two attention cores

  /** One head of one layer: its dimensions, its rows of kv_b (keys, then values), the
      caches of latents and rotated keys, and the scale. */
  datatype Head = Head(nope: nat, rope: nat, lora: nat, vh: nat, kvb: Matrix, lat: Matrix, rot: Matrix, scale: real) {
    function ValueRow(d: int): Vec { kvb(nope + d) }
  }

  /** The positions attended to: a selected list, or the whole range up to pos. */
  function Positions(list: seq<nat>, start: nat, pos: nat): (ts: seq<nat>)
    requires start <= pos + 1
    ensures |ts| == if list != [] then |list| else pos + 1 - start
  {
    if list != [] then list else seq(pos + 1 - start, j requires 0 <= j < pos + 1 - start => start + j)
  }

  /** The score of position t: the query against its rebuilt key and its rotated key. */
  function Score(h: Head, qn: Vec, qr: Vec, t: nat): real {
    Times(Rebuilt(h.nope, h.lora, qn, h.kvb, h.lat(t)) + Dot(h.rope, qr, h.rot(t)), h.scale)
  }

  function Scores(h: Head, qn: Vec, qr: Vec, ts: seq<nat>): (s: seq<real>)
    ensures |s| == |ts| && forall j :: 0 <= j < |ts| ==> s[j] == Score(h, qn, qr, ts[j])
  {
    seq(|ts|, j requires 0 <= j < |ts| => Score(h, qn, qr, ts[j]))
  }

  /** The sum over n positions of weight times coordinate d of the rebuilt value. */
  function Values(h: Head, a: seq<real>, ts: seq<nat>, n: nat, d: nat): real
    requires n <= |a| == |ts|
  {
    if n == 0 then 0.0
    else Values(h, a, ts, n - 1, d) + Times(a[n - 1], Dot(h.lora, h.ValueRow(d), h.lat(ts[n - 1])))
  }

  /** for i: acc += a(i) * b(i). */
  method DotLoop(n: nat, a: Vec, b: Vec, init: real) returns (s: real)
    ensures s == init + Dot(n, a, b)
  {
    s := init;
    for i := 0 to n
      invariant s == init + Dot(i, a, b)
    {
      s := s + Times(a(i), b(i));
    }
  }

  /** The query against the key rebuilt from a latent, row by row. */
  method KeyScore(h: Head, qn: Vec, lat: Vec) returns (s: real)
    ensures s == Rebuilt(h.nope, h.lora, qn, h.kvb, lat)
  {
    s := 0.0;
    for d := 0 to h.nope
      invariant s == Rebuilt(d, h.lora, qn, h.kvb, lat)
    {
      var k := DotLoop(h.lora, h.kvb(d), lat, 0.0);
      s := s + Times(qn(d), k);
    }
  }

  /** mla_reconstruct_scores: every key rebuilt from its latent. */
  method ReconstructScores(h: Head, qn: Vec, qr: Vec, ts: seq<nat>) returns (sc: array<real>)
    ensures fresh(sc) && sc[..] == Scores(h, qn, qr, ts)
  {
    sc := new real[|ts|];
    for j := 0 to |ts|
      invariant forall k :: 0 <= k < j ==> sc[k] == Score(h, qn, qr, ts[k])
    {
      var s := KeyScore(h, qn, h.lat(ts[j]));
      s := DotLoop(h.rope, qr, h.rot(ts[j]), s);
      sc[j] := Times(s, h.scale);
    }
  }

  /** qabs += qn(d) * row d of kv_b, for every key row of the head. */
  method Absorb(h: Head, qn: Vec) returns (qabs: array<real>)
    ensures fresh(qabs) && qabs.Length == h.lora && forall i :: 0 <= i < h.lora ==> qabs[i] == Mix(h.nope, qn, h.kvb, i)
  {
    qabs := new real[h.lora](_ => 0.0);
    for d := 0 to h.nope
      invariant forall i :: 0 <= i < h.lora ==> qabs[i] == Mix(d, qn, h.kvb, i)
    {
      AddRow(qabs, qn(d), h.kvb(d));
    }
  }

  /** y(i) += a * row(i). */
  method AddRow(y: array<real>, a: real, row: Vec)
    modifies y
    ensures forall i :: 0 <= i < y.Length ==> y[i] == old(y[i]) + Times(a, row(i))
  {
    for i := 0 to y.Length
      invariant forall k :: 0 <= k < y.Length ==> y[k] == if k < i then old(y[k]) + Times(a, row(k)) else old(y[k])
    {
      y[i] := y[i] + Times(a, row(i));
    }
  }

  /** The product of a buffer and a row. */
  method BufferDot(y: array<real>, row: Vec, ghost n: nat, ghost q: Vec, ghost w: Matrix) returns (s: real)
    requires forall i :: 0 <= i < y.Length ==> y[i] == Mix(n, q, w, i)
    ensures s == Rebuilt(n, y.Length, q, w, row)
  {
    s := 0.0;
    for i := 0 to y.Length
      invariant s == Folded(n, i, q, w, row)
    {
      s := s + Times(y[i], row(i));
    }
    FoldingIsRebuilding(n, y.Length, q, w, row);
  }

  /** mla_absorb_scores: kv_b folded into the query once. The same scores. */
  method AbsorbScores(h: Head, qn: Vec, qr: Vec, ts: seq<nat>) returns (sc: array<real>)
    ensures fresh(sc) && sc[..] == Scores(h, qn, qr, ts)
  {
    var qabs := Absorb(h, qn);
    sc := new real[|ts|];
    for j := 0 to |ts|
      invariant forall k :: 0 <= k < j ==> sc[k] == Score(h, qn, qr, ts[k])
      invariant forall i :: 0 <= i < h.lora ==> qabs[i] == Mix(h.nope, qn, h.kvb, i)
    {
      var s := BufferDot(qabs, h.lat(ts[j]), h.nope, qn, h.kvb);
      s := DotLoop(h.rope, qr, h.rot(ts[j]), s);
      sc[j] := Times(s, h.scale);
    }
  }

  /** mla_value_accum: every value rebuilt and accumulated. */
  method AccumulateValues(h: Head, a: seq<real>, ts: seq<nat>) returns (out: array<real>)
    requires |a| == |ts|
    ensures fresh(out) && out.Length == h.vh && forall d :: 0 <= d < h.vh ==> out[d] == Values(h, a, ts, |ts|, d)
  {
    out := new real[h.vh](_ => 0.0);
    for j := 0 to |ts|
      invariant forall d :: 0 <= d < h.vh ==> out[d] == Values(h, a, ts, j, d)
    {
      for d := 0 to h.vh
        invariant forall e :: 0 <= e < h.vh ==> out[e] == Values(h, a, ts, if e < d then j + 1 else j, e)
      {
        var v := DotLoop(h.lora, h.ValueRow(d), h.lat(ts[j]), 0.0);
        out[d] := out[d] + Times(a[j], v);
      }
    }
  }

  /** The weights and the attended latents as functions of the place in the list. */
  function At(a: seq<real>): Vec {
    (j: int) => if 0 <= j < |a| then a[j] else 0.0
  }

  function LatentAt(h: Head, ts: seq<nat>, j: int): Vec {
    if 0 <= j < |ts| then h.lat(ts[j]) else h.lat(0)
  }

  function Attended(h: Head, ts: seq<nat>): Matrix {
    (j: int) => LatentAt(h, ts, j)
  }

  lemma {:induction false} ValuesAreRebuilt(h: Head, a: seq<real>, ts: seq<nat>, n: nat, d: nat)
    requires n <= |a| == |ts|
    ensures Values(h, a, ts, n, d) == Rebuilt(n, h.lora, At(a), Attended(h, ts), h.ValueRow(d))
  {
    if n > 0 {
      ValuesAreRebuilt(h, a, ts, n - 1, d);
      DotCommutes(h.lora, h.ValueRow(d), h.lat(ts[n - 1]));
    }
  }

  /** The latents weighted and summed first, W_V applied once. The same values. */
  method ProjectOnce(h: Head, a: seq<real>, ts: seq<nat>) returns (out: array<real>)
    requires |a| == |ts|
    ensures fresh(out) && out.Length == h.vh && forall d :: 0 <= d < h.vh ==> out[d] == Values(h, a, ts, |ts|, d)
  {
    var clat := new real[h.lora](_ => 0.0);
    for j := 0 to |ts|
      invariant forall i :: 0 <= i < h.lora ==> clat[i] == Mix(j, At(a), Attended(h, ts), i)
    {
      AddRow(clat, a[j], h.lat(ts[j]));
    }
    out := new real[h.vh];
    for d := 0 to h.vh
      invariant forall i :: 0 <= i < h.lora ==> clat[i] == Mix(|ts|, At(a), Attended(h, ts), i)
      invariant forall e :: 0 <= e < d ==> out[e] == Values(h, a, ts, |ts|, e)
    {
      out[d] := BufferDot(clat, h.ValueRow(d), |ts|, At(a), Attended(h, ts));
      ValuesAreRebuilt(h, a, ts, |ts|, d);
    }
  }

  /** A head's output by rebuilding, and by absorption, for any softmax, any dimensions and
      any set of positions attended to. */
  method Attend(h: Head, qn: Vec, qr: Vec, list: seq<nat>, start: nat, pos: nat, softmax: seq<real> -> seq<real>)
    returns (rebuilt: array<real>, absorbed: array<real>)
    requires start <= pos + 1 && forall s :: |softmax(s)| == |s|
    ensures rebuilt[..] == absorbed[..] && rebuilt.Length == h.vh
    ensures var ts := Positions(list, start, pos);
            forall d :: 0 <= d < h.vh ==> absorbed[d] == Values(h, softmax(Scores(h, qn, qr, ts)), ts, |ts|, d)
  {
    var ts := Positions(list, start, pos);
    var sc := ReconstructScores(h, qn, qr, ts);
    rebuilt := AccumulateValues(h, softmax(sc[..]), ts);
    var sd := AbsorbScores(h, qn, qr, ts);
    absorbed := ProjectOnce(h, softmax(sd[..]), ts);
  }
}
