/** The language model every decoding loop runs on, and its KV cache.

    A forward of one token at position p reads the cache rows 0..p-1, writes row p
    and yields the most likely next token. Rows are opaque: all that is known of a
    row is which rows and which token it was computed from, so a stale row is
    worthless unless those rows match the history. */
module LanguageModel {

  /** encode: the row a token leaves on top of the rows below it.
      next: the argmax of the logits computed at that position. */
  datatype Lm<!R> = Lm(encode: (seq<R>, nat) -> R, next: (seq<R>, nat) -> nat)

  /** The cache a history leaves when its tokens are fed one at a time. */
  function RowsOf<R>(lm: Lm<R>, h: seq<nat>): (rows: seq<R>)
    ensures |rows| == |h|
  {
    if h == [] then [] else
      var below := RowsOf(lm, h[..|h| - 1]);
      below + [lm.encode(below, h[|h| - 1])]
  }

  /** The greedy token after a non-empty history. */
  function NextOf<R>(lm: Lm<R>, h: seq<nat>): nat
    requires h != []
  {
    lm.next(RowsOf(lm, h[..|h| - 1]), h[|h| - 1])
  }

  lemma {:induction false} RowsOfPrefix<R>(lm: Lm<R>, h: seq<nat>, k: nat)
    requires k <= |h|
    ensures RowsOf(lm, h)[..k] == RowsOf(lm, h[..k])
  {
    if k < |h| {
      RowsOfPrefix(lm, h[..|h| - 1], k);
      assert h[..|h| - 1][..k] == h[..k];
    } else {
      assert h[..k] == h;
    }
  }

  /** When the cache holds the rows of `held`, any prefix of it may be kept. */
  lemma KeepPrefix<R>(lm: Lm<R>, rows: array<R>, held: seq<nat>, kept: seq<nat>)
    requires kept <= held && |held| <= rows.Length && rows[..|held|] == RowsOf(lm, held)
    ensures rows[..|kept|] == RowsOf(lm, kept)
  {
    var n := |kept|;
    assert held[..n] == kept;
    RowsOfPrefix(lm, held, n);
    assert rows[..n] == rows[..|held|][..n];
  }

  lemma RowsOfPush<R>(lm: Lm<R>, h: seq<nat>, t: nat)
    ensures RowsOf(lm, h + [t]) == RowsOf(lm, h) + [lm.encode(RowsOf(lm, h), t)]
    ensures NextOf(lm, h + [t]) == lm.next(RowsOf(lm, h), t)
  {
    assert (h + [t])[..|h + [t]| - 1] == h;
  }

  /** One batched forward of `toks` at positions pos.. : writes a row per token and
      returns the argmax of every position. What it writes and returns depends only
      on the rows below pos, never on rows at or above it. */
  method Forward<R>(lm: Lm<R>, kv: array<R>, toks: seq<nat>, pos: nat, ghost h: seq<nat>) returns (out: seq<nat>)
    requires pos + |toks| <= kv.Length
    requires |h| == pos && kv[..pos] == RowsOf(lm, h)
    modifies kv
    ensures kv[..pos + |toks|] == RowsOf(lm, h + toks)
    ensures kv[pos + |toks|..] == old(kv[pos + |toks|..])
    ensures |out| == |toks|
    ensures forall i :: 0 <= i < |toks| ==> out[i] == NextOf(lm, h + toks[..i + 1])
  {
    out := [];
    assert h + toks[..0] == h;
    for i := 0 to |toks|
      invariant |out| == i
      invariant kv[..pos + i] == RowsOf(lm, h + toks[..i])
      invariant kv[pos + |toks|..] == old(kv[pos + |toks|..])
      invariant forall j :: 0 <= j < i ==> out[j] == NextOf(lm, h + toks[..j + 1])
    {
      var below := kv[..pos + i];
      assert h + toks[..i + 1] == (h + toks[..i]) + [toks[i]];
      RowsOfPush(lm, h + toks[..i], toks[i]);
      kv[pos + i] := lm.encode(below, toks[i]);
      assert kv[..pos + i + 1] == below + [kv[pos + i]];
      out := out + [lm.next(below, toks[i])];
    }
    assert toks[..|toks|] == toks;
  }

  /** Greedy decoding one token at a time: the first n tokens after history h. */
  function Greedy<R>(lm: Lm<R>, h: seq<nat>, n: nat): (out: seq<nat>)
    requires h != []
    ensures |out| == n
    decreases n
  {
    if n == 0 then [] else
      var t := NextOf(lm, h);
      [t] + Greedy(lm, h + [t], n - 1)
  }

  /** next holds the model's token after h and after each further proposal. */
  ghost predicate Predicts<R>(lm: Lm<R>, h: seq<nat>, prop: seq<nat>, next: seq<nat>)
    decreases |prop|
  {
    && h != [] && |next| == |prop| + 1
    && next[0] == NextOf(lm, h)
    && (prop != [] ==> Predicts(lm, h + [prop[0]], prop[1..], next[1..]))
  }

  lemma TakeNext<R>(lm: Lm<R>, h: seq<nat>, prop: seq<nat>, next: seq<nat>, a: nat)
    requires a < |prop| < |next| && Predicts(lm, h, prop[a..], next[a..])
    ensures Predicts(lm, h + [prop[a]], prop[a + 1..], next[a + 1..])
    ensures next[a + 1] == NextOf(lm, h + [prop[a]])
    ensures (h + [prop[a]]) + prop[a + 1..] == h + prop[a..]
  {
    assert prop[a..][1..] == prop[a + 1..] && next[a..][1..] == next[a + 1..];
  }

  lemma {:induction false} ReadAhead<R>(lm: Lm<R>, base: seq<nat>, t: nat, prop: seq<nat>, next: seq<nat>)
    requires |next| == |prop| + 1
    requires forall i :: 0 <= i < |[t] + prop| ==> next[i] == NextOf(lm, base + ([t] + prop)[..i + 1])
    ensures Predicts(lm, base + [t], prop, next)
    decreases |prop|
  {
    assert ([t] + prop)[..1] == [t];
    if prop != [] {
      var t', rest := prop[0], prop[1..];
      forall i | 0 <= i < |[t'] + rest|
        ensures next[1..][i] == NextOf(lm, (base + [t]) + ([t'] + rest)[..i + 1])
      {
        assert base + ([t] + prop)[..i + 2] == (base + [t]) + ([t'] + rest)[..i + 1];
      }
      ReadAhead(lm, base + [t], t', rest, next[1..]);
    }
  }
}
