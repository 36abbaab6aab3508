/** Self-speculative greedy decoding (c/engines/glm.c, spec_decode at temperature 0):
    guessed tokens from any source are verified in one forward with the token just
    emitted; rows of rejected guesses stay in the cache above kv. */
module SpecDecode {
  import opened LanguageModel

  /** Greedy decoding after h: at most n tokens, ended before the first stop token. */
  function GreedyUntil<R>(lm: Lm<R>, stops: seq<nat>, h: seq<nat>, n: nat): (out: seq<nat>)
    requires h != []
    ensures |out| <= n
    decreases n
  {
    if n == 0 || NextOf(lm, h) in stops then [] else
      [NextOf(lm, h)] + GreedyUntil(lm, stops, h + [NextOf(lm, h)], n - 1)
  }

  /** GreedyUntil is the longest prefix of greedy decoding that has no stop token. */
  lemma {:induction false} GreedyUntilIsGreedy<R>(lm: Lm<R>, stops: seq<nat>, h: seq<nat>, n: nat)
    requires h != []
    ensures var out := GreedyUntil(lm, stops, h, n);
            && out <= Greedy(lm, h, n)
            && (forall t :: t in out ==> t !in stops)
            && (|out| < n ==> Greedy(lm, h, n)[|out|] in stops)
    decreases n
  {
    if n > 0 && NextOf(lm, h) !in stops {
      GreedyUntilIsGreedy(lm, stops, h + [NextOf(lm, h)], n - 1);
    }
  }

  /** `out` is what decoding n tokens after h0 emits first; the rest follows h0 + out. */
  predicate Emitted<R>(lm: Lm<R>, stops: seq<nat>, h0: seq<nat>, n: nat, out: seq<nat>) {
    && h0 != [] && |out| <= n
    && GreedyUntil(lm, stops, h0, n) == out + GreedyUntil(lm, stops, h0 + out, n - |out|)
  }

  lemma EmitOne<R>(lm: Lm<R>, stops: seq<nat>, h0: seq<nat>, n: nat, out: seq<nat>)
    requires Emitted(lm, stops, h0, n, out) && |out| < n && NextOf(lm, h0 + out) !in stops
    ensures Emitted(lm, stops, h0, n, out + [NextOf(lm, h0 + out)])
    ensures (h0 + out) + [NextOf(lm, h0 + out)] == h0 + (out + [NextOf(lm, h0 + out)])
  {
    var t := NextOf(lm, h0 + out);
    assert (h0 + out) + [t] == h0 + (out + [t]);
    var rest := GreedyUntil(lm, stops, (h0 + out) + [t], n - |out| - 1);
    assert out + ([t] + rest) == (out + [t]) + rest;
  }

  /** Record an emitted token at the end of the history. */
  method Record(all: array<nat>, at: nat, t: nat)
    requires at < all.Length
    modifies all
    ensures all[..at] == old(all[..at]) && all[..at + 1] == old(all[..at]) + [t]
  {
    all[at] := t;
  }

  /** How many drafts are kept: those the model agrees with, up to the first stop token. */
  function Kept<R>(lm: Lm<R>, stops: seq<nat>, h: seq<nat>, draft: seq<nat>): (k: nat)
    requires h != []
    ensures k <= |draft|
    decreases draft
  {
    if draft == [] || draft[0] != NextOf(lm, h) || draft[0] in stops then 0 else
      1 + Kept(lm, stops, h + [draft[0]], draft[1..])
  }

  /** Keep the drafts the model agrees with; `done` when the agreed one is a stop token. */
  method AcceptDrafts<R>(ghost lm: Lm<R>, stops: seq<nat>, all: array<nat>, kv: nat, draft: seq<nat>, lo: seq<nat>,
                         out0: seq<nat>, n: nat, ghost h0: seq<nat>) returns (k: nat, out: seq<nat>, done: bool)
    requires Emitted(lm, stops, h0, n, out0) && Predicts(lm, h0 + out0, draft, lo)
    requires kv + 1 == |h0 + out0| && kv + 1 + |draft| <= all.Length && all[..kv + 1] == h0 + out0
    modifies all
    ensures k <= |draft| && |out| == |out0| + k && h0 + out <= h0 + out0 + draft
    ensures all[..kv + 1 + k] == h0 + out && out0 <= out
    ensures Emitted(lm, stops, h0, n, out) && lo[k] == NextOf(lm, h0 + out)
    ensures done ==> NextOf(lm, h0 + out) in stops
    ensures |out0| + |draft| <= n ==> k == Kept(lm, stops, h0 + out0, draft)
  {
    k, out, done := 0, out0, false;
    assert draft[0..] == draft && lo[0..] == lo;
    while k < |draft| && |out| < n
      invariant k <= |draft| < |lo| && |out| == |out0| + k && out0 <= out
      invariant Predicts(lm, h0 + out, draft[k..], lo[k..]) && h0 + out + draft[k..] == h0 + out0 + draft
      invariant all[..kv + 1 + k] == h0 + out
      invariant Emitted(lm, stops, h0, n, out)
      invariant k + Kept(lm, stops, h0 + out, draft[k..]) == Kept(lm, stops, h0 + out0, draft)
    {
      if lo[k] != draft[k] { break; }
      if draft[k] in stops { done := true; break; }
      out := KeepOne(lm, stops, all, kv, draft, lo, out, k, n, h0);
      k := k + 1;
    }
  }

  /** Emit the k-th draft, with which the model agrees. */
  method KeepOne<R>(ghost lm: Lm<R>, stops: seq<nat>, all: array<nat>, kv: nat, draft: seq<nat>, ghost lo: seq<nat>,
                    out: seq<nat>, k: nat, n: nat, ghost h0: seq<nat>) returns (o: seq<nat>)
    requires k < |draft| < |lo| && |out| < n && lo[k] == draft[k] && draft[k] !in stops
    requires Emitted(lm, stops, h0, n, out) && Predicts(lm, h0 + out, draft[k..], lo[k..])
    requires kv + 1 + k == |h0 + out| < all.Length && all[..kv + 1 + k] == h0 + out
    modifies all
    ensures o == out + [draft[k]] && Emitted(lm, stops, h0, n, o) && Predicts(lm, h0 + o, draft[k + 1..], lo[k + 1..])
    ensures all[..kv + 2 + k] == h0 + o && h0 + o + draft[k + 1..] == h0 + out + draft[k..]
    ensures lo[k + 1] == NextOf(lm, h0 + o)
    ensures Kept(lm, stops, h0 + out, draft[k..]) == 1 + Kept(lm, stops, h0 + o, draft[k + 1..])
  {
    EmitOne(lm, stops, h0, n, out);
    TakeNext(lm, h0 + out, draft, lo, k);
    Record(all, kv + 1 + k, draft[k]);
    o := out + [draft[k]];
    assert draft[k..][1..] == draft[k + 1..];
  }

  /** The drafts of one round, clamped to the budget and to the cache. */
  function Clamp(g: nat, budget: nat, kv: nat, maxT: nat): (c: nat)
    ensures c <= g && c <= budget && (c > 0 ==> kv + c + 2 <= maxT)
  {
    var a := if g > budget then budget else g;
    var b := if kv + a + 2 > maxT then maxT - kv - 2 else a;
    if b < 0 then 0 else b
  }

  /** The forward of a round: rows for the token just emitted and all its drafts. */
  method Ahead<R>(lm: Lm<R>, rows: array<R>, t: nat, kv: nat, draft: seq<nat>, ghost h: seq<nat>,
                  ghost told: seq<nat>) returns (lo: seq<nat>)
    requires kv + 1 + |draft| <= rows.Length && |h| == kv && rows[..kv] == RowsOf(lm, h) && told == h + [t]
    modifies rows
    ensures Predicts(lm, told, draft, lo) && rows[..|told + draft|] == RowsOf(lm, told + draft)
  {
    lo := Forward(lm, rows, [t] + draft, kv, h);
    ReadAhead(lm, h, t, draft, lo);
    assert h + ([t] + draft) == told + draft;
  }

  lemma KeptPart(told: seq<nat>, draft: seq<nat>, k: nat, kept: seq<nat>)
    requires k <= |draft| && kept <= told + draft && |kept| == |told| + k
    ensures kept == told + draft[..k]
  {
    assert kept == (told + draft)[..|told| + k];
  }

  /** One forward over the token just emitted and its drafts, and what is kept of it. */
  method Round<R>(lm: Lm<R>, stops: seq<nat>, rows: array<R>, all: array<nat>, kv: nat, draft: seq<nat>,
                  out0: seq<nat>, n: nat, ghost h0: seq<nat>) returns (kv': nat, out: seq<nat>, next: nat, done: bool)
    requires rows as object != all && kv + 1 + |draft| <= rows.Length && kv + 1 + |draft| <= all.Length
    requires Emitted(lm, stops, h0, n, out0) && kv + 1 == |h0 + out0| && all[..kv + 1] == h0 + out0
    requires rows[..kv] == RowsOf(lm, all[..kv])
    modifies rows, all
    ensures kv' == |h0 + out| && kv < kv' <= all.Length && kv' <= rows.Length
    ensures out0 <= out && h0 + out <= h0 + out0 + draft
    ensures |out0| + |draft| <= n ==> h0 + out == h0 + out0 + draft[..Kept(lm, stops, h0 + out0, draft)]
    ensures all[..kv'] == h0 + out && rows[..kv'] == RowsOf(lm, h0 + out)
    ensures Emitted(lm, stops, h0, n, out) && next == NextOf(lm, h0 + out)
    ensures done ==> next in stops
  {
    var lo := Ahead(lm, rows, all[kv], kv, draft, all[..kv], h0 + out0);
    var k;
    k, out, done := AcceptDrafts(lm, stops, all, kv, draft, lo, out0, n, h0);
    kv', next := kv + 1 + k, lo[k];
    KeepPrefix(lm, rows, h0 + out0 + draft, h0 + out);
    KeptPart(h0 + out0, draft, k, h0 + out);
  }

  /** Whether decoding n tokens after h, from round i on, uses up its budget on a token
      emitted at the top of a round and not on a draft. */
  predicate EndsAtTop<R>(lm: Lm<R>, stops: seq<nat>, h: seq<nat>, n: nat, cap: nat, drafts: nat -> seq<nat>,
                         interrupted: nat -> bool, i: nat)
    requires h != []
    decreases n
  {
    if n == 0 || interrupted(i) || NextOf(lm, h) in stops then false
    else if n == 1 then true
    else
      var told := h + [NextOf(lm, h)];
      var draft := drafts(i)[..Clamp(|drafts(i)|, n - 1, |h|, cap)];
      var k := Kept(lm, stops, told, draft);
      EndsAtTop(lm, stops, told + draft[..k], n - 1 - k, cap, drafts, interrupted, i + 1)
  }

  /** The loop's state between two rounds: what is emitted is held, and the next token known. */
  ghost predicate Between<R>(lm: Lm<R>, stops: seq<nat>, rows: array<R>, all: array<nat>, kv: nat, n: nat,
                             h0: seq<nat>, out: seq<nat>, next: nat)
    reads rows, all
  {
    && h0 != [] && kv == |h0 + out| && kv <= rows.Length && kv <= all.Length
    && all[..kv] == h0 + out && rows[..kv] == RowsOf(lm, h0 + out)
    && Emitted(lm, stops, h0, n, out) && next == NextOf(lm, h0 + out)
  }

  /** A round takes h to h': the token on top, and the drafts kept of those that fit. */
  predicate Grows<R>(lm: Lm<R>, stops: seq<nat>, h: seq<nat>, n: int, cap: nat, draft: seq<nat>, h': seq<nat>) {
    && h != [] && n > 1
    && var told := h + [NextOf(lm, h)];
       var d := draft[..Clamp(|draft|, n - 1, |h|, cap)];
       h' == told + d[..Kept(lm, stops, told, d)]
  }

  /** The budget is used up by a token emitted at the top of a round: all is recorded, and
      all but that token is held. */
  ghost predicate Topped<R>(lm: Lm<R>, stops: seq<nat>, rows: array<R>, all: array<nat>, kv: nat, n: nat,
                            h0: seq<nat>, out: seq<nat>)
    reads rows, all
  {
    && h0 != [] && |out| == n > 0 && Emitted(lm, stops, h0, n, out)
    && kv + 1 == |h0 + out| <= all.Length && kv <= rows.Length
    && all[..kv + 1] == h0 + out && all[..kv] == h0 + out[..n - 1] && rows[..kv] == RowsOf(lm, all[..kv])
  }

  /** Emit the token on top of a round; if that leaves budget, forward it with its drafts. */
  method EmitAndVerify<R>(lm: Lm<R>, stops: seq<nat>, rows: array<R>, all: array<nat>, kv0: nat, draft: seq<nat>,
                          out0: seq<nat>, n: nat, next0: nat, ghost h0: seq<nat>)
    returns (kv: nat, out: seq<nat>, next: nat, done: bool, atTop: bool)
    requires rows as object != all && Between(lm, stops, rows, all, kv0, n, h0, out0, next0)
    requires |out0| < n && next0 !in stops && |h0| + n <= rows.Length && |h0| + n <= all.Length
    modifies rows, all
    ensures atTop <==> |out0| + 1 == n
    ensures |out0| < |out| <= n && (done ==> next in stops)
    ensures atTop ==> Topped(lm, stops, rows, all, kv, n, h0, out)
    ensures !atTop ==> Between(lm, stops, rows, all, kv, n, h0, out, next)
    ensures !atTop ==> Grows(lm, stops, h0 + out0, n - |out0|, rows.Length, draft, h0 + out)
  {
    EmitTop(lm, stops, rows, all, kv0, out0, n, next0, h0);
    kv, out, next, done, atTop := kv0, out0 + [next0], next0, false, false;
    if |out| >= n {
      atTop := true;
      assert out[..n - 1] == out0;
      return;
    }
    var g := Clamp(|draft|, n - |out|, kv, rows.Length);
    kv, out, next, done := Round(lm, stops, rows, all, kv, draft[..g], out, n, h0);
  }

  method EmitTop<R>(ghost lm: Lm<R>, ghost stops: seq<nat>, ghost rows: array<R>, all: array<nat>, kv: nat,
                    ghost out: seq<nat>, ghost n: nat, next: nat, ghost h0: seq<nat>)
    requires rows as object != all && Between(lm, stops, rows, all, kv, n, h0, out, next)
    requires |out| < n && next !in stops && kv < all.Length
    modifies all
    ensures Emitted(lm, stops, h0, n, out + [next]) && h0 + (out + [next]) == (h0 + out) + [next]
    ensures all[..kv + 1] == h0 + (out + [next]) && all[..kv] == h0 + out && rows[..kv] == RowsOf(lm, all[..kv])
  {
    EmitOne(lm, stops, h0, n, out);
    Record(all, kv, next);
  }

  lemma TopEnds<R>(lm: Lm<R>, stops: seq<nat>, h: seq<nat>, cap: nat, drafts: nat -> seq<nat>,
                   interrupted: nat -> bool, i: nat)
    requires h != [] && !interrupted(i) && NextOf(lm, h) !in stops
    ensures EndsAtTop(lm, stops, h, 1, cap, drafts, interrupted, i)
  {
  }

  lemma RoundEnds<R>(lm: Lm<R>, stops: seq<nat>, h: seq<nat>, n: nat, cap: nat, drafts: nat -> seq<nat>,
                     interrupted: nat -> bool, i: nat, h': seq<nat>, left: int)
    requires h != [] && !interrupted(i) && NextOf(lm, h) !in stops && Grows(lm, stops, h, n, cap, drafts(i), h')
    requires left == n - (|h'| - |h|)
    ensures left >= 0 && h' != []
    ensures EndsAtTop(lm, stops, h, n, cap, drafts, interrupted, i)
        == EndsAtTop(lm, stops, h', left, cap, drafts, interrupted, i + 1)
  {
  }

  /** One round either is the last, with its token on top, or leaves the question open. */
  lemma RoundDecides<R>(lm: Lm<R>, stops: seq<nat>, h0: seq<nat>, out0: seq<nat>, n: nat, cap: nat,
                        drafts: nat -> seq<nat>, interrupted: nat -> bool, i: nat, atTop: bool, out: seq<nat>)
    requires h0 != [] && |out0| < n && |out| <= n && !interrupted(i) && NextOf(lm, h0 + out0) !in stops
    requires atTop <==> |out0| + 1 == n
    requires !atTop ==> Grows(lm, stops, h0 + out0, n - |out0|, cap, drafts(i), h0 + out)
    ensures EndsAtTop(lm, stops, h0 + out0, n - |out0|, cap, drafts, interrupted, i)
         == (atTop || EndsAtTop(lm, stops, h0 + out, n - |out|, cap, drafts, interrupted, i + 1))
  {
    if atTop {
      TopEnds(lm, stops, h0 + out0, cap, drafts, interrupted, i);
    } else {
      RoundEnds(lm, stops, h0 + out0, n - |out0|, cap, drafts, interrupted, i, h0 + out, n - |out|);
    }
  }

  /** The i-th round. */
  method TakeRound<R>(lm: Lm<R>, stops: seq<nat>, rows: array<R>, all: array<nat>, kv0: nat, out0: seq<nat>, n: nat,
                      next0: nat,
                      drafts: nat -> seq<nat>, interrupted: nat -> bool, i: nat, ghost h0: seq<nat>)
    returns (kv: nat, out: seq<nat>, next: nat, done: bool, atTop: bool)
    requires rows as object != all && Between(lm, stops, rows, all, kv0, n, h0, out0, next0)
    requires |out0| < n && next0 !in stops && |h0| + n <= rows.Length && |h0| + n <= all.Length && !interrupted(i)
    modifies rows, all
    ensures |out0| < |out| <= n && (done ==> next in stops)
    ensures atTop ==> Topped(lm, stops, rows, all, kv, n, h0, out)
    ensures !atTop ==> Between(lm, stops, rows, all, kv, n, h0, out, next)
    ensures EndsAtTop(lm, stops, h0 + out0, n - |out0|, rows.Length, drafts, interrupted, i)
         == (atTop || EndsAtTop(lm, stops, h0 + out, n - |out|, rows.Length, drafts, interrupted, i + 1))
  {
    kv, out, next, done, atTop := EmitAndVerify(lm, stops, rows, all, kv0, drafts(i), out0, n, next0, h0);
    RoundDecides(lm, stops, h0, out0, n, rows.Length, drafts, interrupted, i, atTop, out);
  }

  /** spec_decode. `drafts(i)` is whatever the sources propose in the i-th round and
      `interrupted(i)` whether the user has asked to stop by then. `atTop`: the budget
      ran out on a token emitted at the top of a round, which is never fed. */
  method Decode<R>(lm: Lm<R>, stops: seq<nat>, rows: array<R>, all: array<nat>, kv0: nat, n: nat, first: nat,
                   drafts: nat -> seq<nat>, interrupted: nat -> bool)
    returns (kv: nat, out: seq<nat>, atTop: bool)
    requires rows as object != all && 0 < kv0 && kv0 + n <= rows.Length && kv0 + n <= all.Length
    requires rows[..kv0] == RowsOf(lm, all[..kv0]) && first == NextOf(lm, all[..kv0])
    modifies rows, all
    ensures out <= GreedyUntil(lm, stops, old(all[..kv0]), n)
    ensures (forall i :: !interrupted(i)) ==> out == GreedyUntil(lm, stops, old(all[..kv0]), n)
    ensures kv == kv0 + |out| - (if atTop then 1 else 0) && kv0 + |out| <= all.Length
    ensures atTop == EndsAtTop(lm, stops, old(all[..kv0]), n, rows.Length, drafts, interrupted, 0)
    ensures atTop ==> |out| == n > 0
    ensures all[..kv0 + |out|] == old(all[..kv0]) + out
    ensures kv <= rows.Length && rows[..kv] == RowsOf(lm, all[..kv])
  {
    ghost var h0 := all[..kv0];
    var next, done, i := first, false, 0;
    kv, out, atTop := kv0, [], false;
    assert h0 + [] == h0;
    ghost var ends := EndsAtTop(lm, stops, h0, n, rows.Length, drafts, interrupted, 0);
    while |out| < n && !done && !interrupted(i)
      invariant !atTop && Between(lm, stops, rows, all, kv, n, h0, out, next) && (done ==> next in stops)
      invariant ends == EndsAtTop(lm, stops, h0 + out, n - |out|, rows.Length, drafts, interrupted, i)
      decreases n - |out|
    {
      if next in stops { break; }
      kv, out, next, done, atTop := TakeRound(lm, stops, rows, all, kv, out, n, next, drafts, interrupted, i, h0);
      if atTop { break; }
      i := i + 1;
    }
    assert out + [] == out;
  }

  /** Decoding n tokens and then m more is decoding n + m. */
  lemma {:induction false} GreedyUntilSplits<R>(lm: Lm<R>, stops: seq<nat>, h: seq<nat>, n: nat, m: nat)
    requires h != []
    ensures GreedyUntil(lm, stops, h, n + m) == GreedyUntil(lm, stops, h, n)
        + GreedyUntil(lm, stops, h + GreedyUntil(lm, stops, h, n), m)
    decreases n
  {
    if n == 0 || NextOf(lm, h) in stops {
      assert h + [] == h;
    } else {
      var t := NextOf(lm, h);
      var rest := GreedyUntil(lm, stops, h + [t], n - 1);
      GreedyUntilSplits(lm, stops, h + [t], n - 1, m);
      assert (h + [t]) + rest == h + ([t] + rest);
      var more := GreedyUntil(lm, stops, h + ([t] + rest), m);
      assert [t] + (rest + more) == ([t] + rest) + more;
    }
  }

  /** Whatever has been emitted is greedy decoding of that many tokens. */
  lemma {:induction false} PrefixIsGreedyUntil<R>(lm: Lm<R>, stops: seq<nat>, h: seq<nat>, n: nat, out: seq<nat>)
    requires h != [] && out <= GreedyUntil(lm, stops, h, n)
    ensures out == GreedyUntil(lm, stops, h, |out|)
    decreases n
  {
    if out != [] {
      var rest := GreedyUntil(lm, stops, h + [NextOf(lm, h)], n - 1);
      assert out[1..] <= rest && out == [NextOf(lm, h)] + out[1..];
      PrefixIsGreedyUntil(lm, stops, h + [NextOf(lm, h)], n - 1, out[1..]);
    }
  }

  /** So a part of an answer and greedy decoding after it are one decode. */
  lemma TakenUpAgain<R>(lm: Lm<R>, stops: seq<nat>, h: seq<nat>, n: nat, held: seq<nat>, m: nat)
    requires h != [] && held <= GreedyUntil(lm, stops, h, n)
    ensures GreedyUntil(lm, stops, h, |held| + m) == held + GreedyUntil(lm, stops, h + held, m)
  {
    PrefixIsGreedyUntil(lm, stops, h, n, held);
    GreedyUntilSplits(lm, stops, h, |held|, m);
  }

  /** When the last token of a full answer is not held, what follows begins with it. */
  lemma LastAgain<R>(lm: Lm<R>, stops: seq<nat>, h: seq<nat>, n: nat, out: seq<nat>, m: nat)
    requires h != [] && out <= GreedyUntil(lm, stops, h, n) && |out| == n > 0 && m > 0
    ensures [out[n - 1]] <= GreedyUntil(lm, stops, h + out[..n - 1], m)
  {
    TakenUpAgain(lm, stops, h, n, out[..n - 1], 1);
    assert GreedyUntil(lm, stops, h + out[..n - 1], 1) == [out[n - 1]];
  }

  /** MORE: forward the last token held again, for its logits. */
  method Refresh<R>(lm: Lm<R>, rows: array<R>, all: array<nat>, kv: nat) returns (next: nat)
    requires 0 < kv <= rows.Length && kv <= all.Length && rows[..kv] == RowsOf(lm, all[..kv])
    modifies rows
    ensures rows[..kv] == RowsOf(lm, all[..kv]) && next == NextOf(lm, all[..kv])
  {
    ghost var below := all[..kv - 1];
    RowsOfPrefix(lm, all[..kv], kv - 1);
    assert all[..kv][..kv - 1] == below && rows[..kv][..kv - 1] == rows[..kv - 1];
    var lo := Forward(lm, rows, [all[kv - 1]], kv - 1, below);
    assert below + [all[kv - 1]] == all[..kv];
    assert [all[kv - 1]][..1] == [all[kv - 1]];
    next := lo[0];
  }

  /** Without drafts every full answer ends at the top of a round. */
  lemma {:induction false} PlainEndsAtTop<R>(lm: Lm<R>, stops: seq<nat>, h: seq<nat>, n: nat, cap: nat,
                                             drafts: nat -> seq<nat>, interrupted: nat -> bool, i: nat)
    requires h != [] && forall r :: drafts(r) == [] && !interrupted(r)
    ensures EndsAtTop(lm, stops, h, n, cap, drafts, interrupted, i) <==> |GreedyUntil(lm, stops, h, n)| == n > 0
    decreases n
  {
    if n > 1 && NextOf(lm, h) !in stops {
      var told := h + [NextOf(lm, h)];
      assert drafts(i)[..Clamp(|drafts(i)|, n - 1, |h|, cap)] == [] && told + [] == told;
      PlainEndsAtTop(lm, stops, told, n - 1, cap, drafts, interrupted, i + 1);
    }
  }

  /** What the KV has of an answer. */
  function Held(out: seq<nat>, unheld: bool): seq<nat> {
    if unheld && out != [] then out[..|out| - 1] else out
  }

  lemma HeldInFront(all: seq<nat>, h: seq<nat>, out: seq<nat>, unheld: bool)
    requires h + out <= all
    ensures all[..|h + Held(out, unheld)|] == h + Held(out, unheld)
  {
  }

  /** What an answer of budget n and its continuation with budget m are together: one longer
      decode, or as much of it as was sent when the continuation was interrupted; but if the
      answer's last token is not held, only without that token, which is sent again. */
  ghost predicate Joined<R>(lm: Lm<R>, stops: seq<nat>, h: seq<nat>, n: nat, m: nat, out: seq<nat>, unheld: bool,
                            more: seq<nat>, cut: bool)
    requires h != []
  {
    var held := Held(out, unheld);
    && out <= GreedyUntil(lm, stops, h, n) && (unheld ==> |out| == n > 0)
    && held + more <= GreedyUntil(lm, stops, h, |held| + m)
    && (!cut ==> held + more == GreedyUntil(lm, stops, h, |held| + m))
    && (unheld && more != [] ==> more[0] == out[n - 1])
    && (unheld && !cut && m > 0 ==> more != [])
  }

  lemma JoinedFrom<R>(lm: Lm<R>, stops: seq<nat>, h: seq<nat>, n: nat, m: nat, out: seq<nat>, unheld: bool,
                      more: seq<nat>, cut: bool)
    requires h != [] && out <= GreedyUntil(lm, stops, h, n) && (unheld ==> |out| == n > 0)
    requires var rest := GreedyUntil(lm, stops, h + Held(out, unheld), m);
             more <= rest && (!cut ==> more == rest)
    ensures Joined(lm, stops, h, n, m, out, unheld, more, cut)
  {
    TakenUpAgain(lm, stops, h, n, Held(out, unheld), m);
    if unheld && m > 0 { LastAgain(lm, stops, h, n, out, m); }
  }

  /** An answer, interrupted or not, and its continuation by MORE, which forwards the last
      token held again to have its logits back. The answer's last token is not held when
      it used up the budget at the top of a round. */
  method AnswerThenMore<R>(lm: Lm<R>, stops: seq<nat>, rows: array<R>, all: array<nat>, kv0: nat, n: nat, m: nat,
                           first: nat, drafts: nat -> seq<nat>, interrupted: nat -> bool,
                           drafts': nat -> seq<nat>, interrupted': nat -> bool)
    returns (out: seq<nat>, more: seq<nat>)
    requires rows as object != all && 0 < kv0 && kv0 + n + m <= rows.Length && kv0 + n + m <= all.Length
    requires rows[..kv0] == RowsOf(lm, all[..kv0]) && first == NextOf(lm, all[..kv0])
    modifies rows, all
    ensures (forall i :: !interrupted(i)) ==> out == GreedyUntil(lm, stops, old(all[..kv0]), n)
    ensures var unheld := EndsAtTop(lm, stops, old(all[..kv0]), n, rows.Length, drafts, interrupted, 0);
            Joined(lm, stops, old(all[..kv0]), n, m, out, unheld, more, exists i :: interrupted'(i))
  {
    ghost var h := all[..kv0];
    var kv, unheld;
    kv, out, unheld := Decode(lm, stops, rows, all, kv0, n, first, drafts, interrupted);
    var next := Refresh(lm, rows, all, kv);
    HeldInFront(all[..], h, out, unheld);
    assert all[..kv] == h + Held(out, unheld);
    var kv', top;
    kv', more, top := Decode(lm, stops, rows, all, kv, m, next, drafts', interrupted');
    JoinedFrom(lm, stops, h, n, m, out, unheld, more, exists i :: interrupted'(i));
  }

  /** Nothing interrupted and the last token held: the two budgets are as good as one. */
  lemma JoinedIsOne<R>(lm: Lm<R>, stops: seq<nat>, h: seq<nat>, n: nat, m: nat, more: seq<nat>)
    requires h != [] && Joined(lm, stops, h, n, m, GreedyUntil(lm, stops, h, n), false, more, false)
    ensures GreedyUntil(lm, stops, h, n) + more == GreedyUntil(lm, stops, h, n + m)
  {
    var out := GreedyUntil(lm, stops, h, n);
    TakenUpAgain(lm, stops, h, n, out, m);
    GreedyUntilSplits(lm, stops, h, n, m);
  }
}
