/** The library's generation call (c/api/api.c): prompt prefill in chunks, the
    one-token decode loop, lookahead decoding of proposals taken from a draft, the
    sticky abort flag, and failures that jump out of an engine operation. */
module Generate {
  import opened LanguageModel
  import opened Wrappers

  /** How a call ends. Beyond is not a status of the library: it marks a run that reaches
      for a position outside the context, after which nothing is promised. */
  datatype Status = Ok | ErrArg | ErrContext | ErrAborted | ErrFailed | Beyond

  datatype Stop = Length | Eos | Callback | Abort

  const INT_MAX := 0x7FFF_FFFF

  type int32 = x: int | -0x8000_0000 <= x <= 0x7FFF_FFFF

  /** 32-bit arithmetic: a sum as the machine keeps it. */
  function Wrap32(x: int): int32 {
    (x + 0x8000_0000) % 0x1_0000_0000 - 0x8000_0000
  }

  datatype Sampling = Sampling(greedy: bool, ignoreEos: bool, maxNew: int32, draft: seq<nat>, draftK: int32)

  /** What the world outside decides during one call: the k-th reading of the abort
      flag, whether the k-th engine operation fails and after how many rows, whether
      the engine declines the k-th verification, the k-th sampled token, and the
      caller's callback (told every token so far, true to stop). */
  datatype World = World(
    aborted: nat -> bool,
    fails: nat -> bool,
    torn: nat -> nat,
    declines: nat -> bool,
    sample: nat -> nat,
    callback: seq<nat> -> bool)

  /** What decides the answer: the model, its stop tokens, the budget, the callback. */
  datatype Rules<!R> = Rules(lm: Lm<R>, stops: seq<nat>, ignoreEos: bool, maxNew: int, callback: seq<nat> -> bool)

  /** Why generation stops once the last token of `out` is emitted, if it does. */
  function StopAfter<R>(g: Rules<R>, out: seq<nat>): Option<Stop>
    requires out != []
  {
    if g.callback(out) then Some(Callback)
    else if !g.ignoreEos && out[|out| - 1] in g.stops then Some(Eos)
    else if |out| >= g.maxNew then Some(Length)
    else None
  }

  /** An answer that came to its end, and was not cut short by the abort flag. */
  predicate Whole(out: seq<nat>, stop: Stop, maxNew: int) {
    out != [] && (stop != Length || |out| == maxNew)
  }

  /** How a decode ends: tokens emitted, reason, tokens held by the KV, pending token. */
  datatype Decoded = Decoded(out: seq<nat>, stop: Stop, fed: seq<nat>, pending: int)

  /** The one-step-per-token loop: emit t, stop or feed it and take the next argmax. */
  function PlainDecode<R>(g: Rules<R>, fed: seq<nat>, t: nat, out: seq<nat>): Decoded
    requires |out| < g.maxNew
    decreases g.maxNew - |out|
  {
    var o := out + [t];
    match StopAfter(g, o)
    case Some(stop) => Decoded(o, stop, fed, t)
    case None => PlainDecode(g, fed + [t], NextOf(g.lm, fed + [t]), o)
  }

  /** d emitted the greedy tokens after `fed` on top of `out`, up to the first that stops. */
  ghost predicate GreedyCut<R>(g: Rules<R>, fed: seq<nat>, out: seq<nat>, d: Decoded)
    requires fed != []
  {
    && |out| < |d.out| <= g.maxNew
    && d.out == out + Greedy(g.lm, fed, |d.out| - |out|)
    && d.fed == fed + d.out[|out|..|d.out| - 1]
    && d.pending == d.out[|d.out| - 1]
    && StopAfter(g, d.out) == Some(d.stop)
    && forall k :: |out| < k < |d.out| ==> StopAfter(g, d.out[..k]).None?
  }

  lemma GreedyCutStep<R>(g: Rules<R>, fed: seq<nat>, out: seq<nat>, d: Decoded)
    requires fed != []
    requires var o := out + [NextOf(g.lm, fed)];
             StopAfter(g, o).None? && GreedyCut(g, fed + [NextOf(g.lm, fed)], o, d)
    ensures GreedyCut(g, fed, out, d)
  {
    var t, n := NextOf(g.lm, fed), |d.out| - |out|;
    assert Greedy(g.lm, fed, n) == [t] + Greedy(g.lm, fed + [t], n - 1);
    Regroup(out, t, Greedy(g.lm, fed + [t], n - 1), fed, d.out);
  }

  lemma Regroup(out: seq<nat>, t: nat, rest: seq<nat>, fed: seq<nat>, all: seq<nat>)
    requires all == (out + [t]) + rest && rest != []
    ensures all == out + ([t] + rest) && all[..|out| + 1] == out + [t]
    ensures (fed + [t]) + all[|out| + 1..|all| - 1] == fed + all[|out|..|all| - 1]
  {
    assert all[|out|..|all| - 1] == [t] + all[|out| + 1..|all| - 1];
  }

  /** PlainDecode is greedy decoding cut at the first token that stops it. */
  lemma {:induction false} PlainDecodeIsGreedy<R>(
    g: Rules<R>, fed: seq<nat>, out: seq<nat>)
    requires |out| < g.maxNew && fed != []
    ensures GreedyCut(g, fed, out, PlainDecode(g, fed, NextOf(g.lm, fed), out))
    decreases g.maxNew - |out|
  {
    var t := NextOf(g.lm, fed);
    var o := out + [t];
    if StopAfter(g, o).Some? {
      assert Greedy(g.lm, fed, 1) == [t] + Greedy(g.lm, fed + [t], 0);
    } else {
      PlainDecodeIsGreedy(g, fed + [t], o);
      GreedyCutStep(g, fed, out, PlainDecode(g, fed, t, out));
    }
  }

  lemma {:induction false} PlainIsWhole<R>(g: Rules<R>, fed: seq<nat>, t: nat, out: seq<nat>)
    requires |out| < g.maxNew
    ensures var d := PlainDecode(g, fed, t, out); Whole(d.out, d.stop, g.maxNew)
    decreases g.maxNew - |out|
  {
    if StopAfter(g, out + [t]).None? {
      PlainIsWhole(g, fed + [t], NextOf(g.lm, fed + [t]), out + [t]);
    }
  }

  /** How the prefill of np tokens goes from its j-th chunk on: every chunk is fed, or
      an engine operation fails, or the flag is seen up between two chunks (by the
      given reading of it). */
  datatype Fate = Fed | Fell | CutBy(look: nat)

  function PrefillFate(w: World, np: nat, c: nat, j: nat): Fate
    requires c > 0
    decreases np
  {
    if w.fails(j) then Fell
    else if np <= c then Fed
    else if w.aborted(1 + j) then CutBy(1 + j)
    else PrefillFate(w, np - c, c, j + 1)
  }

  lemma FateStep(w: World, np: nat, c: nat, j: nat)
    requires c > 0
    ensures w.fails(j) ==> PrefillFate(w, np, c, j) == Fell
    ensures !w.fails(j) && np <= c ==> PrefillFate(w, np, c, j) == Fed
    ensures !w.fails(j) && np > c && w.aborted(1 + j) ==> PrefillFate(w, np, c, j) == CutBy(1 + j)
    ensures !w.fails(j) && np > c && !w.aborted(1 + j) ==> PrefillFate(w, np, c, j) == PrefillFate(w, np - c, c, j + 1)
  {
  }

  function ChunkOf(np: nat, chunk: int): (c: nat)
    requires np > 0
    ensures c > 0
  {
    if chunk <= 0 then np else chunk
  }

  /** The call reports success although its prefill was cut: the flag was seen up
      between two chunks and found cleared at the end of the same call. */
  predicate Lost(w: World, np: nat, chunk: int) {
    np > 0 &&
    var fate := PrefillFate(w, np, ChunkOf(np, chunk), 0);
    fate.CutBy? && !w.aborted(fate.look + 1)
  }

  /** Once raised, the flag stays raised for the rest of the call. */
  ghost predicate Sticky(w: World) {
    forall i: nat, j: nat :: i <= j && w.aborted(i) ==> w.aborted(j)
  }

  lemma {:induction false} CutBySawTheFlag(w: World, np: nat, c: nat, j: nat)
    requires c > 0
    ensures var fate := PrefillFate(w, np, c, j);
            (fate.CutBy? ==> w.aborted(fate.look)) && (fate.Fell? ==> exists i :: w.fails(i))
    decreases np
  {
    if !w.fails(j) && np > c && !w.aborted(1 + j) {
      CutBySawTheFlag(w, np - c, c, j + 1);
    }
  }

  lemma StickyNeverLoses(w: World, np: nat, chunk: int)
    requires np > 0 && Sticky(w)
    ensures !Lost(w, np, chunk)
  {
    CutBySawTheFlag(w, np, ChunkOf(np, chunk), 0);
  }

  /** What a call feeds: the previous answer's last token goes first. */
  function Prompt(pending: int, ids: seq<int>): (p: seq<nat>)
    requires pending >= -1 && forall i :: 0 <= i < |ids| ==> ids[i] >= 0
    ensures |p| == PromptLength(pending, ids)
  {
    (if pending >= 0 then [pending] else []) + ids
  }

  function PromptLength(pending: int, ids: seq<int>): nat {
    |ids| + if pending >= 0 then 1 else 0
  }

  /** A history of token ids, after which a greedy call asks for tokens. */
  predicate Asks(h: seq<int>, s: Sampling) {
    h != [] && (forall i :: 0 <= i < |h| ==> h[i] >= 0) && s.greedy && s.maxNew > 0
  }

  /** The answer of the one-step-per-token loop. */
  function PlainAnswer<R>(lm: Lm<R>, stops: seq<nat>, h: seq<nat>, s: Sampling, w: World): Decoded
    requires Asks(h, s)
  {
    PlainDecode(Rules(lm, stops, s.ignoreEos, s.maxNew, w.callback), h, NextOf(lm, h), [])
  }

  datatype Prefilled = Picked(token: nat) | Cut | Failed | Outside

  /** A prefill that stayed in the context ended as its fate has it. */
  predicate Meets(r: Prefilled, looks: nat, fate: Fate) {
    match r
    case Outside => true
    case Picked(_) => fate.Fed?
    case Failed => fate.Fell?
    case Cut => fate.CutBy? && looks == fate.look + 1
  }

  /** How a step of decoding ends: done, thrown out of, or outside the context. */
  datatype Went = Well | Threw | Over

  /** The argument, abort and context checks of a call, in order, for a conversation of
      `held` tokens of which one may be pending. The context check adds in 32 bits. */
  function Check(held: nat, pending: bool, vocab: nat, ctx: nat, ids: seq<int>, s: Sampling, w: World): Status {
    if s.maxNew < 0 || s.draftK < 0 then ErrArg
    else if exists i :: 0 <= i < |ids| && (ids[i] < 0 || ids[i] >= vocab) then ErrArg
    else if w.aborted(0) then ErrAborted
    else if |ids| == 0 && !pending then ErrArg
    else if Wrap32(held + |ids| + s.maxNew) > ctx then ErrContext
    else Ok
  }

  /** A call that is let through fits the context exactly when conversation, prompt and
      budget together do not exceed the largest int. */
  lemma LetThroughFits(held: nat, pending: bool, vocab: nat, ctx: nat, ids: seq<int>, s: Sampling, w: World)
    requires ctx <= INT_MAX && Check(held, pending, vocab, ctx, ids, s, w) == Ok
    ensures held + |ids| + s.maxNew <= ctx <==> held + |ids| + s.maxNew <= INT_MAX
  {
  }

  /** One that does not: the largest budget, in any context, on top of anything. */
  lemma LargestBudgetIsLetThrough(held: nat, vocab: nat, ctx: nat, ids: seq<int>, s: Sampling, w: World)
    requires held <= ctx <= INT_MAX && 0 < |ids| <= INT_MAX && s.maxNew == INT_MAX && s.draftK >= 0 && !w.aborted(0)
    requires forall i :: 0 <= i < |ids| ==> 0 <= ids[i] < vocab
    ensures Check(held, false, vocab, ctx, ids, s, w) == Ok && held + |ids| + s.maxNew > ctx
  {
  }

  class MotyModel<R> {
    const lm: Lm<R>
    const vocab: nat
    const stops: seq<nat>
    const chunk: int
    const canVerify: bool
    const kv: array<R>             // the context: kv.Length positions
    var nPast: nat
    var pending: int               // last sampled token, not yet in the KV (-1: none)
    ghost var fed: seq<nat>        // the tokens whose rows the KV holds

    constructor (lm: Lm<R>, vocab: nat, stops: seq<nat>, chunk: int, canVerify: bool, kv: array<R>)
      requires kv.Length <= INT_MAX
      ensures Valid() && Conversation() == [] && pending == -1 && nPast == 0
      ensures this.kv == kv && this.lm == lm && this.chunk == chunk && this.vocab == vocab && this.stops == stops
    {
      this.lm, this.vocab, this.stops, this.chunk, this.canVerify := lm, vocab, stops, chunk, canVerify;
      this.kv := kv;
      nPast, pending, fed := 0, -1, [];
    }

    /** The rows of `fed` are in the KV. */
    ghost predicate Holds()
      reads this, kv
    {
      |fed| <= kv.Length && kv[..|fed|] == RowsOf(lm, fed)
    }

    /** n_past counts exactly those rows. */
    ghost predicate Valid()
      reads this, kv
    {
      Holds() && nPast == |fed| && pending >= -1 && kv.Length <= INT_MAX
    }

    /** Every token of the conversation: those in the KV, then the pending one. */
    ghost function Conversation(): seq<nat>
      reads this
    {
      if pending >= 0 then fed + [pending] else fed
    }

    /** moty_reset: forget the conversation. */
    method Reset()
      requires kv.Length <= INT_MAX
      modifies this`nPast, this`pending, this`fed
      ensures Valid() && Conversation() == [] && nPast == 0 && pending == -1 && fed == []
    {
      nPast, pending, fed := 0, -1, [];
    }

    /** One engine forward on top of the rows of `fed`; a failing one jumps out after
        having written some of its rows. */
    method Engine(toks: seq<nat>, pos: nat, w: World, op: nat) returns (ok: bool, next: seq<nat>)
      requires Holds() && pos == |fed| && pos + |toks| <= kv.Length
      modifies kv
      ensures Holds()
      ensures ok == !w.fails(op)
      ensures ok ==> kv[..|fed| + |toks|] == RowsOf(lm, fed + toks)
      ensures ok ==> |next| == |toks| && forall i :: 0 <= i < |toks| ==> next[i] == NextOf(lm, fed + toks[..i + 1])
    {
      ok := !w.fails(op);
      var n := if ok then |toks| else if w.torn(op) < |toks| then w.torn(op) else |toks|;
      assert toks[..|toks|] == toks;
      next := Forward(lm, kv, toks[..n], pos, fed);
      RowsOfPrefix(lm, fed + toks[..n], |fed|);
      assert (fed + toks[..n])[..|fed|] == fed;
      assert kv[..|fed|] == kv[..|fed| + n][..|fed|];
    }

    /** Feed one chunk of the prompt; next is the token the model expects after it. */
    method FeedChunk(prompt: seq<nat>, done: nat, n: nat, w: World, op: nat, ghost base: seq<nat>)
      returns (ok: bool, next: nat)
      requires 0 < n && done + n <= |prompt|
      requires Holds() && fed == base + prompt[..done] && nPast == |base| && nPast + done + n <= kv.Length
      modifies kv, this`fed
      ensures Holds() && ok == !w.fails(op)
      ensures fed == if ok then base + prompt[..done + n] else old(fed)
      ensures ok ==> next == NextOf(lm, fed)
      ensures ok && done + n == |prompt| ==> fed == base + prompt
    {
      assert prompt[..|prompt|] == prompt;
      var all;
      ok, all := Engine(prompt[done..done + n], nPast + done, w, op);
      next := 0;
      if !ok { return; }
      TakeChunk(base, prompt, done, n);
      fed := fed + prompt[done..done + n];
      next := all[n - 1];
    }

    /** Feed the prompt at n_past in chunks, reading the abort flag between chunks. */
    method Prefill(prompt: seq<nat>, greedy: bool, w: World) returns (r: Prefilled, looks: nat, ops: nat)
      requires Valid() && prompt != []
      modifies kv, this`fed
      ensures Holds()
      ensures r.Picked? ==> fed == old(fed) + prompt
      ensures r.Picked? && greedy ==> r.token == NextOf(lm, fed)
      ensures r.Cut? ==> |fed| < |old(fed)| + |prompt|
      ensures r.Outside? ==> nPast + |prompt| > kv.Length
      ensures Meets(r, looks, PrefillFate(w, |prompt|, ChunkOf(|prompt|, chunk), 0))
    {
      var c := ChunkOf(|prompt|, chunk);
      ghost var base, fate, left := fed, PrefillFate(w, |prompt|, c, 0), |prompt|;
      var done := 0;
      ops := 0;
      assert base + prompt[..0] == base;
      while true
        invariant Holds() && 0 <= done < |prompt| && fed == base + prompt[..done] && nPast == |base|
        invariant left == |prompt| - done && fate == PrefillFate(w, left, c, ops)
        decreases left
      {
        var n := if |prompt| - done < c then |prompt| - done else c;
        if nPast + done + n > kv.Length { return Outside, 1 + ops, ops; }
        FateStep(w, left, c, ops);
        var ok, next := FeedChunk(prompt, done, n, w, ops, base);
        if !ok { return Failed, 1 + ops, ops; }
        done, ops, left := done + n, ops + 1, left - n;
        if done == |prompt| { return Picked(if greedy then next else w.sample(0)), ops, ops; }
        if w.aborted(ops) { return Cut, 1 + ops, ops; }
      }
    }

    /** emit_tok: count the token, make it pending, ask why to stop. */
    method Emit(out: seq<nat>, t: nat, g: Rules<R>) returns (o: seq<nat>, why: Option<Stop>)
      modifies this`pending
      ensures o == out + [t] && pending == t && why == StopAfter(g, o)
    {
      o := out + [t];
      pending := t;
      why := StopAfter(g, o);
    }

    /** The proposals of one step: what follows, in the draft, the first occurrence of
        the longest suffix (at most 3 tokens) of the answer that occurs in it. */
    method Propose(gen: seq<nat>, draft: seq<nat>, draftK: int, budget: nat) returns (prop: seq<nat>)
      ensures |prop| <= Width(draftK, budget)
      ensures Width(draftK, budget) > 0 && prop == [] ==> forall len, j :: !Follows(gen, draft, len, j)
      ensures prop != [] ==>
        exists len, j :: Longest(gen, draft, len, j) && prop == After(draft, j + len, Width(draftK, budget))
    {
      prop := [];
      var kmax := Width(draftK, budget);
      var len := if |gen| < 3 then |gen| else 3;
      while len > 0 && prop == []
        invariant 0 <= len <= |gen| && len <= 3
        invariant prop == [] && kmax > 0 ==> forall l, j :: l > len ==> !Follows(gen, draft, l, j)
        invariant prop != [] ==> exists l, j :: Longest(gen, draft, l, j) && prop == After(draft, j + l, kmax)
      {
        var j := 0;
        while j + len < |draft| && prop == []
          invariant 0 <= j
          invariant prop == [] && kmax > 0 ==> forall i :: i < j ==> !Follows(gen, draft, len, i)
          invariant prop != [] ==> exists l, i :: Longest(gen, draft, l, i) && prop == After(draft, i + l, kmax)
          decreases |draft| - j
        {
          if draft[j..j + len] == gen[|gen| - len..] {
            while |prop| < kmax && j + len + |prop| < |draft|
              invariant |prop| <= kmax && j + len + |prop| <= |draft|
              invariant prop == draft[j + len..j + len + |prop|]
            {
              prop := prop + [draft[j + len + |prop|]];
            }
            assert kmax > 0 ==> Longest(gen, draft, len, j);
            assert prop == After(draft, j + len, kmax);
          }
          j := j + 1;
        }
        len := len - 1;
      }
    }

    /** Emit a token the KV already holds a row for and, unless it stops generation,
        count that row. */
    method EmitHeld(y: nat, out0: seq<nat>, g: Rules<R>, ghost fed0: seq<nat>, ghost target: Decoded)
      returns (out: seq<nat>, why: Option<Stop>)
      requires g.lm == lm && pending == -1 && fed == fed0 + out0
      requires OnTrack(g, fed, y, out0, target)
      modifies this`fed, this`nPast, this`pending
      ensures nPast - |fed| == old(nPast - |fed|) && |out| > |out0|
      ensures fed == if why.None? then old(fed) + [y] else old(fed)
      ensures Ended(out, why, fed0, g, NextOf(lm, old(fed) + [y]), target)
    {
      TrackStep(g, fed, y, out0, target);
      out, why := Emit(out0, y, g);
      if why.None? {
        nPast, pending := nPast + 1, -1;
        fed := fed + [y];
      }
    }

    /** Keep the proposals the model itself predicts, emitting each. */
    method Accept(prop: seq<nat>, next: seq<nat>, out0: seq<nat>, g: Rules<R>,
                  ghost fed0: seq<nat>, ghost all: seq<nat>, ghost target: Decoded)
      returns (a: nat, out: seq<nat>, why: Option<Stop>)
      requires g.lm == lm && Predicts(lm, fed, prop, next) && all == fed + prop
      requires Ended(out0, None, fed0, g, NextOf(lm, fed), target)
      modifies this`fed, this`nPast, this`pending
      ensures a <= |prop| && fed <= all && nPast - |fed| == old(nPast - |fed|)
      ensures |out| >= |out0| && Ended(out, why, fed0, g, next[a], target)
    {
      a, out, why := 0, out0, None;
      assert prop[0..] == prop && next[0..] == next;
      while a < |prop|
        invariant a <= |prop| < |next| && nPast - |fed| == old(nPast - |fed|)
        invariant why.None? && |out| >= |out0| && InStep(prop, next, a, out, g, fed0, all, target)
      {
        if next[a] != prop[a] { break; }
        out, why := AcceptOne(prop, next, a, out, g, fed0, all, target);
        if why.Some? { return; }
        a := a + 1;
      }
    }

    /** The first a proposals are accepted, and the model predicts the rest in turn. */
    ghost predicate InStep(prop: seq<nat>, next: seq<nat>, a: nat, out: seq<nat>, g: Rules<R>, fed0: seq<nat>,
                           all: seq<nat>, target: Decoded)
      reads this
    {
      && a <= |prop| < |next| && fed + prop[a..] == all
      && Predicts(lm, fed, prop[a..], next[a..]) && Ended(out, None, fed0, g, next[a], target)
    }

    /** Emit the a-th proposal, which the model predicts. */
    method AcceptOne(prop: seq<nat>, next: seq<nat>, a: nat, out0: seq<nat>, g: Rules<R>,
                     ghost fed0: seq<nat>, ghost all: seq<nat>, ghost target: Decoded)
      returns (out: seq<nat>, why: Option<Stop>)
      requires g.lm == lm && a < |prop| < |next| && next[a] == prop[a]
          && InStep(prop, next, a, out0, g, fed0, all, target)
      modifies this`fed, this`nPast, this`pending
      ensures nPast - |fed| == old(nPast - |fed|) && |out| >= |out0| && fed <= all
      ensures if why.None? then InStep(prop, next, a + 1, out, g, fed0, all, target)
          else Ended(out, why, fed0, g, next[a], target)
    {
      TakeNext(lm, fed, prop, next, a);
      out, why := EmitHeld(next[a], out0, g, fed0, target);
    }

    /** Either generation ended for reason `why`, as `target` says, or token t is next. */
    ghost predicate Ended(out: seq<nat>, why: Option<Stop>, fed0: seq<nat>, g: Rules<R>, t: nat, target: Decoded)
      reads this
    {
      match why
      case Some(stop) => pending >= 0 && Conversation() == fed0 + out && Decoded(out, stop, fed, pending) == target
      case None => pending == -1 && fed == fed0 + out && OnTrack(g, fed, t, out, target)
    }

    /** Feed t and the proposals in one forward; t now counts as held. */
    method FeedAhead(t: nat, prop: seq<nat>, w: World, op: nat) returns (ok: bool, next: seq<nat>)
      requires Valid() && nPast + 1 + |prop| <= kv.Length
      modifies kv, this`fed, this`nPast, this`pending
      ensures ok == !w.fails(op) && (!ok ==> Holds())
      ensures ok ==> fed == old(fed) + [t] && nPast == |fed| && pending == -1
      ensures ok ==> Predicts(lm, fed, prop, next)
      ensures ok ==> |fed + prop| <= kv.Length && kv[..|fed + prop|] == RowsOf(lm, fed + prop)
    {
      ok, next := Engine([t] + prop, nPast, w, op);
      if !ok { return; }
      ReadAhead(lm, fed, t, prop, next);
      assert fed + ([t] + prop) == (fed + [t]) + prop;
      nPast, pending := nPast + 1, -1;
      fed := fed + [t];
    }

    /** Feed t and the proposals in one forward, then keep what the model agrees with. */
    method Verify(t: nat, prop: seq<nat>, out0: seq<nat>, g: Rules<R>, w: World, op: nat, ghost fed0: seq<nat>,
                  ghost target: Decoded)
      returns (ok: bool, out: seq<nat>, why: Option<Stop>, t': nat)
      requires g.lm == lm && Valid() && nPast + 1 + |prop| <= kv.Length && fed + [t] == fed0 + out0
      requires OnTrack(g, fed + [t], NextOf(lm, fed + [t]), out0, target)
      modifies kv, this`fed, this`nPast, this`pending
      ensures Holds() && ok == !w.fails(op)
      ensures ok ==> Valid() && |out| >= |out0| && Ended(out, why, fed0, g, t', target)
      ensures !ok ==> out == out0
    {
      out, why, t' := out0, None, t;
      var next;
      ok, next := FeedAhead(t, prop, w, op);
      if !ok { return; }
      ghost var all := fed + prop;
      var a;
      a, out, why := Accept(prop, next, out0, g, fed0, all, target);
      KeepPrefix(lm, kv, all, fed);
      t' := next[a];
    }

    /** Feed t alone and pick the next token. */
    method Step(t: nat, greedy: bool, sampled: nat, w: World, op: nat) returns (ok: bool, t': nat)
      requires Valid() && nPast < kv.Length
      modifies kv, this`fed, this`nPast, this`pending
      ensures Holds() && ok == !w.fails(op)
      ensures ok ==> Valid() && pending == -1 && fed == old(fed) + [t]
      ensures ok && greedy ==> t' == NextOf(lm, fed)
    {
      t' := t;
      var next;
      ok, next := Engine([t], nPast, w, op);
      if !ok { return; }
      assert [t][..1] == [t];
      nPast, pending := nPast + 1, -1;
      fed := fed + [t];
      t' := if greedy then next[0] else sampled;
    }

    /** Feed the emitted token t: ahead with proposals if there are any and the engine can
        verify them, else alone. */
    method FeedNext(t: nat, out0: seq<nat>, s: Sampling, g: Rules<R>, w: World, op: nat, picks: nat,
                    ghost fed0: seq<nat>, ghost target: Decoded)
      returns (r: Went, out: seq<nat>, why: Option<Stop>, t': nat, picks': nat)
      requires Valid() && g.lm == lm && g.maxNew == s.maxNew && 0 < |out0| < s.maxNew
      requires fed + [t] == fed0 + out0 && fed0 != []
      requires s.greedy ==> OnTrack(g, fed + [t], NextOf(lm, fed + [t]), out0, target)
      modifies kv, this`fed, this`nPast, this`pending
      ensures Holds() && (r.Threw? ==> w.fails(op)) && (r.Well? ==> !w.fails(op))
      ensures r.Over? ==> old(nPast) + s.maxNew - |out0| >= kv.Length
      ensures !r.Well? ==> out == out0
      ensures r.Well? ==> Valid() && |out| >= |out0| && (s.greedy ==> Ended(out, why, fed0, g, t', target))
      ensures r.Well? && !s.greedy ==> why.None? && out == out0 && pending == -1 && fed == fed0 + out
    {
      out, why, t', picks' := out0, None, t, picks;
      var prop := [];
      if s.draft != [] && s.greedy && canVerify {
        prop := Propose(out, s.draft, s.draftK, s.maxNew - |out|);
      }
      var ok;
      if prop != [] && !w.declines(op) {
        if nPast + 1 + |prop| > kv.Length { return Over, out0, None, t, picks; }
        ok, out, why, t' := Verify(t, prop, out, g, w, op, fed0, target);
      } else {
        if nPast >= kv.Length { return Over, out0, None, t, picks; }
        ok, t' := Step(t, s.greedy, w.sample(picks), w, op);
        picks' := picks + 1;
      }
      r := if ok then Well else Threw;
    }

    /** The decode loop from the first picked token t0. */
    method Decode(t0: nat, s: Sampling, g: Rules<R>, w: World, looks0: nat, ops0: nat)
      returns (r: Went, out: seq<nat>, stop: Stop, looks: nat)
      requires Valid() && pending == -1 && nPast > 0
      requires g.lm == lm && g.maxNew == s.maxNew > 0
      requires s.greedy ==> t0 == NextOf(lm, fed)
      modifies kv, this`fed, this`nPast, this`pending
      ensures Holds() && ((forall i :: !w.fails(i)) ==> !r.Threw?)
      ensures r.Over? ==> old(nPast) + s.maxNew > kv.Length
      ensures r.Well? ==> Valid() && Conversation() == old(fed) + out
      ensures r.Well? ==> (pending >= 0 <==> Whole(out, stop, s.maxNew))
      ensures r.Well? && (forall i :: !w.aborted(i)) ==> pending >= 0
      ensures s.greedy ==> out <= PlainDecode(g, old(fed), t0, []).out
      ensures r.Well? && s.greedy && pending >= 0 ==>
                Decoded(out, stop, fed, pending) == PlainDecode(g, old(fed), t0, [])
    {
      ghost var fed0 := fed;
      ghost var target := PlainDecode(g, fed, t0, []);
      PlainIsWhole(g, fed, t0, []);
      var t: nat := t0;
      var ops, picks := ops0, 1;
      out, stop, r, looks := [], Length, Well, looks0;
      while true
        invariant Valid() && pending == -1 && fed == fed0 + out
        invariant |out| < s.maxNew && stop == Length && r == Well
        invariant s.greedy ==> OnTrack(g, fed, t, out, target)
        decreases s.maxNew - |out|
      {
        if s.greedy { TrackStep(g, fed, t, out, target); }
        looks := looks + 1;
        if w.aborted(looks - 1) { return; }
        var why;
        out, why := Emit(out, t, g);
        if why.Some? {
          stop := why.value;
          return;
        }
        r, out, why, t, picks := FeedNext(t, out, s, g, w, ops, picks, fed0, target);
        if !r.Well? { return; }
        if why.Some? {
          stop := why.value;
          return;
        }
        ops := ops + 1;
      }
    }

    /** The body of a call that was not refused: prefill, decode, look at the flag again,
        and start over if anything went wrong. */
    method Run(prompt: seq<nat>, s: Sampling, w: World) returns (rc: Status, out: seq<nat>, stop: Stop)
      requires Valid() && prompt != [] && s.maxNew >= 0
      modifies kv, this`fed, this`nPast, this`pending
      ensures rc.Ok? || rc.ErrAborted? || rc.ErrFailed? || rc.Beyond?
      ensures rc.Beyond? ==> old(nPast) + |prompt| + s.maxNew > kv.Length
      ensures rc.ErrAborted? || rc.ErrFailed? ==> Valid() && Conversation() == []
      ensures rc == Ok ==> (Valid() <==> !Lost(w, |prompt|, chunk))
      ensures Lost(w, |prompt|, chunk) ==> rc.Ok? || rc.Beyond?
      ensures rc == Ok && Valid() ==> Conversation() == old(fed) + prompt + out
      ensures rc == Ok ==> (pending >= 0 <==> Whole(out, stop, s.maxNew))
      ensures rc == Ok && s.maxNew > 0 && (forall i :: !w.aborted(i)) ==> pending >= 0
      ensures Asks(old(fed) + prompt, s) ==> out <= PlainAnswer(lm, stops, old(fed) + prompt, s, w).out
      ensures rc == Ok && Asks(old(fed) + prompt, s) && pending >= 0 ==>
                Decoded(out, stop, fed, pending) == PlainAnswer(lm, stops, old(fed) + prompt, s, w)
      ensures rc == Ok && s.maxNew == 0 ==> out == [] && pending == -1
      ensures (forall i :: !w.aborted(i) && !w.fails(i)) ==> rc.Ok? || rc.Beyond?
    {
      rc, out, stop := Ok, [], Length;
      var picked, looks, ops := Prefill(prompt, s.greedy, w);
      CutBySawTheFlag(w, |prompt|, ChunkOf(|prompt|, chunk), 0);
      if picked.Outside? { return Beyond, [], Length; }
      if picked.Failed? {
        rc := ErrFailed;
      } else {
        nPast, pending := nPast + |prompt|, -1;
        if picked.Picked? && s.maxNew > 0 {
          var r;
          r, out, stop, looks := Decode(picked.token, s, RulesOf(s, w), w, looks, ops);
          if r.Over? { return Beyond, out, stop; }
          if r.Threw? { rc := ErrFailed; }
        }
      }
      if rc == Ok && w.aborted(looks) {
        rc, stop := ErrAborted, Abort;
      }
      if rc != Ok { Reset(); }
    }

    /** moty_generate. A refused call changes nothing; one that fails or is aborted leaves
        an empty conversation; one that succeeds extends it by the prompt and the answer,
        unless the abort flag was cleared after it had cut the prefill. Only a call whose
        size overflows an int can leave the context. Proposals are not checked against the
        vocabulary, here as in the source; the model is total, while a real engine reads
        outside its embedding for an id outside the vocabulary, so the equality with plain
        decoding is worth what the caller's draft ids are. */
    method Generate(ids: seq<int>, s: Sampling, w: World) returns (rc: Status, out: seq<nat>, stop: Stop)
      requires Valid()
      modifies kv, this`fed, this`nPast, this`pending
      ensures old(Refused(ids, s, w)) != Ok ==>
          rc == old(Refused(ids, s, w)) && unchanged(this) && unchanged(kv) && out == []
      ensures rc == Ok ==> old(Refused(ids, s, w)) == Ok
      ensures old(Refused(ids, s, w)) == Ok ==> rc.Ok? || rc.ErrAborted? || rc.ErrFailed? || rc.Beyond?
      ensures rc.Beyond? ==> |old(Conversation())| + |ids| + s.maxNew > INT_MAX
      ensures old(Refused(ids, s, w)) == Ok && (rc.ErrAborted? || rc.ErrFailed?) ==> Valid() && Conversation() == []
      ensures rc == Ok ==> (Valid() <==> !Lost(w, PromptLength(old(pending), ids), chunk))
      ensures old(Refused(ids, s, w)) == Ok && Lost(w, PromptLength(old(pending), ids), chunk) ==> rc.Ok? || rc.Beyond?
      ensures rc == Ok && Valid() ==> Conversation() == old(Conversation()) + ids + out
      ensures rc == Ok ==> (pending >= 0 <==> Whole(out, stop, s.maxNew))
      ensures rc == Ok && s.maxNew > 0 && (forall i :: !w.aborted(i)) ==> pending >= 0
      ensures var h := old(Conversation()) + ids; Asks(h, s) ==> out <= PlainAnswer(lm, stops, h, s, w).out
      ensures var h := old(Conversation()) + ids;
              rc == Ok && Asks(h, s) && pending >= 0 ==>
                Decoded(out, stop, fed, pending) == PlainAnswer(lm, stops, h, s, w)
      ensures rc == Ok && s.maxNew == 0 ==> out == [] && pending == -1
      ensures old(Refused(ids, s, w)) == Ok && (forall i :: !w.aborted(i) && !w.fails(i)) ==> rc.Ok? || rc.Beyond?
    {
      out, stop := [], Length;
      rc := Refused(ids, s, w);
      if rc != Ok {
        stop := if rc == ErrAborted then Abort else Length;
        return;
      }
      LetThroughFits(nPast + if pending >= 0 then 1 else 0, pending >= 0, vocab, kv.Length, ids, s, w);
      assert fed + Prompt(pending, ids) == Conversation() + ids;
      rc, out, stop := Run(Prompt(pending, ids), s, w);
    }

    function RulesOf(s: Sampling, w: World): Rules<R> {
      Rules(lm, stops, s.ignoreEos, s.maxNew, w.callback)
    }

    /** The checks on this conversation. */
    function Refused(ids: seq<int>, s: Sampling, w: World): (rc: Status)
      reads this
      requires pending >= -1
      ensures rc == Ok ==> forall i :: 0 <= i < |ids| ==> 0 <= ids[i] < vocab
      ensures rc == Ok ==> s.maxNew >= 0 && Prompt(pending, ids) != []
    {
      Check(nPast + if pending >= 0 then 1 else 0, pending >= 0, vocab, kv.Length, ids, s, w)
    }
  }

  /** The last `len` tokens of gen (1 to 3) occur in the draft at j, with a token after them. */
  predicate Follows(gen: seq<nat>, draft: seq<nat>, len: int, j: int) {
    && 0 < len <= |gen| && len <= 3 && 0 <= j && j + len < |draft|
    && draft[j..j + len] == gen[|gen| - len..]
  }

  /** No longer suffix occurs, and this one occurs no earlier. */
  ghost predicate Longest(gen: seq<nat>, draft: seq<nat>, len: int, j: int) {
    && Follows(gen, draft, len, j)
    && (forall l, i :: l > len ==> !Follows(gen, draft, l, i))
    && (forall i :: i < j ==> !Follows(gen, draft, len, i))
  }

  /** At most n draft tokens from position k on. */
  function After(draft: seq<nat>, k: int, n: nat): seq<nat> {
    if 0 <= k <= |draft| then draft[k..if k + n <= |draft| then k + n else |draft|] else []
  }

  /** How many tokens one step may propose. */
  function Width(draftK: int, budget: nat): nat {
    var dk := if draftK > 0 then draftK else 2;
    var k := if dk < 15 then dk else 15;
    if k > budget then budget else k
  }

  lemma TakeChunk(h: seq<nat>, prompt: seq<nat>, done: nat, n: nat)
    requires done + n <= |prompt|
    ensures prompt[done..done + n][..n] == prompt[done..done + n]
    ensures (h + prompt[..done]) + prompt[done..done + n] == h + prompt[..done + n]
    ensures done + n == |prompt| ==> prompt[..done + n] == prompt
  {
  }

  /** Emitting t next, with `out` already emitted and `fed` fed, ends in `target`. */
  predicate OnTrack<R>(g: Rules<R>, fed: seq<nat>, t: nat, out: seq<nat>, target: Decoded)
  {
    && |out| < g.maxNew
    && out <= target.out
    && fed != [] && t == NextOf(g.lm, fed)
    && PlainDecode(g, fed, t, out) == target
  }

  lemma TrackStep<R>(g: Rules<R>, fed: seq<nat>, t: nat, out: seq<nat>, target: Decoded)
    requires OnTrack(g, fed, t, out, target)
    ensures out + [t] <= target.out
    ensures match StopAfter(g, out + [t])
            case Some(stop) => target == Decoded(out + [t], stop, fed, t)
            case None => OnTrack(g, fed + [t], NextOf(g.lm, fed + [t]), out + [t], target)
  {
    PlainDecodeExtends(g, fed, t, out);
  }

  lemma {:induction false} PlainDecodeExtends<R>(
    g: Rules<R>, fed: seq<nat>, t: nat, out: seq<nat>)
    requires |out| < g.maxNew
    ensures out + [t] <= PlainDecode(g, fed, t, out).out
    decreases g.maxNew - |out|
  {
    var o := out + [t];
    if StopAfter(g, o).None? {
      PlainDecodeExtends(g, fed + [t], NextOf(g.lm, fed + [t]), o);
    }
  }

  datatype Call = AskFor(ids: seq<int>, s: Sampling, w: World) | Forget

  /** What a call came back with. */
  datatype Reply = Reply(rc: Status, out: seq<nat>, stop: Stop)

  /** What a conversation is after one call: extended by a success, emptied by a failure, an
      abort or a reset, and left as it was by a refusal. */
  function AfterCall(conv: seq<int>, call: Call, reply: Reply): seq<int> {
    if call.Forget? || reply.rc.ErrFailed? then []
    else if reply.rc.Ok? then conv + call.ids + reply.out
    else if reply.rc.ErrAborted? && !call.w.aborted(0) then []
    else conv
  }

  /** What has been said by the end of the log. */
  function Said(conv: seq<int>, calls: seq<Call>, log: seq<Reply>): seq<int>
    requires |log| <= |calls|
  {
    if log == [] then conv
    else var n := |log| - 1; AfterCall(Said(conv, calls, log[..n]), calls[n], log[n])
  }

  /** Whether a token is pending after one call: a whole answer leaves its last one. */
  function PendingAfter(pending: bool, call: Call, reply: Reply): bool {
    if call.Forget? || reply.rc.ErrFailed? then false
    else if reply.rc.Ok? then Whole(reply.out, reply.stop, call.s.maxNew)
    else if reply.rc.ErrAborted? && !call.w.aborted(0) then false
    else pending
  }

  function Pends(pending: bool, calls: seq<Call>, log: seq<Reply>): bool
    requires |log| <= |calls|
  {
    if log == [] then pending
    else var n := |log| - 1; PendingAfter(Pends(pending, calls, log[..n]), calls[n], log[n])
  }

  /** What the reply to a call says, given the conversation it was made in and whether its
      last token was pending: a refusal is the checks', a call that is let through and
      neither aborted nor failing succeeds, and a greedy answer is the one-step-per-token
      loop's, all of it if it is whole, which it is unless aborted. */
  ghost predicate Answers<R>(lm: Lm<R>, stops: seq<nat>, vocab: nat, ctx: nat, conv: seq<int>, pending: bool,
                             call: Call, reply: Reply) {
    call.AskFor? ==>
      && Passes(Check(|conv|, pending, vocab, ctx, call.ids, call.s, call.w), call, reply)
      && (Asks(conv + call.ids, call.s) ==> AnswersGreedily(lm, stops, conv + call.ids, call, reply))
  }

  ghost predicate Passes(check: Status, call: Call, reply: Reply)
    requires call.AskFor?
  {
    if check != Ok then reply.rc == check && reply.out == []
    else
      && (reply.rc.Ok? || reply.rc.ErrAborted? || reply.rc.ErrFailed?)
      && ((forall i :: !call.w.aborted(i) && !call.w.fails(i)) ==> reply.rc.Ok?)
  }

  ghost predicate AnswersGreedily<R>(lm: Lm<R>, stops: seq<nat>, h: seq<nat>, call: Call, reply: Reply)
    requires call.AskFor? && Asks(h, call.s)
  {
    var d := PlainAnswer(lm, stops, h, call.s, call.w);
    var whole := Whole(reply.out, reply.stop, call.s.maxNew);
    && reply.out <= d.out
    && (reply.rc.Ok? && whole ==> reply.out == d.out && reply.stop == d.stop)
    && (reply.rc.Ok? && (forall i :: !call.w.aborted(i)) ==> whole)
  }

  /** Every reply answers its call in the conversation at that point. */
  ghost predicate AllAnswer<R>(lm: Lm<R>, stops: seq<nat>, vocab: nat, ctx: nat, conv: seq<int>, pending: bool,
                               calls: seq<Call>, log: seq<Reply>)
    requires |log| <= |calls|
  {
    log != [] ==>
      var n := |log| - 1;
      && AllAnswer(lm, stops, vocab, ctx, conv, pending, calls, log[..n])
      && Answers(lm, stops, vocab, ctx, Said(conv, calls, log[..n]), Pends(pending, calls, log[..n]), calls[n], log[n])
  }

  /** The model is as the conversation and its replies say. */
  ghost predicate Agrees<R>(m: MotyModel<R>, conv: seq<int>, pending: bool, calls: seq<Call>, log: seq<Reply>)
    requires |log| <= |calls|
    reads m, m.kv
  {
    m.Valid() && m.Conversation() == Said(conv, calls, log) && (m.pending >= 0 <==> Pends(pending, calls, log))
  }

  /** The call would be let through and lose its prefill. */
  predicate WouldLose<R>(m: MotyModel<R>, call: Call)
    requires m.pending >= -1
    reads m
  {
    call.AskFor? && m.Refused(call.ids, call.s, call.w) == Ok
        && Lost(call.w, PromptLength(m.pending, call.ids), m.chunk)
  }

  /** Any run of generate and reset calls, with the abort flag going up and down at will: the
      KV holds the conversation, which is what the replies say it is, and each reply answers
      its call in the conversation at that point. The run goes on to its end unless a call
      would lose its prefill, or its size overflows an int. */
  method Session<R>(m: MotyModel<R>, calls: seq<Call>) returns (log: seq<Reply>)
    requires m.Valid()
    modifies m, m.kv
    ensures |log| <= |calls|
    ensures AllAnswer(m.lm, m.stops, m.vocab, m.kv.Length, old(m.Conversation()), old(m.pending >= 0), calls, log)
    ensures |log| == |calls| ==> Agrees(m, old(m.Conversation()), old(m.pending >= 0), calls, log)
    ensures |log| < |calls| ==>
      var conv, c := old(m.Conversation()), calls[|log|];
      || (c.AskFor? && |Said(conv, calls, log)| + |c.ids| + c.s.maxNew > INT_MAX)
      || (Agrees(m, conv, old(m.pending >= 0), calls, log) && WouldLose(m, c))
  {
    ghost var conv0, pending0 := m.Conversation(), m.pending >= 0;
    log := [];
    for i := 0 to |calls|
      invariant |log| == i && Agrees(m, conv0, pending0, calls, log)
      invariant AllAnswer(m.lm, m.stops, m.vocab, m.kv.Length, conv0, pending0, calls, log)
    {
      if WouldLose(m, calls[i]) { return; }
      var reply := Serve(m, calls[i]);
      if reply.rc.Beyond? { return; }
      assert (log + [reply])[..i] == log;
      log := log + [reply];
    }
  }

  method Serve<R>(m: MotyModel<R>, call: Call) returns (reply: Reply)
    requires m.Valid() && !WouldLose(m, call)
    modifies m, m.kv
    ensures reply.rc.Beyond? ==> call.AskFor? && |old(m.Conversation())| + |call.ids| + call.s.maxNew > INT_MAX
    ensures !reply.rc.Beyond? ==> m.Valid() && m.Conversation() == AfterCall(old(m.Conversation()), call, reply)
    ensures !reply.rc.Beyond? ==> (m.pending >= 0 <==> PendingAfter(old(m.pending >= 0), call, reply))
    ensures !reply.rc.Beyond? ==>
      Answers(m.lm, m.stops, m.vocab, m.kv.Length, old(m.Conversation()), old(m.pending >= 0), call, reply)
  {
    match call
    case Forget =>
      m.Reset();
      reply := Reply(Ok, [], Length);
    case AskFor(ids, s, w) =>
      var rc, out, stop := m.Generate(ids, s, w);
      reply := Reply(rc, out, stop);
  }

  /** A model whose every token is 0. */
  function Zeros(): Lm<int> {
    Lm((below: seq<int>, t: nat) => 0, (below: seq<int>, t: nat) => 0)
  }

  /** A flag raised during the prefill and cleared before the call ends: two tokens are
      prefilled in chunks of one, the flag is up at the only boundary and down at the end.
      The call reports success and leaves a state that is not valid. */
  method ClearedAbort() returns (rc: Status, m: MotyModel<int>)
    ensures fresh(m) && rc == Ok && !m.Valid()
  {
    var kv := new int[8](_ => 0);
    m := new MotyModel(Zeros(), 1, [], 1, false, kv);
    var w := World(i => i == 1, _ => false, _ => 0, _ => false, _ => 0, _ => false);
    var s := Sampling(true, false, 1, [], 0);
    assert PrefillFate(w, 2, 1, 0) == CutBy(1);
    var out, stop;
    rc, out, stop := m.Generate([0, 0], s, w);
  }

  /** A call that is let through although what it may feed does not fit runs out of the
      context when nothing stops it: no stop token, callback, abort or failure. */
  method OverflowRunsOut<R>(m: MotyModel<R>, ids: seq<int>, s: Sampling, w: World) returns (rc: Status)
    requires m.Valid() && m.stops == [] && m.Refused(ids, s, w) == Ok && s.greedy && s.maxNew > 0
    requires |m.Conversation()| + |ids| + s.maxNew - 1 > m.kv.Length
    requires forall i :: !w.aborted(i) && !w.fails(i)
    requires forall o :: !w.callback(o)
    modifies m, m.kv
    ensures rc == Beyond
  {
    ghost var h, np := m.Conversation() + ids, PromptLength(m.pending, ids);
    var out, stop;
    rc, out, stop := m.Generate(ids, s, w);
    CutBySawTheFlag(w, np, ChunkOf(np, m.chunk), 0);
    NeverStops(m.RulesOf(s, w), h, NextOf(m.lm, h), []);
  }

  /** Such a call: the largest budget, in a context of eight. */
  method LargestBudget() returns (rc: Status)
    ensures rc == Beyond
  {
    var kv := new int[8](_ => 0);
    var m := new MotyModel(Zeros(), 1, [], 0, false, kv);
    var w := World(_ => false, _ => false, _ => 0, _ => false, _ => 0, _ => false);
    var s := Sampling(true, false, INT_MAX, [], 0);
    LargestBudgetIsLetThrough(0, 1, 8, [0], s, w);
    rc := OverflowRunsOut(m, [0], s, w);
  }

  lemma {:induction false} NeverStops<R>(g: Rules<R>, fed: seq<nat>, t: nat, out: seq<nat>)
    requires |out| < g.maxNew && g.stops == [] && forall o :: !g.callback(o)
    ensures |PlainDecode(g, fed, t, out).out| == g.maxNew
    decreases g.maxNew - |out|
  {
    if |out| + 1 < g.maxNew { NeverStops(g, fed + [t], NextOf(g.lm, fed + [t]), out + [t]); }
  }
}
