/** The multiplexed server (c/engines/glm.c, run_serve_mux): several conversations, each
    with its own slot of KV rows, share one model. A request reuses the prefix its slot
    already holds; active slots then decode together, one ragged row each. */
module MuxServer {
  import opened LanguageModel
  import KvDisk
  import SpecDecode
  import opened Wrappers

  datatype Reply = Accepted | Busy | Empty

  /** A slot's request as its client can follow it. */
  datatype Request = Request(
    active: bool, ended: bool, prompt: seq<nat>, out: seq<nat>, greedy: bool, maximum: int, len: nat)

  /** The next token is known: the request ends on it, or it is sent and ends the request
      only when the budget is used up. */
  predicate Sends(a: Request, next: nat, stops: seq<nat>, b: Request) {
    && b.prompt == a.prompt && b.greedy == a.greedy && b.maximum == a.maximum && b.len == a.len
    && if a.maximum <= 0 || next in stops then !b.active && b.ended && b.out == a.out
       else b.out == a.out + [next] && (if |b.out| < a.maximum then b.active else !b.active && b.ended)
  }

  function Longer(a: Request): Request { a.(len := a.len + 1) }

  /** One batch: an active request takes in its pending token and learns the next one, an
      idle slot is left alone. */
  ghost predicate MovesOn(a: Request, stops: seq<nat>, b: Request) {
    if a.active then exists next :: Sends(Longer(a), next, stops, b) else a == b
  }

  /** What a submission does to the slot: nothing if it is busy or the prompt empty, else the
      request starts with its budget clipped to the context, and its first token is known. */
  ghost predicate Asked(a: Request, p: seq<nat>, maxTokens: int, greedy: bool, ctx: nat, stops: seq<nat>, b: Request) {
    if a.active || p == [] then a == b
    else exists next :: Sends(Started(a, p, maxTokens, greedy, ctx), next, stops, b)
  }

  function Started(a: Request, p: seq<nat>, maxTokens: int, greedy: bool, ctx: nat): Request {
    Request(a.active, a.ended, p, [], greedy, Least(maxTokens, ctx - |p| - 1), |p|)
  }

  /** What a cancellation or an interrupt does: a request in flight stops where it stands. */
  function Cancelled(a: Request): Request {
    if a.active then a.(active := false, ended := false) else a
  }

  class Slot<R> {
    const lm: Lm<R>
    const stops: seq<nat>
    const kv: array<R>
    const hist: array<nat>
    var len: nat                // positions held by the KV
    var active: bool
    var pending: nat            // hist[len] while active: emitted, not yet in the KV
    var emitted: nat
    var maximum: int
    var greedy: bool            // temperature 0
    var diskNrec: nat           // positions recorded on disk
    // the request being served, or the last one
    ghost var prompt: seq<nat>
    ghost var out: seq<nat>     // tokens sent to the client
    ghost var ended: bool       // by budget or stop token, not cut short

    ghost const Repr: set<object> := {this, kv, hist}

    ghost function Now(): Request
      reads this
    {
      Request(active, ended, prompt, out, greedy, maximum, len)
    }

    constructor (lm: Lm<R>, stops: seq<nat>, kv: array<R>, hist: array<nat>)
      requires kv.Length == hist.Length && kv as object != hist
      ensures Valid() && !active && len == 0 && this.kv == kv && this.hist == hist
          && this.lm == lm && this.stops == stops
    {
      this.lm, this.stops, this.kv, this.hist := lm, stops, kv, hist;
      len, active, pending, emitted, maximum, diskNrec := 0, false, 0, 0, 0, 0;
      prompt, greedy, out, ended := [], false, [], false;
    }

    /** How many tokens a request may still emit given the context. */
    function Room(nt: nat): int {
      hist.Length - nt - 1
    }

    /** The rows are those of this slot's own history, within its context. */
    ghost predicate Coherent()
      reads Repr
    {
      && kv.Length == hist.Length && kv as object != hist && len <= kv.Length
      && kv[..len] == RowsOf(lm, hist[..len])
      && diskNrec <= len
    }

    function Budget(): nat
      reads this
    {
      if maximum < 0 then 0 else maximum
    }

    /** The request is between two of its tokens: `out` is sent and held by the KV. */
    ghost predicate Between()
      reads Repr
    {
      && Coherent() && prompt != [] && |prompt| + Budget() < hist.Length
      && |out| == emitted && hist[..len] == prompt + out && len == |prompt| + emitted
      && (greedy ==> SpecDecode.Emitted(lm, stops, prompt, Budget(), out))
    }

    /** The last token sent is not yet held: it waits in hist[len] for the next batch. */
    ghost predicate Serving()
      reads Repr
      requires len <= hist.Length
    {
      Pushed() && |out| < maximum
    }

    ghost predicate Pushed()
      reads Repr
      requires len <= hist.Length
    {
      && prompt != [] && |prompt| + maximum < hist.Length && 0 < emitted == |out| <= maximum
      && len + 1 == |prompt| + emitted && hist[..len + 1] == prompt + out && pending == hist[len]
      && (greedy ==> SpecDecode.Emitted(lm, stops, prompt, Budget(), out))
    }

    /** A finished greedy request was answered as the prompt alone determines. */
    ghost predicate Valid()
      reads Repr
    {
      && Coherent()
      && (if active then Serving() else diskNrec == len)
      && (!active && ended && greedy ==> prompt != [] && out == Answer())
    }

    /** Greedy decoding of the prompt on its own, within budget and context. */
    ghost function Answer(): seq<nat>
      reads this
      requires prompt != []
    {
      SpecDecode.GreedyUntil(lm, stops, prompt, Budget())
    }

    /** mux_done: record the new positions (kv_disk_append). */
    method Finish(normal: bool)
      requires Coherent() && (greedy && normal ==> prompt != [] && out == Answer())
      modifies this`active, this`diskNrec, this`ended
      ensures Valid() && !active && ended == normal
    {
      if diskNrec < len { diskNrec := len; }
      active := false;
      ended := normal;
    }

    /** Nothing more is to be sent: the answer is complete. */
    lemma StopsHere(next: nat)
      requires Between() && greedy && next == NextOf(lm, prompt + out) && (maximum <= 0 || next in stops)
      requires emitted < Budget() || maximum <= 0
      ensures out == Answer()
    {
      assert out + [] == out;
    }

    /** The budget is used up: the answer is complete. */
    lemma FullHere()
      requires prompt != [] && |out| == Budget() && SpecDecode.Emitted(lm, stops, prompt, Budget(), out)
      ensures out == Answer()
    {
      assert out + [] == out;
    }

    /** The greedy answer so far, one token later. */
    lemma OneMore(next: nat)
      requires Between() && emitted < Budget() && next !in stops && (greedy ==> next == NextOf(lm, prompt + out))
      ensures prompt + (out + [next]) == (prompt + out) + [next]
      ensures greedy ==> SpecDecode.Emitted(lm, stops, prompt, Budget(), out + [next])
    {
      if greedy { SpecDecode.EmitOne(lm, stops, prompt, Budget(), out); }
    }

    /** A token goes out, to wait in hist[len] for the next batch. */
    method Put(next: nat)
      requires Coherent() && len < hist.Length
      modifies this`active, this`pending, this`emitted, this`out, hist
      ensures Coherent() && pending == next == hist[len] && hist[..len + 1] == old(hist[..len]) + [next]
      ensures emitted == old(emitted) + 1 && Now() == old(Now()).(active := true, out := old(out) + [next])
    {
      SpecDecode.Record(hist, len, next);
      pending, emitted, active := next, emitted + 1, true;
      out := out + [next];
    }

    method Push(next: nat)
      requires Between() && emitted < Budget() && next !in stops && (greedy ==> next == NextOf(lm, prompt + out))
      modifies this`active, this`pending, this`emitted, this`out, hist
      ensures Coherent() && Pushed() && Now() == old(Now()).(active := true, out := old(out) + [next])
    {
      OneMore(next);
      Put(next);
    }

    /** The next token is known: stop on it, or send it and stop at the budget. */
    method Send(next: nat)
      requires Between() && (emitted < Budget() || maximum <= 0)
      requires greedy ==> next == NextOf(lm, prompt + out)
      modifies this`active, this`diskNrec, this`pending, this`emitted, this`out, this`ended, hist
      ensures Valid() && Sends(old(Now()), next, stops, Now())
    {
      if maximum <= 0 || next in stops {
        if greedy { StopsHere(next); }
        Finish(true);
        return;
      }
      Push(next);
      if emitted >= maximum {
        if greedy { FullHere(); }
        Finish(true);
      }
    }

    /** How much of the prompt this slot's history already starts with. */
    method CommonPrefix(p: seq<nat>) returns (n: nat)
      requires len <= hist.Length
      ensures n <= len && n <= |p| && hist[..n] == p[..n]
      ensures n < len && n < |p| ==> hist[n] != p[n]
    {
      n := 0;
      while n < len && n < |p| && hist[n] == p[n]
        invariant n <= len && n <= |p| && hist[..n] == p[..n]
      {
        n := n + 1;
      }
    }

    /** Copy what the history lacks of the prompt. */
    method Extend(p: seq<nat>)
      requires len <= |p| <= hist.Length && hist[..len] == p[..len]
      modifies hist
      ensures hist[..|p|] == p && hist[..len] == old(hist[..len])
    {
      for i := len to |p|
        invariant hist[..i] == p[..i]
      {
        hist[i] := p[i];
      }
    }

    /** Forward the prompt from position `from` on, on top of the rows already right. */
    method FeedPrompt(p: seq<nat>, from: nat) returns (next: nat)
      requires from < |p| <= kv.Length && kv[..from] == RowsOf(lm, p[..from])
      modifies kv
      ensures kv[..|p|] == RowsOf(lm, p) && next == NextOf(lm, p)
    {
      var lo := Forward(lm, kv, p[from..], from, p[..from]);
      assert p[..from] + p[from..] == p && p[from..][..|p| - from] == p[from..];
      next := lo[|p| - from - 1];
    }

    /** Make the KV hold exactly the prompt, forwarding what is not already there (at
        least its last token, for the logits). */
    method Prefill(p: seq<nat>) returns (next: nat)
      requires Coherent() && p != [] && |p| < hist.Length && diskNrec == len
      modifies this`len, this`diskNrec, kv, hist
      ensures Coherent() && len == |p| && hist[..len] == p && next == NextOf(lm, p)
    {
      var n := CommonPrefix(p);
      KeepRows(n);
      if n < len { len, diskNrec := n, n; }          // kv_disk_truncate
      assert kv[..len] == RowsOf(lm, p[..len]);
      var from := if len < |p| then len else len - 1;
      KeepRows(from);
      assert hist[..from] == p[..from];
      Extend(p);
      next := FeedPrompt(p, from);
      len := |p|;
    }

    lemma KeepRows(n: nat)
      requires Coherent() && n <= len
      ensures kv[..n] == RowsOf(lm, hist[..n])
    {
      RowsOfPrefix(lm, hist[..len], n);
      assert hist[..len][..n] == hist[..n] && kv[..len][..n] == kv[..n];
    }

    /** mux_submit, once the frame is read and tokenized to at most maxctx - 2 tokens. */
    method Submit(p: seq<nat>, maxTokens: int, greedy: bool, sample: nat) returns (r: Reply)
      requires Valid() && |p| + 2 <= hist.Length
      modifies Repr
      ensures Valid()
      ensures r == if old(active) then Busy else if p == [] then Empty else Accepted
      ensures r != Accepted ==> unchanged(Repr)
      ensures Asked(old(Now()), p, maxTokens, greedy, hist.Length, stops, Now())
    {
      if active { return Busy; }
      if p == [] { return Empty; }
      ghost var was := Now();
      var next := Prefill(p);
      next := if greedy then next else sample;
      Start(p, maxTokens, greedy, next);
      assert Sends(Started(was, p, maxTokens, greedy, hist.Length), next, stops, Now());
      return Accepted;
    }

    /** The prompt is in the KV: set the request up and send its first token. */
    method Start(p: seq<nat>, maxTokens: int, greedy: bool, next: nat)
      requires Coherent() && p != [] && |p| + 2 <= hist.Length && len == |p| && hist[..len] == p
      requires greedy ==> next == NextOf(lm, p)
      modifies this`active, this`diskNrec, this`pending, this`emitted, this`maximum,
          this`greedy, this`prompt, this`out, this`ended, hist
      ensures Valid() && Sends(Started(old(Now()), p, maxTokens, greedy, hist.Length), next, stops, Now())
    {
      emitted := 0;
      maximum := Least(maxTokens, hist.Length - len - 1);
      prompt, this.greedy, out, ended := p, greedy, [], false;
      assert p + [] == p;
      Send(next);
    }

    /** CANCEL, or an interrupt, ends the request where it stands. */
    method Cut()
      requires Valid() && active
      modifies this`active, this`diskNrec, this`ended
      ensures Valid() && Now() == Cancelled(old(Now()))
    {
      Finish(false);
    }

    /** This slot's row of the ragged batch: its pending token at its own position. */
    method Feed(sample: nat) returns (next: nat)
      requires Valid() && active
      modifies kv
      ensures Fed(next) && Now() == old(Now())
    {
      var lo := Forward(lm, kv, [pending], len, hist[..len]);
      assert hist[..len] + [pending] == hist[..len + 1];
      assert [pending][..1] == [pending];
      next := if greedy then lo[0] else sample;
    }

    /** The batch has computed this slot's row and its next token. */
    ghost predicate Fed(next: nat)
      reads Repr
    {
      && Coherent() && active && Serving()
      && kv[..len + 1] == RowsOf(lm, hist[..len + 1])
      && (greedy ==> next == NextOf(lm, hist[..len + 1]))
    }

    /** What the scheduler does with the row's result. */
    method Advance(next: nat)
      requires Fed(next)
      modifies this`len, this`active, this`diskNrec, this`pending, this`emitted, this`out, this`ended, hist
      ensures Valid() && MovesOn(old(Now()), stops, Now())
    {
      ghost var was := Now();
      len := len + 1;
      Send(next);
      assert Sends(Longer(was), next, stops, Now());
    }
  }

  /** Slots share nothing. */
  ghost predicate Apart<R>(slots: seq<Slot<R>>) {
    forall i, j :: 0 <= i < |slots| && 0 <= j < |slots| && i != j ==> slots[i].Repr !! slots[j].Repr
  }

  ghost function Footprint<R>(slots: seq<Slot<R>>): set<object> {
    set i, o | 0 <= i < |slots| && o in slots[i].Repr :: o
  }

  lemma InFootprint<R>(slots: seq<Slot<R>>, i: nat)
    requires i < |slots|
    ensures slots[i].Repr == {slots[i], slots[i].kv, slots[i].hist} <= Footprint(slots)
  {
  }

  ghost predicate AllValid<R>(slots: seq<Slot<R>>)
    reads Footprint(slots)
  {
    forall i :: 0 <= i < |slots| ==> slots[i].Valid()
  }

  /** Slot i has been fed with result lo[i], or has nothing to feed. */
  ghost predicate FedOrIdle<R>(slot: Slot<R>, next: nat)
    reads slot.Repr
  {
    if slot.active then slot.Fed(next) else slot.Valid()
  }

  ghost function Requests<R>(slots: seq<Slot<R>>): (r: seq<Request>)
    reads slots
    ensures |r| == |slots| && forall i :: 0 <= i < |slots| ==> r[i] == slots[i].Now()
  {
    seq(|slots|, i requires 0 <= i < |slots| reads slots => slots[i].Now())
  }

  /** One ragged batch: every active slot contributes the row of its pending token, then
      each is advanced by its own result. */
  method DecodeBatch<R>(slots: seq<Slot<R>>, samples: nat -> nat)
    requires Apart(slots) && AllValid(slots)
    modifies Footprint(slots)
    ensures AllValid(slots)
    ensures forall i :: 0 <= i < |slots| ==> MovesOn(old(Requests(slots))[i], slots[i].stops, slots[i].Now())
  {
    var lo := FeedAll(slots, samples);
    AdvanceAll(slots, lo);
  }

  method AdvanceAll<R>(slots: seq<Slot<R>>, lo: seq<nat>)
    requires Apart(slots) && |lo| == |slots| && forall j :: 0 <= j < |slots| ==> FedOrIdle(slots[j], lo[j])
    modifies Footprint(slots)
    ensures AllValid(slots)
    ensures forall i :: 0 <= i < |slots| ==> MovesOn(old(Requests(slots))[i], slots[i].stops, slots[i].Now())
  {
    ghost var was := Requests(slots);
    for i := 0 to |slots|
      invariant forall j :: 0 <= j < i ==> slots[j].Valid() && MovesOn(was[j], slots[j].stops, slots[j].Now())
      invariant forall j :: i <= j < |slots| ==> FedOrIdle(slots[j], lo[j]) && slots[j].Now() == was[j]
    {
      AdvanceOne(slots[i], lo[i]);
    }
  }

  method FeedAll<R>(slots: seq<Slot<R>>, samples: nat -> nat) returns (lo: seq<nat>)
    requires Apart(slots) && AllValid(slots)
    modifies Footprint(slots)
    ensures |lo| == |slots| && forall j :: 0 <= j < |slots| ==> FedOrIdle(slots[j], lo[j])
    ensures Requests(slots) == old(Requests(slots))
  {
    lo := [];
    ghost var was := Requests(slots);
    for i := 0 to |slots|
      invariant |lo| == i
      invariant forall j :: 0 <= j < i ==> FedOrIdle(slots[j], lo[j]) && slots[j].Now() == was[j]
      invariant forall j :: i <= j < |slots| ==> slots[j].Valid() && slots[j].Now() == was[j]
    {
      var next := FeedOne(slots[i], samples(i));
      lo := lo + [next];
    }
  }

  method FeedOne<R>(slot: Slot<R>, sample: nat) returns (next: nat)
    requires slot.Valid()
    modifies slot.Repr
    ensures FedOrIdle(slot, next) && slot.Now() == old(slot.Now())
  {
    next := 0;
    if slot.active { next := slot.Feed(sample); }
  }

  method AdvanceOne<R>(slot: Slot<R>, next: nat)
    requires FedOrIdle(slot, next)
    modifies slot.Repr
    ensures slot.Valid() && MovesOn(old(slot.Now()), slot.stops, slot.Now())
  {
    if slot.active { slot.Advance(next); }
  }

  /** Every request in flight has at most n tokens to go. */
  ghost predicate Within<R>(slots: seq<Slot<R>>, n: int)
    reads slots
  {
    forall i :: 0 <= i < |slots| && slots[i].active ==> slots[i].maximum - |slots[i].out| <= n
  }

  /** Batches alone bring every request to its end: what was in flight ends by itself, and
      if greedy has then been answered as its prompt alone determines. */
  method Drain<R>(slots: seq<Slot<R>>, samples: nat -> nat, n: nat)
    requires Apart(slots) && AllValid(slots) && Within(slots, n)
    modifies Footprint(slots)
    ensures AllValid(slots)
    ensures forall i :: 0 <= i < |slots| ==> !slots[i].active && Follows(old(Requests(slots))[i], slots[i].Now())
  {
    ghost var was := Requests(slots);
    for k := 0 to n
      invariant AllValid(slots) && Within(slots, n - k)
      invariant forall i :: 0 <= i < |slots| ==> Follows(was[i], slots[i].Now())
    {
      ghost var mid := Requests(slots);
      DecodeBatch(slots, samples);
      forall i | 0 <= i < |slots|
        ensures Follows(was[i], slots[i].Now())
        ensures slots[i].active ==> slots[i].maximum - |slots[i].out| <= n - k - 1
      {
        assert MovesOn(mid[i], slots[i].stops, slots[i].Now());
      }
    }
    forall i | 0 <= i < |slots| ensures !slots[i].active {
      assert slots[i].Valid();
    }
  }

  /** The same request, still in flight or ended by itself; an idle slot is as it was. */
  predicate Follows(a: Request, b: Request) {
    && b.prompt == a.prompt && b.greedy == a.greedy && b.maximum == a.maximum
    && if a.active then b.active || b.ended else a == b
  }

  datatype Event =
    | Ask(slot: nat, p: seq<nat>, maxTokens: int, greedy: bool, sample: nat)
    | Cancel(slot: nat)
    | Interrupt
    | Tick(samples: nat -> nat)

  /** What an event does to slot i of context ctx. */
  ghost predicate Reacts(e: Event, i: nat, ctx: nat, stops: seq<nat>, a: Request, b: Request) {
    match e
    case Ask(slot, p, maxTokens, greedy, _) =>
      if slot == i then Asked(a, p, maxTokens, greedy, ctx, stops, b) else a == b
    case Cancel(slot) => b == if slot == i then Cancelled(a) else a
    case Interrupt => b == Cancelled(a)
    case Tick(_) => MovesOn(a, stops, b)
  }

  /** A greedy request is being answered, or has been, as on a fresh slot: with the tokens
      that prompt, budget and stop tokens alone determine. */
  ghost predicate Right<R>(lm: Lm<R>, stops: seq<nat>, r: Request) {
    r.greedy && (r.active || r.ended) ==>
      r.prompt != [] &&
      var answer := SpecDecode.GreedyUntil(lm, stops, r.prompt, if r.maximum < 0 then 0 else r.maximum);
      if r.active then r.out <= answer else r.out == answer
  }

  lemma ValidIsRight<R>(slot: Slot<R>)
    requires slot.Valid()
    ensures Right(slot.lm, slot.stops, slot.Now())
  {
  }

  /** Every slot reacts to the event, and what it holds afterwards is right. */
  ghost predicate AllReact<R>(slots: seq<Slot<R>>, e: Event, a: seq<Request>, b: seq<Request>) {
    && |a| == |b| == |slots|
    && forall i :: 0 <= i < |slots| ==>
      Reacts(e, i, slots[i].hist.Length, slots[i].stops, a[i], b[i]) && Right(slots[i].lm, slots[i].stops, b[i])
  }

  /** A submission or a cancellation touches its own slot only. */
  method Handle<R>(slot: Slot<R>, ghost i: nat, e: Event)
    requires slot.Valid() && (e.Ask? || e.Cancel?) && e.slot == i && (e.Ask? ==> |e.p| + 2 <= slot.hist.Length)
    modifies slot.Repr
    ensures slot.Valid() && Reacts(e, i, slot.hist.Length, slot.stops, old(slot.Now()), slot.Now())
  {
    match e
    case Ask(_, p, maxTokens, greedy, sample) => var r := slot.Submit(p, maxTokens, greedy, sample);
    case Cancel(_) => if slot.active { slot.Cut(); }
  }

  method CutAll<R>(slots: seq<Slot<R>>)
    requires Apart(slots) && AllValid(slots)
    modifies Footprint(slots)
    ensures AllValid(slots)
    ensures forall i :: 0 <= i < |slots| ==> slots[i].Now() == Cancelled(old(Requests(slots))[i])
  {
    ghost var was := Requests(slots);
    for i := 0 to |slots|
      invariant forall j :: 0 <= j < i ==> slots[j].Valid() && slots[j].Now() == Cancelled(was[j])
      invariant forall j :: i <= j < |slots| ==> slots[j].Valid() && slots[j].Now() == was[j]
    {
      CutOne(slots[i]);
    }
  }

  method CutOne<R>(slot: Slot<R>)
    requires slot.Valid()
    modifies slot.Repr
    ensures slot.Valid() && slot.Now() == Cancelled(old(slot.Now()))
  {
    if slot.active { slot.Cut(); }
  }

  /** One event of the server's loop. */
  method React<R>(slots: seq<Slot<R>>, e: Event)
    requires Apart(slots) && AllValid(slots)
    requires e.Ask? && e.slot < |slots| ==> |e.p| + 2 <= slots[e.slot].hist.Length
    modifies Footprint(slots)
    ensures AllValid(slots) && AllReact(slots, e, old(Requests(slots)), Requests(slots))
  {
    ghost var was := Requests(slots);
    if e.Tick? {
      DecodeBatch(slots, e.samples);
    } else if e.Interrupt? {
      CutAll(slots);
    } else if e.slot < |slots| {
      HandleOne(slots, e);
    }
    forall i | 0 <= i < |slots|
      ensures Reacts(e, i, slots[i].hist.Length, slots[i].stops, was[i], slots[i].Now())
      ensures Right(slots[i].lm, slots[i].stops, slots[i].Now())
    {
      ValidIsRight(slots[i]);
    }
  }

  method HandleOne<R>(slots: seq<Slot<R>>, e: Event)
    requires Apart(slots) && AllValid(slots) && (e.Ask? || e.Cancel?) && e.slot < |slots|
    requires e.Ask? ==> |e.p| + 2 <= slots[e.slot].hist.Length
    modifies Footprint(slots)
    ensures AllValid(slots)
    ensures forall i :: 0 <= i < |slots| ==>
        Reacts(e, i, slots[i].hist.Length, slots[i].stops, old(Requests(slots))[i], slots[i].Now())
  {
    ghost var was := Requests(slots);
    InFootprint(slots, e.slot);
    Handle(slots[e.slot], e.slot, e);
    forall i | 0 <= i < |slots| && i != e.slot ensures slots[i].Valid() && slots[i].Now() == was[i] {
      assert slots[i].Repr !! slots[e.slot].Repr;
    }
  }

  /** A trace of the first k events: one list of requests before each of them and one after. */
  ghost predicate Traces<R>(slots: seq<Slot<R>>, events: seq<Event>, k: nat, trace: seq<seq<Request>>) {
    && k <= |events| && |trace| == k + 1 && (forall j :: 0 <= j <= k ==> |trace[j]| == |slots|)
    && forall j :: 0 <= j < k ==> AllReact(slots, events[j], trace[j], trace[j + 1])
  }

  lemma TraceGrows<R>(slots: seq<Slot<R>>, events: seq<Event>, k: nat, trace: seq<seq<Request>>, now: seq<Request>)
    requires Traces(slots, events, k, trace) && k < |events| && AllReact(slots, events[k], trace[k], now)
    ensures Traces(slots, events, k + 1, trace + [now])
  {
    var more := trace + [now];
    forall j | 0 <= j <= k ensures AllReact(slots, events[j], more[j], more[j + 1]) {
      if j < k { assert AllReact(slots, events[j], trace[j], trace[j + 1]); }
    }
  }

  /** Any run of the server: submissions, cancellations, interrupts and batches, in any
      order. The trace of all the slots' requests reacts to every event as it should, and
      at every point every greedy request in flight has been sent a prefix of the answer
      a fresh slot would give, and every one that ended by itself all of it. */
  method Serve<R>(slots: seq<Slot<R>>, events: seq<Event>) returns (ghost trace: seq<seq<Request>>)
    requires Apart(slots) && AllValid(slots)
    requires forall e :: e in events && e.Ask? && e.slot < |slots| ==> |e.p| + 2 <= slots[e.slot].hist.Length
    modifies Footprint(slots)
    ensures AllValid(slots) && Traces(slots, events, |events|, trace)
    ensures trace[0] == old(Requests(slots)) && trace[|events|] == Requests(slots)
  {
    trace := [Requests(slots)];
    for k := 0 to |events|
      invariant AllValid(slots) && Traces(slots, events, k, trace)
      invariant trace[0] == old(Requests(slots)) && trace[k] == Requests(slots)
    {
      React(slots, events[k]);
      TraceGrows(slots, events, k, trace, Requests(slots));
      trace := trace + [Requests(slots)];
    }
  }

  /** Between the events lo..hi no other request is accepted on slot i. */
  ghost predicate KeepsRequest(i: nat, events: seq<Event>, trace: seq<seq<Request>>, lo: nat, hi: nat)
    requires lo <= hi <= |events| < |trace| && forall k :: 0 <= k < |trace| ==> i < |trace[k]|
  {
    forall k :: lo <= k < hi && events[k].Ask? && events[k].slot == i ==> trace[k][i].active || events[k].p == []
  }

  lemma {:induction false} RequestStays<R>(slots: seq<Slot<R>>, i: nat, events: seq<Event>,
                                           trace: seq<seq<Request>>, lo: nat, hi: nat)
    requires i < |slots| && Traces(slots, events, |events|, trace) && lo <= hi <= |events|
    requires KeepsRequest(i, events, trace, lo, hi)
    ensures trace[hi][i].prompt == trace[lo][i].prompt && trace[hi][i].greedy == trace[lo][i].greedy
    ensures trace[hi][i].maximum == trace[lo][i].maximum
    decreases hi
  {
    if lo < hi {
      RequestStays(slots, i, events, trace, lo, hi - 1);
      assert AllReact(slots, events[hi - 1], trace[hi - 1], trace[hi]);
      assert Reacts(events[hi - 1], i, slots[i].hist.Length, slots[i].stops, trace[hi - 1][i], trace[hi][i]);
    }
  }

  /** In any run: a greedy request accepted at event k, if the slot's request at a later
      point is still that one and has ended by itself, has been sent exactly what a fresh
      slot would have sent, whatever was submitted, cancelled or interrupted elsewhere. */
  lemma AnsweredAsFresh<R>(slots: seq<Slot<R>>, i: nat, events: seq<Event>, trace: seq<seq<Request>>, k: nat, m: nat)
    requires i < |slots| && Traces(slots, events, |events|, trace) && k < m <= |events|
    requires events[k].Ask? && events[k].slot == i && events[k].greedy && events[k].p != [] && !trace[k][i].active
    requires KeepsRequest(i, events, trace, k + 1, m) && !trace[m][i].active && trace[m][i].ended
    ensures var budget := Least(events[k].maxTokens, slots[i].hist.Length - |events[k].p| - 1);
            trace[m][i].out
            == SpecDecode.GreedyUntil(slots[i].lm, slots[i].stops, events[k].p, if budget < 0 then 0 else budget)
  {
    RequestStays(slots, i, events, trace, k + 1, m);
    assert AllReact(slots, events[k], trace[k], trace[k + 1]) && AllReact(slots, events[m - 1], trace[m - 1], trace[m]);
    assert Reacts(events[k], i, slots[i].hist.Length, slots[i].stops, trace[k][i], trace[k + 1][i]);
    assert Right(slots[i].lm, slots[i].stops, trace[m][i]);
  }

  /** The most any request in flight has to go. */
  method MostLeft<R>(slots: seq<Slot<R>>) returns (n: nat)
    requires AllValid(slots)
    ensures Within(slots, n)
  {
    n := 0;
    for i := 0 to |slots|
      invariant forall j :: 0 <= j < i && slots[j].active ==> slots[j].maximum - |slots[j].out| <= n
    {
      assert slots[i].Valid();
      if slots[i].active && slots[i].maximum - slots[i].emitted > n { n := slots[i].maximum - slots[i].emitted; }
    }
  }

  /** Submitting and then only running batches answers a greedy request as on a fresh slot:
      whatever the idle slot held before, and whatever requests the other slots have in
      flight, what is sent is decided by the prompt, the budget and the context alone. */
  method AskGreedy<R>(slots: seq<Slot<R>>, i: nat, p: seq<nat>, maxTokens: int, samples: nat -> nat) returns (r: Reply)
    requires Apart(slots) && AllValid(slots) && i < |slots|
    requires !slots[i].active && p != [] && |p| + 2 <= slots[i].hist.Length
    modifies Footprint(slots)
    ensures AllValid(slots) && r == Accepted && !slots[i].active
    ensures var budget := Least(maxTokens, slots[i].hist.Length - |p| - 1);
            slots[i].out == SpecDecode.GreedyUntil(slots[i].lm, slots[i].stops, p, if budget < 0 then 0 else budget)
  {
    InFootprint(slots, i);
    r := slots[i].Submit(p, maxTokens, true, 0);
    var n := MostLeft(slots);
    ghost var was := Requests(slots);
    Drain(slots, samples, n);
    assert Follows(was[i], slots[i].Now()) && slots[i].Valid();
  }

  /** What a slot records can be too long for the loader to take back: a prompt that just
      fits, of two tokens less than the context, is accepted, whatever the request's budget
      its positions are recorded, and a restart finds the file and ignores it. */
  method LongPromptIsForgotten<R>(lm: Lm<R>, stops: seq<nat>, kv: array<R>, hist: array<nat>, p: seq<nat>,
                                  maxTokens: int, greedy: bool, sample: nat,
                                  magic: seq<int>, dims: seq<int>, recs: seq<KvDisk.Record>, size: nat)
    returns (slot: Slot<R>, k: KvDisk.KvFile, r: Reply)
    requires kv.Length == hist.Length && kv as object != hist && p != [] && |p| + 2 == hist.Length
    requires |magic| == 2 && |dims| == 6 && size > 0 && KvDisk.Sized(recs, size) && |recs| == |p|
    modifies kv, hist
    ensures r == Accepted && !slot.active && slot.diskNrec == |p|
    ensures k.committed == recs != [] && k.disk.Some?
        && KvDisk.Load(k.disk, magic, dims, size, hist.Length - KvDisk.MARGIN) == []
  {
    slot := new Slot(lm, stops, kv, hist);
    r := slot.Submit(p, maxTokens, greedy, sample);
    k := new KvDisk.KvFile(magic, dims, size, hist.Length - KvDisk.MARGIN, None, []);
    k.Append(recs);
    KvDisk.LoadReturns(k.disk, magic, dims, size, hist.Length - KvDisk.MARGIN, recs);
  }

  function Least(a: int, b: int): int {
    if a > b then b else a
  }
}
