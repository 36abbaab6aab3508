/** Who owns a block (c/nn/alloc.c, the tracker wrappers; c/api/api.c, the brackets around
    open, generate and close): one tracker lives as long as the model, one as long as a
    call, and a call that succeeds hands its blocks to the model. Blocks are numbered in
    the order they are obtained, so a number never comes back; 0 is NULL. */
module Ownership {

  const BIG := 0x40000      // MOTY_BIG

  datatype Which = Nobody | Model | Call

  /** What libc's realloc does: fail, resize where the block is, or move it. */
  datatype Libc = Fails | Stays | Moves

  /** One heap call of an engine, with what the system answers. */
  datatype Op =
    | Malloc(n: nat, ok: bool)
    | Realloc(p: nat, n: nat, libc: Libc, maps: bool)    // maps: whether mmap succeeds
    | Free(p: nat)

  /** What an engine's next heap call may depend on. */
  datatype Heap = Heap(live: set<nat>, big: map<nat, nat>, track: set<nat>, call: set<nat>, current: Which) {
    function Mine(): set<nat> {
      if current.Model? then track else if current.Call? then call else {}
    }

    /** Blocks of a tracker that is not the current one. */
    function Others(): set<nat> {
      if current.Model? then call else if current.Call? then track else track + call
    }

    predicate WantsBig(n: nat) {
      current.Model? && n >= BIG
    }

    /** A new block, in the current tracker. */
    function With(p: nat, n: nat): Heap {
      Heap(live + {p}, if WantsBig(n) then big[p := n] else big,
           if current.Model? then track + {p} else track, if current.Call? then call + {p} else call, current)
    }

    /** A block given back, and out of the current tracker. */
    function Without(p: nat): Heap {
      Heap(live - {p}, big - {p},
           if current.Model? then track - {p} else track, if current.Call? then call - {p} else call, current)
    }

    function Held(which: Which): set<nat> {
      if which.Model? then track else if which.Call? then call else {}
    }

    /** moty_track_free_all. */
    function Emptied(which: Which): Heap {
      Heap(live - Held(which), big - Held(which),
           if which.Model? then {} else track, if which.Call? then {} else call, current)
    }

    /** moty_track_merge. */
    function Merged(): Heap {
      Heap(live, big, track + call, {}, current)
    }

    lemma NothingToEmpty(which: Which)
      requires Held(which) == {}
      ensures Emptied(which) == this
    {
      assert live - {} == live && big - {} == big;
    }

    function Under(which: Which): Heap {
      this.(current := which)
    }
  }

  /** A heap call as it went: what the engine saw and asked, the block it got, what was left. */
  datatype Step = Step(seen: Heap, op: Op, got: nat, left: Heap)

  predicate Went(s: Step) {
    match s.op
    case Malloc(n, ok) =>
      if ok then s.got != 0 && s.got !in s.seen.live && s.left == s.seen.With(s.got, n)
      else s.got == 0 && s.left == s.seen
    case Free(p) => s.got == 0 && s.left == if p == 0 then s.seen else s.seen.Without(p)
    case Realloc(p, n, libc, maps) => Resized(s, p, p != 0 && Dies(s.seen, p, n, libc, maps))
  }

  /** The block given up, if it is, is live no more; what is in its place, or the block
      itself, is in the tracker it was in; nothing else changes hands. */
  predicate Resized(s: Step, p: nat, died: bool) {
    && s.left.current == s.seen.current && s.left.Others() == s.seen.Others()
    && (forall b :: b in s.seen.live ==> (b in s.left.live <==> !(died && b == p)))
    && (s.got != 0 ==> s.got in s.left.live)
    && s.left.Mine() == if p in s.seen.Mine() then s.seen.Mine() - {p} + {if s.got != 0 then s.got else p}
                        else if p == 0 && s.got != 0 && !s.seen.current.Nobody? then s.seen.Mine() + {s.got}
                        else s.seen.Mine()
  }

  /** mrealloc gives the block p back to the system. */
  predicate Dies(h: Heap, p: nat, n: nat, libc: Libc, maps: bool) {
    if p in h.big then n > h.big[p] && maps
    else libc.Moves? || (libc.Stays? && h.WantsBig(n) && maps)
  }

  /** libc moved the block, and then there was no mapping for its final place. */
  predicate Stranded(h: Heap, p: nat, n: nat, libc: Libc, maps: bool) {
    p !in h.big && h.WantsBig(n) && libc.Moves? && !maps
  }

  /** The discipline: a block is given up only under the tracker that owns it, and a
      realloc that moved it is not followed by a failed mmap. */
  predicate Disciplined(h: Heap, op: Op) {
    match op
    case Malloc(n, ok) => true
    case Realloc(p, n, libc, maps) =>
      p == 0 || (p in h.live
          && (Dies(h, p, n, libc, maps) ==> p !in h.Others() && !(p in h.Mine() && Stranded(h, p, n, libc, maps))))
    case Free(p) => p == 0 || (p in h.live && p !in h.Others())
  }

  /** An engine's next heap call, given what it sees and how many it has made. */
  type Engine = (Heap, nat) -> Op

  ghost predicate IsDisciplined(e: Engine) {
    forall h, i :: Disciplined(h, e(h, i))
  }

  /** An engine's share of a phase: so many heap calls. */
  datatype Turn = Turn(e: Engine, calls: nat)

  datatype Phase = Phase(before: Heap, steps: seq<Step>, after: Heap)

  /** The steps are the engine's, one after the other from heap a to heap b. */
  predicate Chain(e: Engine, a: Heap, steps: seq<Step>, b: Heap) {
    if steps == [] then a == b else
      var n := |steps| - 1;
      Went(steps[n]) && steps[n].op == e(steps[n].seen, n) && steps[n].left == b
          && Chain(e, a, steps[..n], steps[n].seen)
  }

  lemma ChainGrows(e: Engine, a: Heap, steps: seq<Step>, step: Step)
    requires Chain(e, a, steps, step.seen) && Went(step) && step.op == e(step.seen, |steps|)
    ensures Chain(e, a, steps + [step], step.left)
  {
    assert (steps + [step])[..|steps|] == steps;
  }

  /** The phase is this engine's turn, under this tracker. */
  predicate Worked(which: Which, t: Turn, phase: Phase) {
    && |phase.steps| == t.calls && phase.after.current == Nobody
    && Chain(t.e, phase.before.Under(which), phase.steps, phase.after.Under(which))
  }

  /** What was in a tracker at any point of the phase is among these blocks. */
  predicate Noted(phase: Phase, blocks: set<nat>) {
    forall s <- phase.steps :: s.left.track + s.left.call <= blocks
  }

  lemma StillNoted(phases: seq<Phase>, blocks: set<nat>, more: set<nat>)
    requires blocks <= more && forall ph <- phases :: Noted(ph, blocks)
    ensures forall ph <- phases :: Noted(ph, more)
  {
  }

  class Process {
    var live: set<nat>        // blocks obtained and not given back
    var big: map<nat, nat>    // the registry: mapped blocks and their sizes
    var track: set<nat>       // the model's tracker
    var call: set<nat>        // the call's tracker
    var current: Which
    var next: nat
    ghost var released: seq<nat>   // every block given back, in order
    ghost var tracked: set<nat>    // every block that was ever in a tracker

    function Now(): Heap
      reads this
    {
      Heap(live, big, track, call, current)
    }

    /** No block is given back twice, or used after. */
    ghost predicate Sound()
      reads this
    {
      && next > 0 && 0 !in live && big.Keys <= live
      && (forall b :: b in live || b in released ==> 0 < b < next)
      && (forall b :: 0 < b < next ==> b in live || b in released)
      && (forall i, j :: 0 <= i < j < |released| ==> released[i] != released[j])
      && (forall b :: b in released ==> b !in live)
    }

    /** What a tracker holds is live and in one tracker only, and no block of the model is
        lost: it is in a tracker, or has been given back. */
    ghost predicate Owned()
      reads this
    {
      && Sound() && track !! call && track + call <= live && track + call <= tracked
      && (forall b :: b in tracked ==> 0 < b < next && (b in track || b in call || b in released))
    }

    constructor ()
      ensures Owned() && Now() == Heap({}, map[], {}, {}, Nobody) && released == [] && tracked == {}
    {
      live, big, track, call, current, next := {}, map[], {}, {}, Nobody, 1;
      released, tracked := [], {};
    }

    /** A new block, from mmap or from libc. */
    method Obtain(n: nat, mapped: bool, ok: bool) returns (p: nat)
      modifies this`live, this`big, this`next
      ensures old(Sound()) ==> Sound()
      ensures if ok then p == old(next) && next == p + 1 && live == old(live) + {p}
              else p == 0 && next == old(next) && live == old(live)
      ensures big == if ok && mapped then old(big)[p := n] else old(big)
    {
      if !ok { return 0; }
      p, next := next, next + 1;
      live := live + {p};
      if mapped { big := big[p := n]; }
    }

    /** mfree. */
    method Release(p: nat)
      modifies this`live, this`big, this`released
      ensures p == 0 || p in old(live) ==> old(Sound()) ==> Sound()
      ensures p == 0 ==> unchanged(this)
      ensures p != 0 ==> live == old(live) - {p} && big == old(big) - {p} && released == old(released) + [p]
    {
      if p != 0 {
        live, big, released := live - {p}, big - {p}, released + [p];
      }
    }

    /** trk_add, under whatever tracker is set. */
    method Track(p: nat)
      modifies this`track, this`call, this`tracked
      ensures old(tracked) <= tracked
      ensures p == 0 || current.Nobody? ==> unchanged(this)
      ensures p != 0 && current.Model? ==>
          track == old(track) + {p} && call == old(call) && tracked == old(tracked) + {p}
      ensures p != 0 && current.Call? ==>
          call == old(call) + {p} && track == old(track) && tracked == old(tracked) + {p}
    {
      if p != 0 && current.Model? {
        track, tracked := track + {p}, tracked + {p};
      } else if p != 0 && current.Call? {
        call, tracked := call + {p}, tracked + {p};
      }
    }

    /** trk_del. */
    method Untrack(p: nat) returns (owned: bool)
      modifies this`track, this`call
      ensures owned == (p in old(Now().Mine()))
      ensures track == if current.Model? then old(track) - {p} else old(track)
      ensures call == if current.Call? then old(call) - {p} else old(call)
    {
      owned := false;
      if current.Model? {
        owned, track := p in track, track - {p};
      } else if current.Call? {
        owned, call := p in call, call - {p};
      }
    }

    /** moty_trk_malloc and its like. */
    method Malloc(n: nat, ok: bool) returns (p: nat)
      requires Owned()
      modifies this`live, this`big, this`next, this`track, this`call, this`tracked
      ensures Owned()
      ensures !current.Model? ==> track == old(track)
      ensures !current.Call? ==> call == old(call)
      ensures ok ==> p == old(next) && live == old(live) + {p}
      ensures ok ==> Now().Mine() == old(Now().Mine()) + (if current.Nobody? then {} else {p})
      ensures old(tracked) <= tracked && released == old(released) && Went(Step(old(Now()), Op.Malloc(n, ok), p, Now()))
    {
      p := Obtain(n, Now().WantsBig(n), ok);
      Track(p);
    }

    /** moty_trk_free keeps the books exactly when the block is a live one that no other
        tracker owns. */
    method Free(p: nat)
      requires Owned()
      modifies this
      ensures current == old(current) && next >= old(next)
      ensures !current.Model? ==> track == old(track)
      ensures !current.Call? ==> call == old(call)
      ensures tracked == old(tracked) && Went(Step(old(Now()), Op.Free(p), 0, Now()))
      ensures released == if p == 0 then old(released) else old(released) + [p]
      ensures Owned() <==> old(Disciplined(Now(), Op.Free(p)))
    {
      ghost var was := released;
      var owned := Untrack(p);
      Release(p);
      if p != 0 && p in was {
        var i :| 0 <= i < |was| && was[i] == p;
        assert released[i] == released[|was|];
      }
    }

    /** mrealloc: q is the block's new place, or NULL. It gives the block up exactly when
        it Dies, and leaves nothing in its place exactly when it is also Stranded. */
    method Resize(p: nat, n: nat, libc: Libc, maps: bool) returns (q: nat)
      requires Sound() && (p == 0 || p in live)
      modifies this`live, this`big, this`next, this`released
      ensures Sound() && next >= old(next)
      ensures var died := p != 0 && old(Dies(Now(), p, n, libc, maps));
              && (forall b :: b < old(next) ==> (b in live <==> b in old(live) && !(died && b == p)))
              && (forall b :: b < old(next) ==> (b in released <==> b in old(released) || (died && b == p)))
              && (q == 0 || (q == p && !died) || ((died || p == 0) && old(next) <= q && q in live))
              && (died ==> (q == 0 <==> old(Stranded(Now(), p, n, libc, maps))))
    {
      q := 0;
      if p !in big && !Now().WantsBig(n) {
        if libc.Fails? { return; }
        if p != 0 && libc.Stays? { return p; }
        q := Obtain(n, false, true);
        Release(p);
        return;
      }
      if p in big && n <= big[p] { return p; }
      var r := p;
      if p !in big && p != 0 {
        if libc.Fails? { return; }
        if libc.Moves? {
          r := Obtain(n, false, true);
          Release(p);
        }
      }
      q := Obtain(n, true, maps);
      if q != 0 { Release(r); }
    }

    /** moty_trk_realloc: the block, or what is in its place, stays in its tracker. */
    method Replace(p: nat, n: nat, libc: Libc, maps: bool) returns (q: nat)
      requires Owned() && (p == 0 || p in live)
      modifies this
      ensures Sound() && current == old(current) && next >= old(next)
      ensures (!current.Model? ==> track == old(track)) && (!current.Call? ==> call == old(call))
      ensures old(tracked) <= tracked <= old(tracked) + Now().Mine() && track + call <= tracked
      ensures var died := p != 0 && old(Dies(Now(), p, n, libc, maps));
              && (q == 0 || q == p || (old(next) <= q && (p == 0 || died)))
              && (forall b :: b < old(next) ==> (b in released <==> b in old(released) || (died && b == p)))
              && (died ==> (q == 0 <==> old(Stranded(Now(), p, n, libc, maps))))
      ensures Went(Step(old(Now()), Op.Realloc(p, n, libc, maps), q, Now()))
    {
      var owned := Untrack(p);
      q := Resize(p, n, libc, maps);
      if owned || p == 0 {
        Track(if q != 0 then q else p);
      }
    }

    /** It keeps the books exactly when the call is disciplined. */
    method Realloc(p: nat, n: nat, libc: Libc, maps: bool) returns (q: nat)
      requires Owned() && (p == 0 || p in live)
      modifies this
      ensures current == old(current) && next >= old(next)
      ensures !current.Model? ==> track == old(track)
      ensures !current.Call? ==> call == old(call)
      ensures p != 0 && old(Dies(Now(), p, n, libc, maps)) ==>
        p in released && (q == 0 <==> old(Stranded(Now(), p, n, libc, maps)))
      ensures old(tracked) <= tracked && Went(Step(old(Now()), Op.Realloc(p, n, libc, maps), q, Now()))
      ensures Owned() <==> old(Disciplined(Now(), Op.Realloc(p, n, libc, maps)))
    {
      ghost var ok := Disciplined(Now(), Op.Realloc(p, n, libc, maps));
      q := Replace(p, n, libc, maps);
      if !ok {
        assert p !in live && p in track + call;
      } else {
        assert track + call <= live;
      }
    }

    method Do(op: Op) returns (ghost step: Step)
      requires Owned() && Disciplined(Now(), op)
      modifies this
      ensures Owned() && current == old(current) && old(tracked) <= tracked
      ensures !current.Model? ==> track == old(track)
      ensures !current.Call? ==> call == old(call)
      ensures Went(step) && step.seen == old(Now()) && step.op == op && step.left == Now()
    {
      ghost var seen := Now();
      var got := 0;
      match op {
        case Malloc(n, ok) => got := Malloc(n, ok);
        case Realloc(p, n, libc, maps) => got := Realloc(p, n, libc, maps);
        case Free(p) => Free(p);
      }
      step := Step(seen, op, got, Now());
    }

    /** An engine at work under the tracker `which`: so many heap calls, each decided by
        what it sees. */
    method Work(which: Which, t: Turn) returns (ghost phase: Phase)
      requires Owned() && IsDisciplined(t.e)
      modifies this
      ensures Owned() && current == Nobody && old(tracked) <= tracked
      ensures !which.Model? ==> track == old(track)
      ensures !which.Call? ==> call == old(call)
      ensures Worked(which, t, phase) && phase.before == old(Now()) && phase.after == Now() && Noted(phase, tracked)
    {
      ghost var before := Now();
      current := which;
      ghost var steps := [];
      for i := 0 to t.calls
        invariant Owned() && current == which && old(tracked) <= tracked
        invariant !which.Model? ==> track == old(track)
        invariant !which.Call? ==> call == old(call)
        invariant |steps| == i && Chain(t.e, before.Under(which), steps, Now())
        invariant forall s <- steps :: s.left.track + s.left.call <= tracked
      {
        ghost var step := Do(t.e(Now(), i));
        ChainGrows(t.e, before.Under(which), steps, step);
        steps := steps + [step];
      }
      current := Nobody;
      phase := Phase(before, steps, Now());
    }

    /** moty_track_free_all on the model's tracker or the call's. */
    method FreeAll(which: Which)
      requires Owned() && !which.Nobody?
      modifies this
      ensures Owned() && Now() == old(Now()).Emptied(which) && tracked == old(tracked)
    {
      ghost var end := Now().Emptied(which);
      while Now().Held(which) != {}
        invariant Owned() && tracked == old(tracked) && Now().Emptied(which) == end
        decreases |Now().Held(which)|
      {
        var b :| b in Now().Held(which);
        FreeOne(which, b);
      }
      Now().NothingToEmpty(which);
    }

    method FreeOne(which: Which, b: nat)
      requires Owned() && b in Now().Held(which)
      modifies this
      ensures Owned() && tracked == old(tracked)
      ensures Now().Held(which) == old(Now().Held(which)) - {b} && Now().Emptied(which) == old(Now().Emptied(which))
    {
      if which.Model? { track := track - {b}; } else { call := call - {b}; }
      Release(b);
    }

    /** moty_track_merge: the call's blocks become the model's. */
    method Merge()
      requires Owned()
      modifies this`track, this`call
      ensures Owned() && Now() == old(Now()).Merged()
    {
      track, call := track + call, {};
    }

    /** moty_model_open_with: on failure the engine closes what it opened, and the tracker
        is emptied. */
    method Open(t: Turn, fails: bool, closing: Turn) returns (ghost phases: seq<Phase>)
      requires Owned() && IsDisciplined(t.e) && IsDisciplined(closing.e) && track == call == {}
      modifies this
      ensures Owned() && current == Nobody && call == {} && (fails ==> track == {}) && old(tracked) <= tracked
      ensures |phases| == (if fails then 2 else 1) && phases[0].before == old(Now()) && Worked(Model, t, phases[0])
      ensures !fails ==> phases[0].after == Now()
      ensures fails ==> Worked(Nobody, closing, phases[1]) && phases[1].before == phases[0].after
      ensures fails ==> Now() == phases[1].after.Emptied(Model)
      ensures forall ph <- phases :: Noted(ph, tracked)
    {
      ghost var start := Work(Model, t);
      phases := [start];
      if fails {
        ghost var closed := Work(Nobody, closing);
        phases := [start, closed];
        FreeAll(Model);
      }
    }

    /** moty_generate: the blocks of a call that succeeds are the model's from then on,
        those of one that fails are given back; the model's are left alone. */
    method Generate(c: GenerateCall) returns (ghost phase: Phase)
      requires Owned() && IsDisciplined(c.turn.e) && call == {}
      modifies this
      ensures Owned() && current == Nobody && call == {} && old(tracked) <= tracked
      ensures old(track) <= track && (!c.ok ==> track == old(track))
      ensures Worked(Call, c.turn, phase) && phase.before == old(Now()) && Now() == c.Ends(phase)
          && Noted(phase, tracked)
    {
      phase := Work(Call, c.turn);
      if c.ok { Merge(); } else { FreeAll(Call); }
    }

    /** moty_model_close. */
    method Close(closing: Turn) returns (ghost phase: Phase)
      requires Owned() && IsDisciplined(closing.e) && call == {}
      modifies this
      ensures Owned() && track == call == {} && old(tracked) <= tracked
      ensures Worked(Nobody, closing, phase) && phase.before == old(Now())
          && Now() == phase.after.Emptied(Model) && Noted(phase, tracked)
    {
      phase := Work(Nobody, closing);
      FreeAll(Model);
    }
  }

  datatype GenerateCall = GenerateCall(turn: Turn, ok: bool) {
    function Ends(phase: Phase): Heap {
      if ok then phase.after.Merged() else phase.after.Emptied(Call)
    }
  }

  /** The calls' phases follow one another from heap a to heap b. */
  predicate Calls(calls: seq<GenerateCall>, phases: seq<Phase>, a: Heap, b: Heap) {
    && |phases| == |calls|
    && if calls == [] then a == b else
      var n := |calls| - 1;
      Worked(Call, calls[n].turn, phases[n]) && calls[n].Ends(phases[n]) == b
          && Calls(calls[..n], phases[..n], a, phases[n].before)
  }

  /** The phases of a model's life: its opening; if that fails the engine's close, else the
      calls and then the close; and in the end the model's tracker is emptied. */
  predicate Lived(opening: Turn, fails: bool, calls: seq<GenerateCall>, closing: Turn, phases: seq<Phase>, end: Heap) {
    && |phases| == (if fails then 2 else |calls| + 2) && Worked(Model, opening, phases[0])
    && phases[0].before == Heap({}, map[], {}, {}, Nobody)
    && Worked(Nobody, closing, phases[|phases| - 1]) && end == phases[|phases| - 1].after.Emptied(Model)
    && if fails then phases[1].before == phases[0].after
       else Calls(calls, phases[1..|calls| + 1], phases[0].after, phases[|calls| + 1].before)
  }

  lemma CallsGrow(calls: seq<GenerateCall>, phases: seq<Phase>, a: Heap, c: GenerateCall, phase: Phase)
    requires Calls(calls, phases, a, phase.before) && Worked(Call, c.turn, phase)
    ensures Calls(calls + [c], phases + [phase], a, c.Ends(phase))
  {
    assert (calls + [c])[..|calls|] == calls && (phases + [phase])[..|phases|] == phases;
  }

  method GenerateAll(p: Process, calls: seq<GenerateCall>) returns (ghost done: seq<Phase>)
    requires p.Owned() && p.call == {} && p.current == Nobody && forall c <- calls :: IsDisciplined(c.turn.e)
    modifies p
    ensures p.Owned() && p.call == {} && p.current == Nobody && old(p.tracked) <= p.tracked
    ensures Calls(calls, done, old(p.Now()), p.Now()) && forall ph <- done :: Noted(ph, p.tracked)
  {
    ghost var start := p.Now();
    done := [];
    for i := 0 to |calls|
      invariant p.Owned() && p.call == {} && p.current == Nobody && old(p.tracked) <= p.tracked
      invariant Calls(calls[..i], done, start, p.Now()) && forall ph <- done :: Noted(ph, p.tracked)
    {
      ghost var was := p.tracked;
      ghost var phase := p.Generate(calls[i]);
      StillNoted(done, was, p.tracked);
      CallsGrow(calls[..i], done, start, calls[i], phase);
      assert calls[..i + 1] == calls[..i] + [calls[i]];
      done := done + [phase];
    }
    assert calls[..|calls|] == calls;
  }

  /** From open to close, each phase with an engine of its own, whatever the calls in
      between and however they end: every block that was in a tracker at any point has been
      given back, none of them twice, and no tracker is left with one. */
  method Lifetime(opening: Turn, fails: bool, calls: seq<GenerateCall>, closing: Turn) returns (p: Process,
                  ghost phases: seq<Phase>)
    requires IsDisciplined(opening.e) && IsDisciplined(closing.e) && forall c <- calls :: IsDisciplined(c.turn.e)
    ensures fresh(p) && Lived(opening, fails, calls, closing, phases, p.Now()) && p.track == p.call == {}
    ensures forall ph <- phases :: Noted(ph, set b | b in p.released && b !in p.live)
    ensures forall i, j :: 0 <= i < j < |p.released| ==> p.released[i] != p.released[j]
  {
    p := new Process();
    phases := p.Open(opening, fails, closing);
    if fails {
      StillNoted(phases, p.tracked, set b | b in p.released && b !in p.live);
      return;
    }
    ghost var start, noted := phases[0], p.tracked;
    ghost var done := GenerateAll(p, calls);
    ghost var was := p.tracked;
    ghost var closed := p.Close(closing);
    StillNoted(done, was, p.tracked);
    StillNoted([start], noted, p.tracked);
    phases := [start] + done + [closed];
    assert phases[1..|calls| + 1] == done;
    StillNoted(phases, p.tracked, set b | b in p.released && b !in p.live);
  }

  /** The hypothesis on realloc is needed: a block that libc moves and that then gets no
      mapping is given back, yet stays in the tracker, to be given back again on close. */
  method StrandedIsReleasedTwice() returns (p: Process)
    ensures fresh(p) && exists i, j :: 0 <= i < j < |p.released| && p.released[i] == p.released[j]
  {
    p := new Process();
    p.current := Model;
    var b := p.Malloc(16, true);
    var q := p.Realloc(b, BIG, Moves, false);
    assert p.track == {b};
    ghost var was := p.released;
    ghost var i :| 0 <= i < |was| && was[i] == b;
    p.Release(b);
    assert p.released[i] == p.released[|was|];
  }

  /** So is the one on free. With a head shortlist the engine allocates its three tables
      while the model's tracker is set, and its close frees them when none is: they stay in
      the tracker, and emptying it gives them back a second time. */
  method ShortlistIsReleasedTwice(n: nat) returns (p: Process)
    ensures fresh(p) && exists i, j :: 0 <= i < j < |p.released| && p.released[i] == p.released[j]
  {
    p := new Process();
    p.current := Model;
    var b := p.Malloc(n, true);
    p.current := Nobody;
    assert !Disciplined(p.Now(), Op.Free(b));
    p.Free(b);
    assert p.track == {b} && p.released == [b];
    p.Release(b);
    assert p.released[0] == p.released[1];
  }
}
