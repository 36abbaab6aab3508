/** The speculative expert loader (c/engines/glm.c, PILOT_REAL): while the main thread
    computes one layer, a pilot thread loads experts into the caches of later layers.
    The two meet through a lock, the layer the main thread owns, and a per-layer count
    of loads in flight. Each action below is one lock section, or one unlocked write of
    the pilot into the slot it has hidden. */
module Pilot {
  import opened Wrappers

  /** What a slot's buffers hold: all the weights of one expert, or a partial read. */
  datatype Data = Weights(expert: nat) | Torn

  datatype Slot = Slot(eid: int, data: Data, used: nat)

  /** One layer's LRU: slots[..ecn] are visible; inflight counts pilot loads. */
  datatype Layer = Layer(slots: seq<Slot>, ecn: nat, inflight: nat)

  datatype Phase = Reading | Read(ok: bool)

  /** The load the pilot thread is busy with. */
  datatype Load = Load(layer: nat, eid: nat, slot: nat, isNew: bool, phase: Phase)

  datatype Main = Outside | Waiting(layer: nat) | Inside(layer: nat)

  /** cur: the highest layer entered in this forward (-1: none); passed: the layers whose
      barrier the main thread has passed in this forward; missed: the experts it looked for
      in the layer it is in and did not find. */
  datatype State = State(
    layers: seq<Layer>, cur: int, main: Main, pilot: Option<Load>, clock: nat, passed: set<nat>, missed: set<nat>)

  datatype Action =
    | NewForward
    | Enter(layer: nat)
    | PassBarrier
    | Hit(slot: nat)
    | Miss(eid: nat)
    | Promote(eid: nat)
    | Leave
    | PilotStart(layer: nat, eid: nat, pinned: bool)
    | PilotScribble
    | PilotReadDone(ok: bool)
    | PilotPublish

  predicate Resident(l: Layer, eid: nat)
    requires l.ecn <= |l.slots|
  {
    exists z :: 0 <= z < l.ecn && l.slots[z].eid == eid
  }

  /** The slot with the smallest `used` among the first n, the lowest on ties. */
  function Lru(slots: seq<Slot>, n: nat): (r: nat)
    requires 0 < n <= |slots|
    ensures r < n
    ensures forall z :: 0 <= z < n ==> slots[r].used <= slots[z].used
  {
    if n == 1 then 0 else
      var r := Lru(slots, n - 1);
      if slots[n - 1].used < slots[r].used then n - 1 else r
  }

  /** Where the next expert of a layer goes: a free slot, else the least recently used. */
  function Victim(l: Layer): (z: nat)
    requires l.ecn <= |l.slots| && |l.slots| > 0
    ensures z < |l.slots| && z <= l.ecn
  {
    if l.ecn < |l.slots| then l.ecn else Lru(l.slots, l.ecn)
  }

  /** Hide the victim slot and count the load. */
  function Hide(l: Layer): Layer
    requires l.ecn <= |l.slots| && |l.slots| > 0
  {
    var z := Victim(l);
    l.(slots := l.slots[z := l.slots[z].(eid := -1)], inflight := l.inflight + 1)
  }

  /** The main thread's promotion of a freshly loaded expert. */
  function Admit(l: Layer, eid: nat, used: nat): Layer
    requires l.ecn <= |l.slots| && |l.slots| > 0
  {
    var z := Victim(l);
    Layer(l.slots[z := Slot(eid, Weights(eid), used)], if z == l.ecn then l.ecn + 1 else l.ecn, l.inflight)
  }

  /** The pilot's last lock section: stamp and publish a good load, count it off. */
  function Publish(l: Layer, p: Load, used: nat): Layer
    requires p.slot < |l.slots| && l.inflight > 0
  {
    if p.phase == Read(true) then
      Layer(l.slots[p.slot := l.slots[p.slot].(used := used)], if p.isNew then p.slot + 1 else l.ecn, l.inflight - 1)
    else
      l.(inflight := l.inflight - 1)
  }

  predicate Enabled(s: State, a: Action)
    requires ShapeOk(s)
  {
    match a
    case NewForward => s.main.Outside?
    case Enter(l) => s.main.Outside? && l < |s.layers| && s.cur <= l
    case PassBarrier => s.main.Waiting? && s.layers[s.main.layer].inflight == 0
    case Hit(z) => s.main.Inside? && z < s.layers[s.main.layer].ecn
    case Miss(e) => s.main.Inside? && !Resident(s.layers[s.main.layer], e)
    case Promote(e) => s.main.Inside? && e in s.missed
    case Leave => s.main.Inside?
    case PilotStart(l, e, pinned) => s.pilot.None? && l < |s.layers|
    case PilotScribble => s.pilot.Some? && s.pilot.value.phase.Reading?
    case PilotReadDone(ok) => s.pilot.Some? && s.pilot.value.phase.Reading?
    case PilotPublish => s.pilot.Some? && s.pilot.value.phase.Read?
  }

  /** Indices that must be in range for the actions to make sense. */
  predicate ShapeOk(s: State) {
    && (forall l :: 0 <= l < |s.layers| ==> s.layers[l].ecn <= |s.layers[l].slots| && |s.layers[l].slots| > 0)
    && (!s.main.Outside? ==> s.main.layer < |s.layers|)
    && (s.pilot.Some? ==>
          var p := s.pilot.value;
          p.layer < |s.layers| && p.slot < |s.layers[p.layer].slots| && s.layers[p.layer].inflight > 0)
  }

  function Put(s: State, l: nat, layer: Layer): State
    requires l < |s.layers|
  {
    s.(layers := s.layers[l := layer])
  }

  function Apply(s: State, a: Action): State
    requires ShapeOk(s) && Enabled(s, a)
  {
    match a
    case NewForward => s.(cur := -1, passed := {})
    case Enter(l) => s.(cur := l, main := Waiting(l))
    case PassBarrier => s.(main := Inside(s.main.layer), passed := s.passed + {s.main.layer}, missed := {})
    case Hit(z) =>
      var l := s.layers[s.main.layer];
      Put(s, s.main.layer, l.(slots := l.slots[z := l.slots[z].(used := s.clock + 1)])).(clock := s.clock + 1)
    case Miss(e) => s.(missed := s.missed + {e})
    case Promote(e) =>
      var now := s.clock + 1;
      Put(s, s.main.layer, Admit(s.layers[s.main.layer], e, now)).(clock := now, missed := s.missed - {e})
    case Leave => s.(main := Outside)
    case PilotStart(l, e, pinned) =>
      if l <= s.cur || pinned || Resident(s.layers[l], e) then s
      else
        var z := Victim(s.layers[l]);
        Put(s, l, Hide(s.layers[l])).(pilot := Some(Load(l, e, z, z == s.layers[l].ecn, Reading)))
    case PilotScribble =>
      var p := s.pilot.value;
      var l := s.layers[p.layer];
      Put(s, p.layer, l.(slots := l.slots[p.slot := l.slots[p.slot].(data := Torn)]))
    case PilotReadDone(ok) =>
      var p := s.pilot.value;
      var l := s.layers[p.layer];
      var slot := if ok then Slot(p.eid, Weights(p.eid), l.slots[p.slot].used) else l.slots[p.slot].(data := Torn);
      Put(s, p.layer, l.(slots := l.slots[p.slot := slot])).(pilot := Some(p.(phase := Read(ok))))
    case PilotPublish =>
      var p := s.pilot.value;
      Put(s, p.layer, Publish(s.layers[p.layer], p, s.clock + 1)).(pilot := None, clock := s.clock + 1)
  }

  /** The pilot's load, if it is on layer l. */
  function LoadOn(s: State, l: nat): Option<Load> {
    if s.pilot.Some? && s.pilot.value.layer == l then s.pilot else None
  }

  /** Every visible expert is whole and there once; what is hidden is the pilot's. */
  ghost predicate LayerOk(l: Layer, load: Option<Load>) {
    && l.ecn <= |l.slots| && |l.slots| > 0
    && Whole(l)
    && Distinct(l)
    && l.inflight == (if load.Some? then 1 else 0)
    && (load.Some? ==> LoadOk(l, load.value))
  }

  /** A slot that can be matched holds all of the expert it names. */
  ghost predicate Whole(l: Layer)
    requires l.ecn <= |l.slots|
  {
    forall z :: 0 <= z < l.ecn && l.slots[z].eid >= 0 ==> l.slots[z].data == Weights(l.slots[z].eid)
  }

  ghost predicate Distinct(l: Layer)
    requires l.ecn <= |l.slots|
  {
    forall y, z :: 0 <= y < z < l.ecn && l.slots[y].eid >= 0 ==> l.slots[y].eid != l.slots[z].eid
  }

  ghost predicate LoadOk(l: Layer, p: Load)
    requires l.ecn <= |l.slots|
  {
    && p.slot < |l.slots| && (if p.isNew then p.slot == l.ecn else p.slot < l.ecn)
    && (forall z :: 0 <= z < l.ecn && z != p.slot ==> l.slots[z].eid != p.eid)
    && (if p.phase == Read(true) then l.slots[p.slot].eid == p.eid && l.slots[p.slot].data == Weights(p.eid)
        else l.slots[p.slot].eid == -1)
  }

  /** What was missed is still not there when it is promoted: nobody else can have put it
      there in the meantime. */
  ghost predicate Lacks(l: Layer, eid: nat) {
    l.ecn <= |l.slots| && !Resident(l, eid)
  }

  ghost predicate Inv(s: State) {
    && (forall l :: 0 <= l < |s.layers| ==> LayerOk(s.layers[l], LoadOn(s, l)))
    && (s.pilot.Some? ==> s.pilot.value.layer < |s.layers|)
    && (!s.main.Outside? ==> s.main.layer < |s.layers| && s.cur == s.main.layer)
    && (s.main.Inside? ==> s.main.layer in s.passed)
    && (s.main.Inside? ==> forall e :: e in s.missed ==> Lacks(s.layers[s.main.layer], e))
    && (forall l :: l in s.passed ==> l <= s.cur && LoadOn(s, l).None?)
  }

  lemma InvShape(s: State)
    requires Inv(s)
    ensures ShapeOk(s)
  {
    if s.pilot.Some? { assert LayerOk(s.layers[s.pilot.value.layer], LoadOn(s, s.pilot.value.layer)); }
    forall l | 0 <= l < |s.layers| ensures s.layers[l].ecn <= |s.layers[l].slots| && |s.layers[l].slots| > 0 {
      assert LayerOk(s.layers[l], LoadOn(s, l));
    }
  }

  ghost predicate Init(s: State) {
    && (forall l :: 0 <= l < |s.layers| ==>
        s.layers[l].ecn == 0 && s.layers[l].inflight == 0 && |s.layers[l].slots| > 0)
    && s.cur == -1 && s.main == Outside && s.pilot == None && s.passed == {} && s.missed == {}
  }

  /** A run: from an initial state, one enabled action of either thread at a time. */
  ghost predicate Run(init: State, actions: seq<Action>, s: State)
    decreases |actions|
  {
    if actions == [] then Init(init) && s == init
    else exists before ::
      && Run(init, actions[..|actions| - 1], before)
      && ShapeOk(before) && Enabled(before, actions[|actions| - 1]) && s == Apply(before, actions[|actions| - 1])
  }

  // ----- each action keeps the invariant

  lemma AdmitKeeps(l: Layer, eid: nat, used: nat)
    requires LayerOk(l, None) && !Resident(l, eid)
    ensures LayerOk(Admit(l, eid, used), None)
  {
    var l' := Admit(l, eid, used);
    forall y, z | 0 <= y < z < l'.ecn && l'.slots[y].eid >= 0 ensures l'.slots[y].eid != l'.slots[z].eid {
      assert forall x :: 0 <= x < l.ecn ==> l.slots[x].eid != eid;
    }
  }

  lemma HideKeeps(l: Layer, eid: nat, n: nat)
    requires LayerOk(l, None) && !Resident(l, eid)
    ensures LayerOk(Hide(l), Some(Load(n, eid, Victim(l), Victim(l) == l.ecn, Reading)))
  {
    assert forall x :: 0 <= x < l.ecn ==> l.slots[x].eid != eid;
  }

  lemma PublishKeeps(l: Layer, p: Load, used: nat)
    requires LayerOk(l, Some(p)) && p.phase.Read?
    ensures LayerOk(Publish(l, p, used), None)
  {
  }

  lemma ReadKeeps(l: Layer, p: Load, ok: bool)
    requires LayerOk(l, Some(p)) && p.phase.Reading?
    ensures var slot := if ok then Slot(p.eid, Weights(p.eid), l.slots[p.slot].used)
                        else l.slots[p.slot].(data := Torn);
            && LayerOk(l.(slots := l.slots[p.slot := slot]), Some(p.(phase := Read(ok))))
            && (!ok ==> LayerOk(l.(slots := l.slots[p.slot := slot]), Some(p)))
  {
  }

  lemma HitKeeps(l: Layer, z: nat, used: nat)
    requires LayerOk(l, None) && z < l.ecn
    ensures LayerOk(l.(slots := l.slots[z := l.slots[z].(used := used)]), None)
  {
  }

  lemma StepKeepsInv(s: State, a: Action)
    requires Inv(s) && ShapeOk(s) && Enabled(s, a)
    ensures Inv(Apply(s, a))
  {
    match a
    case NewForward =>
    case Enter(l) =>
    case PassBarrier => assert LayerOk(s.layers[s.main.layer], LoadOn(s, s.main.layer));
    case Leave =>
    case Hit(z) => HitKeepsInv(s, z);
    case Miss(e) =>
    case Promote(e) => PromoteKeepsInv(s, e);
    case PilotStart(l, e, pinned) => PilotStartKeepsInv(s, l, e, pinned);
    case PilotScribble => PilotKeepsInv(s, a);
    case PilotReadDone(ok) => PilotKeepsInv(s, a);
    case PilotPublish => PilotKeepsInv(s, a);
  }

  lemma HitKeepsInv(s: State, slot: nat)
    requires Inv(s) && ShapeOk(s) && Enabled(s, Hit(slot))
    ensures Inv(Apply(s, Hit(slot)))
  {
    var m := s.main.layer;
    assert LayerOk(s.layers[m], LoadOn(s, m));
    HitKeeps(s.layers[m], slot, s.clock + 1);
    var s' := Apply(s, Hit(slot));
    forall l | 0 <= l < |s'.layers| ensures LayerOk(s'.layers[l], LoadOn(s', l)) {
      assert LayerOk(s.layers[l], LoadOn(s, l));
    }
  }

  lemma PromoteKeepsInv(s: State, e: nat)
    requires Inv(s) && ShapeOk(s) && Enabled(s, Promote(e))
    ensures Inv(Apply(s, Promote(e)))
  {
    var m := s.main.layer;
    assert LayerOk(s.layers[m], LoadOn(s, m));
    AdmitKeeps(s.layers[m], e, s.clock + 1);
    var s' := Apply(s, Promote(e));
    forall l | 0 <= l < |s'.layers| ensures LayerOk(s'.layers[l], LoadOn(s', l)) {
      assert LayerOk(s.layers[l], LoadOn(s, l));
    }
  }

  lemma PilotStartKeepsInv(s: State, l: nat, e: nat, pinned: bool)
    requires Inv(s) && ShapeOk(s) && s.pilot.None? && l < |s.layers|
    ensures Inv(Apply(s, PilotStart(l, e, pinned)))
  {
    var s' := Apply(s, PilotStart(l, e, pinned));
    assert LayerOk(s.layers[l], LoadOn(s, l));
    if s' != s {
      HideKeeps(s.layers[l], e, l);
      forall k | 0 <= k < |s'.layers| ensures LayerOk(s'.layers[k], LoadOn(s', k)) {
        assert LayerOk(s.layers[k], LoadOn(s, k));
      }
    }
  }

  lemma PilotKeepsInv(s: State, a: Action)
    requires Inv(s) && ShapeOk(s) && Enabled(s, a) && (a.PilotScribble? || a.PilotReadDone? || a.PilotPublish?)
    ensures Inv(Apply(s, a))
  {
    var p := s.pilot.value;
    assert LayerOk(s.layers[p.layer], LoadOn(s, p.layer));
    if a.PilotPublish? { PublishKeeps(s.layers[p.layer], p, s.clock + 1); }
    else { ReadKeeps(s.layers[p.layer], p, a.PilotReadDone? && a.ok); }
    var s' := Apply(s, a);
    forall l | 0 <= l < |s'.layers| ensures LayerOk(s'.layers[l], LoadOn(s', l)) {
      assert LayerOk(s.layers[l], LoadOn(s, l));
    }
  }

  lemma {:induction false} RunKeepsInv(init: State, actions: seq<Action>, s: State)
    requires Run(init, actions, s)
    ensures Inv(s)
    decreases |actions|
  {
    if actions != [] {
      var a := actions[|actions| - 1];
      var before :| Run(init, actions[..|actions| - 1], before) && ShapeOk(before)
          && Enabled(before, a) && s == Apply(before, a);
      RunKeepsInv(init, actions[..|actions| - 1], before);
      StepKeepsInv(before, a);
    }
  }

  /** In every interleaving: on a layer whose barrier has been passed in this forward no
      load is in flight and none can start, and every expert the main thread can match
      there is whole; no layer ever shows an expert twice. */
  lemma PilotIsSafe(init: State, actions: seq<Action>, s: State)
    requires Run(init, actions, s)
    ensures ShapeOk(s)
    ensures forall l :: 0 <= l < |s.layers| ==> Distinct(s.layers[l]) && Whole(s.layers[l])
    ensures s.main.Inside? ==> s.main.layer in s.passed
    ensures forall l :: l in s.passed && l < |s.layers| ==> s.layers[l].inflight == 0 && LoadOn(s, l).None?
    ensures forall l, e, pinned :: l in s.passed && Enabled(s, PilotStart(l, e, pinned)) ==>
              Apply(s, PilotStart(l, e, pinned)) == s
  {
    RunKeepsInv(init, actions, s);
    InvShape(s);
    forall l | 0 <= l < |s.layers| ensures LayerOk(s.layers[l], LoadOn(s, l)) {}
  }

  /** A load the barrier is waiting for releases it when it ends, failed or not. */
  lemma LoadsReleaseTheBarrier(init: State, actions: seq<Action>, s: State, ok: bool)
    requires Run(init, actions, s) && s.main.Waiting? && ShapeOk(s)
    ensures s.layers[s.main.layer].inflight > 0 ==>
              && s.pilot.Some? && s.pilot.value.layer == s.main.layer
              && (s.pilot.value.phase.Reading? ==>
                    var r := Apply(s, PilotReadDone(ok));
                    ShapeOk(r) && Enabled(r, PilotPublish)
                    && var d := Apply(r, PilotPublish); ShapeOk(d) && d.main == s.main && Enabled(d, PassBarrier))
              && (s.pilot.value.phase.Read? ==>
                    var d := Apply(s, PilotPublish); ShapeOk(d) && d.main == s.main && Enabled(d, PassBarrier))
  {
    RunKeepsInv(init, actions, s);
    var m := s.main.layer;
    assert LayerOk(s.layers[m], LoadOn(s, m));
    if s.layers[m].inflight > 0 {
      if s.pilot.value.phase.Reading? {
        var r := Apply(s, PilotReadDone(ok));
        StepKeepsInv(s, PilotReadDone(ok));
        InvShape(r);
        PublishReleases(r);
      } else {
        PublishReleases(s);
      }
    }
  }

  lemma PublishReleases(s: State)
    requires Inv(s) && ShapeOk(s) && Enabled(s, PilotPublish) && s.main.Waiting? && s.pilot.value.layer == s.main.layer
    ensures var d := Apply(s, PilotPublish); ShapeOk(d) && d.main == s.main && Enabled(d, PassBarrier)
  {
    assert LayerOk(s.layers[s.main.layer], LoadOn(s, s.main.layer));
    StepKeepsInv(s, PilotPublish);
    InvShape(Apply(s, PilotPublish));
  }
}
