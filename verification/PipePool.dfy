/** The asynchronous expert-load pool (c/engines/glm.c, pipe_worker, pipe_dispatch and
    pipe_wait): worker threads claim jobs of the current batch by advancing a cursor
    that carries the batch's generation. One action below is one atomic operation. The
    cursor is the pair (gen, idx), packed as gen * 256 + idx in the source.

    The source stores the job count before it publishes the new cursor; with `atomic`
    the count changes in the same step as the cursor, as its comment assumes. */
module PipePool {

  const SLOTS := 64

  datatype Content = Holds(layer: nat, eid: nat) | Torn

  datatype Batch = Batch(layer: nat, eids: seq<nat>)

  datatype Config = Config(batches: seq<Batch>, atomic: bool)

  datatype Worker =
    | Parked(seen: nat)                               // until the generation differs from seen
    | Fetch                                           // about to load the cursor
    | Fetched(g: nat, i: nat)                         // about to compare i with njobs
    | Tried(g: nat, i: nat)                           // about to compare-and-swap the cursor
    | Won(g: nat, i: nat)                             // job claimed, about to read the layer
    | WonLayer(g: nat, i: nat, layer: nat)            // about to read the expert id
    | Loading(g: nat, i: nat, layer: nat, eid: nat)   // reading the expert into slot i
    | Loaded(g: nat, i: nat)                          // about to set ready[i]

  datatype Main = SetJobs | SetLayer | SetEid(q: nat) | Reset(q: nat) | Publish | Wait(q: nat) | Recycle

  datatype State = State(
    njobs: nat, layer: nat, eids: seq<nat>, ready: seq<bool>, gen: nat, idx: nat,
    ws: seq<Content>, workers: seq<Worker>, main: Main, claims: seq<(nat, nat)>)

  datatype Action =
    | MainStep
    | Swap(contents: seq<Content>)      // the batch is used; its slots are exchanged with the cache
    | Step(w: nat)
    | CasFails(w: nat)                  // a weak compare-and-swap may fail without reason

  predicate ConfigOk(c: Config) {
    forall k :: 0 <= k < |c.batches| ==> 0 < |c.batches[k].eids| <= SLOTS
  }

  /** The job count of the batch published as generation g (none before the first). */
  function Limit(c: Config, g: nat): nat
    requires g <= |c.batches|
  {
    if g == 0 then 0 else |c.batches[g - 1].eids|
  }

  predicate Shape(c: Config, s: State) {
    && ConfigOk(c) && |s.eids| == |s.ready| == |s.ws| == SLOTS && s.gen <= |c.batches|
    && (Dispatching(s) && !s.main.SetJobs? ==> s.gen < |c.batches|)
    && match s.main
       case SetEid(q) => q <= |c.batches[s.gen].eids|
       case Reset(q) => q <= |c.batches[s.gen].eids|
       case Wait(q) => s.gen > 0 && q <= Limit(c, s.gen)
       case Recycle => s.gen > 0
       case _ => true
  }

  /** The main thread is preparing a batch it has not published yet. */
  predicate Dispatching(s: State) {
    s.main.SetJobs? || s.main.SetLayer? || s.main.SetEid? || s.main.Reset? || s.main.Publish?
  }

  predicate Enabled(c: Config, s: State, a: Action)
    requires Shape(c, s)
  {
    match a
    case MainStep =>
      if s.main.SetJobs? then s.gen < |c.batches|
      else if s.main.Wait? then s.main.q == Limit(c, s.gen) || s.ready[s.main.q]
      else !s.main.Recycle?
    case Swap(contents) => s.main.Recycle? && |contents| == SLOTS
    case Step(w) =>
      w < |s.workers| && WorkerCan(s, s.workers[w])
    case CasFails(w) => w < |s.workers| && s.workers[w].Tried?
  }

  predicate WorkerCan(s: State, x: Worker) {
    match x
    case Parked(seen) => s.gen != seen
    case Won(g, i) => i < |s.eids|
    case WonLayer(g, i, l) => i < |s.eids| && i < |s.ws|
    case Loading(g, i, l, e) => i < |s.ws|
    case Loaded(g, i) => i < |s.ready|
    case _ => true
  }

  function ApplyMain(c: Config, s: State): State
    requires Shape(c, s) && Enabled(c, s, MainStep)
  {
    match s.main
    case SetJobs =>
      s.(njobs := if c.atomic then s.njobs else |c.batches[s.gen].eids|, main := SetLayer)
    case SetLayer => s.(layer := c.batches[s.gen].layer, main := SetEid(0))
    case SetEid(q) =>
      var eids := c.batches[s.gen].eids;
      if q < |eids| then s.(eids := s.eids[q := eids[q]], main := SetEid(q + 1)) else s.(main := Reset(0))
    case Reset(q) =>
      if q < |c.batches[s.gen].eids| then s.(ready := s.ready[q := false], main := Reset(q + 1))
      else s.(main := Publish)
    case Publish =>
      s.(njobs := if c.atomic then |c.batches[s.gen].eids| else s.njobs, gen := s.gen + 1, idx := 0, main := Wait(0))
    case Wait(q) => if q < Limit(c, s.gen) then s.(main := Wait(q + 1)) else s.(main := Recycle)
    case Recycle => s
  }

  function ApplyWorker(s: State, w: nat): State
    requires w < |s.workers| && WorkerCan(s, s.workers[w])
  {
    match s.workers[w]
    case Parked(seen) => s.(workers := s.workers[w := Fetch])
    case Fetch => s.(workers := s.workers[w := Fetched(s.gen, s.idx)])
    case Fetched(g, i) => s.(workers := s.workers[w := if i >= s.njobs then Parked(g) else Tried(g, i)])
    case Tried(g, i) =>
      if g == s.gen && i == s.idx then
        s.(idx := s.idx + 1, claims := s.claims + [(g, i)], workers := s.workers[w := Won(g, i)])
      else s.(workers := s.workers[w := Fetch])
    case Won(g, i) => s.(workers := s.workers[w := WonLayer(g, i, s.layer)])
    case WonLayer(g, i, l) => s.(ws := s.ws[i := Torn], workers := s.workers[w := Loading(g, i, l, s.eids[i])])
    case Loading(g, i, l, e) => s.(ws := s.ws[i := Holds(l, e)], workers := s.workers[w := Loaded(g, i)])
    case Loaded(g, i) => s.(ready := s.ready[i := true], workers := s.workers[w := Fetch])
  }

  function Apply(c: Config, s: State, a: Action): State
    requires Shape(c, s) && Enabled(c, s, a)
  {
    match a
    case MainStep => ApplyMain(c, s)
    case Swap(contents) => s.(ws := contents, main := SetJobs)
    case Step(w) => ApplyWorker(s, w)
    case CasFails(w) => s.(workers := s.workers[w := Fetch])
  }

  ghost predicate Init(c: Config, s: State) {
    && ConfigOk(c) && |s.eids| == |s.ready| == |s.ws| == SLOTS
    && s.njobs == 0 && s.gen == 0 && s.idx == 0 && s.main.SetJobs? && s.claims == []
    && forall w :: 0 <= w < |s.workers| ==> s.workers[w] == Parked(0)
  }

  /** From s the actions lead to t, every one of them enabled in its turn. */
  predicate Reaches(c: Config, s: State, acts: seq<Action>, t: State)
    decreases |acts|
  {
    if acts == [] then s == t
    else Shape(c, s) && Enabled(c, s, acts[0]) && Reaches(c, Apply(c, s, acts[0]), acts[1..], t)
  }

  /** Worker x has claimed slot q and has yet to finish with it. */
  predicate Working(x: Worker, q: nat) {
    (x.Won? || x.WonLayer? || x.Loading? || x.Loaded?) && x.i == q
  }

  predicate Busy(x: Worker) {
    x.Won? || x.WonLayer? || x.Loading? || x.Loaded?
  }

  /** While a batch is out: a slot reported ready holds the expert this batch wants in it,
      and no worker, of this generation or an older one, is still to write it. */
  predicate Safe(c: Config, s: State) {
    s.main.Wait? && 0 < s.gen <= |c.batches| && |s.ready| == |s.ws| == SLOTS && ConfigOk(c) ==>
      var b := c.batches[s.gen - 1];
      forall q :: 0 <= q < |b.eids| && s.ready[q] ==>
        && s.ws[q] == Holds(b.layer, b.eids[q])
        && forall w :: 0 <= w < |s.workers| ==> !Working(s.workers[w], q)
  }

  // ----- the cursor, as coded or not

  predicate Before(a: (nat, nat), b: (nat, nat)) {
    a.0 < b.0 || (a.0 == b.0 && a.1 < b.1)
  }

  ghost predicate CursorOk(c: Config, s: State) {
    && ConfigOk(c) && s.idx <= SLOTS && s.njobs <= SLOTS
    && (forall w :: 0 <= w < |s.workers| && s.workers[w].Tried? ==> s.workers[w].i < SLOTS)
    && (forall k :: 0 <= k < |s.claims| ==> Before(s.claims[k], (s.gen, s.idx)))
    && (forall j, k :: 0 <= j < k < |s.claims| ==> Before(s.claims[j], s.claims[k]))
  }

  lemma CursorStep(c: Config, s: State, a: Action)
    requires CursorOk(c, s) && Shape(c, s) && Enabled(c, s, a)
    ensures CursorOk(c, Apply(c, s, a))
    ensures var s' := Apply(c, s, a); (s'.gen == s.gen && s'.idx == s.idx) || Before((s.gen, s.idx), (s'.gen, s'.idx))
  {
  }

  lemma {:induction false} CursorGrows(c: Config, s: State, acts: seq<Action>, t: State)
    requires CursorOk(c, s) && Reaches(c, s, acts, t)
    ensures CursorOk(c, t)
    ensures (t.gen == s.gen && t.idx == s.idx) || Before((s.gen, s.idx), (t.gen, t.idx))
    decreases |acts|
  {
    if acts != [] {
      CursorStep(c, s, acts[0]);
      CursorGrows(c, Apply(c, s, acts[0]), acts[1..], t);
    }
  }

  /** In every run, as coded: between any two of its states the cursor only grows, its
      index stays within 0..64 (so it never carries into the generation), and no job is
      claimed twice. */
  lemma CursorIsMonotone(c: Config, s0: State, acts: seq<Action>, s: State, more: seq<Action>, t: State)
    requires Init(c, s0) && Reaches(c, s0, acts, s) && Reaches(c, s, more, t)
    ensures s.idx <= SLOTS && t.idx <= SLOTS < 256
    ensures (t.gen == s.gen && t.idx == s.idx) || Before((s.gen, s.idx), (t.gen, t.idx))
    ensures forall j, k :: 0 <= j < k < |t.claims| ==> t.claims[j] != t.claims[k]
  {
    CursorGrows(c, s0, acts, s);
    CursorGrows(c, s, more, t);
  }

  // ----- safety

  /** Batches never grow after the first. */
  predicate NonIncreasing(batches: seq<Batch>) {
    forall k :: 0 < k < |batches| ==> |batches[k].eids| <= |batches[k - 1].eids|
  }

  /** What one worker may be up to. */
  ghost predicate WorkerOk(c: Config, s: State, x: Worker)
    requires Shape(c, s)
  {
    && (s.gen == 0 ==> x == Parked(0))
    && (x.Fetched? || x.Tried? ==> !Before((s.gen, s.idx), (x.g, x.i)))
    && (x.Tried? && x.g == s.gen && x.i == s.idx ==> s.idx < Limit(c, s.gen))
    && (Busy(x) ==> !Dispatching(s) && x.g == s.gen && x.i < s.idx)
    && (x.WonLayer? ==> x.layer == s.layer)
    && (x.Loading? ==> x.layer == s.layer && x.i < SLOTS && x.eid == s.eids[x.i])
    && (x.Loaded? ==> x.i < SLOTS && s.ws[x.i] == Holds(s.layer, s.eids[x.i]))
  }

  ghost predicate Apart(workers: seq<Worker>) {
    forall v, w :: 0 <= v < w < |workers| && Busy(workers[v]) && Busy(workers[w]) ==> workers[v].i != workers[w].i
  }

  /** A ready slot is right, was claimed, and is left alone. */
  ghost predicate ReadyOk(c: Config, s: State)
    requires Shape(c, s)
  {
    forall q :: 0 <= q < Limit(c, s.gen) && s.ready[q] ==>
      && q < s.idx && s.ws[q] == Holds(s.layer, s.eids[q])
      && forall w :: 0 <= w < |s.workers| ==> !Working(s.workers[w], q)
  }

  /** Where the main thread is, and what the shared fields say by then. */
  ghost predicate MainOk(c: Config, s: State)
    requires Shape(c, s)
  {
    var limit := Limit(c, s.gen);
    && s.idx <= limit
    && (Dispatching(s) ==> s.idx == limit)
    && (if Dispatching(s) && !s.main.SetJobs? && !c.atomic then s.njobs == |c.batches[s.gen].eids|
          else s.njobs == limit)
    && (s.main.SetEid? || s.main.Reset? || s.main.Publish? ==> s.layer == c.batches[s.gen].layer)
    && (s.main.SetEid? ==> s.eids[..s.main.q] == c.batches[s.gen].eids[..s.main.q])
    && (s.main.Reset? || s.main.Publish? ==> s.eids[..|c.batches[s.gen].eids|] == c.batches[s.gen].eids)
    && (s.main.Reset? ==> forall j :: 0 <= j < s.main.q ==> !s.ready[j])
    && (s.main.Publish? ==> forall j :: 0 <= j < |c.batches[s.gen].eids| ==> !s.ready[j])
    && (!Dispatching(s) ==> s.layer == c.batches[s.gen - 1].layer && s.eids[..limit] == c.batches[s.gen - 1].eids)
    && (s.main.Wait? ==> forall j :: 0 <= j < s.main.q ==> s.ready[j])
    && (s.main.Recycle? ==> forall j :: 0 <= j < limit ==> s.ready[j])
  }

  ghost predicate Inv(c: Config, s: State) {
    && Shape(c, s) && (c.atomic || NonIncreasing(c.batches))
    && MainOk(c, s)
    && (!Dispatching(s) ==> ReadyOk(c, s))
    && Apart(s.workers)
    && forall w :: 0 <= w < |s.workers| ==> WorkerOk(c, s, s.workers[w])
  }

  lemma InvIsSafe(c: Config, s: State)
    requires Inv(c, s)
    ensures Safe(c, s)
  {
    if s.main.Wait? {
      var b := c.batches[s.gen - 1];
      forall q | 0 <= q < |b.eids| && s.ready[q] ensures s.eids[q] == b.eids[q] {
        assert s.eids[..|b.eids|][q] == b.eids[q];
      }
    }
  }

  lemma MainKeepsInv(c: Config, s: State)
    requires Inv(c, s) && Enabled(c, s, MainStep)
    ensures Inv(c, ApplyMain(c, s))
  {
    if s.main.SetEid? {
      SetEidKeeps(c, s);
    } else if s.main.Publish? {
      PublishKeeps(c, s);
    }
  }

  lemma SetEidKeeps(c: Config, s: State)
    requires Inv(c, s) && s.main.SetEid?
    ensures MainOk(c, ApplyMain(c, s))
  {
    var q, eids := s.main.q, c.batches[s.gen].eids;
    if q < |eids| {
      assert s.eids[q := eids[q]][..q + 1] == s.eids[..q] + [eids[q]];
      assert eids[..q + 1] == eids[..q] + [eids[q]];
    } else {
      assert eids[..q] == eids;
    }
  }

  lemma PublishKeeps(c: Config, s: State)
    requires Inv(c, s) && s.main.Publish?
    ensures Inv(c, ApplyMain(c, s))
  {
  }

  /** When the batch has been waited for, no worker is at work on it. */
  lemma RecycleIsQuiet(c: Config, s: State)
    requires Inv(c, s) && s.main.Recycle?
    ensures forall w :: 0 <= w < |s.workers| ==> !Busy(s.workers[w])
  {
    forall w | 0 <= w < |s.workers| ensures !Busy(s.workers[w]) {
      if Busy(s.workers[w]) {
        ReadyIsQuiet(c, s, s.workers[w].i, w);
        assert false;
      }
    }
  }

  lemma ReadyIsQuiet(c: Config, s: State, q: nat, w: nat)
    requires Inv(c, s) && !Dispatching(s) && q < Limit(c, s.gen) && s.ready[q] && w < |s.workers|
    ensures !Working(s.workers[w], q)
  {
  }

  lemma SwapKeepsInv(c: Config, s: State, contents: seq<Content>)
    requires Inv(c, s) && Enabled(c, s, Swap(contents))
    ensures Inv(c, Apply(c, s, Swap(contents)))
  {
    RecycleIsQuiet(c, s);
    assert s.ready[Limit(c, s.gen) - 1];
  }

  lemma WorkerKeepsMain(c: Config, s: State, w: nat)
    requires Inv(c, s) && Enabled(c, s, Step(w))
    ensures Shape(c, ApplyWorker(s, w)) && MainOk(c, ApplyWorker(s, w))
  {
    assert WorkerOk(c, s, s.workers[w]);
  }

  lemma WorkerKeepsReady(c: Config, s: State, w: nat)
    requires Inv(c, s) && Enabled(c, s, Step(w)) && !Dispatching(s)
    ensures ReadyOk(c, ApplyWorker(s, w))
  {
    WorkerKeepsMain(c, s, w);
    assert WorkerOk(c, s, s.workers[w]);
    if Busy(s.workers[w]) { assert Working(s.workers[w], s.workers[w].i); }
  }

  lemma WorkerKeepsApart(c: Config, s: State, w: nat)
    requires Inv(c, s) && Enabled(c, s, Step(w))
    ensures Apart(ApplyWorker(s, w).workers)
  {
    assert WorkerOk(c, s, s.workers[w]);
  }

  lemma WorkerKeepsOther(c: Config, s: State, w: nat, v: nat)
    requires Inv(c, s) && Enabled(c, s, Step(w)) && v < |s.workers| && v != w
    ensures Shape(c, ApplyWorker(s, w)) && WorkerOk(c, ApplyWorker(s, w), s.workers[v])
  {
    WorkerKeepsMain(c, s, w);
    assert WorkerOk(c, s, s.workers[w]) && WorkerOk(c, s, s.workers[v]);
  }

  lemma WorkerKeepsItself(c: Config, s: State, w: nat)
    requires Inv(c, s) && Enabled(c, s, Step(w))
    ensures Shape(c, ApplyWorker(s, w)) && WorkerOk(c, ApplyWorker(s, w), ApplyWorker(s, w).workers[w])
  {
    WorkerKeepsMain(c, s, w);
    match s.workers[w]
    case Tried(g, i) => assert WorkerOk(c, s, Tried(g, i));
    case Won(g, i) => assert WorkerOk(c, s, Won(g, i));
    case WonLayer(g, i, l) => assert WorkerOk(c, s, WonLayer(g, i, l));
    case Loading(g, i, l, e) => assert WorkerOk(c, s, Loading(g, i, l, e));
    case Loaded(g, i) => assert WorkerOk(c, s, Loaded(g, i));
    case _ =>
  }

  lemma WorkerKeepsInv(c: Config, s: State, w: nat)
    requires Inv(c, s) && Enabled(c, s, Step(w))
    ensures Inv(c, ApplyWorker(s, w))
  {
    var s' := ApplyWorker(s, w);
    WorkerKeepsMain(c, s, w);
    if !Dispatching(s) { WorkerKeepsReady(c, s, w); }
    WorkerKeepsApart(c, s, w);
    WorkerKeepsItself(c, s, w);
    forall v | 0 <= v < |s'.workers| ensures WorkerOk(c, s', s'.workers[v]) {
      if v != w { WorkerKeepsOther(c, s, w, v); }
    }
  }

  lemma CasKeepsInv(c: Config, s: State, w: nat)
    requires Inv(c, s) && Enabled(c, s, CasFails(w))
    ensures Inv(c, Apply(c, s, CasFails(w)))
  {
  }

  lemma StepKeepsInv(c: Config, s: State, a: Action)
    requires Inv(c, s) && Enabled(c, s, a)
    ensures Inv(c, Apply(c, s, a))
  {
    match a
    case MainStep => MainKeepsInv(c, s);
    case Swap(contents) => SwapKeepsInv(c, s, contents);
    case Step(w) => WorkerKeepsInv(c, s, w);
    case CasFails(w) => CasKeepsInv(c, s, w);
  }

  lemma {:induction false} RunKeepsInv(c: Config, s: State, acts: seq<Action>, t: State)
    requires Inv(c, s) && Reaches(c, s, acts, t)
    ensures Inv(c, t)
    decreases |acts|
  {
    if acts != [] {
      StepKeepsInv(c, s, acts[0]);
      RunKeepsInv(c, Apply(c, s, acts[0]), acts[1..], t);
    }
  }

  ghost predicate AlwaysSafe(c: Config, s: State) {
    forall acts, t :: Reaches(c, s, acts, t) ==> Safe(c, t)
  }

  /** The pool is safe in every schedule when the job count changes together with the
      cursor; and as coded, when no batch has more jobs than the one before it. */
  lemma PoolIsSafe(c: Config, s: State)
    requires Init(c, s) && (c.atomic || NonIncreasing(c.batches))
    ensures AlwaysSafe(c, s)
  {
    forall acts, t | Reaches(c, s, acts, t) ensures Safe(c, t) {
      RunKeepsInv(c, s, acts, t);
      InvIsSafe(c, t);
    }
  }

  // ----- and otherwise it is not: a schedule that goes wrong

  lemma {:induction false} Join(c: Config, s: State, a: seq<Action>, t: State, b: seq<Action>, u: State)
    requires Reaches(c, s, a, t) && Reaches(c, t, b, u)
    ensures Reaches(c, s, a + b, u)
    decreases |a|
  {
    if a == [] {
      assert a + b == b;
    } else {
      Join(c, Apply(c, s, a[0]), a[1..], t, b, u);
      assert (a + b)[1..] == a[1..] + b;
    }
  }

  lemma One(c: Config, s: State, a: Action)
    requires Shape(c, s) && Enabled(c, s, a)
    ensures Reaches(c, s, [a], Apply(c, s, a))
  {
    assert Reaches(c, Apply(c, s, a), [], Apply(c, s, a));
  }

  /** Main-thread steps left until the batch is published. */
  function StepsLeft(c: Config, s: State): nat
    requires Shape(c, s) && Dispatching(s) && s.gen < |c.batches|
  {
    var n := |c.batches[s.gen].eids|;
    match s.main
    case SetJobs => 2 * n + 5
    case SetLayer => 2 * n + 4
    case SetEid(q) => 2 * n + 3 - q
    case Reset(q) => n + 1 - q
    case _ => 0
  }

  /** The main thread can publish the batch while the workers stand still. */
  lemma {:induction false} Dispatches(c: Config, s: State) returns (acts: seq<Action>, t: State)
    requires Shape(c, s) && Dispatching(s) && s.gen < |c.batches| && !c.atomic
    ensures Reaches(c, s, acts, t) && Shape(c, t)
    ensures t.main == Wait(0) && t.gen == s.gen + 1 && t.idx == 0 && t.workers == s.workers
    ensures t.njobs == if s.main.SetJobs? then |c.batches[s.gen].eids| else s.njobs
    decreases StepsLeft(c, s)
  {
    t := ApplyMain(c, s);
    One(c, s, MainStep);
    acts := [MainStep];
    if !s.main.Publish? {
      var more, u := Dispatches(c, t);
      Join(c, s, acts, t, more, u);
      acts, t := acts + more, u;
    }
  }

  /** The main thread waits for a batch whose slots are all ready, and uses it. */
  lemma {:induction false} Waits(c: Config, s: State) returns (acts: seq<Action>, t: State)
    requires Shape(c, s) && s.main.Wait? && forall q :: 0 <= q < Limit(c, s.gen) ==> s.ready[q]
    ensures Reaches(c, s, acts, t) && Shape(c, t) && t == s.(main := SetJobs)
    decreases Limit(c, s.gen) - s.main.q
  {
    var s' := ApplyMain(c, s);
    One(c, s, MainStep);
    var more: seq<Action>;
    if s'.main.Recycle? {
      more := [Swap(s.ws)];
      One(c, s', Swap(s.ws));
      t := Apply(c, s', Swap(s.ws));
    } else {
      more, t := Waits(c, s');
    }
    acts := [MainStep] + more;
    Join(c, s, [MainStep], s', more, t);
  }

  /** A published batch of which worker 0 has loaded the first i experts. */
  ghost predicate Out(c: Config, s: State, i: nat) {
    && Shape(c, s) && s.main == Wait(0) && s.idx == i <= s.njobs == Limit(c, s.gen)
    && |s.workers| > 0 && s.workers[0] == Fetch
    && forall q :: 0 <= q < i ==> s.ready[q]
  }

  lemma LoadsOne(c: Config, s: State, i: nat) returns (acts: seq<Action>, t: State)
    requires Out(c, s, i) && i < s.njobs
    ensures Reaches(c, s, acts, t) && Out(c, t, i + 1) && t.gen == s.gen
    ensures forall q :: 0 <= q < SLOTS && s.ready[q] ==> t.ready[q]
  {
    var a, s' := Claims(c, s, i);
    var b;
    b, t := Finishes(c, s', s.gen, i);
    Join(c, s, a, s', b, t);
    acts := a + b;
  }

  /** Worker 0 fetches the cursor, passes the test and claims job i. */
  lemma Claims(c: Config, s: State, i: nat) returns (acts: seq<Action>, t: State)
    requires Out(c, s, i) && i < s.njobs
    ensures Reaches(c, s, acts, t) && Shape(c, t)
    ensures t == s.(idx := i + 1, claims := s.claims + [(s.gen, i)], workers := s.workers[0 := Won(s.gen, i)])
  {
    var s1 := Apply(c, s, Step(0));
    var s2 := Apply(c, s1, Step(0));
    t := Apply(c, s2, Step(0));
    One(c, s, Step(0));
    One(c, s1, Step(0));
    One(c, s2, Step(0));
    Join(c, s, [Step(0)], s1, [Step(0)], s2);
    Join(c, s, [Step(0)] + [Step(0)], s2, [Step(0)], t);
    acts := [Step(0)] + [Step(0)] + [Step(0)];
    assert t.workers == s.workers[0 := Won(s.gen, i)];
  }

  /** Worker 0 loads the expert it has claimed and reports the slot ready. */
  lemma Finishes(c: Config, s: State, g: nat, i: nat) returns (acts: seq<Action>, t: State)
    requires Shape(c, s) && |s.workers| > 0 && s.workers[0] == Won(g, i) && i < SLOTS
    ensures Reaches(c, s, acts, t) && Shape(c, t)
    ensures t == s.(ws := t.ws, ready := s.ready[i := true], workers := s.workers[0 := Fetch])
  {
    var two, s2 := Begins(c, s, g, i);
    var s3 := Apply(c, s2, Step(0));
    t := Apply(c, s3, Step(0));
    One(c, s2, Step(0));
    One(c, s3, Step(0));
    Join(c, s2, [Step(0)], s3, [Step(0)], t);
    Join(c, s, two, s2, [Step(0)] + [Step(0)], t);
    acts := two + ([Step(0)] + [Step(0)]);
    assert t.workers == s.workers[0 := Fetch];
  }

  /** It first reads what to load. */
  lemma Begins(c: Config, s: State, g: nat, i: nat) returns (acts: seq<Action>, t: State)
    requires Shape(c, s) && |s.workers| > 0 && s.workers[0] == Won(g, i) && i < SLOTS
    ensures Reaches(c, s, acts, t) && Shape(c, t)
    ensures t == s.(ws := s.ws[i := Torn], workers := s.workers[0 := Loading(g, i, s.layer, s.eids[i])])
  {
    var s1 := Apply(c, s, Step(0));
    t := Apply(c, s1, Step(0));
    One(c, s, Step(0));
    One(c, s1, Step(0));
    Join(c, s, [Step(0)], s1, [Step(0)], t);
    acts := [Step(0)] + [Step(0)];
    assert t.workers == s.workers[0 := Loading(g, i, s.layer, s.eids[i])];
  }

  lemma {:induction false} LoadsUpTo(c: Config, s: State, i: nat, n: nat) returns (acts: seq<Action>, t: State)
    requires Out(c, s, i) && i <= n <= s.njobs
    ensures Reaches(c, s, acts, t) && Out(c, t, n) && t.gen == s.gen
    ensures forall q :: 0 <= q < SLOTS && s.ready[q] ==> t.ready[q]
    decreases n - i
  {
    if i == n {
      acts, t := [], s;
    } else {
      var a, s' := LoadsOne(c, s, i);
      var b;
      b, t := LoadsUpTo(c, s', i + 1, n);
      Join(c, s, a, s', b, t);
      acts := a + b;
    }
  }

  /** The first k batches have been served and worker 0 is about to fetch the cursor. */
  ghost predicate Served(c: Config, s: State, k: nat) {
    && Shape(c, s) && s.main.SetJobs? && s.gen == k <= |c.batches| && s.idx == Limit(c, k)
    && |s.workers| > 0 && s.workers[0] == Fetch
  }

  lemma ServesNext(c: Config, s: State, k: nat) returns (acts: seq<Action>, t: State)
    requires Served(c, s, k) && k < |c.batches| && !c.atomic
    ensures Reaches(c, s, acts, t) && Served(c, t, k + 1)
  {
    var a, s1 := Dispatches(c, s);
    var b, s2 := LoadsUpTo(c, s1, 0, s1.njobs);
    var d;
    d, t := Waits(c, s2);
    Join(c, s, a, s1, b, s2);
    Join(c, s, a + b, s2, d, t);
    acts := a + b + d;
  }

  lemma ServesFirst(c: Config, s: State) returns (acts: seq<Action>, t: State)
    requires Init(c, s) && |s.workers| > 0 && |c.batches| > 0 && !c.atomic
    ensures Reaches(c, s, acts, t) && Served(c, t, 1)
  {
    var a, s1 := Dispatches(c, s);
    var s2 := Apply(c, s1, Step(0));
    One(c, s1, Step(0));
    var b, s3 := LoadsUpTo(c, s2, 0, s2.njobs);
    var d;
    d, t := Waits(c, s3);
    Join(c, s, a, s1, [Step(0)], s2);
    Join(c, s, a + [Step(0)], s2, b, s3);
    Join(c, s, a + [Step(0)] + b, s3, d, t);
    acts := a + [Step(0)] + b + d;
  }

  lemma {:induction false} Serves(c: Config, s: State, k: nat) returns (acts: seq<Action>, t: State)
    requires Init(c, s) && |s.workers| > 0 && 0 < k <= |c.batches| && !c.atomic
    ensures Reaches(c, s, acts, t) && Served(c, t, k)
    decreases k
  {
    if k == 1 {
      acts, t := ServesFirst(c, s);
    } else {
      var a, s' := Serves(c, s, k - 1);
      var b;
      b, t := ServesNext(c, s', k - 1);
      Join(c, s, a, s', b, t);
      acts := a + b;
    }
  }

  /** The straggler: it fetches the drained cursor, the main thread stores a larger job
      count, and the worker claims a job of the old generation that never existed. */
  lemma Strays(c: Config, s: State, k: nat) returns (acts: seq<Action>, t: State)
    requires Served(c, s, k) && 0 < k < |c.batches| && !c.atomic && |c.batches[k].eids| > Limit(c, k)
    ensures Reaches(c, s, acts, t) && Shape(c, t) && t.main.SetLayer? && t.gen == k && t.njobs == |c.batches[k].eids|
    ensures |t.workers| > 0 && t.workers[0] == Won(k, Limit(c, k))
  {
    var s1 := Apply(c, s, Step(0));
    var s2 := Apply(c, s1, MainStep);
    var s3 := Apply(c, s2, Step(0));
    t := Apply(c, s3, Step(0));
    One(c, s, Step(0));
    One(c, s1, MainStep);
    One(c, s2, Step(0));
    One(c, s3, Step(0));
    Join(c, s, [Step(0)], s1, [MainStep], s2);
    Join(c, s2, [Step(0)], s3, [Step(0)], t);
    Join(c, s, [Step(0)] + [MainStep], s2, [Step(0)] + [Step(0)], t);
    acts := [Step(0)] + [MainStep] + ([Step(0)] + [Step(0)]);
  }

  /** It then reports ready a slot of the next batch, which another job still writes. */
  lemma GoesWrong(c: Config, s: State, k: nat) returns (acts: seq<Action>, t: State)
    requires Served(c, s, k) && 0 < k < |c.batches| && !c.atomic && |c.batches[k].eids| > Limit(c, k)
    ensures Reaches(c, s, acts, t) && !Safe(c, t)
  {
    var n := Limit(c, k);
    var a1, s1 := Strays(c, s, k);
    var a2, s2 := Dispatches(c, s1);
    var a3, s3 := Finishes(c, s2, k, n);
    var a4, s4 := LoadsUpTo(c, s3, 0, n);
    var a5;
    a5, t := Claims(c, s4, n);
    assert t.ready[n] && Working(t.workers[0], n);
    Join(c, s, a1, s1, a2, s2);
    Join(c, s, a1 + a2, s2, a3, s3);
    Join(c, s, a1 + a2 + a3, s3, a4, s4);
    Join(c, s, a1 + a2 + a3 + a4, s4, a5, t);
    acts := a1 + a2 + a3 + a4 + a5;
  }

  /** As coded, with at least one worker, the pool is safe in every schedule exactly when
      no batch has more jobs than the one before it. */
  lemma SafeAsCoded(c: Config, s: State)
    requires Init(c, s) && |s.workers| > 0 && !c.atomic
    ensures AlwaysSafe(c, s) <==> NonIncreasing(c.batches)
  {
    if NonIncreasing(c.batches) {
      PoolIsSafe(c, s);
    } else {
      var k :| 0 < k < |c.batches| && |c.batches[k].eids| > |c.batches[k - 1].eids|;
      var a, s' := Serves(c, s, k);
      var b, t := GoesWrong(c, s', k);
      Join(c, s, a, s', b, t);
    }
  }
}
