/** The mixture-of-experts layer with its expert cache (c/engines/glm.c, moe, with
    EXPERT_BUDGET off): the union of the experts of a batch, resolved in blocks of 64
    through the pinned slots, the LRU cache or a load, and promoted into the cache by
    exchanging buffers. Loads are complete before the block computes with them. */
module MoeCache {
  import opened Counting

  const BLOCK := 64

  /** A weight buffer and the expert whose weights it holds. */
  datatype Buffer = Buffer(slab: nat, holds: int)

  /** A cache slot; a negative eid matches no expert. */
  datatype Slot = Slot(eid: int, buf: Buffer, used: nat)

  /** One routed expert of a position with its gate weight. */
  datatype Pick = Pick(e: nat, w: real)

  /** Where a block found an expert. */
  datatype Place = Pinned(z: nat) | Cached(z: nat) | Working(q: nat)

  // ----- what the layer computes

  predicate Picks(r: seq<Pick>, e: nat) {
    exists k :: 0 <= k < |r| && r[k].e == e
  }

  predicate Distinct(r: seq<Pick>) {
    forall i, j :: 0 <= i < j < |r| ==> r[i].e != r[j].e
  }

  /** The contribution of expert e to a position: its first gate weight times v. */
  function Term(r: seq<Pick>, e: nat, v: real): real {
    if r == [] then 0.0
    else if r[0].e == e then r[0].w * v
    else Term(r[1..], e, v)
  }

  /** The output of expert e at position s, coordinate d. */
  type Expert = (int, nat, nat) -> real

  /** A position's weighted sum of the outputs of its own experts. */
  function Own(r: seq<Pick>, y: Expert, s: nat, d: nat): real {
    if r == [] then 0.0 else Own(r[..|r| - 1], y, s, d) + Last(r).w * y(Last(r).e, s, d)
  }

  function Last(r: seq<Pick>): Pick
    requires r != []
  {
    r[|r| - 1]
  }

  /** The sum over the experts us, in their order, of what each adds to the position. */
  function Gathered(us: seq<nat>, r: seq<Pick>, y: Expert, s: nat, d: nat): real {
    if us == [] then 0.0
    else Gathered(us[..|us| - 1], r, y, s, d) + Term(r, us[|us| - 1], y(us[|us| - 1], s, d))
  }

  lemma {:induction false} TermPush(r: seq<Pick>, p: Pick, e: nat, v: real)
    ensures Term(r + [p], e, v) == if !Picks(r, e) && p.e == e then p.w * v else Term(r, e, v)
    ensures !Picks(r, e) ==> Term(r, e, v) == 0.0
  {
    if r == [] {
      assert (r + [p])[1..] == [];
    } else {
      assert (r + [p])[1..] == r[1..] + [p];
      TermPush(r[1..], p, e, v);
      if r[0].e != e {
        assert Picks(r, e) <==> Picks(r[1..], e) by {
          assert forall k :: 0 <= k < |r[1..]| ==> r[1..][k] == r[k + 1];
        }
      }
    }
  }

  lemma {:induction false} GatheredPush(us: seq<nat>, r: seq<Pick>, p: Pick, y: Expert, s: nat, d: nat)
    requires NoDup(us) && !Picks(r, p.e)
    ensures Gathered(us, r + [p], y, s, d)
         == Gathered(us, r, y, s, d) + if p.e in us then p.w * y(p.e, s, d) else 0.0
  {
    if us != [] {
      var n := |us| - 1;
      GatheredPush(us[..n], r, p, y, s, d);
      TermPush(r, p, us[n], y(us[n], s, d));
      if us[n] == p.e {
        assert p.e !in us[..n];
      } else {
        assert p.e in us <==> p.e in us[..n] by { assert us == us[..n] + [us[n]]; }
      }
    }
  }

  lemma {:induction false} GatheredNothing(us: seq<nat>, y: Expert, s: nat, d: nat)
    ensures Gathered(us, [], y, s, d) == 0.0
  {
    if us != [] { GatheredNothing(us[..|us| - 1], y, s, d); }
  }

  /** Summing over the union instead of over the position's own list changes nothing,
      whatever the order of the union and whatever else it contains. */
  lemma {:induction false} UnionIsOwn(us: seq<nat>, r: seq<Pick>, y: Expert, s: nat, d: nat)
    requires NoDup(us) && Distinct(r) && forall k :: 0 <= k < |r| ==> r[k].e in us
    ensures Gathered(us, r, y, s, d) == Own(r, y, s, d)
    decreases |r|
  {
    if r == [] {
      GatheredNothing(us, y, s, d);
    } else {
      var n := |r| - 1;
      UnionIsOwn(us, r[..n], y, s, d);
      assert r == r[..n] + [r[n]];
      GatheredPush(us, r[..n], r[n], y, s, d);
    }
  }

  // ----- the union of the batch

  ghost predicate Routed(route: seq<seq<Pick>>, e: nat) {
    exists s :: 0 <= s < |route| && Picks(route[s], e)
  }

  /** The distinct experts of the batch, in order of first appearance. */
  method Union(route: seq<seq<Pick>>, count: nat) returns (uniq: seq<nat>)
    requires forall s, k :: 0 <= s < |route| && 0 <= k < |route[s]| ==> route[s][k].e < count
    ensures NoDup(uniq) && forall e: nat :: e in uniq <==> Routed(route, e)
  {
    var seen := new bool[count](_ => false);
    uniq := [];
    for s := 0 to |route|
      invariant NoDup(uniq) && forall e: nat :: e in uniq <==> e < count && seen[e]
      invariant forall e: nat :: e in uniq <==> Routed(route[..s], e)
    {
      ghost var before := uniq;
      for k := 0 to |route[s]|
        invariant NoDup(uniq) && forall e: nat :: e in uniq <==> e < count && seen[e]
        invariant forall e: nat :: e in uniq <==> e in before || Picks(route[s][..k], e)
      {
        var e := route[s][k].e;
        PicksPush(route[s], k);
        if !seen[e] {
          seen[e] := true;
          uniq := uniq + [e];
        }
      }
      assert route[s][..|route[s]|] == route[s];
      RoutedPush(route, s);
    }
    assert route[..|route|] == route;
  }

  lemma PicksPush(r: seq<Pick>, k: nat)
    requires k < |r|
    ensures forall e: nat :: Picks(r[..k + 1], e) <==> Picks(r[..k], e) || e == r[k].e
  {
    forall e: nat ensures Picks(r[..k + 1], e) <==> Picks(r[..k], e) || e == r[k].e {
      if Picks(r[..k], e) {
        var j :| 0 <= j < k && r[..k][j].e == e;
        assert r[..k + 1][j].e == e;
      }
      if e == r[k].e { assert r[..k + 1][k].e == e; }
      if Picks(r[..k + 1], e) {
        var j :| 0 <= j < k + 1 && r[..k + 1][j].e == e;
        if j < k { assert r[..k][j].e == e; }
      }
    }
  }

  lemma RoutedPush(route: seq<seq<Pick>>, s: nat)
    requires s < |route|
    ensures forall e: nat :: Routed(route[..s + 1], e) <==> Routed(route[..s], e) || Picks(route[s], e)
  {
    forall e: nat ensures Routed(route[..s + 1], e) <==> Routed(route[..s], e) || Picks(route[s], e) {
      if Routed(route[..s], e) {
        var j :| 0 <= j < s && Picks(route[..s][j], e);
        assert Picks(route[..s + 1][j], e);
      }
      if Picks(route[s], e) { assert Picks(route[..s + 1][s], e); }
      if Routed(route[..s + 1], e) {
        var j :| 0 <= j < s + 1 && Picks(route[..s + 1][j], e);
        if j < s { assert Picks(route[..s][j], e); }
      }
    }
  }

  // ----- adding one expert's rows to the output

  /** The positions that use expert e, each with the weight of its first pick of it. */
  method Rows(route: seq<seq<Pick>>, e: nat) returns (rows: seq<nat>, rw: seq<real>)
    ensures |rows| == |rw| && NoDup(rows)
    ensures forall i :: 0 <= i < |rows| ==>
      rows[i] < |route| && Picks(route[rows[i]], e) && forall v :: Term(route[rows[i]], e, v) == rw[i] * v
    ensures forall s: nat :: s < |route| && s !in rows ==> !Picks(route[s], e)
  {
    rows, rw := [], [];
    for s := 0 to |route|
      invariant |rows| == |rw| && NoDup(rows)
      invariant forall i :: 0 <= i < |rows| ==>
        rows[i] < s && Picks(route[rows[i]], e) && forall v :: Term(route[rows[i]], e, v) == rw[i] * v
      invariant forall t: nat :: t < s && t !in rows ==> !Picks(route[t], e)
    {
      var k := First(route[s], e);
      if k < |route[s]| {
        rows, rw := rows + [s], rw + [route[s][k].w];
      }
    }
  }

  method First(r: seq<Pick>, e: nat) returns (k: nat)
    ensures k <= |r| && (k < |r| <==> Picks(r, e))
    ensures k < |r| ==> r[k].e == e && forall v :: Term(r, e, v) == r[k].w * v
  {
    k := 0;
    while k < |r|
      invariant k <= |r| && forall j :: 0 <= j < k ==> r[j].e != e
    {
      if r[k].e == e {
        forall v ensures Term(r, e, v) == r[k].w * v { TermAt(r, e, v, k); }
        return;
      }
      k := k + 1;
    }
  }

  lemma {:induction false} TermAt(r: seq<Pick>, e: nat, v: real, k: nat)
    requires k < |r| && r[k].e == e && forall j :: 0 <= j < k ==> r[j].e != e
    ensures Term(r, e, v) == r[k].w * v
  {
    if k > 0 { TermAt(r[1..], e, v, k - 1); }
  }

  lemma {:induction false} TermAbsent(r: seq<Pick>, e: nat, v: real)
    requires !Picks(r, e)
    ensures Term(r, e, v) == 0.0
  {
    TermPush(r, Pick(0, 0.0), e, v);
  }

  method AddRow(out: array2<real>, s: nat, w: real, y: Expert, holds: int)
    requires s < out.Length0
    modifies out
    ensures forall d :: 0 <= d < out.Length1 ==> out[s, d] == old(out[s, d]) + w * y(holds, s, d)
    ensures forall t, d :: 0 <= t < out.Length0 && 0 <= d < out.Length1 && t != s ==> out[t, d] == old(out[t, d])
  {
    for d := 0 to out.Length1
      invariant forall c :: 0 <= c < d ==> out[s, c] == old(out[s, c]) + w * y(holds, s, c)
      invariant forall c :: d <= c < out.Length1 ==> out[s, c] == old(out[s, c])
      invariant forall t, c :: 0 <= t < out.Length0 && 0 <= c < out.Length1 && t != s ==> out[t, c] == old(out[t, c])
    {
      out[s, d] := out[s, d] + w * y(holds, s, d);
    }
  }

  method AddRows(out: array2<real>, route: seq<seq<Pick>>, e: nat, y: Expert, holds: int, rows: seq<nat>, rw: seq<real>)
    requires out.Length0 == |route| && holds == e && |rows| == |rw| && NoDup(rows)
    requires forall i :: 0 <= i < |rows| ==> rows[i] < |route| && forall v :: Term(route[rows[i]], e, v) == rw[i] * v
    modifies out
    ensures forall s, d :: 0 <= s < out.Length0 && 0 <= d < out.Length1 ==>
      out[s, d] == old(out[s, d]) + if s in rows then Term(route[s], e, y(e, s, d)) else 0.0
  {
    for i := 0 to |rows|
      invariant forall s, d :: 0 <= s < out.Length0 && 0 <= d < out.Length1 ==>
        out[s, d] == old(out[s, d]) + if s in rows[..i] then Term(route[s], e, y(e, s, d)) else 0.0
    {
      assert rows[..i + 1] == rows[..i] + [rows[i]] && rows[i] !in rows[..i];
      assert forall d :: rw[i] * y(holds, rows[i], d) == Term(route[rows[i]], e, y(e, rows[i], d));
      AddRow(out, rows[i], rw[i], y, holds);
    }
    assert rows[..|rows|] == rows;
  }

  /** The forward of one expert: the slot's weights, added wherever e is routed. */
  method AddExpert(out: array2<real>, route: seq<seq<Pick>>, e: nat, y: Expert, holds: int)
    requires out.Length0 == |route| && holds == e
    modifies out
    ensures forall s, d :: 0 <= s < out.Length0 && 0 <= d < out.Length1 ==>
      out[s, d] == old(out[s, d]) + Term(route[s], e, y(e, s, d))
  {
    var rows, rw := Rows(route, e);
    if rows != [] { AddRows(out, route, e, y, holds, rows, rw); }
    forall s, d | 0 <= s < |route| && 0 <= d < out.Length1 && s !in rows
      ensures Term(route[s], e, y(e, s, d)) == 0.0
    {
      TermAbsent(route[s], e, y(e, s, d));
    }
  }

  // ----- the cache of one layer

  ghost predicate Loaded(s: Slot) {
    s.eid >= 0 ==> s.buf.holds == s.eid
  }

  /** No expert twice, every named slot holds its expert, every stamp is in the past. */
  ghost predicate LruOk(c: seq<Slot>, clock: nat) {
    && (forall z :: 0 <= z < |c| ==> Loaded(c[z]) && c[z].used <= clock)
    && (forall y, z :: 0 <= y < z < |c| && c[y].eid >= 0 ==> c[y].eid != c[z].eid)
  }

  function Slabs(s: seq<Slot>): (b: seq<nat>)
    ensures |b| == |s| && forall i :: 0 <= i < |s| ==> b[i] == s[i].buf.slab
  {
    seq(|s|, i requires 0 <= i < |s| => s[i].buf.slab)
  }

  /** The slabs of the cache and the working set together. */
  ghost function AllSlabs(c: seq<Slot>, w: seq<Slot>): multiset<nat> {
    multiset(Slabs(c)) + multiset(Slabs(w))
  }

  lemma ExchangeKeepsSlabs(c: seq<Slot>, w: seq<Slot>, d: nat, q: nat, used: nat)
    requires d < |c| && q < |w|
    ensures AllSlabs(c[d := w[q].(used := used)], w[q := c[d]]) == AllSlabs(c, w)
  {
    var b, v := Slabs(c), Slabs(w);
    assert Slabs(c[d := w[q].(used := used)]) == b[d := v[q]];
    assert Slabs(w[q := c[d]]) == v[q := b[d]];
  }

  /** The first slot with this expert id, or |slots|. */
  method Find(slots: seq<Slot>, e: nat) returns (z: nat)
    ensures z <= |slots| && (z < |slots| ==> slots[z].eid == e)
    ensures forall k :: 0 <= k < z ==> slots[k].eid != e
  {
    z := 0;
    while z < |slots|
      invariant z <= |slots| && forall k :: 0 <= k < z ==> slots[k].eid != e
    {
      if slots[z].eid == e { return; }
      z := z + 1;
    }
  }

  /** The slot with the oldest stamp. */
  method Oldest(slots: seq<Slot>) returns (lru: nat)
    requires slots != []
    ensures lru < |slots| && forall z :: 0 <= z < |slots| ==> slots[lru].used <= slots[z].used
  {
    lru := 0;
    for z := 1 to |slots|
      invariant lru < |slots| && forall k :: 0 <= k < z ==> slots[lru].used <= slots[k].used
    {
      if slots[z].used < slots[lru].used { lru := z; }
    }
  }

  /** Cache slots, of which n are in use, the working set, and the clock of the stamps. */
  datatype State = State(cache: seq<Slot>, ws: seq<Slot>, n: nat, clock: nat)

  /** What promoting the last |at| misses of todo to the cache positions `at` has come to:
      they are all in the cache with stamps newer than all others, the rest of the cache
      is as it was, and what was evicted was no younger than what stayed. */
  ghost predicate Promoted(s: State, was: State, todo: seq<nat>, at: seq<nat>) {
    && was.n <= s.n <= |s.cache| == |was.cache| && |at| <= |todo| <= |s.ws| && NoDup(at) && was.clock <= s.clock
    && LruOk(was.cache[..was.n], was.clock)
    && s.n == (if was.n + |at| <= |s.cache| then was.n + |at| else |s.cache|)
    && (forall k :: 0 <= k < |at| ==> PromotedTo(s, was, at[k], todo[|todo| - 1 - k]))
    && (forall z :: 0 <= z < |s.cache| && z !in at ==> s.cache[z] == was.cache[z])
    && (forall z :: was.n <= z < s.n ==> z in at)
    && (forall y, z :: 0 <= y < was.n && 0 <= z < was.n && y in at && z !in at ==>
        was.cache[y].used <= was.cache[z].used)
    && (forall q :: 0 <= q < |todo| - |at| ==> s.ws[q].eid == todo[q] && Loaded(s.ws[q]))
  }

  ghost predicate PromotedTo(s: State, was: State, d: nat, e: nat)
    requires s.n <= |s.cache|
  {
    d < s.n && s.cache[d].eid == e && Loaded(s.cache[d]) && was.clock < s.cache[d].used <= s.clock
  }

  /** Fewer entries than slots were promoted, so the oldest is not one of them. */
  lemma OldestIsNotPromoted(s: State, was: State, todo: seq<nat>, at: seq<nat>, d: nat)
    requires Promoted(s, was, todo, at) && |at| < s.n == |s.cache| && d < s.n
    requires forall z :: 0 <= z < s.n ==> s.cache[d].used <= s.cache[z].used
    ensures d !in at
  {
    SomeFree(at, s.n);
    var z: nat :| z < s.n && z !in at;
    assert s.cache[z] == was.cache[..was.n][z];
    assert forall k :: 0 <= k < |at| ==> s.cache[at[k]].used > s.cache[z].used;
  }

  /** Slot d receives the next miss: the first free slot, or the oldest. */
  /** Slot d of the cache, new or not, exchanged with slot q of the working set. */
  function Exchanged(s: State, d: nat, q: nat): State
    requires d < |s.cache| && q < |s.ws|
  {
    State(s.cache[d := s.ws[q].(used := s.clock + 1)], s.ws[q := s.cache[d]],
          if s.n < |s.cache| then s.n + 1 else s.n, s.clock + 1)
  }

  /** Slot d is where the next promotion goes: a new slot, or the oldest. */
  ghost predicate IsVictim(s: State, at: seq<nat>, d: nat) {
    && d !in at && d < |s.cache|
    && if s.n < |s.cache| then d == s.n
       else s.n <= |s.cache| && forall z :: 0 <= z < s.n ==> s.cache[d].used <= s.cache[z].used
  }

  lemma ExchangedIsPromoted(s: State, was: State, todo: seq<nat>, at: seq<nat>, d: nat, t: State)
    requires Promoted(s, was, todo, at) && |at| < |todo| && |at| < |s.cache| && IsVictim(s, at, d)
    requires t == Exchanged(s, d, |todo| - 1 - |at|)
    ensures Promoted(t, was, todo, at + [d])
  {
    forall k | 0 <= k < |at| + 1 ensures PromotedTo(t, was, (at + [d])[k], todo[|todo| - 1 - k]) {
      if k < |at| { assert PromotedTo(s, was, at[k], todo[|todo| - 1 - k]) && at[k] != d; }
    }
    forall y, z | 0 <= y < was.n && 0 <= z < was.n && y in at + [d] && z !in at + [d]
      ensures was.cache[y].used <= was.cache[z].used
    {
      if y == d { assert s.cache[z] == was.cache[z] && s.cache[d] == was.cache[d]; }
    }
  }

  lemma PromotedIsValid(s: State, was: State, todo: seq<nat>, at: seq<nat>)
    requires Promoted(s, was, todo, at) && NoDup(todo)
    requires forall q, z :: 0 <= q < |todo| && 0 <= z < was.n ==> was.cache[z].eid != todo[q]
    ensures LruOk(s.cache[..s.n], s.clock)
  {
    forall z | 0 <= z < s.n ensures Loaded(s.cache[z]) && s.cache[z].used <= s.clock {
      if z in at { var k := Where(s, was, todo, at, z); } else { assert s.cache[z] == was.cache[..was.n][z]; }
    }
    forall y, z | 0 <= y < z < s.n && s.cache[y].eid >= 0 ensures s.cache[y].eid != s.cache[z].eid {
      if y in at {
        var i := Where(s, was, todo, at, y);
        if z in at { var j := Where(s, was, todo, at, z); }
      } else if z in at {
        var j := Where(s, was, todo, at, z);
      } else {
        assert s.cache[y] == was.cache[..was.n][y] && s.cache[z] == was.cache[..was.n][z];
      }
    }
  }

  lemma Where(s: State, was: State, todo: seq<nat>, at: seq<nat>, d: nat) returns (k: nat)
    requires Promoted(s, was, todo, at) && d in at
    ensures k < |at| && at[k] == d && PromotedTo(s, was, d, todo[|todo| - 1 - k])
  {
    k :| 0 <= k < |at| && at[k] == d;
    assert PromotedTo(s, was, at[k], todo[|todo| - 1 - k]);
  }

  class Layer {
    const ecap: nat
    const pin: seq<Slot>
    const cache: array<Slot>
    const ws: array<Slot>
    var n: nat
    var clock: nat
    var hits: nat
    var misses: nat

    ghost predicate Valid()
      reads this, cache, ws
    {
      && cache.Length == ecap && ws.Length == BLOCK && cache != ws && n <= ecap
      && (forall z :: 0 <= z < |pin| ==> Loaded(pin[z]))
      && LruOk(cache[..n], clock)
    }

    /** An empty cache beside the pinned slots: its zeroed slots, which would name expert 0,
        are not among the first n. */
    constructor (ecap: nat, pin: seq<Slot>)
      requires forall z :: 0 <= z < |pin| ==> Loaded(pin[z])
      ensures Valid() && fresh(cache) && fresh(ws) && this.ecap == ecap && this.pin == pin
      ensures hits == misses == 0 && forall e: nat :: Resident(e) <==> exists z :: 0 <= z < |pin| && pin[z].eid == e
    {
      this.ecap, this.pin := ecap, pin;
      cache := new Slot[ecap](z requires z >= 0 => Slot(0, Buffer(z, -1), 0));
      ws := new Slot[BLOCK](q requires q >= 0 => Slot(0, Buffer(ecap + q, -1), 0));
      n, clock, hits, misses := 0, 0, 0, 0;
    }

    ghost predicate Resident(e: nat)
      reads this, cache
    {
      (exists z :: 0 <= z < |pin| && pin[z].eid == e)
          || (n <= cache.Length && exists z :: 0 <= z < n && cache[z].eid == e)
    }

    /** The slot at p is the one for expert e, given the experts still to be loaded. */
    ghost predicate Finds(p: Place, e: nat, todo: seq<nat>)
      reads this, cache
    {
      match p
      case Pinned(z) => z < |pin| && pin[z].eid == e
      case Cached(z) => z < n <= cache.Length && cache[z].eid == e
      case Working(q) => q < |todo| && todo[q] == e
    }

    method Touch(z: nat)
      requires Valid() && z < n
      modifies this`clock, cache
      ensures Valid() && clock == old(clock) + 1 && forall c: nat :: Resident(c) <==> old(Resident(c))
      ensures forall k :: 0 <= k < ecap ==> cache[k] == old(cache[k]).(used := cache[k].used)
    {
      clock := clock + 1;
      cache[z] := cache[z].(used := clock);
      assert forall k :: 0 <= k < n ==> cache[k].eid == old(cache[k].eid);
    }

    /** Where a block finds its experts: pinned, cached (and then stamped), or to be
        loaded into the next slot of the working set. */
    method Resolve(block: seq<nat>) returns (places: seq<Place>, todo: seq<nat>)
      requires Valid() && NoDup(block) && |block| <= BLOCK
      modifies this`clock, this`hits, this`misses, cache
      ensures Valid() && forall k :: 0 <= k < ecap ==> cache[k] == old(cache[k]).(used := cache[k].used)
      ensures |places| == |block| && forall j :: 0 <= j < |block| ==> Finds(places[j], block[j], todo)
      ensures NoDup(todo) && |todo| <= |block|
      ensures forall e: nat :: e in todo <==> e in block && !old(Resident(e))
      ensures forall q :: 0 <= q < |todo| ==> !Resident(todo[q])
      ensures misses == old(misses) + |todo| && hits + |todo| == old(hits) + |block|
    {
      places, todo := [], [];
      for j := 0 to |block|
        invariant Valid() && n == old(n)
        invariant forall k :: 0 <= k < ecap ==> cache[k] == old(cache[k]).(used := cache[k].used)
        invariant |places| == j && forall i :: 0 <= i < j ==> Finds(places[i], block[i], todo)
        invariant NoDup(todo) && |todo| <= j
        invariant forall e: nat :: e in todo <==> e in block[..j] && !old(Resident(e))
        invariant forall e: nat :: Resident(e) <==> old(Resident(e))
        invariant misses == old(misses) + |todo| && hits + |todo| == old(hits) + j
      {
        var e := block[j];
        var place, found := Look(e);
        assert block[..j + 1] == block[..j] + [e] && e !in block[..j];
        if found {
          hits, places := hits + 1, places + [place];
        } else {
          misses, places, todo := misses + 1, places + [Working(|todo|)], todo + [e];
        }
      }
      assert block[..|block|] == block;
      forall q | 0 <= q < |todo| ensures !Resident(todo[q]) { assert todo[q] in todo; }
    }

    method Look(e: nat) returns (place: Place, found: bool)
      requires Valid()
      modifies this`clock, cache
      ensures forall c: nat :: Resident(c) <==> old(Resident(c))
      ensures Valid() && found == old(Resident(e)) && (found ==> !place.Working? && Finds(place, e, []))
      ensures forall k :: 0 <= k < ecap ==> cache[k] == old(cache[k]).(used := cache[k].used)
    {
      var z := Find(pin, e);
      if z < |pin| { return Pinned(z), true; }
      z := Find(cache[..n], e);
      if z < n {
        Touch(z);
        return Cached(z), true;
      }
      place, found := Working(0), false;
    }

    /** The blocking loads of a block: miss q goes to slot q of the working set. */
    method Load(todo: seq<nat>)
      requires Valid() && |todo| <= BLOCK
      modifies ws
      ensures Valid()
      ensures forall q :: 0 <= q < |todo| ==>
          ws[q].eid == todo[q] && Loaded(ws[q]) && ws[q].buf.slab == old(ws[q]).buf.slab
      ensures forall q :: |todo| <= q < BLOCK ==> ws[q] == old(ws[q])
    {
      for q := 0 to |todo|
        invariant Valid()
        invariant forall k :: 0 <= k < q ==>
            ws[k].eid == todo[k] && Loaded(ws[k]) && ws[k].buf.slab == old(ws[k]).buf.slab
        invariant forall k :: q <= k < BLOCK ==> ws[k] == old(ws[k])
      {
        ws[q] := ws[q].(eid := todo[q], buf := ws[q].buf.(holds := todo[q]));
      }
    }

    method At(p: Place, e: nat, todo: seq<nat>) returns (holds: int)
      requires Valid() && Finds(p, e, todo) && |todo| <= BLOCK
      requires forall q :: 0 <= q < |todo| ==> ws[q].eid == todo[q] && Loaded(ws[q])
      ensures holds == e
    {
      match p
      case Pinned(z) => holds := pin[z].buf.holds;
      case Cached(z) =>
        assert cache[..n][z] == cache[z];
        holds := cache[z].buf.holds;
      case Working(q) => holds := ws[q].buf.holds;
    }

    /** Adds a block's experts to the output, from the slots they were found in. */
    method Compute(out: array2<real>, route: seq<seq<Pick>>, y: Expert, uniq: seq<nat>, at: nat, block: seq<nat>,
                   places: seq<Place>, todo: seq<nat>)
      requires Valid() && out.Length0 == |route| && |todo| <= BLOCK && |places| == |block|
      requires at + |block| <= |uniq| && block == uniq[at..at + |block|]
      requires forall j :: 0 <= j < |block| ==> Finds(places[j], block[j], todo)
      requires forall q :: 0 <= q < |todo| ==> ws[q].eid == todo[q] && Loaded(ws[q])
      requires Sums(out, route, y, uniq[..at])
      modifies out
      ensures Sums(out, route, y, uniq[..at + |block|])
    {
      for j := 0 to |block|
        invariant Sums(out, route, y, uniq[..at + j])
      {
        var holds := At(places[j], block[j], todo);
        assert block[j] == uniq[at + j] && uniq[..at + j + 1][..at + j] == uniq[..at + j];
        AddExpert(out, route, block[j], y, holds);
      }
    }

    /** The state of the cache and the working set. */
    ghost function Now(): State
      reads this, cache, ws
    {
      State(cache[..], ws[..], n, clock)
    }

    /** One exchange of buffers: slot q of the working set with slot d of the cache. */
    method Exchange(d: nat, q: nat)
      requires d < cache.Length && q < ws.Length && cache != ws
      modifies this`clock, cache, ws
      ensures clock == old(clock) + 1
      ensures cache[..] == old(cache[..])[d := old(ws[q]).(used := clock)]
      ensures ws[..] == old(ws[..])[q := old(cache[d])]
      ensures AllSlabs(cache[..], ws[..]) == old(AllSlabs(cache[..], ws[..]))
    {
      ExchangeKeepsSlabs(cache[..], ws[..], d, q, clock + 1);
      clock := clock + 1;
      var tmp := cache[d];
      cache[d] := ws[q].(used := clock);
      ws[q] := tmp;
    }

    /** The exchange, counting the cache's slot if it is a new one. */
    method Take(d: nat, q: nat)
      requires d < cache.Length == ecap && q < ws.Length && cache != ws
      modifies this`n, this`clock, cache, ws
      ensures Now() == old(Exchanged(Now(), d, q))
      ensures AllSlabs(cache[..], ws[..]) == old(AllSlabs(cache[..], ws[..]))
    {
      if n < ecap { n := n + 1; }
      Exchange(d, q);
    }

    method PromoteOne(q: nat, ghost was: State, ghost todo: seq<nat>, ghost at: seq<nat>) returns (d: nat)
      requires cache != ws && |at| < |todo| && q == |todo| - 1 - |at| && |at| < ecap == cache.Length
      requires Promoted(Now(), was, todo, at)
      modifies this`n, this`clock, cache, ws
      ensures Promoted(Now(), was, todo, at + [d])
      ensures AllSlabs(cache[..], ws[..]) == old(AllSlabs(cache[..], ws[..]))
    {
      ghost var s := Now();
      d := Victim(was, todo, at);
      Take(d, q);
      ExchangedIsPromoted(s, was, todo, at, d, Now());
    }

    method Victim(ghost was: State, ghost todo: seq<nat>, ghost at: seq<nat>) returns (d: nat)
      requires |at| < ecap == cache.Length && Promoted(Now(), was, todo, at)
      ensures IsVictim(Now(), at, d)
    {
      if n < ecap { return n; }
      d := Oldest(cache[..n]);
      OldestIsNotPromoted(Now(), was, todo, at, d);
    }

    /** Promotes the misses of a block, the last one first, at most ecap of them. */
    method Promote(todo: seq<nat>) returns (ghost at: seq<nat>)
      requires Valid() && NoDup(todo) && |todo| <= BLOCK
      requires forall q :: 0 <= q < |todo| ==> ws[q].eid == todo[q] && Loaded(ws[q]) && !Resident(todo[q])
      modifies this`n, this`clock, cache, ws
      ensures Valid() && |at| == (if |todo| < ecap then |todo| else ecap)
      ensures Promoted(Now(), old(Now()), todo, at)
      ensures AllSlabs(cache[..], ws[..]) == old(AllSlabs(cache[..], ws[..]))
    {
      var promo := if |todo| < ecap then |todo| else ecap;
      at := [];
      for a := 0 to promo
        invariant |at| == a && Promoted(Now(), old(Now()), todo, at)
        invariant AllSlabs(cache[..], ws[..]) == old(AllSlabs(cache[..], ws[..]))
      {
        var d := PromoteOne(|todo| - 1 - a, old(Now()), todo, at);
        at := at + [d];
      }
      PromotedIsValid(Now(), old(Now()), todo, at);
    }

    /** One block of at most 64 experts. Of what it loaded, the last min(|todo|, ecap) end
        up in the cache; the slabs of cache and working set are only permuted. */
    method RunBlock(out: array2<real>, route: seq<seq<Pick>>, y: Expert, uniq: seq<nat>, base: nat, nb: nat)
      returns (todo: seq<nat>, ghost was: State, ghost at: seq<nat>)
      requires Valid() && NoDup(uniq) && base + nb <= |uniq| && nb <= BLOCK
      requires Sums(out, route, y, uniq[..base])
      modifies this`n, this`clock, this`hits, this`misses, cache, ws, out
      ensures Valid() && Sums(out, route, y, uniq[..base + nb])
      ensures NoDup(todo) && forall e: nat :: e in todo <==> e in uniq[base..base + nb] && !old(Resident(e))
      ensures misses == old(misses) + |todo| && hits + |todo| == old(hits) + nb
      ensures was.n == old(n) && |was.cache| == ecap
      ensures forall k :: 0 <= k < ecap ==> was.cache[k] == old(cache[k]).(used := was.cache[k].used)
      ensures Promoted(Now(), was, todo, at) && |at| == (if |todo| < ecap then |todo| else ecap)
      ensures AllSlabs(cache[..], ws[..]) == old(AllSlabs(cache[..], ws[..]))
    {
      var block := uniq[base..base + nb];
      var places;
      places, todo := Resolve(block);
      assert Slabs(cache[..]) == old(Slabs(cache[..]));
      Load(todo);
      assert Slabs(ws[..]) == old(Slabs(ws[..]));
      Compute(out, route, y, uniq, base, block, places, todo);
      was := Now();
      at := Promote(todo);
    }

    /** The layer on a batch: each distinct expert of the batch is resolved once, by a hit
        or a load, and each position gets its own weighted sum. */
    method Moe(out: array2<real>, route: seq<seq<Pick>>, y: Expert, count: nat) returns (uniq: seq<nat>,
               loaded: seq<nat>)
      requires Valid() && out.Length0 == |route|
      requires forall s, k :: 0 <= s < |route| && 0 <= k < |route[s]| ==> route[s][k].e < count
      modifies this`n, this`clock, this`hits, this`misses, cache, ws, out
      ensures Valid()
      ensures NoDup(uniq) && forall e: nat :: e in uniq <==> Routed(route, e)
      ensures NoDup(loaded) && (forall e :: e in loaded ==> e in uniq)
      ensures misses == old(misses) + |loaded| && hits + |loaded| == old(hits) + |uniq|
      ensures AllSlabs(cache[..], ws[..]) == old(AllSlabs(cache[..], ws[..]))
      ensures forall s, d :: 0 <= s < |route| && 0 <= d < out.Length1 ==> out[s, d] == Gathered(uniq, route[s], y, s, d)
      ensures forall s, d :: 0 <= s < |route| && 0 <= d < out.Length1 && Distinct(route[s]) ==>
          out[s, d] == Own(route[s], y, s, d)
    {
      uniq := Union(route, count);
      Clear(out);
      loaded := [];
      ghost var slabs := AllSlabs(cache[..], ws[..]);
      var base := 0;
      while base < |uniq|
        invariant base <= |uniq| && Valid() && Sums(out, route, y, uniq[..base])
        invariant NoDup(loaded) && forall e :: e in loaded ==> e in uniq[..base]
        invariant misses == old(misses) + |loaded| && hits + |loaded| == old(hits) + base
        invariant AllSlabs(cache[..], ws[..]) == slabs
      {
        base, loaded := NextBlock(out, route, y, uniq, base, loaded);
      }
      assert uniq[..base] == uniq;
      OwnSums(out, route, y, uniq);
    }

    method NextBlock(out: array2<real>, route: seq<seq<Pick>>, y: Expert, uniq: seq<nat>, base: nat, loaded: seq<nat>)
      returns (next: nat, more: seq<nat>)
      requires Valid() && NoDup(uniq) && base < |uniq| && Sums(out, route, y, uniq[..base])
      requires NoDup(loaded) && forall e :: e in loaded ==> e in uniq[..base]
      modifies this`n, this`clock, this`hits, this`misses, cache, ws, out
      ensures base < next <= |uniq| && Valid() && Sums(out, route, y, uniq[..next])
      ensures NoDup(more) && forall e :: e in more ==> e in uniq[..next]
      ensures misses - |more| == old(misses) - |loaded| && hits + |more| - next == old(hits) + |loaded| - base
      ensures AllSlabs(cache[..], ws[..]) == old(AllSlabs(cache[..], ws[..]))
    {
      var nb := if |uniq| - base < BLOCK then |uniq| - base else BLOCK;
      var todo, was, at := RunBlock(out, route, y, uniq, base, nb);
      Joined(uniq, base, nb, loaded, todo);
      next, more := base + nb, loaded + todo;
    }

    /** Blocks have no expert in common, so none is loaded twice. */
    static lemma Joined(uniq: seq<nat>, base: nat, nb: nat, loaded: seq<nat>, todo: seq<nat>)
      requires NoDup(uniq) && base + nb <= |uniq| && NoDup(loaded) && NoDup(todo)
      requires forall e :: e in loaded ==> e in uniq[..base]
      requires forall e :: e in todo ==> e in uniq[base..base + nb]
      ensures NoDup(loaded + todo) && forall e :: e in loaded + todo ==> e in uniq[..base + nb]
    {
      assert uniq[..base + nb] == uniq[..base] + uniq[base..base + nb];
      forall i, j | 0 <= i < |loaded| && 0 <= j < |todo| ensures loaded[i] != todo[j] {
        assert loaded[i] in loaded && todo[j] in todo;
      }
    }

    lemma OwnSums(out: array2<real>, route: seq<seq<Pick>>, y: Expert, uniq: seq<nat>)
      requires Sums(out, route, y, uniq) && NoDup(uniq) && forall e: nat :: e in uniq <==> Routed(route, e)
      ensures forall s, d :: 0 <= s < |route| && 0 <= d < out.Length1 && Distinct(route[s]) ==>
          out[s, d] == Own(route[s], y, s, d)
    {
      forall s, d | 0 <= s < |route| && 0 <= d < out.Length1 && Distinct(route[s])
        ensures out[s, d] == Own(route[s], y, s, d)
      {
        forall k | 0 <= k < |route[s]| ensures route[s][k].e in uniq { assert Picks(route[s], route[s][k].e); }
        UnionIsOwn(uniq, route[s], y, s, d);
      }
    }

    method Clear(out: array2<real>)
      modifies out
      ensures forall s, d :: 0 <= s < out.Length0 && 0 <= d < out.Length1 ==> out[s, d] == 0.0
    {
      for s := 0 to out.Length0
        invariant forall t, d :: 0 <= t < s && 0 <= d < out.Length1 ==> out[t, d] == 0.0
      {
        for c := 0 to out.Length1
          invariant forall t, d :: 0 <= t < s && 0 <= d < out.Length1 ==> out[t, d] == 0.0
          invariant forall d :: 0 <= d < c ==> out[s, d] == 0.0
        {
          out[s, c] := 0.0;
        }
      }
    }

    /** Every output is the sum of the contributions of the experts us. */
    ghost predicate Sums(out: array2<real>, route: seq<seq<Pick>>, y: Expert, us: seq<nat>)
      reads out
    {
      && out.Length0 == |route|
      && forall s, d :: 0 <= s < out.Length0 && 0 <= d < out.Length1 ==> out[s, d] == Gathered(us, route[s], y, s, d)
    }
  }

  /** A batch: where its positions route, and what each expert makes of them. */
  datatype Batch = Batch(route: seq<seq<Pick>>, y: Expert)

  ghost predicate Right(out: array2<real>, b: Batch)
    reads out
  {
    && out.Length0 == |b.route|
    && forall s, d :: 0 <= s < |b.route| && 0 <= d < out.Length1 && Distinct(b.route[s]) ==>
        out[s, d] == Own(b.route[s], b.y, s, d)
  }

  /** Any run of batches from an empty cache: whatever is evicted and loaded on the way,
      every output of every batch is the position's own weighted sum. */
  method Forwards(ecap: nat, pin: seq<Slot>, batches: seq<Batch>, dim: nat, count: nat)
    returns (layer: Layer, outs: seq<array2<real>>)
    requires forall z :: 0 <= z < |pin| ==> Loaded(pin[z])
    requires forall b <- batches, s, k :: 0 <= s < |b.route| && 0 <= k < |b.route[s]| ==> b.route[s][k].e < count
    ensures layer.Valid() && |outs| == |batches|
    ensures forall i :: 0 <= i < |outs| ==> outs[i].Length1 == dim && Right(outs[i], batches[i])
  {
    layer := new Layer(ecap, pin);
    outs := [];
    for i := 0 to |batches|
      invariant layer.Valid() && fresh(layer) && fresh(layer.cache) && fresh(layer.ws) && |outs| == i
      invariant forall j :: 0 <= j < i ==> fresh(outs[j]) && outs[j].Length1 == dim && Right(outs[j], batches[j])
    {
      var b := batches[i];
      var out := new real[|b.route|, dim];
      var uniq, loaded := layer.Moe(out, b.route, b.y, count);
      outs := outs + [out];
    }
  }
}
