/** The two open-addressing tables of the allocator (c/nn/alloc.c): the registry of big
    blocks (a map from block to size) and the tracker (a set of blocks). Both probe
    linearly, leave tombstones, and rehash when half the cells are in use; they differ in
    the first capacity and in that the registry keeps its size when tombstones are what
    fills it. Addresses are numbers, 0 being NULL. */
module AllocTables {
  import opened Counting
  import opened Wrappers

  datatype Cell<V> = Empty | Dead | Full(key: nat, val: V)

  type Hash = nat -> nat

  const U64 := 0x1_0000_0000_0000_0000
  const GOLDEN := 0x9E37_79B9_7F4A_7C15

  /** big_h, before the mask. */
  function RegistryHash(p: nat): nat {
    ((p % U64 / 0x1000) * GOLDEN % U64) / 0x80
  }

  /** trk_h, before the mask. */
  function TrackerHash(p: nat): nat {
    var x := (p % U64 / 0x10) as bv64;
    ((x ^ (x >> 17)) as nat) * GOLDEN % U64
  }

  /** The cell probing starts from. The capacity is a power of two, so the mask is a
      remainder. */
  function Home(hash: Hash, p: nat, cap: nat): (h: nat)
    requires cap > 0
    ensures h < cap
  {
    hash(p) % cap
  }

  function Next(i: nat, cap: nat): (j: nat)
    requires i < cap
    ensures j < cap
  {
    if i + 1 == cap then 0 else i + 1
  }

  /** Probing from h passes j before it comes to i. */
  predicate Passes(h: nat, j: nat, i: nat) {
    if h <= i then h <= j < i else h <= j || j < i
  }

  /** Steps of probing from i to e. */
  function Steps(i: nat, e: nat, cap: nat): nat
    requires i < cap && e < cap
  {
    if i <= e then e - i else e + cap - i
  }

  function Used<V>(c: seq<Cell<V>>): (n: nat)
    ensures n <= |c|
  {
    if c == [] then 0 else Used(c[..|c| - 1]) + if c[|c| - 1].Empty? then 0 else 1
  }

  function Live<V>(c: seq<Cell<V>>): (n: nat)
    ensures n <= Used(c)
  {
    if c == [] then 0 else Live(c[..|c| - 1]) + if c[|c| - 1].Full? then 1 else 0
  }

  lemma {:induction false} CountsUpdate<V>(c: seq<Cell<V>>, i: nat, x: Cell<V>)
    requires i < |c|
    ensures Used(c[i := x]) == Used(c) - (if c[i].Empty? then 0 else 1) + if x.Empty? then 0 else 1
    ensures Live(c[i := x]) == Live(c) - (if c[i].Full? then 1 else 0) + if x.Full? then 1 else 0
  {
    var n := |c| - 1;
    if i == n {
      assert c[i := x][..n] == c[..n];
    } else {
      CountsUpdate(c[..n], i, x);
      assert c[i := x][..n] == c[..n][i := x];
    }
  }

  lemma {:induction false} FullIsUsed<V>(c: seq<Cell<V>>)
    requires forall i :: 0 <= i < |c| ==> !c[i].Empty?
    ensures Used(c) == |c|
  {
    if c != [] { FullIsUsed(c[..|c| - 1]); }
  }

  lemma {:induction false} LiveUpTo<V>(c: seq<Cell<V>>, i: nat)
    requires i < |c|
    ensures Live(c[..i + 1]) == Live(c[..i]) + (if c[i].Full? then 1 else 0) <= Live(c)
    decreases |c|
  {
    var n := |c| - 1;
    if i < n {
      LiveUpTo(c[..n], i);
      assert c[..n][..i + 1] == c[..i + 1] && c[..n][..i] == c[..i];
    } else {
      assert c[..i + 1] == c;
    }
  }

  lemma {:induction false} EmptyCounts<V>(c: seq<Cell<V>>)
    requires forall i :: 0 <= i < |c| ==> c[i].Empty?
    ensures Used(c) == Live(c) == 0
  {
    if c != [] { EmptyCounts(c[..|c| - 1]); }
  }

  /** While some cell is not in use, probing comes to an empty one. */
  lemma SomeEmpty<V>(c: seq<Cell<V>>) returns (e: nat)
    requires Used(c) < |c|
    ensures e < |c| && c[e].Empty?
  {
    if forall i :: 0 <= i < |c| ==> !c[i].Empty? {
      FullIsUsed(c);
      assert false;
    }
    e :| e < |c| && c[e].Empty?;
  }

  /** No key twice, and no empty cell between a key's home and its cell: tombstones hide
      nothing. */
  ghost predicate Probed<V>(c: seq<Cell<V>>, hash: Hash) {
    && (forall i, j :: 0 <= i < j < |c| && c[i].Full? && c[j].Full? ==> c[i].key != c[j].key)
    && (forall i :: 0 <= i < |c| && c[i].Full? ==> c[i].key != 0 && Open(c, Home(hash, c[i].key, |c|), i))
  }

  /** Probing from h reaches i without meeting an empty cell. */
  ghost predicate Open<V>(c: seq<Cell<V>>, h: nat, i: nat) {
    forall j :: 0 <= j < |c| && Passes(h, j, i) ==> !c[j].Empty?
  }

  /** The table holds exactly the map m. */
  ghost predicate Stores<V>(c: seq<Cell<V>>, m: map<nat, V>) {
    && (forall i :: 0 <= i < |c| && c[i].Full? ==> c[i].key in m && m[c[i].key] == c[i].val)
    && (forall k :: k in m ==> Full(k, m[k]) in c)
  }

  lemma PutKeeps<V>(c: seq<Cell<V>>, hash: Hash, m: map<nat, V>, i: nat, p: nat, v: V)
    requires Probed(c, hash) && Stores(c, m) && i < |c| && !c[i].Full? && p != 0 && p !in m
    requires Open(c, Home(hash, p, |c|), i)
    ensures Probed(c[i := Full(p, v)], hash) && Stores(c[i := Full(p, v)], m[p := v])
  {
    var d := c[i := Full(p, v)];
    forall j | 0 <= j < |d| && d[j].Full? ensures d[j].key != 0 && Open(d, Home(hash, d[j].key, |d|), j) {
      if j != i { assert Open(c, Home(hash, c[j].key, |c|), j); }
    }
    forall k | k in m ensures Full(k, m[k]) in d {
      var j :| 0 <= j < |c| && c[j] == Full(k, m[k]);
      assert d[j] == Full(k, m[k]);
    }
    assert d[i] == Full(p, v);
  }

  lemma RemoveKeeps<V>(c: seq<Cell<V>>, hash: Hash, m: map<nat, V>, i: nat)
    requires Probed(c, hash) && Stores(c, m) && i < |c| && c[i].Full?
    ensures Probed(c[i := Dead], hash) && Stores(c[i := Dead], m - {c[i].key})
  {
    var d := c[i := Dead];
    forall j | 0 <= j < |d| && d[j].Full? ensures d[j].key != 0 && Open(d, Home(hash, d[j].key, |d|), j) {
      assert Open(c, Home(hash, c[j].key, |c|), j);
    }
    forall k | k in m && k != c[i].key ensures Full(k, m[k]) in d {
      var j :| 0 <= j < |c| && c[j] == Full(k, m[k]);
      assert d[j] == Full(k, m[k]);
    }
  }

  /** NULL is never stored, and nothing is in a table without cells. */
  lemma NotStored<V>(c: seq<Cell<V>>, hash: Hash, m: map<nat, V>, p: nat)
    requires Probed(c, hash) && Stores(c, m) && (p == 0 || c == [])
    ensures p !in m
  {
  }

  /** Probing for a stored key passes its cell before an empty one. */
  lemma StoredFirst<V>(c: seq<Cell<V>>, hash: Hash, i: nat, j: nat)
    requires Probed(c, hash) && i < |c| && j < |c| && c[i].Empty? && c[j].Full?
    ensures Passes(Home(hash, c[j].key, |c|), j, i)
  {
    assert Open(c, Home(hash, c[j].key, |c|), j);
  }

  /** An empty cell ends the probing for a key that is not stored. */
  lemma Absent<V>(c: seq<Cell<V>>, hash: Hash, m: map<nat, V>, p: nat, i: nat)
    requires Probed(c, hash) && Stores(c, m) && i < |c| && c[i].Empty?
    requires forall j :: 0 <= j < |c| && Passes(Home(hash, p, |c|), j, i) ==> !(c[j].Full? && c[j].key == p)
    ensures p !in m
  {
    if p in m {
      var j :| 0 <= j < |c| && c[j] == Full(p, m[p]);
      StoredFirst(c, hash, i, j);
      assert false;
    }
  }

  /** What the cells hold, read in order. */
  ghost function Contents<V>(c: seq<Cell<V>>): map<nat, V> {
    if c == [] then map[]
    else
      var x := c[|c| - 1];
      if x.Full? then Contents(c[..|c| - 1])[x.key := x.val] else Contents(c[..|c| - 1])
  }

  lemma {:induction false} ContentsAt<V>(c: seq<Cell<V>>, m: map<nat, V>, i: nat)
    requires Stores(c, m) && i <= |c|
    ensures forall k :: k in Contents(c[..i]) <==> exists j :: 0 <= j < i && c[j].Full? && c[j].key == k
    ensures forall k :: k in Contents(c[..i]) ==> k in m && Contents(c[..i])[k] == m[k]
  {
    if i > 0 {
      ContentsAt(c, m, i - 1);
      assert c[..i][..i - 1] == c[..i - 1];
    }
  }

  lemma KeyIsNew<V>(c: seq<Cell<V>>, hash: Hash, m: map<nat, V>, i: nat)
    requires Stores(c, m) && Probed(c, hash) && i < |c| && c[i].Full?
    ensures c[i].key !in Contents(c[..i])
  {
    ContentsAt(c, m, i);
  }

  lemma ContentsAll<V>(c: seq<Cell<V>>, m: map<nat, V>)
    requires Stores(c, m)
    ensures Contents(c) == m
  {
    ContentsAt(c, m, |c|);
    assert c[..|c|] == c;
    forall k | k in m ensures k in Contents(c) {
      var j :| 0 <= j < |c| && c[j] == Full(k, m[k]);
    }
  }

  class Table<V(0)> {
    const hash: Hash
    const first: nat      // the first capacity
    const purge: bool     // rehash in place when few cells are live
    var cells: array<Cell<V>>
    var used: nat
    var live: nat
    ghost var model: map<nat, V>

    ghost predicate Valid()
      reads this, cells
    {
      && first >= 2 && (cells.Length == 0 || cells.Length >= 2)
      && used == Used(cells[..]) && live == Live(cells[..]) && used * 2 <= cells.Length
      && Probed(cells[..], hash) && Stores(cells[..], model)
    }

    constructor (hash: Hash, first: nat, purge: bool)
      requires first >= 2
      ensures Valid() && fresh(cells) && model == map[] && this.hash == hash
          && this.first == first && this.purge == purge
    {
      this.hash, this.first, this.purge := hash, first, purge;
      cells := new Cell<V>[0];
      used, live, model := 0, 0, map[];
    }

    /** The value of p, and its removal if `take`. */
    method Find(p: nat, take: bool) returns (r: Option<V>)
      requires Valid()
      modifies this`live, this`model, cells
      ensures Valid() && r == (if p in old(model) then Some(old(model)[p]) else None)
      ensures model == if take then old(model) - {p} else old(model)
    {
      if p == 0 || cells.Length == 0 {
        NotStored(cells[..], hash, model, p);
        return None;
      }
      var found, i := Seek(p);
      if !found { return None; }
      r := Some(cells[i].val);
      assert cells[..][i] == cells[i];
      if take {
        RemoveKeeps(cells[..], hash, model, i);
        CountsUpdate(cells[..], i, Dead);
        Set(i, Dead);
        live, model := live - 1, model - {p};
      }
    }

    method Set(i: nat, x: Cell<V>)
      requires i < cells.Length
      modifies cells
      ensures cells[..] == old(cells[..])[i := x]
    {
      cells[i] := x;
    }

    /** Probes for p. */
    method Seek(p: nat) returns (found: bool, i: nat)
      requires Valid() && cells.Length > 0
      ensures found <==> p in model
      ensures found ==> i < cells.Length && cells[i].Full? && cells[i].key == p
    {
      ghost var e := SomeEmpty(cells[..]);
      ghost var h := Home(hash, p, cells.Length);
      i := Home(hash, p, cells.Length);
      while !cells[i].Empty?
        invariant i < cells.Length && !Passes(h, e, i)
        invariant forall j :: 0 <= j < cells.Length && Passes(h, j, i) ==> !(cells[j].Full? && cells[j].key == p)
        decreases Steps(i, e, cells.Length)
      {
        if cells[i].Full? && cells[i].key == p {
          assert cells[..][i] == cells[i];
          return true, i;
        }
        i := Next(i, cells.Length);
      }
      Absent(cells[..], hash, model, p, i);
      found := false;
    }

    /** Probes for a cell that is empty or a tombstone. */
    method Vacant(p: nat) returns (i: nat)
      requires Valid() && cells.Length > 0
      ensures i < cells.Length && !cells[i].Full? && Open(cells[..], Home(hash, p, cells.Length), i)
    {
      ghost var e := SomeEmpty(cells[..]);
      ghost var h := Home(hash, p, cells.Length);
      i := Home(hash, p, cells.Length);
      while cells[i].Full?
        invariant i < cells.Length && !Passes(h, e, i)
        invariant forall j :: 0 <= j < cells.Length && Passes(h, j, i) ==> cells[j].Full?
        decreases Steps(i, e, cells.Length)
      {
        i := Next(i, cells.Length);
      }
    }

    predicate Crowded()
      reads this
    {
      (used + 1) * 2 > cells.Length
    }

    /** Stores a block that is not in the table yet. Only the registry survives a rehash
        that gets no memory: it keeps its entries but counts them as none, so it is left
        in a consistent state only if it had no cell in use. */
    method Put(p: nat, v: V, oom: bool) returns (ok: bool)
      requires Valid() && p != 0 && p !in model && (oom ==> purge)
      modifies this, cells
      ensures ok == !(oom && old(Crowded()))
      ensures ok ==> Valid() && model == old(model)[p := v] && (fresh(cells) || cells == old(cells))
      ensures !ok ==> cells == old(cells) && cells[..] == old(cells[..]) && model == old(model) && used == live == 0
      ensures !ok ==> (Valid() <==> old(used) == 0)
      ensures !old(Crowded()) ==> cells == old(cells) && used <= old(used) + 1 && live == old(live) + 1
      decreases if Crowded() then 2 else 0, 1
    {
      if Crowded() {
        ok := Grow(oom);
        if !ok { return; }
      }
      ok := true;
      var i := Vacant(p);
      Fill(i, p, v);
    }

    method Fill(i: nat, p: nat, v: V)
      requires Valid() && !Crowded() && p != 0 && p !in model
      requires i < cells.Length && !cells[i].Full? && Open(cells[..], Home(hash, p, cells.Length), i)
      modifies this`used, this`live, this`model, cells
      ensures Valid() && model == old(model)[p := v] && used <= old(used) + 1 && live == old(live) + 1
    {
      PutKeeps(cells[..], hash, model, i, p, v);
      CountsUpdate(cells[..], i, Full(p, v));
      if cells[i].Empty? { used := used + 1; }
      Set(i, Full(p, v));
      live, model := live + 1, model[p := v];
    }

    /** Rehashes into new cells. The re-insertions find room: no grow within a grow. */
    method Grow(oom: bool) returns (ok: bool)
      requires Valid() && Crowded() && (oom ==> purge)
      modifies this
      ensures ok == !oom && model == old(model)
      ensures ok ==> Valid() && fresh(cells) && !Crowded()
      ensures !ok ==> cells == old(cells) && used == live == 0 && (Valid() <==> old(used) == 0)
      decreases 1, 2
    {
      if oom {
        used, live := 0, 0;
        return false;
      }
      ok := true;
      var same := purge && (live + 1) * 4 <= cells.Length;
      Rebuild(if cells.Length == 0 then first else if same then cells.Length else cells.Length * 2);
    }

    method Rebuild(cap: nat)
      requires Valid() && cap >= 2 && live * 2 <= cap
      modifies this
      ensures Valid() && model == old(model) && fresh(cells) && cells.Length == cap && used <= old(live)
      decreases 1, 1
    {
      var was := cells;
      ghost var c, m := cells[..], model;
      cells := new Cell<V>[cap](_ => Empty);
      used, live, model := 0, 0, map[];
      EmptyCounts(cells[..]);
      for i := 0 to was.Length
        invariant Valid() && fresh(cells) && cells.Length == cap && cells != was && was[..] == c
        invariant used <= Live(c[..i]) && model == Contents(c[..i])
      {
        Reinsert(was[i], c, m, i);
      }
      assert c[..was.Length] == c;
      ContentsAll(c, m);
    }

    method Reinsert(x: Cell<V>, ghost c: seq<Cell<V>>, ghost m: map<nat, V>, ghost i: nat)
      requires Valid() && Stores(c, m) && Probed(c, hash) && i < |c| && x == c[i]
      requires used <= Live(c[..i]) && model == Contents(c[..i]) && Live(c) * 2 <= cells.Length
      modifies this, cells
      ensures Valid() && cells == old(cells)
      ensures used <= Live(c[..i + 1]) && model == Contents(c[..i + 1])
      decreases 1, 0
    {
      LiveUpTo(c, i);
      ContentsAt(c, m, i);
      assert c[..i + 1][..i] == c[..i];
      if x.Full? { var _ := Put(x.key, x.val, false); }
    }

    /** moty_track_free_all: every stored block, each once, and the table emptied. */
    method Drain() returns (blocks: seq<nat>)
      requires Valid()
      modifies this
      ensures Valid() && model == map[] && fresh(cells)
      ensures NoDup(blocks) && forall k: nat :: k in blocks <==> k in old(model)
    {
      ghost var c, m := cells[..], model;
      blocks := [];
      for i := 0 to cells.Length
        invariant cells[..] == c && NoDup(blocks) && forall k: nat :: k in blocks <==> k in Contents(c[..i])
      {
        assert c[..i + 1][..i] == c[..i] && c[i] == cells[i];
        if cells[i].Full? {
          KeyIsNew(c, hash, m, i);
          blocks := blocks + [cells[i].key];
        }
      }
      assert c[..cells.Length] == c;
      ContentsAll(c, m);
      Forget();
    }

    method Forget()
      modifies this
      ensures first >= 2 ==> Valid()
      ensures model == map[] && fresh(cells)
    {
      cells := new Cell<V>[0];
      used, live, model := 0, 0, map[];
    }

    /** moty_track_merge: src's blocks become this table's. */
    method Merge(src: Table<V>)
      requires Valid() && src.Valid() && src != this && src.cells != cells
      requires forall k :: k in model ==> k !in src.model
      modifies this, cells, src
      ensures Valid() && src.Valid() && src.model == map[] && model == old(model) + old(src.model)
    {
      ghost var c, m, mine := src.cells[..], src.model, model;
      var was := src.cells;
      for i := 0 to was.Length
        invariant Valid() && src.Valid() && src.cells == was && was[..] == c && src.model == m
        invariant cells == old(cells) || fresh(cells)
        invariant model == mine + Contents(c[..i])
      {
        Absorb(was[i], c, m, src.hash, i, mine);
      }
      assert c[..was.Length] == c;
      ContentsAll(c, m);
      src.Forget();
    }

    method Absorb(x: Cell<V>, ghost c: seq<Cell<V>>, ghost m: map<nat, V>, ghost h: Hash, ghost i: nat,
                  ghost mine: map<nat, V>)
      requires Valid() && Stores(c, m) && Probed(c, h) && i < |c| && x == c[i]
      requires model == mine + Contents(c[..i]) && forall k :: k in mine ==> k !in m
      modifies this, cells
      ensures Valid() && model == mine + Contents(c[..i + 1]) && (cells == old(cells) || fresh(cells))
    {
      assert c[..i + 1][..i] == c[..i];
      if x.Full? {
        KeyIsNew(c, h, m, i);
        ContentsAt(c, m, i);
        Extend(mine, Contents(c[..i]), x.key, x.val);
        var _ := Put(x.key, x.val, false);
      }
    }
  }

  lemma Extend<V>(a: map<nat, V>, b: map<nat, V>, k: nat, v: V)
    ensures (a + b)[k := v] == a + b[k := v]
  {
  }

  // ----- runs

  datatype Op<V> = Insert(p: nat, v: V) | Lookup(p: nat) | Remove(p: nat)

  /** Only blocks that are not stored are inserted. */
  ghost predicate Legal<V>(m: map<nat, V>, ops: seq<Op<V>>)
    decreases |ops|
  {
    ops != [] ==> (ops[0].Insert? ==> ops[0].p != 0 && ops[0].p !in m) && Legal(After(m, ops[0]), ops[1..])
  }

  ghost function After<V>(m: map<nat, V>, op: Op<V>): map<nat, V> {
    match op
    case Insert(p, v) => m[p := v]
    case Lookup(p) => m
    case Remove(p) => m - {p}
  }

  /** What a map answers to a lookup or a removal. */
  ghost function Answer<V>(m: map<nat, V>, op: Op<V>): Option<V> {
    if !op.Insert? && op.p in m then Some(m[op.p]) else None
  }

  ghost function Answers<V>(m: map<nat, V>, ops: seq<Op<V>>): seq<Option<V>>
    decreases |ops|
  {
    if ops == [] then [] else [Answer(m, ops[0])] + Answers(After(m, ops[0]), ops[1..])
  }

  lemma NextOp<V>(m: map<nat, V>, ops: seq<Op<V>>, i: nat)
    requires i < |ops| && Legal(m, ops[i..])
    ensures (ops[i].Insert? ==> ops[i].p != 0 && ops[i].p !in m) && Legal(After(m, ops[i]), ops[i + 1..])
    ensures Answers(m, ops[i..]) == [Answer(m, ops[i])] + Answers(After(m, ops[i]), ops[i + 1..])
  {
    assert ops[i..][1..] == ops[i + 1..];
  }

  /** Any legal sequence of operations on an empty table is answered as by a map. */
  method Session<V(0)>(hash: Hash, first: nat, purge: bool, ops: seq<Op<V>>) returns (answers: seq<Option<V>>)
    requires first >= 2 && Legal(map[], ops)
    ensures answers == Answers(map[], ops)
  {
    var t := new Table<V>(hash, first, purge);
    answers := [];
    ghost var all := Answers(map[], ops);
    assert ops[0..] == ops;
    for i := 0 to |ops|
      invariant t.Valid() && fresh(t) && fresh(t.cells) && Legal(t.model, ops[i..])
      invariant answers + Answers(t.model, ops[i..]) == all
    {
      answers := Continue(t, ops, i, answers);
    }
  }

  method Continue<V(0)>(t: Table<V>, ops: seq<Op<V>>, i: nat, answers: seq<Option<V>>) returns (more: seq<Option<V>>)
    requires i < |ops| && t.Valid() && Legal(t.model, ops[i..])
    modifies t, t.cells
    ensures t.Valid() && (fresh(t.cells) || t.cells == old(t.cells)) && Legal(t.model, ops[i + 1..])
    ensures more + Answers(t.model, ops[i + 1..]) == answers + old(Answers(t.model, ops[i..]))
  {
    NextOp(t.model, ops, i);
    ghost var rest := Answers(After(t.model, ops[i]), ops[i + 1..]);
    var r := Do(t, ops[i]);
    assert answers + ([r] + rest) == (answers + [r]) + rest;
    more := answers + [r];
  }

  method Do<V(0)>(t: Table<V>, op: Op<V>) returns (r: Option<V>)
    requires t.Valid() && (op.Insert? ==> op.p != 0 && op.p !in t.model)
    modifies t, t.cells
    ensures t.Valid() && (fresh(t.cells) || t.cells == old(t.cells)) && t.model == old(After(t.model, op))
    ensures r == old(Answer(t.model, op))
  {
    r := None;
    match op
    case Insert(p, v) => var _ := t.Put(p, v, false);
    case Lookup(p) => r := t.Find(p, false);
    case Remove(p) => r := t.Find(p, true);
  }

  /** The registry of big blocks and the trackers are such tables. */
  method NewRegistry() returns (t: Table<nat>)
    ensures t.Valid() && fresh(t) && fresh(t.cells) && t.model == map[] && t.first == 256
        && t.purge && t.hash == RegistryHash
  {
    t := new Table<nat>(RegistryHash, 256, true);
  }

  method NewTracker() returns (t: Table<()>)
    ensures t.Valid() && fresh(t) && fresh(t.cells) && t.model == map[] && t.first == 1024
        && !t.purge && t.hash == TrackerHash
  {
    t := new Table<()>(TrackerHash, 1024, false);
  }

  lemma {:induction false} StoredIsUsed<V>(c: seq<Cell<V>>, x: Cell<V>)
    requires x in c && x.Full?
    ensures Used(c) > 0
  {
    var n := |c| - 1;
    if c[n] != x { StoredIsUsed(c[..n], x); }
  }

  /** The registry comes to such a state: it fills up with mappings of `size` bytes at
      ascending pages until the next one makes it rehash, and that gets no memory. From then
      on it counts no cell as in use, although its cells are. */
  method RegistryMiscounts(size: nat) returns (t: Table<nat>, ok: bool)
    ensures !ok && t.used == 0 < Used(t.cells[..]) && !t.Valid()
  {
    var p;
    t, p := FullRegistry(size);
    StoredIsUsed(t.cells[..], Full(p, size));
    NextPage(t.model, p, size);
    ok := t.Put(p + PAGE, size, true);
  }

  const PAGE := 0x1000

  /** Mappings at pages, the last one at p. */
  ghost predicate Pages(m: map<nat, nat>, p: nat, size: nat) {
    && p > 0 && p in m && m[p] == size
    && forall k :: k in m ==> 0 < k <= p && k % PAGE == 0
  }

  lemma NextPage(m: map<nat, nat>, p: nat, size: nat)
    requires Pages(m, p, size)
    ensures p + PAGE !in m && Pages(m[p + PAGE := size], p + PAGE, size)
  {
  }

  method FullRegistry(size: nat) returns (t: Table<nat>, p: nat)
    ensures fresh(t) && fresh(t.cells) && t.Valid() && t.purge && t.Crowded() && t.hash == RegistryHash
    ensures Pages(t.model, p, size)
  {
    t := NewRegistry();
    p := 0x10000;
    var _ := t.Put(p, size, false);
    while !t.Crowded()
      invariant t.Valid() && fresh(t) && fresh(t.cells) && t.purge && t.hash == RegistryHash && Pages(t.model, p, size)
      decreases t.cells.Length - t.live
    {
      NextPage(t.model, p, size);
      p := p + PAGE;
      var _ := t.Put(p, size, false);
    }
  }

  // ----- the registry behind its lock

  datatype Call = Map(p: nat, n: nat, oom: bool) | Length(p: nat) | Unmap(p: nat)

  function OpOf(c: Call): Op<nat> {
    match c
    case Map(p, n, _) => Insert(p, n)
    case Length(p) => Lookup(p)
    case Unmap(p) => Remove(p)
  }

  /** Done, thrown out of by the failed rehash, or waiting for the lock for ever. */
  datatype Outcome = Done(size: Option<nat>) | Jumped | Hung

  /** g_big and g_big_mu. The failed rehash leaves big_put by a jump, and the lock taken by
      big_alloc around it is never given back. */
  class Registry {
    const table: Table<nat>
    var locked: bool

    /** Whoever gets the lock finds the table consistent. */
    ghost predicate Valid()
      reads this, table, table.cells
    {
      table.purge && (!locked ==> table.Valid())
    }

    ghost function Blocks(): map<nat, nat>
      reads this, table
    {
      table.model
    }

    constructor ()
      ensures Valid() && !locked && Blocks() == map[] && fresh(table) && fresh(table.cells)
    {
      var t := NewRegistry();
      table, locked := t, false;
    }

    constructor Of(t: Table<nat>)
      requires t.Valid() && t.purge
      ensures Valid() && !locked && table == t
    {
      table, locked := t, false;
    }

    /** big_alloc (given the new mapping, and whether a rehash would get memory), big_len and
        big_free. */
    method Handle(c: Call) returns (o: Outcome)
      requires Valid() && (c.Map? && !locked ==> c.p != 0 && c.p !in Blocks())
      modifies this, table, table.cells
      ensures Valid() && (fresh(table.cells) || table.cells == old(table.cells))
      ensures old(locked) ==> o == Stuck(c) && unchanged(this) && unchanged(table) && unchanged(table.cells)
      ensures !old(locked) ==>
          o == if c.Map? && c.oom && old(table.Crowded()) then Jumped else Done(old(Answer(Blocks(), OpOf(c))))
      ensures locked == (old(locked) || o == Jumped)
      ensures !locked ==> Blocks() == old(After(Blocks(), OpOf(c)))
    {
      if c == Unmap(0) {
        if !locked { NotStored(table.cells[..], table.hash, table.model, 0); }
        return Done(None);
      }
      if locked { return Hung; }
      locked := true;
      o := Inside(c);
      if o == Jumped { return; }
      locked := false;
    }

    /** What is done under the lock. */
    method Inside(c: Call) returns (o: Outcome)
      requires table.Valid() && table.purge && (c.Map? ==> c.p != 0 && c.p !in Blocks())
      modifies table, table.cells
      ensures fresh(table.cells) || table.cells == old(table.cells)
      ensures o == if c.Map? && c.oom && old(table.Crowded()) then Jumped else Done(old(Answer(Blocks(), OpOf(c))))
      ensures o != Jumped ==> table.Valid() && Blocks() == old(After(Blocks(), OpOf(c)))
    {
      match c
      case Map(p, n, oom) =>
        var ok := table.Put(p, n, oom);
        o := if ok then Done(None) else Jumped;
      case Length(p) =>
        var size := table.Find(p, false);
        o := Done(size);
      case Unmap(p) =>
        var size := table.Find(p, true);
        o := Done(size);
    }
  }

  /** What a call comes to once the lock is lost: big_free(NULL) alone does not take it. */
  function Stuck(c: Call): Outcome {
    if c == Unmap(0) then Done(None) else Hung
  }

  /** Only new mappings are registered. */
  ghost predicate Sensible(m: map<nat, nat>, calls: seq<Call>)
    decreases |calls|
  {
    calls != [] ==>
      (calls[0].Map? ==> calls[0].p != 0 && calls[0].p !in m) && Sensible(After(m, OpOf(calls[0])), calls[1..])
  }

  /** Answers as a map's, until a rehash gets no memory; from then on every call hangs. */
  ghost predicate Behaves(m: map<nat, nat>, calls: seq<Call>, outs: seq<Outcome>)
    decreases |calls|
  {
    && |outs| == |calls|
    && (calls != [] ==>
      if outs[0].Jumped? then calls[0].Map? && calls[0].oom && AllStuck(calls[1..], outs[1..])
      else outs[0] == Done(Answer(m, OpOf(calls[0]))) && Behaves(After(m, OpOf(calls[0])), calls[1..], outs[1..]))
  }

  predicate AllStuck(calls: seq<Call>, outs: seq<Outcome>) {
    |outs| == |calls| && forall i :: 0 <= i < |calls| ==> outs[i] == Stuck(calls[i])
  }

  /** Any run of registry calls, by whatever threads: the miscounted table is never read. */
  method RunRegistry(r: Registry, calls: seq<Call>) returns (outs: seq<Outcome>)
    requires r.Valid() && (!r.locked ==> Sensible(r.Blocks(), calls))
    modifies r, r.table, r.table.cells
    ensures r.Valid() && if old(r.locked) then AllStuck(calls, outs) else Behaves(old(r.Blocks()), calls, outs)
    decreases |calls|
  {
    outs := [];
    if calls == [] { return; }
    var o := r.Handle(calls[0]);
    var rest := RunRegistry(r, calls[1..]);
    outs := [o] + rest;
  }

  /** A registry full of mappings, and one more whose rehash gets no memory: giving any of
      them back then hangs. */
  method RegistryHangs(size: nat) returns (o: Outcome, o': Outcome)
    ensures o == Jumped && o' == Hung
  {
    var t, p := FullRegistry(size);
    var r := new Registry.Of(t);
    NextPage(t.model, p, size);
    o := r.Handle(Map(p + PAGE, size, true));
    o' := r.Handle(Unmap(p));
  }
}
