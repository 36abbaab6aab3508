/** The tensor index (c/io/st.h): a hash from names to tensors, built by open addressing
    over all the names, duplicates included, and the lookups through it. */
module TensorIndex {
  import opened Counting
  import opened AllocTables
  import opened Wrappers

  const PRIME := 1099511628211
  const BASIS := 1469598103934665603

  /** h ^ c for a byte c: only the lowest byte of h changes. */
  function XorByte(h: nat, c: char): nat {
    h - h % 256 + ((h % 256) as bv8 ^ (c as int % 256) as bv8) as nat
  }

  /** st_hash: FNV-1a over the bytes of a name, in 64 bits. */
  function HashFrom(h: nat, s: string): nat
    decreases |s|
  {
    if s == [] then h else HashFrom(XorByte(h, s[0]) * PRIME % U64, s[1..])
  }

  function HomeOf(s: string, cap: nat): (h: nat)
    requires cap > 0
    ensures h < cap
  {
    HashFrom(BASIS, s) % cap
  }

  // ----- what a lookup means: the scan of the list

  /** The first tensor with this name. */
  function Scan(names: seq<string>, name: string): (r: Option<nat>)
    ensures r.Some? ==> r.value < |names| && names[r.value] == name && forall i :: 0 <= i < r.value ==> names[i] != name
    ensures r.None? ==> forall i :: 0 <= i < |names| ==> names[i] != name
  {
    ScanFrom(names, name, 0)
  }

  function ScanFrom(names: seq<string>, name: string, i: nat): (r: Option<nat>)
    requires i <= |names|
    ensures r.Some? ==> i <= r.value < |names| && names[r.value] == name
    ensures r.Some? ==> forall k :: i <= k < r.value ==> names[k] != name
    ensures r.None? ==> forall k :: i <= k < |names| ==> names[k] != name
    decreases |names| - i
  {
    if i == |names| then None else if names[i] == name then Some(i) else ScanFrom(names, name, i + 1)
  }

  const PREFIX := "model."
  const BACKBONE := "model.language_model."
  const BUFFER := 512

  /** What the engines ask for: a name, or the text backbone's tensor of that name. */
  function Resolve(names: seq<string>, name: string): Option<nat> {
    var r := Scan(names, name);
    if r.Some? || !(PREFIX <= name) then r
    else
      var alt := BACKBONE + name[|PREFIX|..];
      if |alt| >= BUFFER then None else Scan(names, alt)
  }

  /** st_canon: the name the engines use for a tensor. */
  function Canonical(name: string): string {
    if BACKBONE <= name then PREFIX + name[|BACKBONE|..] else name
  }

  /** The canonical name leads back to the tensor, unless another has that very name or the
      full name does not fit the buffer. */
  lemma CanonicalResolves(names: seq<string>, name: string)
    requires name in names
    ensures Resolve(names, Canonical(name)) == Scan(names, name)
         <==> !(BACKBONE <= name) || (Canonical(name) !in names && |name| < BUFFER)
  {
    var short := Canonical(name);
    var r := Scan(names, name);
    var i :| 0 <= i < |names| && names[i] == name;
    if BACKBONE <= name {
      assert name == BACKBONE + name[|BACKBONE|..];
      assert short[|PREFIX|..] == name[|BACKBONE|..] && |short| < |name|;
      assert BACKBONE + short[|PREFIX|..] == name;
      assert short[..|PREFIX|] == PREFIX;
      if short in names {
        var j :| 0 <= j < |names| && names[j] == short;
      }
    }
  }

  // ----- the index

  /** The cells c hold the first n tensors, tensor k in cell at[k]; probing for a name
      passes only cells in use before it comes to its tensors, and comes to the earlier
      one first. */
  ghost predicate Indexed(names: seq<string>, c: seq<int>, at: seq<nat>, n: nat) {
    && n <= |names| && n < |c| && |at| == n && NoDup(at)
    && (forall k :: 0 <= k < n ==> at[k] < |c| && c[at[k]] == k && Reached(names, |c|, at, k))
    && (forall h :: 0 <= h < |c| && h !in at ==> c[h] == -1)
    && (forall i, k :: 0 <= i < k < n && names[i] == names[k] ==> Passes(HomeOf(names[k], |c|), at[i], at[k]))
  }

  ghost predicate Reached(names: seq<string>, cap: nat, at: seq<nat>, k: nat)
    requires cap > 0 && k < |names| && k < |at|
  {
    Leads(HomeOf(names[k], cap), cap, at, at[k])
  }

  /** Probing from home comes to h through cells in use. */
  ghost predicate Leads(home: nat, cap: nat, at: seq<nat>, h: nat) {
    forall j :: 0 <= j < cap && Passes(home, j, h) ==> j in at
  }

  lemma StoreKeeps(names: seq<string>, c: seq<int>, at: seq<nat>, i: nat, h: nat)
    requires Indexed(names, c, at, i) && i < |names| && i + 1 < |c| && h < |c| && h !in at
    requires Leads(HomeOf(names[i], |c|), |c|, at, h)
    ensures Indexed(names, c[h := i], at + [h], i + 1)
  {
    var d, bt := c[h := i], at + [h];
    forall k | 0 <= k < i + 1 ensures bt[k] < |d| && d[bt[k]] == k && Reached(names, |d|, bt, k) {
      assert k < i ==> Reached(names, |c|, at, k);
    }
    forall k | 0 <= k < i && names[k] == names[i] ensures Passes(HomeOf(names[i], |c|), at[k], h) {
      assert Reached(names, |c|, at, k);
    }
  }

  /** A cell that holds an index holds the tensor that is in it. */
  lemma InUse(names: seq<string>, c: seq<int>, at: seq<nat>, n: nat, h: nat)
    requires Indexed(names, c, at, n) && h < |c| && c[h] >= 0
    ensures h in at && c[h] < n && at[c[h]] == h
  {
    if h !in at {
      assert false;
    }
    var k :| 0 <= k < |at| && at[k] == h;
  }

  lemma NotInUse(names: seq<string>, c: seq<int>, at: seq<nat>, n: nat, h: nat)
    requires Indexed(names, c, at, n) && h < |c| && c[h] < 0
    ensures h !in at
  {
    assert forall k :: 0 <= k < |at| ==> at[k] < |c| && c[at[k]] >= 0;
  }

  /** None of the cells passed from home to h holds a tensor of this name. */
  ghost predicate Passed(names: seq<string>, c: seq<int>, at: seq<nat>, home: nat, h: nat, name: string) {
    forall j :: 0 <= j < |c| && Passes(home, j, h) ==> j in at && 0 <= c[j] < |names| && names[c[j]] != name
  }

  /** A tensor of this name is not among the cells passed without finding it. */
  lemma NotPassed(names: seq<string>, c: seq<int>, at: seq<nat>, home: nat, h: nat, k: nat)
    requires Indexed(names, c, at, |names|) && k < |names| && Passed(names, c, at, home, h, names[k])
    ensures !Passes(home, at[k], h)
  {
    assert c[at[k]] == k;
  }

  lemma FirstIsLowest(names: seq<string>, c: seq<int>, at: seq<nat>, h: nat, name: string)
    requires Indexed(names, c, at, |names|) && h < |c| && 0 <= c[h] < |names| && names[c[h]] == name && at[c[h]] == h
    requires Passed(names, c, at, HomeOf(name, |c|), h, name)
    ensures Scan(names, name) == Some(c[h])
  {
    NotPassed(names, c, at, HomeOf(name, |c|), h, Scan(names, name).value);
  }

  lemma Missing(names: seq<string>, c: seq<int>, at: seq<nat>, h: nat, name: string)
    requires Indexed(names, c, at, |names|) && h < |c| && c[h] < 0
    requires Passed(names, c, at, HomeOf(name, |c|), h, name)
    ensures Scan(names, name) == None
  {
    var r := Scan(names, name);
    if r.Some? {
      NotPassed(names, c, at, HomeOf(name, |c|), h, r.value);
      FreeIsBehind(names, c, at, h, r.value);
      assert false;
    }
  }

  /** Probing for a stored name passes its cell before a free one. */
  lemma FreeIsBehind(names: seq<string>, c: seq<int>, at: seq<nat>, h: nat, k: nat)
    requires Indexed(names, c, at, |names|) && h < |c| && c[h] < 0 && k < |names|
    ensures Passes(HomeOf(names[k], |c|), at[k], h)
  {
    assert Reached(names, |c|, at, k);
    assert c[at[k]] == k;
    assert forall i :: 0 <= i < |at| ==> c[at[i]] >= 0 && at[i] != h;
    assert h !in at;
  }

  class Shards {
    var names: seq<string>
    var hidx: array?<int>
    ghost var at: seq<nat>       // the cell of each tensor

    ghost predicate Valid()
      reads this, hidx
    {
      hidx != null ==> Indexed(names, hidx[..], at, |names|)
    }

    constructor ()
      ensures Valid() && names == [] && hidx == null
    {
      names, hidx, at := [], null, [];
    }

    /** st_index_file appends the tensors of a file; the index is built afterwards. */
    method Append(more: seq<string>)
      requires hidx == null
      modifies this
      ensures Valid() && names == old(names) + more && hidx == null
    {
      names := names + more;
    }

    /** st_hash_build. */
    method Build()
      requires hidx == null
      modifies this
      ensures Valid() && hidx != null && fresh(hidx) && names == old(names)
    {
      var cap := 1;
      while cap < |names| * 2
        invariant cap >= 1
        decreases |names| * 2 - cap
      {
        cap := cap * 2;
      }
      var table := new int[cap](_ => -1);
      hidx, at := table, [];
      for i := 0 to |names|
        invariant hidx == table && table.Length == cap && names == old(names) && Indexed(names, table[..], at, i)
      {
        var h := Vacant(table, names[i], i);
        StoreKeeps(names, table[..], at, i, h);
        ghost var was := table[..];
        table[h], at := i, at + [h];
        assert table[..] == was[h := i];
      }
    }

    /** Probes for the first free cell. */
    method Vacant(table: array<int>, name: string, ghost n: nat) returns (h: nat)
      requires Indexed(names, table[..], at, n)
      ensures h < table.Length && h !in at && Leads(HomeOf(name, table.Length), table.Length, at, h)
    {
      SomeFree(at, table.Length);
      ghost var c := table[..];
      ghost var e: nat :| e < |c| && e !in at;
      h := HomeOf(name, table.Length);
      ghost var home := h;
      while table[h] >= 0
        invariant h < |c| && !Passes(home, e, h) && Leads(home, |c|, at, h)
        decreases Steps(h, e, |c|)
      {
        assert c[h] == table[h];
        InUse(names, c, at, n, h);
        h := Next(h, table.Length);
      }
      NotInUse(names, c, at, n, h);
    }

    /** st_find_exact, through the index once there is one. */
    method FindExact(name: string) returns (r: Option<nat>)
      requires Valid()
      ensures r == Scan(names, name)
    {
      if hidx != null {
        r := Probe(hidx, name);
        return;
      }
      for i := 0 to |names|
        invariant Scan(names, name) == ScanFrom(names, name, i)
      {
        if names[i] == name { return Some(i); }
      }
      r := None;
    }

    method Probe(table: array<int>, name: string) returns (r: Option<nat>)
      requires Indexed(names, table[..], at, |names|)
      ensures r == Scan(names, name)
    {
      SomeFree(at, table.Length);
      ghost var e: nat :| e < table.Length && e !in at;
      ghost var home, c := HomeOf(name, table.Length), table[..];
      var h: nat := HomeOf(name, table.Length);
      while table[h] >= 0
        invariant h < table.Length && !Passes(home, e, h) && Passed(names, c, at, home, h, name)
        decreases Steps(h, e, table.Length)
      {
        InUse(names, c, at, |names|, h);
        if names[table[h]] == name {
          FirstIsLowest(names, c, at, h, name);
          return Some(table[h]);
        }
        PassOne(names, c, at, home, h, name, e);
        h := Next(h, table.Length);
      }
      Missing(names, c, at, h, name);
      r := None;
    }

    static lemma PassOne(names: seq<string>, c: seq<int>, at: seq<nat>, home: nat, h: nat, name: string, e: nat)
      requires h < |c| && home < |c| && h in at && 0 <= c[h] < |names| && names[c[h]] != name
      requires Passed(names, c, at, home, h, name) && e < |c| && e != h && !Passes(home, e, h)
      ensures Passed(names, c, at, home, Next(h, |c|), name) && !Passes(home, e, Next(h, |c|))
      ensures Steps(Next(h, |c|), e, |c|) < Steps(h, e, |c|)
    {
    }

    /** st_find. */
    method Find(name: string) returns (r: Option<nat>)
      requires Valid()
      ensures r == Resolve(names, name)
    {
      r := FindExact(name);
      if r.Some? || !(PREFIX <= name) { return; }
      var alt := BACKBONE + name[|PREFIX|..];
      if |alt| >= BUFFER { return None; }
      r := FindExact(alt);
    }
  }

  /** Indexing any list of files and looking any name up agrees with the plain scan. */
  method Lookup(files: seq<seq<string>>, name: string) returns (r: Option<nat>)
    ensures r == Resolve(Flat(files), name)
  {
    var s := new Shards();
    for i := 0 to |files|
      invariant fresh(s) && s.hidx == null && s.names == Flat(files[..i])
    {
      assert files[..i + 1][..i] == files[..i];
      s.Append(files[i]);
    }
    assert files[..|files|] == files;
    s.Build();
    r := s.Find(name);
  }

  function Flat(files: seq<seq<string>>): seq<string> {
    if files == [] then [] else Flat(files[..|files| - 1]) + files[|files| - 1]
  }
}
