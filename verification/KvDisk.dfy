/** The conversation on disk (c/engines/glm.c, kv_disk_*): a header holding a record
    counter, then one record per position. Records are appended first and the counter
    is rewritten last, so that a crash between any two writes leaves the old prefix.
    The file is modelled in 32-bit words, the unit of its layout; a buffered write may
    reach the file word by word. */
module KvDisk {
  import opened Wrappers

  type Record = seq<int>

  const HEADER := 10        // 2 words of magic, 8 of dimensions and counter
  const COUNTER := 8        // magic, then h[6]
  const MARGIN := 8         // a file is reopened when it has less than maxctx - MARGIN - g_draft records

  /** The header of a model with the given six dimensions and no records. */
  function Header(magic: seq<int>, dims: seq<int>, nrec: int): (h: seq<int>)
    requires |magic| == 2 && |dims| == 6
    ensures |h| == HEADER && h[COUNTER] == nrec
  {
    magic + dims + [nrec, 0]
  }

  /** Magic and dimensions are this model's; the last word is not checked. */
  predicate Headed(w: seq<int>, magic: seq<int>, dims: seq<int>) {
    |w| >= HEADER && |magic| == 2 && |dims| == 6 && w[..2] == magic && w[2..8] == dims
  }

  /** At most n whole records of `size` words from the front of `data`. */
  function Take(data: seq<int>, size: nat, n: nat): (recs: seq<Record>)
    requires size > 0
    ensures |recs| <= n
  {
    if n == 0 || |data| < size then [] else [data[..size]] + Take(data[size..], size, n - 1)
  }

  function Flat(recs: seq<Record>): seq<int> {
    if recs == [] then [] else recs[0] + Flat(recs[1..])
  }

  ghost predicate Sized(recs: seq<Record>, size: nat) {
    forall i :: 0 <= i < |recs| ==> |recs[i]| == size
  }

  lemma {:induction false} FlatLength(recs: seq<Record>, size: nat)
    requires Sized(recs, size)
    ensures |Flat(recs)| == |recs| * size
  {
    if recs != [] { FlatLength(recs[1..], size); }
  }

  lemma {:induction false} FlatPush(recs: seq<Record>, r: Record)
    ensures Flat(recs + [r]) == Flat(recs) + r
  {
    if recs == [] {
      assert Flat([r]) == r + Flat([]);
    } else {
      FlatPush(recs[1..], r);
      assert (recs + [r])[1..] == recs[1..] + [r];
    }
  }

  lemma {:induction false} FlatPrefix(recs: seq<Record>, n: nat)
    requires n <= |recs|
    ensures Flat(recs[..n]) <= Flat(recs)
  {
    if n > 0 {
      FlatPrefix(recs[1..], n - 1);
      assert recs[..n][1..] == recs[1..][..n - 1];
    }
  }

  /** Reading back what was laid out, whatever follows it. */
  lemma {:induction false} TakeFlat(recs: seq<Record>, data: seq<int>, size: nat)
    requires size > 0 && Sized(recs, size) && Flat(recs) <= data
    ensures Take(data, size, |recs|) == recs
  {
    if recs != [] {
      assert data[..size] == recs[0];
      TakeFlat(recs[1..], data[size..], size);
    }
  }

  /** What kv_disk_load returns: nothing for a missing, foreign, empty or too long file,
      else the counted records that are whole. */
  function Load(disk: Option<seq<int>>, magic: seq<int>, dims: seq<int>, size: nat, limit: int): seq<Record>
    requires size > 0
  {
    if disk.None? || !Headed(disk.value, magic, dims) then []
    else if disk.value[COUNTER] < 1 || disk.value[COUNTER] >= limit then []
    else Take(disk.value[HEADER..], size, disk.value[COUNTER])
  }

  /** kv_disk_load: the header checks, then record after record until one is missing. */
  method ReadBack(disk: Option<seq<int>>, magic: seq<int>, dims: seq<int>, size: nat, limit: int)
    returns (recs: seq<Record>)
    requires size > 0
    ensures recs == Load(disk, magic, dims, size, limit)
  {
    recs := [];
    if disk.None? || !Headed(disk.value, magic, dims) { return; }
    var nrec := disk.value[COUNTER];
    if nrec < 1 || nrec >= limit { return; }
    var rest := disk.value[HEADER..];
    for p := 0 to nrec
      invariant recs + Take(rest, size, nrec - p) == Load(disk, magic, dims, size, limit)
    {
      if |rest| < size { break; }
      recs, rest := recs + [rest[..size]], rest[size..];
    }
  }

  /** A file image that records exactly `c`; anything may follow its records. */
  ghost predicate Holds(disk: Option<seq<int>>, magic: seq<int>, dims: seq<int>, size: nat, c: seq<Record>) {
    && Sized(c, size)
    && match disk
       case None => c == []
       case Some(w) => Headed(w, magic, dims) && w[COUNTER] == |c| && Flat(c) <= w[HEADER..]
  }

  /** A crash may also hit the creation of the file, before there is any record. */
  ghost predicate Survives(disk: Option<seq<int>>, magic: seq<int>, dims: seq<int>, size: nat, c: seq<Record>) {
    Holds(disk, magic, dims, size, c) || (c == [] && disk.Some? && |disk.value| < HEADER)
  }

  /** What opening the image returns, for any limit a server gives itself: c if it is
      shorter than that, else nothing. */
  ghost predicate Returns(disk: Option<seq<int>>, magic: seq<int>, dims: seq<int>, size: nat, c: seq<Record>)
    requires size > 0
  {
    forall limit: int :: Load(disk, magic, dims, size, limit) == if |c| < limit then c else []
  }

  /** Opening an image that records c returns it exactly when it is shorter than the limit
      the server gives itself (its context less a margin), or empty. */
  lemma LoadReturns(disk: Option<seq<int>>, magic: seq<int>, dims: seq<int>, size: nat, limit: int, c: seq<Record>)
    requires size > 0 && Survives(disk, magic, dims, size, c)
    ensures Load(disk, magic, dims, size, limit) == if |c| < limit then c else []
    ensures Load(disk, magic, dims, size, limit) == c <==> (|c| < limit || c == [])
  {
    if disk.Some? && Headed(disk.value, magic, dims) && c != [] {
      TakeFlat(c, disk.value[HEADER..], size);
    }
  }

  lemma SurvivorReturns(disk: Option<seq<int>>, magic: seq<int>, dims: seq<int>, size: nat, c: seq<Record>)
    requires size > 0 && Survives(disk, magic, dims, size, c)
    ensures Returns(disk, magic, dims, size, c)
  {
    forall limit: int ensures Load(disk, magic, dims, size, limit) == if |c| < limit then c else [] {
      LoadReturns(disk, magic, dims, size, limit, c);
    }
  }

  class KvFile {
    const magic: seq<int>
    const dims: seq<int>
    const size: nat
    var disk: Option<seq<int>>
    var nrec: nat                               // disk_nrec
    ghost var committed: seq<Record>
    ghost var images: seq<Option<seq<int>>>     // the file after every single write so far

    ghost predicate Valid()
      reads this
    {
      && |magic| == 2 && |dims| == 6 && size > 0
      && Holds(disk, magic, dims, size, committed)
      && nrec == |committed|
    }

    /** A server opening a file that is missing or that it accepts in full. */
    constructor (magic: seq<int>, dims: seq<int>, size: nat, limit: int, disk: Option<seq<int>>, ghost c: seq<Record>)
      requires |magic| == 2 && |dims| == 6 && size > 0
      requires Holds(disk, magic, dims, size, c) && (|c| < limit || c == [])
      ensures Valid() && committed == c && images == []
      ensures this.magic == magic && this.dims == dims && this.size == size && this.disk == disk
    {
      this.magic, this.dims, this.size, this.disk := magic, dims, size, disk;
      LoadReturns(disk, magic, dims, size, limit, c);
      var recs := ReadBack(disk, magic, dims, size, limit);
      this.nrec := |recs|;
      committed, images := c, [];
    }

    /** The images since `from` all read as c when the process dies there. */
    ghost predicate AllSurvive(from: nat, c: seq<Record>)
      reads this
    {
      from <= |images| && forall i :: from <= i < |images| ==> Survives(images[i], magic, dims, size, c)
    }

    /** One word reaches the file, inside it or at its end. */
    method Write(at: nat, v: int)
      requires disk.Some? && at <= |disk.value|
      modifies this`disk, this`images
      ensures disk == Some(if at < |old(disk).value| then old(disk).value[at := v] else old(disk).value + [v])
      ensures images == old(images) + [disk]
    {
      var w := disk.value;
      disk := Some(if at < |w| then w[at := v] else w + [v]);
      images := images + [disk];
    }

    /** kv_disk_open: create the file with an empty header if it is not there. */
    method Open()
      requires Valid()
      modifies this`disk, this`images
      ensures Valid() && disk.Some? && old(images) <= images
      ensures AllSurvive(|old(images)|, committed)
    {
      if disk.None? {
        var h := Header(magic, dims, 0);
        disk := Some([]);
        images := images + [disk];
        for i := 0 to HEADER
          invariant disk == Some(h[..i]) && old(images) <= images
          invariant AllSurvive(|old(images)|, [])
        {
          Write(i, h[i]);
          assert h[..i] + [h[i]] == h[..i + 1];
          if i + 1 == HEADER { assert h[..i + 1] == h; }
        }
        assert h[..HEADER] == h;
      }
    }

    /** The words of one record go out at the end of what is already laid out. */
    method WriteRecord(r: Record, ghost laid: seq<int>, at: nat)
      requires Valid() && disk.Some? && Flat(committed) <= laid <= disk.value[HEADER..]
      requires at == HEADER + |laid|
      modifies this`disk, this`images
      ensures Valid() && disk.Some? && laid + r <= disk.value[HEADER..] && old(images) <= images
      ensures AllSurvive(|old(images)|, committed)
    {
      assert r[..0] == [];
      for i := 0 to |r|
        invariant Valid() && disk.Some? && old(images) <= images
        invariant laid + r[..i] <= disk.value[HEADER..]
        invariant AllSurvive(|old(images)|, committed)
      {
        ghost var before := disk.value;
        Write(at + i, r[i]);
        Overwrite(before, laid + r[..i], r[i]);
        assert laid + r[..i + 1] == (laid + r[..i]) + [r[i]];
      }
      assert r[..|r|] == r;
    }

    /** The counter is one word; the records it will count are already laid out. */
    method WriteCounter(n: nat, ghost c: seq<Record>)
      requires |magic| == 2 && |dims| == 6 && size > 0 && n == |c| && Sized(c, size)
      requires disk.Some? && Headed(disk.value, magic, dims) && Flat(c) <= disk.value[HEADER..]
      modifies this`disk, this`images
      ensures Holds(disk, magic, dims, size, c) && images == old(images) + [disk]
    {
      ghost var w := disk.value;
      Write(COUNTER, n);
      assert disk.value[HEADER..] == w[HEADER..];
    }

    /** kv_disk_append: the new positions of a history that extends the recorded one. */
    method Append(hist: seq<Record>)
      requires Valid() && committed <= hist && Sized(hist, size)
      modifies this
      ensures Valid() && committed == hist && old(images) <= images
      ensures |images| > |old(images)| ==>
                Holds(images[|images| - 1], magic, dims, size, hist)
                && forall i :: |old(images)| <= i < |images| - 1 ==>
                    Survives(images[i], magic, dims, size, old(committed))
    {
      if |hist| <= nrec { return; }
      Open();
      FlatLength(committed, size);
      assert hist[..nrec] == committed;
      for p := nrec to |hist|
        invariant Valid() && disk.Some? && committed == old(committed) && nrec == old(nrec) && old(images) <= images
        invariant Flat(hist[..p]) <= disk.value[HEADER..]
        invariant AllSurvive(|old(images)|, committed)
      {
        FlatLength(hist[..p], size);
        FlatPrefix(hist[..p], nrec);
        assert hist[..p][..nrec] == committed;
        WriteRecord(hist[p], Flat(hist[..p]), HEADER + p * size);
        FlatPush(hist[..p], hist[p]);
        assert hist[..p] + [hist[p]] == hist[..p + 1];
      }
      assert hist[..|hist|] == hist;
      WriteCounter(|hist|, hist);
      nrec := |hist|;
      committed := hist;
    }

    /** kv_disk_truncate (and kv_disk_reset, n = 0): only the counter shrinks. */
    method Truncate(n: nat)
      requires Valid() && n <= nrec
      modifies this
      ensures Valid() && committed == old(committed)[..n] && old(images) <= images
      ensures forall i :: |old(images)| <= i < |images| ==> Holds(images[i], magic, dims, size, old(committed)[..n])
    {
      FlatPrefix(committed, n);
      if disk.None? {
        nrec := 0;
        return;
      }
      nrec := n;
      WriteCounter(n, committed[..n]);
      committed := committed[..n];
    }
  }

  /** A word written right after `laid` leaves header and laid words alone. */
  lemma Overwrite(w: seq<int>, laid: seq<int>, v: int)
    requires |w| >= HEADER && laid <= w[HEADER..]
    ensures var at := HEADER + |laid|;
            var w' := if at < |w| then w[at := v] else w + [v];
            w'[..HEADER] == w[..HEADER] && laid + [v] <= w'[HEADER..]
  {
  }

  datatype Op = Turn(recs: seq<Record>) | Rewind(n: nat)

  /** What a turn or a rewind makes of the history. */
  function Next(hist: seq<Record>, op: Op): seq<Record> {
    match op
    case Turn(recs) => hist + recs
    case Rewind(n) => if n <= |hist| then hist[..n] else hist
  }

  method Do(k: KvFile, hist: seq<Record>, op: Op) returns (next: seq<Record>)
    requires k.Valid() && k.committed == hist && (op.Turn? ==> Sized(op.recs, k.size))
    modifies k
    ensures next == Next(hist, op) && k.Valid() && k.committed == next && old(k.images) <= k.images
    ensures forall m :: |old(k.images)| <= m < |k.images| ==>
              Survives(k.images[m], k.magic, k.dims, k.size, hist)
                  || Survives(k.images[m], k.magic, k.dims, k.size, next)
  {
    next := Next(hist, op);
    match op {
      case Turn(recs) => k.Append(next);
      case Rewind(n) => k.Truncate(if n <= |hist| then n else |hist|);
    }
  }

  /** Opening the image returns one of the histories in `held`, if it is not too long. */
  ghost predicate ReadsAsOne(k: KvFile, image: Option<seq<int>>, held: seq<seq<Record>>)
    requires k.size > 0
  {
    exists h :: h in held && Returns(image, k.magic, k.dims, k.size, h)
  }

  /** Any interleaving of turns (the history grows and is appended) and rewinds (it
      shrinks and the file is truncated; to nothing for a reset): whatever write the
      process dies after, what the loader then returns is one of the histories the
      server held, or nothing if that one is too long for it. */
  method Session(k: KvFile, hist0: seq<Record>, ops: seq<Op>) returns (hist: seq<Record>, ghost held: seq<seq<Record>>)
    requires k.Valid() && k.images == [] && k.committed == hist0
    requires forall op :: op in ops && op.Turn? ==> Sized(op.recs, k.size)
    modifies k
    ensures k.Valid() && k.committed == hist && |held| == |ops| + 1 && held[0] == hist0 && held[|ops|] == hist
    ensures forall i :: 0 <= i < |ops| ==> held[i + 1] == Next(held[i], ops[i])
    ensures forall m :: 0 <= m < |k.images| ==> ReadsAsOne(k, k.images[m], held)
  {
    hist := hist0;
    held := [hist];
    for i := 0 to |ops|
      invariant k.Valid() && k.committed == hist && |held| == i + 1 && held[0] == hist0 && held[i] == hist
      invariant forall j :: 0 <= j < i ==> held[j + 1] == Next(held[j], ops[j])
      invariant forall m :: 0 <= m < |k.images| ==> ReadsAsOne(k, k.images[m], held)
    {
      ghost var was, before := k.images, held;
      var next := Do(k, hist, ops[i]);
      held := held + [next];
      forall m | 0 <= m < |k.images| ensures ReadsAsOne(k, k.images[m], held) {
        if m < |was| {
          assert ReadsAsOne(k, was[m], before);
        } else if Survives(k.images[m], k.magic, k.dims, k.size, hist) {
          SurvivorReturns(k.images[m], k.magic, k.dims, k.size, hist);
          assert before[i] in held;
        } else {
          SurvivorReturns(k.images[m], k.magic, k.dims, k.size, next);
          assert held[i + 1] in held;
        }
      }
      hist := next;
    }
  }
}
