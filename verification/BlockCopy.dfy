/**
 The block copy behind memcpy, memmove and bcopy on tagged memory: four phases in
 either direction.
 */
module BlockCopy {
  import opened TaggedMemory
  import opened CopyLoop

  // ------------------------------------------------------------ the account

  /** A copy of the n bytes at s to d, starting from a given memory and going upwards
      or downwards. */
  datatype Job = Job(build: Build, bytes: seq<Byte>, tags: seq<bool>, d: nat, s: nat, n: nat, up: bool) {

    ghost predicate Valid() {
      && |bytes| == build.Start(|tags|) <= ADDRESS_SPACE
      && n < ADDRESS_SPACE && d + n <= |bytes| && s + n <= |bytes|
      && (if up then UpSafe(d, s, n) else DownSafe(d, s, n))
    }

    /** When the copy has reached offset p, the bytes from Lo(p) to Hi(p) are moved. */
    function Lo(p: nat): nat { if up then 0 else p }

    function Hi(p: nat): nat { if up then p else n }

    /** Granule g is to be copied with its tag. */
    ghost predicate Whole(g: nat) {
      build.Low(d) == build.Low(s) && build.Within(g, d, n)
    }

    ghost function TagAt(p: nat, g: nat): bool
      requires Valid() && p <= n && g < |tags|
    {
      if build.Touches(g, d + Lo(p), Hi(p) - Lo(p)) then MovedTag(build, tags, d, s, n, g) else tags[g]
    }

    ghost function TagsAt(p: nat): seq<bool>
      requires Valid() && p <= n
    {
      seq(|tags|, g requires 0 <= g < |tags| => TagAt(p, g))
    }

    ghost function BytesAt(p: nat): seq<Byte>
      requires Valid() && p <= n
    {
      Moved(bytes, d + Lo(p), s + Lo(p), Hi(p) - Lo(p))
    }

    /** The chunk between offsets p and q comes next after offset p. */
    predicate Next(p: nat, q: nat) {
      if up then p < q <= n else q < p <= n
    }

    /** The chunk between offsets p and q is the bytes from a to b, the k bytes at src that go to dst. */
    predicate Chunk(p: nat, q: nat, a: nat, b: nat, dst: nat, src: nat, k: nat) {
      && Next(p, q) && a == (if up then p else q) && b == (if up then q else p)
      && dst == d + a && src == s + a && k == b - a
    }

    /** No granule that is to be copied with its tag touches the chunk from a to b. */
    ghost predicate Ragged(a: nat, b: nat)
      requires a <= b
    {
      forall g: nat :: Whole(g) ==> !build.Touches(g, d + a, b - a)
    }

    /** Every granule that is to be copied with its tag lies on the side of offset p
        that is still to be moved. */
    ghost predicate Clear(p: nat) {
      forall g: nat :: Whole(g) ==> if up then d + p <= build.Start(g) else build.Start(g) + build.PSize() <= d + p
    }

    /** The chunk from a to b may be moved by accesses of this kind. */
    ghost predicate Suits(access: Access, a: nat, b: nat)
      requires a <= b
    {
      if access.CapAccess? then build.Low(d) == build.Low(s) && build.Low(d + a) == 0 && build.Low(b - a) == 0
      else Ragged(a, b)
    }

    /** From offset p on t words may be moved upwards, and then what capabilities are left. */
    ghost predicate WordsUp(p: nat, t: nat) {
      && p + 8 * t <= n && Clear(p + 8 * t) && Plain.Low(8 * t) == 0
      && (t != 0 ==> AlignedAt(Plain, p) && Next(p, p + 8 * t) && Ragged(p, p + 8 * t))
      && (n - (p + 8 * t) < build.PSize() || AlignedAt(build, p + 8 * t))
    }

    /** From offset p on t words may be moved downwards, and then what capabilities are left. */
    ghost predicate WordsDown(p: nat, t: nat) {
      && 8 * t <= p && Clear(p - 8 * t) && Plain.Low(8 * t) == 0
      && (t != 0 ==> AlignedAt(Plain, p - 8 * t) && Next(p, p - 8 * t) && Ragged(p - 8 * t, p))
      && (p - 8 * t < build.PSize() || AlignedAt(build, p - 8 * t))
    }

    /** The number of bytes still to be moved at offset p. */
    function Left(p: nat): int { if up then n - p else p }

    /** Both ends of the copy are aligned for this unit at offset p. */
    ghost predicate AlignedAt(unit: Build, p: nat) {
      unit.Low(d + p) == 0 && unit.Low(s + p) == 0
    }

    /** The pointers are at offset p and their bounds cover the whole copy. */
    predicate Here(dst: Pointer, src: Pointer, p: nat)
      requires Valid() && p <= n
    {
      && dst.addr == Wrap(d + p) && src.addr == Wrap(s + p)
      && dst.base <= d && d + n <= dst.top <= |bytes|
      && src.base <= s && s + n <= src.top <= |bytes|
    }
  }

  /** The copy has reached offset p, in memory and in the pointers. */
  ghost predicate Reached(mem: Memory, job: Job, dst: Pointer, src: Pointer, p: nat)
    reads mem.bytes, mem.tags
  {
    && mem.Valid() && job.Valid() && mem.build == job.build && p <= job.n
    && mem.bytes.Length == |job.bytes| && mem.tags.Length == |job.tags|
    && mem.bytes[..] == job.BytesAt(p) && mem.tags[..] == job.TagsAt(p)
    && job.Here(dst, src, p)
  }

  lemma NothingMoved(job: Job)
    requires job.Valid()
    ensures job.BytesAt(if job.up then 0 else job.n) == job.bytes
    ensures job.TagsAt(if job.up then 0 else job.n) == job.tags
  {
  }

  lemma AllMoved(job: Job)
    requires job.Valid()
    ensures job.BytesAt(if job.up then job.n else 0) == Moved(job.bytes, job.d, job.s, job.n)
    ensures job.TagsAt(if job.up then job.n else 0) == MovedTags(job.build, job.tags, job.d, job.s, job.n)
  {
  }

  lemma ChunkBytes(job: Job, p: nat, q: nat, a: nat, b: nat, d: nat, s: nat, k: nat)
    requires job.Valid() && job.Chunk(p, q, a, b, d, s, k)
    ensures Moved(job.BytesAt(p), d, s, k) == job.BytesAt(q)
  {
    if job.up {
      MoveThenUp(job.bytes, job.d, job.s, a, k);
    } else {
      MoveThenDown(job.bytes, d, s, job.n - b, k);
    }
  }

  /** A chunk moved by bytes or words may hold no granule that is copied with its tag. */
  lemma PlainChunk(job: Job, access: Access, p: nat, q: nat, a: nat, b: nat, d: nat, s: nat, k: nat)
    requires job.Valid() && job.Chunk(p, q, a, b, d, s, k)
    requires !access.CapAccess? && job.Ragged(a, b)
    ensures LoopTags(job.build, access, job.TagsAt(p), d, s, k) == job.TagsAt(q)
  {
    var after := LoopTags(job.build, access, job.TagsAt(p), d, s, k);
    forall g | 0 <= g < |after| ensures after[g] == job.TagAt(q, g) {
      if job.build.Touches(g, d, k) {
        assert !job.Whole(g);
      }
    }
  }

  /** A chunk of whole granules moved by capabilities. */
  lemma CapChunk(job: Job, p: nat, q: nat, a: nat, b: nat, d: nat, s: nat, k: nat)
    requires job.Valid() && job.Chunk(p, q, a, b, d, s, k)
    requires job.build.Low(job.d) == job.build.Low(job.s) && job.build.Low(d) == 0 && job.build.Low(k) == 0
    ensures LoopTags(job.build, CapAccess, job.TagsAt(p), d, s, k) == job.TagsAt(q)
  {
    var after := LoopTags(job.build, CapAccess, job.TagsAt(p), d, s, k);
    forall g | 0 <= g < |after| ensures after[g] == job.TagAt(q, g) {
      CapChunkTag(job, p, q, a, b, d, s, k, g);
    }
  }

  /** Between two granule boundaries a granule is either inside or untouched. */
  lemma BetweenBoundaries(build: Build, x: nat, n: nat, g: nat)
    requires build.Low(x) == 0 && build.Low(n) == 0
    ensures build.Touches(g, x, n) <==> build.Within(g, x, n)
    ensures build.Touches(g, x, n) <==> x <= build.Start(g) < x + n
  {
    var p, q := build.Granule(x), build.Granule(n);
    assert x == build.Start(p) && n == build.Start(q);
    match build {
      case Plain => assert g + 1 <= p || p + q <= g || p <= g < p + q;
      case Cap128 => assert g + 1 <= p || p + q <= g || p <= g < p + q;
      case Cap256 => assert g + 1 <= p || p + q <= g || p <= g < p + q;
    }
  }

  lemma CapChunkTag(job: Job, p: nat, q: nat, a: nat, b: nat, d: nat, s: nat, k: nat, g: nat)
    requires job.Valid() && job.Chunk(p, q, a, b, d, s, k)
    requires job.build.Low(job.d) == job.build.Low(job.s) && job.build.Low(d) == 0 && job.build.Low(k) == 0
    requires g < |job.tags|
    ensures LoopTag(job.build, CapAccess, job.TagsAt(p), d, s, k, g) == job.TagAt(q, g)
  {
    BetweenBoundaries(job.build, d, k, g);
    if job.build.Within(g, d, k) {
      CapChunkInside(job, p, q, a, b, d, s, k, g);
    } else {
      assert LoopTag(job.build, CapAccess, job.TagsAt(p), d, s, k, g) == job.TagAt(p, g);
    }
  }

  /** A granule inside the source of the next chunk has not been written yet. */
  lemma SourceKept(job: Job, p: nat, q: nat, a: nat, b: nat, d: nat, s: nat, k: nat, h: nat)
    requires job.Valid() && job.Chunk(p, q, a, b, d, s, k)
    requires h < |job.tags| && job.build.Within(h, s, k)
    ensures job.TagsAt(p)[h] == job.tags[h]
  {
    assert !job.build.Touches(h, job.d + job.Lo(p), job.Hi(p) - job.Lo(p));
    assert job.TagsAt(p)[h] == job.TagAt(p, h);
  }

  lemma CapChunkInside(job: Job, p: nat, q: nat, a: nat, b: nat, d: nat, s: nat, k: nat, g: nat)
    requires job.Valid() && job.Chunk(p, q, a, b, d, s, k)
    requires job.build.Low(job.d) == job.build.Low(job.s)
    requires g < |job.tags| && job.build.Within(g, d, k)
    ensures LoopTag(job.build, CapAccess, job.TagsAt(p), d, s, k, g) == job.TagAt(q, g)
  {
    var from := job.build.Start(g) - job.d + job.s;
    OriginStarts(job.build, job.d, job.s, g);
    var h := job.build.Granule(from);
    job.build.GranuleUnique(from, |job.tags|);
    SourceKept(job, p, q, a, b, d, s, k, h);
    assert job.TagAt(q, g) == MovedTag(job.build, job.tags, job.d, job.s, job.n, g) == job.tags[h];
  }

  // ----------------------------------- where the tagged granules can be

  /** Nothing is to be copied with its tag between offset p and the next boundary q
      of a word or of a capability. */
  lemma ClearToBoundary(job: Job, unit: Build, p: nat, q: nat)
    requires unit == Plain || unit == job.build
    requires job.Clear(p) && p <= job.n
    requires job.up ==> unit.Low(job.d + p) != 0 && q == p + unit.PSize() - unit.Low(job.d + p)
    requires !job.up ==> q == p - unit.Low(job.d + p)
    ensures job.Clear(q)
  {
    forall g: nat | job.Whole(g)
      ensures if job.up then job.d + q <= job.build.Start(g) else job.build.Start(g) + job.build.PSize() <= job.d + q
    {
      StartIsBoundary(job.build, unit, g);
      StartIsBoundary(job.build, unit, g + 1);
      unit.NoneBetween(job.d + p, job.build.Start(g));
      unit.NoneBetween(job.d + p, job.build.Start(g + 1));
      NextStart(job.build, g);
    }
  }

  lemma NextStart(build: Build, g: nat)
    ensures build.Start(g + 1) == build.Start(g) + build.PSize()
  {
  }

  lemma StartIsBoundary(build: Build, unit: Build, g: nat)
    requires unit == Plain || unit == build
    ensures unit.Low(build.Start(g)) == 0
  {
    build.StartIsWord(g);
    build.GranuleUnique(build.Start(g), g);
  }

  /** If the regions disagree modulo a capability, or less than a capability is left, nothing
      is left to be copied with its tag. */
  lemma ClearAll(job: Job, p: nat, q: nat)
    requires p <= job.n && q <= job.n && job.Clear(p)
    requires job.build.Low(job.d) != job.build.Low(job.s) || job.Left(p) < job.build.PSize()
    ensures job.Clear(q)
  {
  }

  lemma ClearIsRagged(job: Job, p: nat, q: nat)
    requires job.Next(p, q) && job.Clear(q)
    ensures job.Ragged(if job.up then p else q, if job.up then q else p)
  {
  }

  /** What is left after the last whole capability. */
  lemma TailIsRagged(job: Job, p: nat)
    requires p <= job.n && job.Left(p) < job.build.PSize()
    requires job.build.Low(job.d + p) == 0
    ensures job.Ragged(if job.up then p else 0, if job.up then job.n else p)
  {
    forall g: nat | job.Whole(g)
      ensures !job.build.Touches(g, job.d + if job.up then p else 0, job.Left(p))
    {
      job.build.GranuleUnique(job.d + p, g);
    }
  }

  // ------------------------------------------------------------- one chunk

  /** The loop arguments of the forward path: the pointers are past the chunk and the index
      runs from minus its length up to minus the size of an element. */
  lemma ForwardFits(job: Job, access: Access, dst: Pointer, src: Pointer, p: nat, q: nat)
    requires job.Valid() && job.up && job.Next(p, q) && job.Here(dst, src, q)
    requires access.Aligned(job.build, job.d + p) && access.Aligned(job.build, job.s + p)
    requires access.Aligned(job.build, q - p)
    ensures LoopFits(job.build, access, dst, src, Wrap(p - q), Wrap(0 - access.Size(job.build)),
                     access.Size(job.build), job.d + p, job.s + p, q - p)
  {
    access.Step(job.build, 0, q - p);
  }

  /** The loop arguments of the backward path: the pointers are at the start of the chunk and the
      index runs from its last element down to zero. */
  lemma BackwardFits(job: Job, access: Access, dst: Pointer, src: Pointer, p: nat, q: nat)
    requires job.Valid() && !job.up && job.Next(p, q) && job.Here(dst, src, q)
    requires access.Aligned(job.build, job.d + q) && access.Aligned(job.build, job.s + q)
    requires access.Aligned(job.build, p - q)
    ensures access.Size(job.build) <= p - q
    ensures LoopFits(job.build, access, dst, src, p - q - access.Size(job.build), 0,
                     0 - access.Size(job.build), job.d + q, job.s + q, p - q)
  {
    access.Step(job.build, 0, p - q);
  }

  /** Moving the chunk brings the copy from offset p to offset q. */
  lemma ChunkMoved(job: Job, build: Build, access: Access, bytes0: seq<Byte>, tags0: seq<bool>, bytes: seq<Byte>, tags: seq<bool>,
                   p: nat, q: nat, a: nat, b: nat, d: nat, s: nat, k: nat)
    requires job.Valid() && job.Chunk(p, q, a, b, d, s, k) && build == job.build
    requires job.Suits(access, a, b)
    requires bytes0 == job.BytesAt(p) && tags0 == job.TagsAt(p)
    requires LoopDone(build, access, bytes0, tags0, bytes, tags, d, s, k)
    ensures bytes == job.BytesAt(q) && tags == job.TagsAt(q)
  {
    ChunkBytes(job, p, q, a, b, d, s, k);
    if access.CapAccess? {
      CapChunk(job, p, q, a, b, d, s, k);
    } else {
      PlainChunk(job, access, p, q, a, b, d, s, k);
    }
  }

  /** A copy loop that moves the chunk between offsets p and q. */
  method MoveChunk(mem: Memory, ghost job: Job, access: Access, dst: Pointer, src: Pointer,
                   first: Address, last: Address, increment: int, ghost p: nat, ghost q: nat, ghost a: nat, ghost b: nat,
                   ghost d: nat, ghost s: nat, ghost k: nat)
    requires job.Valid() && job.Chunk(p, q, a, b, d, s, k) && job.Here(dst, src, q)
    requires mem.Valid() && mem.build == job.build
    requires mem.bytes.Length == |job.bytes| && mem.tags.Length == |job.tags|
    requires mem.bytes[..] == job.BytesAt(p) && mem.tags[..] == job.TagsAt(p)
    requires -32 <= increment <= 32 && LoopFits(mem.build, access, dst, src, first, last, increment, d, s, k)
    requires job.Suits(access, a, b)
    modifies mem.bytes, mem.tags
    ensures Reached(mem, job, dst, src, q)
  {
    ghost var bytes, tags := mem.bytes[..], mem.tags[..];
    var _ := MipsLoop(mem, access, dst, src, first, last, increment, d, s, k);
    ChunkMoved(job, mem.build, access, bytes, tags, mem.bytes[..], mem.tags[..], p, q, a, b, d, s, k);
  }

  lemma LowOfAddress(unit: Build, a: nat)
    requires a <= ADDRESS_SPACE
    ensures unit.Low(Wrap(a)) == unit.Low(a)
  {
    if a == ADDRESS_SPACE {
      unit.GranuleUnique(0, 0);
      match unit {
        case Plain => unit.GranuleUnique(a, ADDRESS_SPACE / 8);
        case Cap128 => unit.GranuleUnique(a, ADDRESS_SPACE / 16);
        case Cap256 => unit.GranuleUnique(a, ADDRESS_SPACE / 32);
      }
    }
  }

  // -------------------------------------------------------------- alignment

  /** A whole number of units further, both ends are still aligned. */
  lemma AlignedForward(job: Job, unit: Build, p: nat, t: nat)
    requires job.AlignedAt(unit, p) && unit.Low(t) == 0
    ensures job.AlignedAt(unit, p + t)
  {
    unit.Sums(job.d + p, t);
    unit.Sums(job.s + p, t);
    assert job.d + p + t == job.d + (p + t) && job.s + p + t == job.s + (p + t);
  }

  lemma AlignedBack(job: Job, unit: Build, p: nat, t: nat)
    requires job.AlignedAt(unit, p) && unit.Low(t) == 0 && t <= p
    ensures job.AlignedAt(unit, p - t)
  {
    unit.Sums(t, job.d + p);
    unit.Sums(t, job.s + p);
    assert job.d + p - t == job.d + (p - t) && job.s + p - t == job.s + (p - t);
  }

  /** The next boundary is one for both ends when they agree. */
  lemma BoundaryAbove(job: Job, unit: Build, p: nat, q: nat)
    requires unit.Low(job.s + p) == unit.Low(job.d + p) && q == p + unit.PSize() - unit.Low(job.d + p)
    ensures job.AlignedAt(unit, q)
  {
    unit.Boundaries(job.d + p);
    unit.Boundaries(job.s + p);
    assert job.d + q == job.d + p + unit.PSize() - unit.Low(job.d + p);
    assert job.s + q == job.s + p + unit.PSize() - unit.Low(job.s + p);
  }

  lemma BoundaryBelow(job: Job, unit: Build, p: nat, q: nat)
    requires unit.Low(job.s + p) == unit.Low(job.d + p) && q == p - unit.Low(job.d + p)
    ensures job.AlignedAt(unit, q)
  {
    unit.Boundaries(job.d + p);
    unit.Boundaries(job.s + p);
    assert job.d + q == job.d + p - unit.Low(job.d + p);
    assert job.s + q == job.s + p - unit.Low(job.s + p);
  }

  // ------------------------------------------------- the four forward phases

  /** The chunk the first forward phase moves when it moves any. */
  lemma ForwardBytesChunk(job: Job, t: nat)
    requires job.up && 0 < job.n
    requires !job.AlignedAt(Plain, 0)
    requires t == if Plain.Low(job.s) != Plain.Low(job.d) || job.n < WORD then job.n else WORD - Plain.Low(job.s)
    ensures job.Next(0, t) && job.Ragged(0, t) && job.Clear(t)
    ensures t < job.n ==> job.AlignedAt(Plain, t)
  {
    job.build.LowAgrees(job.d, job.s);
    if Plain.Low(job.s) != Plain.Low(job.d) || job.n < WORD {
      ClearAll(job, 0, t);
    } else {
      ClearToBoundary(job, Plain, 0, t);
      BoundaryAbove(job, Plain, 0, t);
    }
    ClearIsRagged(job, 0, t);
  }

  /** The loop that follows when both pointers have been stepped over the chunk. */
  lemma ForwardPlan(job: Job, build: Build, access: Access, dst0: Pointer, src0: Pointer, dst: Pointer, src: Pointer,
                    first: Address, last: Address, w: int, p: nat, q: nat, d: nat, s: nat, t: Address)
    requires job.Valid() && job.up && job.Next(p, q) && q == p + t && job.Here(dst0, src0, p) && build == job.build
    requires dst == dst0.Plus(t) && src == src0.Plus(t) && d == job.d + p && s == job.s + p
    requires access.Aligned(job.build, d) && access.Aligned(job.build, s) && access.Aligned(job.build, t)
    requires w == access.Size(build) && first == Wrap(0 - t) && last == Wrap(0 - w)
    ensures job.Here(dst, src, q) && job.Chunk(p, q, p, q, d, s, t)
    ensures LoopFits(build, access, dst, src, first, last, w, d, s, t)
  {
    ForwardFits(job, access, dst, src, p, q);
  }

  lemma BackwardPlan(job: Job, build: Build, access: Access, dst0: Pointer, src0: Pointer, dst: Pointer, src: Pointer,
                     first: int, last: int, increment: int, p: nat, q: nat, d: nat, s: nat, t: Address)
    requires job.Valid() && !job.up && job.Next(p, q) && p == q + t && job.Here(dst0, src0, p) && build == job.build
    requires dst == dst0.Plus(0 - t) && src == src0.Plus(0 - t) && d == job.d + q && s == job.s + q
    requires access.Aligned(job.build, d) && access.Aligned(job.build, s) && access.Aligned(job.build, t)
    requires increment == 0 - access.Size(build) && first == t + increment && last == 0
    ensures 0 <= first < t && job.Here(dst, src, q) && job.Chunk(p, q, q, p, d, s, t)
    ensures LoopFits(build, access, dst, src, first, last, increment, d, s, t)
  {
    BackwardFits(job, access, dst, src, p, q);
  }

  /** Step both pointers over the chunk and copy it with an index that runs up to
      minus one element. */
  method ForwardRun(mem: Memory, ghost job: Job, access: Access, dst0: Pointer, src0: Pointer, t: Address,
                     ghost p: nat, ghost q: nat) returns (dst: Pointer, src: Pointer)
    requires job.up && Reached(mem, job, dst0, src0, p) && q == p + t && job.Next(p, q)
    requires access.Aligned(job.build, job.d + p) && access.Aligned(job.build, job.s + p) && access.Aligned(job.build, t)
    requires job.Suits(access, p, q)
    modifies mem.bytes, mem.tags
    ensures Reached(mem, job, dst, src, q)
  {
    dst := dst0.Plus(t);
    src := src0.Plus(t);
    var w: int := access.Size(mem.build);
    var first, last := Wrap(0 - t), Wrap(0 - w);
    ghost var d, s := job.d + p, job.s + p;
    ForwardPlan(job, mem.build, access, dst0, src0, dst, src, first, last, w, p, q, d, s, t);
    MoveChunk(mem, job, access, dst, src, first, last, w, p, q, p, q, d, s, t);
  }

  /** Bytes up to a word boundary, or all of them. */
  method ForwardBytes(mem: Memory, ghost job: Job, dst0: Pointer, src0: Pointer, length0: nat)
    returns (dst: Pointer, src: Pointer, length: nat, ghost q: nat)
    requires job.up && Reached(mem, job, dst0, src0, 0) && 0 < length0 == job.n
    modifies mem.bytes, mem.tags
    ensures q + length == job.n && Reached(mem, job, dst, src, q)
    ensures q < job.n ==> job.AlignedAt(Plain, q)
    ensures job.Clear(q)
  {
    dst, src, length, q := dst0, src0, length0, 0;
    var sLow := LowBits(Plain, src.addr);
    var dLow := LowBits(Plain, dst.addr);
    if sLow != 0 || dLow != 0 {
      var t: Address := if sLow != dLow || length < WORD then length else WORD - sLow;
      ForwardBytesChunk(job, t);
      length, q := length - t, t;
      dst, src := ForwardRun(mem, job, ByteAccess, dst, src, t, 0, q);
    }
  }

  /** As many words as are left, when a capability cannot follow. */
  lemma ForwardWordsAll(job: Job, p: nat, length: nat, t: nat)
    requires job.up && p <= job.n && job.Clear(p)
    requires length == job.n - p
    requires job.build.Low(job.s + p) != job.build.Low(job.d + p) || length < job.build.PSize()
    requires t == Plain.Granule(length)
    requires p < job.n ==> job.AlignedAt(Plain, p)
    ensures job.WordsUp(p, t)
  {
    Plain.GranuleUnique(8 * t, t);
    job.build.LowShift(job.d, job.s, p);
    ClearAll(job, p, p + 8 * t);
    if t != 0 {
      ClearIsRagged(job, p, p + 8 * t);
    }
  }

  /** The words up to the next capability boundary. */
  lemma ForwardWordsToBoundary(job: Job, p: nat, low: nat, t: nat)
    requires job.up && p <= job.n && job.Clear(p) && job.AlignedAt(Plain, p)
    requires low == job.build.Low(job.s + p) == job.build.Low(job.d + p) != 0 && job.n - p >= job.build.PSize()
    requires t == Plain.Granule(job.build.PSize() - low)
    ensures 8 * t == job.build.PSize() - low && job.WordsUp(p, t)
  {
    var q := p + 8 * t;
    job.build.LowOfLow(job.s + p);
    job.build.StartIsWord(1);
    Plain.Sums(low, job.build.PSize());
    ClearToBoundary(job, job.build, p, q);
    ClearIsRagged(job, p, q);
    BoundaryAbove(job, job.build, p, q);
  }

  /** No word need be moved where the rest is aligned for capabilities. */
  lemma NoWords(job: Job, p: nat)
    requires p <= job.n && job.Clear(p)
    requires job.Left(p) == 0 || job.AlignedAt(Plain, p)
    ensures job.build.PSize() <= WORD || job.AlignedAt(job.build, p) ==> if job.up then job.WordsUp(p, 0) else job.WordsDown(p, 0)
  {
    Plain.GranuleUnique(0, 0);
  }

  /** The choice the second forward phase makes. */
  lemma ForwardWordsPlan(job: Job, p: nat, length: nat, sLow: nat, dLow: nat, t: nat)
    requires job.up && p <= job.n && length == job.n - p
    requires sLow == job.build.Low(job.s + p) && dLow == job.build.Low(job.d + p)
    requires job.Clear(p) && (p < job.n ==> job.AlignedAt(Plain, p))
    requires t == if job.build.PSize() <= WORD || (sLow == 0 && dLow == 0) then 0
                  else if sLow != dLow || length < job.build.PSize() then Plain.Granule(length)
                  else Plain.Granule(job.build.PSize() - sLow)
    ensures job.WordsUp(p, t)
  {
    if job.build.PSize() <= WORD || (sLow == 0 && dLow == 0) {
      NoWords(job, p);
    } else if sLow != dLow || length < job.build.PSize() {
      ForwardWordsAll(job, p, length, t);
    } else {
      ForwardWordsToBoundary(job, p, sLow, t);
    }
  }

  /** How many words the second forward phase moves. */
  method ForwardWordCount(ghost job: Job, ghost p: nat, build: Build, dst: Address, src: Address, length: nat) returns (t: int)
    requires job.Valid() && job.up && job.build == build && p <= job.n && length == job.n - p
    requires dst == Wrap(job.d + p) && src == Wrap(job.s + p)
    requires job.Clear(p) && (p < job.n ==> job.AlignedAt(Plain, p))
    ensures 0 <= t && job.WordsUp(p, t)
  {
    LowOfAddress(build, job.d + p);
    LowOfAddress(build, job.s + p);
    t := 0;
    if build.PSize() > WORD {
      var sLow := LowBits(build, src);
      var dLow := LowBits(build, dst);
      if sLow != 0 || dLow != 0 {
        if sLow != dLow || length < build.PSize() {
          t := WholeUnits(Plain, length);
        } else {
          t := WholeUnits(Plain, build.PSize() - sLow);
        }
      }
    }
    ForwardWordsPlan(job, p, length, build.Low(src), build.Low(dst), t);
  }

  lemma WordsFitAbove(job: Job, p: nat, q: nat, t: nat)
    requires job.up && job.WordsUp(p, t) && q == p + 8 * t
    ensures q <= job.n && job.Clear(q) && (job.n - q < job.build.PSize() || job.AlignedAt(job.build, q))
    ensures t != 0 ==> job.AlignedAt(Plain, p) && job.Next(p, q) && job.Suits(WordAccess, p, q) && Plain.Low(8 * t) == 0
  {
  }

  /** Words up to a capability boundary, or as many as there are. */
  method ForwardWords(mem: Memory, ghost job: Job, dst0: Pointer, src0: Pointer, length0: nat, ghost p: nat)
    returns (dst: Pointer, src: Pointer, length: nat, ghost q: nat)
    requires p + length0 == job.n && job.up && Reached(mem, job, dst0, src0, p)
    requires p < job.n ==> job.AlignedAt(Plain, p)
    requires job.Clear(p)
    modifies mem.bytes, mem.tags
    ensures q + length == job.n && Reached(mem, job, dst, src, q)
    ensures job.Clear(q)
    ensures length < job.build.PSize() || job.AlignedAt(job.build, q)
  {
    dst, src, length := dst0, src0, length0;
    var t := ForwardWordCount(job, p, mem.build, dst.addr, src.addr, length);
    q := p + 8 * t;
    WordsFitAbove(job, p, q, t);
    if t != 0 {
      length := length - 8 * t;
      dst, src := ForwardRun(mem, job, WordAccess, dst, src, 8 * t, p, q);
    }
  }

  /** Whole capabilities. */
  method ForwardCapabilities(mem: Memory, ghost job: Job, dst0: Pointer, src0: Pointer, length0: nat, ghost p: nat)
    returns (dst: Pointer, src: Pointer, length: nat, ghost q: nat)
    requires p + length0 == job.n && job.up && Reached(mem, job, dst0, src0, p)
    requires job.Clear(p)
    requires length0 < job.build.PSize() || job.AlignedAt(job.build, p)
    modifies mem.bytes, mem.tags
    ensures q + length == job.n && Reached(mem, job, dst, src, q)
    ensures job.Ragged(q, job.n)
  {
    dst, src := dst0, src0;
    var t := WholeUnits(mem.build, length0);
    length := LowBits(mem.build, length0);
    q := p + mem.build.Start(t);
    ForwardCapabilitiesPlan(job, p, t, q);
    if t != 0 {
      dst, src := ForwardRun(mem, job, CapAccess, dst, src, mem.build.Start(t), p, q);
    }
  }

  /** The whole capabilities and the rest. */
  lemma ForwardCapabilitiesPlan(job: Job, p: nat, t: nat, q: nat)
    requires job.up && p <= job.n && job.Clear(p)
    requires job.n - p < job.build.PSize() || job.AlignedAt(job.build, p)
    requires q == p + job.build.Start(t) && q + job.build.Low(job.n - p) == job.n
    ensures job.Ragged(q, job.n)
    ensures t != 0 ==> job.Next(p, q) && job.Suits(CapAccess, p, q)
                       && job.AlignedAt(job.build, p) && job.build.Low(job.build.Start(t)) == 0
  {
    if t == 0 {
      NoCapabilities(job, p);
    } else {
      CapabilitiesAbove(job, p, job.build.Start(t), q);
    }
  }

  lemma NoCapabilities(job: Job, p: nat)
    requires job.up && p <= job.n && job.Clear(p) && job.Left(p) < job.build.PSize()
    ensures job.Ragged(p, job.n)
  {
    ClearAll(job, p, job.n);
    if p != job.n {
      ClearIsRagged(job, p, job.n);
    }
  }

  lemma CapabilitiesAbove(job: Job, p: nat, c: nat, q: nat)
    requires job.up && p < q <= job.n && q == p + c && job.AlignedAt(job.build, p)
    requires c + job.build.Low(job.n - p) == job.n - p
    ensures job.build.Low(job.d) == job.build.Low(job.s) && job.build.Low(c) == 0
    ensures job.Ragged(q, job.n)
  {
    job.build.Boundaries(job.n - p);
    AgreeBack(job, p);
    AlignedForward(job, job.build, p, c);
    TailIsRagged(job, q);
  }

  /** Regions that are both aligned at some offset agree at every offset. */
  lemma AgreeBack(job: Job, p: nat)
    requires job.AlignedAt(job.build, p)
    ensures job.build.Low(job.d) == job.build.Low(job.s)
  {
    job.build.LowBefore(job.d, p);
    job.build.LowBefore(job.s, p);
  }

  /** The bytes after the last capability. */
  method ForwardTail(mem: Memory, ghost job: Job, dst0: Pointer, src0: Pointer, length: nat, ghost p: nat)
    requires p + length == job.n && job.up && Reached(mem, job, dst0, src0, p) && job.Ragged(p, job.n)
    modifies mem.bytes, mem.tags
    ensures mem.bytes[..] == job.BytesAt(job.n) && mem.tags[..] == job.TagsAt(job.n)
  {
    if length != 0 {
      var _, _ := ForwardRun(mem, job, ByteAccess, dst0, src0, length, p, job.n);
    }
  }

  // ------------------------------------------------ the four backward phases

  /** Step both pointers back over the chunk and copy it with an index that runs down
      to zero. */
  method BackwardRun(mem: Memory, ghost job: Job, access: Access, dst0: Pointer, src0: Pointer, t: Address,
                     ghost p: nat, ghost q: nat) returns (dst: Pointer, src: Pointer)
    requires !job.up && Reached(mem, job, dst0, src0, p) && p == q + t && job.Next(p, q)
    requires access.Aligned(job.build, job.d + q) && access.Aligned(job.build, job.s + q) && access.Aligned(job.build, t)
    requires job.Suits(access, q, p)
    modifies mem.bytes, mem.tags
    ensures Reached(mem, job, dst, src, q)
  {
    dst := dst0.Plus(0 - t);
    src := src0.Plus(0 - t);
    var w: int := access.Size(mem.build);
    ghost var d, s := job.d + q, job.s + q;
    BackwardPlan(job, mem.build, access, dst0, src0, dst, src, t - w, 0, 0 - w, p, q, d, s, t);
    var first: Address, last: Address, increment := t - w, 0, 0 - w;
    MoveChunk(mem, job, access, dst, src, first, last, increment, p, q, q, p, d, s, t);
  }

  /** The chunk the first backward phase moves when it moves any. */
  lemma BackwardBytesChunk(job: Job, t: nat)
    requires !job.up && 0 < job.n
    requires !job.AlignedAt(Plain, job.n)
    requires t == if Plain.Low(job.s + job.n) != Plain.Low(job.d + job.n) || job.n <= WORD then job.n
                  else Plain.Low(job.s + job.n)
    ensures t <= job.n && job.Next(job.n, job.n - t) && job.Ragged(job.n - t, job.n) && job.Clear(job.n - t)
    ensures t < job.n ==> job.AlignedAt(Plain, job.n - t)
  {
    var q: nat := job.n - t;
    if Plain.Low(job.s + job.n) != Plain.Low(job.d + job.n) {
      job.build.LowAgrees(job.d, job.s);
      Plain.LowShift(job.d, job.s, job.n);
      ClearAll(job, job.n, q);
    } else if job.n <= WORD {
      NothingWhole(job);
    } else {
      ClearToBoundary(job, Plain, job.n, q);
      BoundaryBelow(job, Plain, job.n, q);
    }
    ClearIsRagged(job, job.n, q);
  }

  /** A word or less that does not end on a word boundary holds no whole granule. */
  lemma NothingWhole(job: Job)
    requires job.n <= WORD && Plain.Low(job.s + job.n) == Plain.Low(job.d + job.n) != 0
    ensures forall g: nat :: !job.Whole(g)
  {
    forall g: nat ensures !job.Whole(g) {
      if job.Whole(g) {
        job.build.StartIsWord(g + 1);
      }
    }
  }

  /** Bytes down to a word boundary, or all of them. */
  method BackwardBytes(mem: Memory, ghost job: Job, dst0: Pointer, src0: Pointer, length0: nat)
    returns (dst: Pointer, src: Pointer, length: nat)
    requires !job.up && Reached(mem, job, dst0, src0, job.n) && 0 < length0 == job.n
    modifies mem.bytes, mem.tags
    ensures length <= job.n && Reached(mem, job, dst, src, length)
    ensures length != 0 ==> job.AlignedAt(Plain, length)
    ensures job.Clear(length)
  {
    dst, src, length := dst0, src0, length0;
    LowOfAddress(Plain, job.d + job.n);
    LowOfAddress(Plain, job.s + job.n);
    var sLow := LowBits(Plain, src.addr);
    var dLow := LowBits(Plain, dst.addr);
    if sLow != 0 || dLow != 0 {
      var t: Address := if sLow != dLow || length <= WORD then length else sLow;
      BackwardBytesChunk(job, t);
      length := length - t;
      dst, src := BackwardRun(mem, job, ByteAccess, dst, src, t, job.n, length);
    }
  }

  /** As many words as are left, when a capability cannot follow. */
  lemma BackwardWordsAll(job: Job, p: nat, t: nat)
    requires !job.up && p <= job.n && job.Clear(p)
    requires p != 0 ==> job.AlignedAt(Plain, p)
    requires job.build.Low(job.s + p) != job.build.Low(job.d + p) || p < job.build.PSize()
    requires t == Plain.Granule(p)
    ensures job.WordsDown(p, t)
  {
    Plain.GranuleUnique(8 * t, t);
    job.build.LowShift(job.d, job.s, p);
    ClearAll(job, p, p - 8 * t);
    BackwardChunk(job, p, t);
  }

  /** The words down to the capability boundary below. */
  lemma BackwardWordsToBoundary(job: Job, p: nat, t: nat)
    requires !job.up && p <= job.n && job.Clear(p)
    requires p != 0 && job.AlignedAt(Plain, p)
    requires job.build.Low(job.s + p) == job.build.Low(job.d + p) != 0 && p >= job.build.PSize()
    requires t == Plain.Granule(job.build.Low(job.s + p))
    ensures 8 * t == job.build.Low(job.s + p) && job.WordsDown(p, t)
  {
    job.build.LowOfLow(job.s + p);
    ClearToBoundary(job, job.build, p, p - 8 * t);
    BoundaryBelow(job, job.build, p, p - 8 * t);
    BackwardChunk(job, p, t);
  }

  lemma BackwardChunk(job: Job, p: nat, t: nat)
    requires !job.up && 8 * t <= p <= job.n && job.Clear(p - 8 * t)
    requires p != 0 ==> job.AlignedAt(Plain, p)
    ensures Plain.Low(8 * t) == 0
    ensures t != 0 ==> job.Next(p, p - 8 * t) && job.Ragged(p - 8 * t, p) && job.AlignedAt(Plain, p - 8 * t)
  {
    Plain.GranuleUnique(8 * t, t);
    if t != 0 {
      ClearIsRagged(job, p, p - 8 * t);
      AlignedBack(job, Plain, p, 8 * t);
    }
  }

  /** The choice the second backward phase makes. */
  lemma BackwardWordsPlan(job: Job, p: nat, sLow: nat, dLow: nat, t: nat)
    requires !job.up && p <= job.n
    requires sLow == job.build.Low(job.s + p) && dLow == job.build.Low(job.d + p)
    requires job.Clear(p) && (p != 0 ==> job.AlignedAt(Plain, p))
    requires t == if job.build.PSize() <= WORD || (sLow == 0 && dLow == 0) then 0
                  else if sLow != dLow || p < job.build.PSize() then Plain.Granule(p) else Plain.Granule(sLow)
    ensures job.WordsDown(p, t)
  {
    if job.build.PSize() <= WORD || (sLow == 0 && dLow == 0) {
      NoWords(job, p);
    } else if sLow != dLow || p < job.build.PSize() {
      BackwardWordsAll(job, p, t);
    } else {
      BackwardWordsToBoundary(job, p, t);
    }
  }

  /** How many words the second backward phase moves. */
  method BackwardWordCount(ghost job: Job, build: Build, dst: Address, src: Address, length: nat) returns (t: int)
    requires job.Valid() && !job.up && job.build == build && length <= job.n
    requires dst == Wrap(job.d + length) && src == Wrap(job.s + length)
    requires job.Clear(length) && (length != 0 ==> job.AlignedAt(Plain, length))
    ensures 0 <= t && job.WordsDown(length, t)
  {
    LowOfAddress(build, job.d + length);
    LowOfAddress(build, job.s + length);
    t := 0;
    if build.PSize() > WORD {
      var sLow := LowBits(build, src);
      var dLow := LowBits(build, dst);
      if sLow != 0 || dLow != 0 {
        if sLow != dLow || length < build.PSize() {
          t := WholeUnits(Plain, length);
        } else {
          t := WholeUnits(Plain, sLow);
        }
      }
    }
    BackwardWordsPlan(job, length, build.Low(src), build.Low(dst), t);
  }

  lemma WordsFitBelow(job: Job, p: nat, q: nat, t: nat)
    requires !job.up && job.WordsDown(p, t) && p == q + 8 * t
    ensures job.Clear(q) && (q < job.build.PSize() || job.AlignedAt(job.build, q))
    ensures t != 0 ==> job.AlignedAt(Plain, q) && job.Next(p, q) && job.Suits(WordAccess, q, p) && Plain.Low(8 * t) == 0
  {
  }

  /** Words down to a capability boundary, or as many as there are. */
  method BackwardWords(mem: Memory, ghost job: Job, dst0: Pointer, src0: Pointer, length0: nat)
    returns (dst: Pointer, src: Pointer, length: nat)
    requires length0 <= job.n && !job.up && Reached(mem, job, dst0, src0, length0)
    requires length0 != 0 ==> job.AlignedAt(Plain, length0)
    requires job.Clear(length0)
    modifies mem.bytes, mem.tags
    ensures length <= job.n && Reached(mem, job, dst, src, length)
    ensures job.Clear(length)
    ensures length < job.build.PSize() || job.AlignedAt(job.build, length)
  {
    dst, src, length := dst0, src0, length0;
    var t := BackwardWordCount(job, mem.build, dst.addr, src.addr, length);
    WordsFitBelow(job, length0, length0 - 8 * t, t);
    if t != 0 {
      length := length - 8 * t;
      dst, src := BackwardRun(mem, job, WordAccess, dst, src, 8 * t, length0, length);
    }
  }

  /** The whole capabilities and the rest. */
  lemma BackwardCapabilitiesPlan(job: Job, p: nat, t: nat, rest: nat)
    requires !job.up && p <= job.n && job.Clear(p)
    requires p < job.build.PSize() || job.AlignedAt(job.build, p)
    requires job.build.Start(t) + rest == p && rest == job.build.Low(p)
    ensures job.Ragged(0, rest)
    ensures t != 0 ==> job.Next(p, rest) && job.Suits(CapAccess, rest, p)
                       && job.AlignedAt(job.build, rest) && job.build.Low(job.build.Start(t)) == 0
  {
    if t == 0 {
      ClearAll(job, p, 0);
      if p != 0 {
        ClearIsRagged(job, p, 0);
      }
    } else {
      CapabilitiesBelow(job, p, job.build.Start(t), rest);
    }
  }

  lemma CapabilitiesBelow(job: Job, p: nat, c: nat, rest: nat)
    requires !job.up && rest < p <= job.n && c + rest == p && job.AlignedAt(job.build, p)
    requires rest == job.build.Low(p)
    ensures job.build.Low(job.d) == job.build.Low(job.s) && job.build.Low(c) == 0
    ensures job.AlignedAt(job.build, rest) && job.Ragged(0, rest)
  {
    job.build.Boundaries(p);
    AgreeBack(job, p);
    AlignedBack(job, job.build, p, c);
    TailIsRagged(job, rest);
  }

  /** Whole capabilities, from the top. */
  method BackwardCapabilities(mem: Memory, ghost job: Job, dst0: Pointer, src0: Pointer, length0: nat)
    returns (dst: Pointer, src: Pointer, length: nat)
    requires length0 <= job.n && !job.up && Reached(mem, job, dst0, src0, length0)
    requires job.Clear(length0)
    requires length0 < job.build.PSize() || job.AlignedAt(job.build, length0)
    modifies mem.bytes, mem.tags
    ensures length <= job.n && Reached(mem, job, dst, src, length)
    ensures length != 0 ==> job.Ragged(0, length)
  {
    dst, src := dst0, src0;
    var t := WholeUnits(mem.build, length0);
    length := LowBits(mem.build, length0);
    BackwardCapabilitiesPlan(job, length0, t, length);
    if t != 0 {
      dst, src := BackwardRun(mem, job, CapAccess, dst, src, mem.build.Start(t), length0, length);
    }
  }

  /** The bytes before the first capability. */
  method BackwardTail(mem: Memory, ghost job: Job, dst0: Pointer, src0: Pointer, length: nat)
    requires length <= job.n && !job.up && Reached(mem, job, dst0, src0, length)
    requires length != 0 ==> job.Ragged(0, length)
    modifies mem.bytes, mem.tags
    ensures mem.bytes[..] == job.BytesAt(0) && mem.tags[..] == job.TagsAt(0)
  {
    if length != 0 {
      var _, _ := BackwardRun(mem, job, ByteAccess, dst0, src0, length, length, 0);
    }
  }

  // --------------------------------------------------------------- the copy

  /** memcpy (handleOverlap false), memmove and bcopy (handleOverlap true).  memcpy is only
      promised to work on regions that do not overlap; it also works when the
      destination is the lower of the two.  Without capabilities memory has no tags, and nothing is said of them. */
  method BlockCopy(mem: Memory, dst0: Address, src0: Address, length0: Address, handleOverlap: bool) returns (r: Address)
    requires mem.Valid()
    requires dst0 + length0 <= mem.bytes.Length && src0 + length0 <= mem.bytes.Length
    requires handleOverlap || UpSafe(dst0, src0, length0)
    modifies mem.bytes, mem.tags
    ensures r == dst0
    ensures mem.bytes[..] == Moved(old(mem.bytes[..]), dst0, src0, length0)
    ensures !mem.build.Plain? ==>
              mem.tags[..] == if src0 == dst0 then old(mem.tags[..])
                              else MovedTags(mem.build, old(mem.tags[..]), dst0, src0, length0)
  {
    r := dst0;
    if length0 != 0 && src0 != dst0 {
      // __builtin_cheri_bounds_set
      var dst := Pointer(dst0, dst0 + length0, dst0);
      var src := Pointer(src0, src0 + length0, src0);
      var length: nat := length0;
      var up := dst0 < src0 || !handleOverlap;
      ghost var job := Job(mem.build, mem.bytes[..], mem.tags[..], dst0, src0, length0, up);
      NothingMoved(job);
      AllMoved(job);
      if up {
        ghost var p;
        dst, src, length, p := ForwardBytes(mem, job, dst, src, length);
        dst, src, length, p := ForwardWords(mem, job, dst, src, length, p);
        dst, src, length, p := ForwardCapabilities(mem, job, dst, src, length, p);
        ForwardTail(mem, job, dst, src, length, p);
      } else {
        dst, src := dst.Plus(length0), src.Plus(length0);
        dst, src, length := BackwardBytes(mem, job, dst, src, length);
        dst, src, length := BackwardWords(mem, job, dst, src, length);
        dst, src, length := BackwardCapabilities(mem, job, dst, src, length);
        BackwardTail(mem, job, dst, src, length);
      }
    } else {
      assert Moved(mem.bytes[..], dst0, src0, length0) == mem.bytes[..];
      assert src0 != dst0 ==> MovedTags(mem.build, mem.tags[..], dst0, src0, length0) == mem.tags[..];
    }
  }
}
