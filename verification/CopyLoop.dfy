/**
 What a copy loop over tagged memory does to bytes and tags, whatever the size of
 its accesses and in whichever direction it runs.
 */
module CopyLoop {
  import opened TaggedMemory

  // ---------------------------------------------------------------- meaning

  /** m with the n elements at s moved to d, all at once. */
  function Moved<T>(m: seq<T>, d: nat, s: nat, n: nat): (r: seq<T>)
    requires d + n <= |m| && s + n <= |m|
    ensures |r| == |m|
  {
    seq(|m|, i requires 0 <= i < |m| => if d <= i < d + n then m[s + (i - d)] else m[i])
  }

  /** The granule in which byte a of the destination was, when the destination is
      at d and the source at s. */
  ghost function Origin(build: Build, tags: seq<bool>, d: nat, s: nat, a: nat): bool
    requires d <= a && a - d + s < build.Start(|tags|)
  {
    build.GranuleUnique(a - d + s, |tags|);
    tags[build.Granule(a - d + s)]
  }

  /** The tag of granule g after n bytes at s were moved to d as memmove promises it:
      a granule that lies wholly in the destination takes the tag of the granule it
      came from, provided the two regions agree modulo the size of a capability;
      every other granule the destination reaches into loses its tag; the rest keep
      theirs. */
  ghost function MovedTag(build: Build, tags: seq<bool>, d: nat, s: nat, n: nat, g: nat): bool
    requires g < |tags| && s + n <= build.Start(|tags|)
  {
    if !build.Touches(g, d, n) then tags[g]
    else if build.Low(d) == build.Low(s) && build.Within(g, d, n) then
      Origin(build, tags, d, s, build.Start(g))
    else false
  }

  ghost function MovedTags(build: Build, tags: seq<bool>, d: nat, s: nat, n: nat): (r: seq<bool>)
    requires s + n <= build.Start(|tags|)
    ensures |r| == |tags|
  {
    seq(|tags|, g requires 0 <= g < |tags| => MovedTag(build, tags, d, s, n, g))
  }

  /** The tag of granule g after one loop moved the n bytes at s to d by accesses of
      one kind. */
  ghost function LoopTag(build: Build, access: Access, tags: seq<bool>, d: nat, s: nat, n: nat, g: nat): bool
    requires g < |tags| && s + n <= build.Start(|tags|)
  {
    if !access.CapAccess? then !build.Touches(g, d, n) && tags[g]
    else if d <= build.Start(g) < d + n then Origin(build, tags, d, s, build.Start(g))
    else tags[g]
  }

  ghost function LoopTags(build: Build, access: Access, tags: seq<bool>, d: nat, s: nat, n: nat): (r: seq<bool>)
    requires s + n <= build.Start(|tags|)
    ensures |r| == |tags|
  {
    seq(|tags|, g requires 0 <= g < |tags| => LoopTag(build, access, tags, d, s, n, g))
  }

  // -------------------------------------------------------------- one loop

  /** Copying upwards from s to d never reads an element it has already overwritten. */
  predicate UpSafe(d: nat, s: nat, n: nat) { d <= s || s + n <= d }

  /** Copying downwards from s to d never reads an element it has already overwritten. */
  predicate DownSafe(d: nat, s: nat, n: nat) { s <= d || d + n <= s }

  lemma MoveThenUp<T>(m: seq<T>, d: nat, s: nat, k: nat, w: nat)
    requires d + k + w <= |m| && s + k + w <= |m| && UpSafe(d, s, k + w)
    ensures Moved(Moved(m, d, s, k), d + k, s + k, w) == Moved(m, d, s, k + w)
  {
  }

  lemma MoveThenDown<T>(m: seq<T>, d: nat, s: nat, k: nat, w: nat)
    requires d + k + w <= |m| && s + k + w <= |m| && DownSafe(d, s, k + w)
    ensures Moved(Moved(m, d + w, s + w, k), d, s, w) == Moved(m, d, s, k + w)
  {
  }

  /** What the store of one element does to the tags. */
  ghost function ElementTags(build: Build, access: Access, tags: seq<bool>, d: nat, s: nat): (r: seq<bool>)
    requires d < build.Start(|tags|) && s < build.Start(|tags|)
    ensures |r| == |tags|
  {
    build.GranuleUnique(d, |tags|);
    build.GranuleUnique(s, |tags|);
    tags[build.Granule(d) := access.CapAccess? && tags[build.Granule(s)]]
  }

  lemma ElementTag(build: Build, access: Access, tags: seq<bool>, d: nat, s: nat, g: nat)
    requires d < build.Start(|tags|) && s + access.Size(build) <= build.Start(|tags|) && g < |tags|
    requires access.Aligned(build, d)
    ensures ElementTags(build, access, tags, d, s)[g] == LoopTag(build, access, tags, d, s, access.Size(build), g)
  {
    access.InOneGranule(build, d);
    build.GranuleUnique(d, g);
  }

  /** The start of a granule of the destination came from the start of a granule of
      the source when the two regions agree modulo the size of a capability. */
  lemma OriginStarts(build: Build, d: nat, s: nat, g: nat)
    requires build.Low(d) == build.Low(s) && d <= build.Start(g)
    ensures build.Start(build.Granule(build.Start(g) - d + s)) == build.Start(g) - d + s
  {
    match build { case Plain => case Cap128 => case Cap256 => }
  }

  /** Two adjacent runs of accesses of one kind act on the tags as one run does. */
  lemma TagsThenUp(build: Build, access: Access, tags: seq<bool>, mid: seq<bool>, d: nat, s: nat, k: nat, w: nat, g: nat)
    requires access.CapAccess? ==> build.Low(d) == build.Low(s)
    requires s + k + w <= build.Start(|tags|) && g < |tags| && UpSafe(d, s, k + w)
    requires mid == LoopTags(build, access, tags, d, s, k)
    ensures LoopTag(build, access, mid, d + k, s + k, w, g) == LoopTag(build, access, tags, d, s, k + w, g)
  {
    var a := build.Start(g);
    if access.CapAccess? && d + k <= a < d + k + w {
      OriginStarts(build, d, s, g);
      var from := build.Granule(a - d + s);
      build.GranuleUnique(a - d + s, |tags|);
      assert mid[from] == LoopTag(build, access, tags, d, s, k, from) == tags[from];
    }
  }

  lemma TagsThenDown(build: Build, access: Access, tags: seq<bool>, mid: seq<bool>, d: nat, s: nat, k: nat, w: nat, g: nat)
    requires access.CapAccess? ==> build.Low(d) == build.Low(s)
    requires s + k + w <= build.Start(|tags|) && g < |tags| && DownSafe(d, s, k + w)
    requires mid == LoopTags(build, access, tags, d + w, s + w, k)
    ensures LoopTag(build, access, mid, d, s, w, g) == LoopTag(build, access, tags, d, s, k + w, g)
  {
    var a := build.Start(g);
    if access.CapAccess? && d <= a < d + w {
      OriginStarts(build, d, s, g);
      var from := build.Granule(a - d + s);
      build.GranuleUnique(a - d + s, |tags|);
      assert mid[from] == LoopTag(build, access, tags, d + w, s + w, k, from) == tags[from];
    }
  }

  /** dst[index] = src[index], for one element of the given kind. */
  method CopyElement(mem: Memory, access: Access, dst: Pointer, src: Pointer, index: Address)
    requires mem.Valid() && dst.top <= mem.bytes.Length && src.top <= mem.bytes.Length
    requires dst.Permits(mem.build, access, index) && src.Permits(mem.build, access, index)
    modifies mem.bytes, mem.tags
    ensures mem.bytes[..] == Moved(old(mem.bytes[..]), dst.At(index), src.At(index), access.Size(mem.build))
    ensures mem.tags[..] == ElementTags(mem.build, access, old(mem.tags[..]), dst.At(index), src.At(index))
  {
    var value, tag := mem.Load(access, src, index);
    mem.Store(access, dst, index, value, tag);
  }

  /** The memory after a loop moved the k bytes at s to d. */
  ghost predicate LoopDone(build: Build, access: Access, bytes0: seq<Byte>, tags0: seq<bool>, bytes: seq<Byte>, tags: seq<bool>,
                           d: nat, s: nat, k: nat)
    requires d + k <= |bytes0| && s + k <= |bytes0| && |bytes0| == build.Start(|tags0|)
  {
    && bytes == Moved(bytes0, d, s, k)
    && tags == LoopTags(build, access, tags0, d, s, k)
  }

  /** The element at offset e of a chunk of n bytes, of which k are done, is aligned. */
  lemma ElementAligned(build: Build, access: Access, d: nat, s: nat, n: nat, up: bool, k: nat, e: int)
    requires access.Aligned(build, d) && access.Aligned(build, s) && access.Aligned(build, n) && access.Aligned(build, k)
    requires k < n && e == if up then k else n - k - access.Size(build)
    ensures 0 <= e && k + access.Size(build) <= n
    ensures access.Aligned(build, k + access.Size(build))
    ensures access.Aligned(build, d + e) && access.Aligned(build, s + e)
    ensures access.CapAccess? ==> build.Low(d + e) == build.Low(s + e) && build.Low(d) == build.Low(s)
  {
    var w := access.Size(build);
    access.Step(build, k, n);
    access.Step(build, k, k);
    access.Step(build, k, w);
    access.Step(build, w, n - k);
    access.Step(build, d, e);
    access.Step(build, s, e);
  }

  /** The element moved from b to a is next to the k bytes from (d, s) on that are done; with it
      the k1 bytes from (d1, s1) on are done. */
  ghost predicate NextElement(build: Build, access: Access, up: bool, a: nat, b: nat, d: nat, s: nat, k: nat,
                              d1: nat, s1: nat, k1: nat) {
    var w := access.Size(build);
    && k1 == k + w && access.Aligned(build, a)
    && (access.CapAccess? ==> build.Low(d1) == build.Low(s1))
    && if up then a == d + k && b == s + k && d1 == d && s1 == s && UpSafe(d, s, k1)
       else a == d1 && b == s1 && d == d1 + w && s == s1 + w && DownSafe(d1, s1, k1)
  }

  /** Moving the next element keeps the account of what the loop did to the tag of a granule. */
  lemma OneMoreTag(build: Build, access: Access, up: bool, tags0: seq<bool>, tags: seq<bool>, a: nat, b: nat,
                   d: nat, s: nat, k: nat, d1: nat, s1: nat, k1: nat, g: nat)
    requires NextElement(build, access, up, a, b, d, s, k, d1, s1, k1) && g < |tags0|
    requires d1 + k1 <= build.Start(|tags0|) && s1 + k1 <= build.Start(|tags0|)
    requires tags == LoopTags(build, access, tags0, d, s, k)
    ensures ElementTags(build, access, tags, a, b)[g] == LoopTag(build, access, tags0, d1, s1, k1, g)
  {
    var w := access.Size(build);
    ElementTag(build, access, tags, a, b, g);
    if up {
      TagsThenUp(build, access, tags0, tags, d, s, k, w, g);
      assert a == d + k && b == s + k && k1 == k + w;
    } else {
      TagsThenDown(build, access, tags0, tags, d1, s1, k, w, g);
      assert a == d1 && b == s1 && k1 == k + w;
    }
  }

  /** Moving the next element keeps the account of what the loop has done. */
  lemma OneMore(build: Build, access: Access, up: bool, bytes0: seq<Byte>, tags0: seq<bool>, bytes: seq<Byte>, tags: seq<bool>,
                bytes1: seq<Byte>, tags1: seq<bool>, a: nat, b: nat, d: nat, s: nat, k: nat, d1: nat, s1: nat, k1: nat)
    requires NextElement(build, access, up, a, b, d, s, k, d1, s1, k1)
    requires |bytes0| == build.Start(|tags0|) && d1 + k1 <= |bytes0| && s1 + k1 <= |bytes0|
    requires LoopDone(build, access, bytes0, tags0, bytes, tags, d, s, k)
    requires bytes1 == Moved(bytes, a, b, access.Size(build)) && tags1 == ElementTags(build, access, tags, a, b)
    ensures LoopDone(build, access, bytes0, tags0, bytes1, tags1, d1, s1, k1)
  {
    if up {
      MoveThenUp(bytes0, d, s, k, access.Size(build));
    } else {
      MoveThenDown(bytes0, d1, s1, k, access.Size(build));
    }
    forall g | 0 <= g < |tags0| ensures tags1[g] == LoopTag(build, access, tags0, d1, s1, k1, g) {
      OneMoreTag(build, access, up, tags0, tags, a, b, d, s, k, d1, s1, k1, g);
    }
  }

  /** One turn of a copy loop. */
  method Turn(mem: Memory, access: Access, dst: Pointer, src: Pointer, index: Address, ghost up: bool,
              ghost bytes0: seq<Byte>, ghost tags0: seq<bool>, ghost d: nat, ghost s: nat, ghost k: nat,
              ghost d1: nat, ghost s1: nat, ghost k1: nat)
    requires mem.Valid() && dst.top <= mem.bytes.Length && src.top <= mem.bytes.Length
    requires dst.Permits(mem.build, access, index) && src.Permits(mem.build, access, index)
    requires |bytes0| == mem.bytes.Length && |tags0| == mem.tags.Length && d1 + k1 <= |bytes0| && s1 + k1 <= |bytes0|
    requires NextElement(mem.build, access, up, dst.At(index), src.At(index), d, s, k, d1, s1, k1)
    requires LoopDone(mem.build, access, bytes0, tags0, mem.bytes[..], mem.tags[..], d, s, k)
    modifies mem.bytes, mem.tags
    ensures LoopDone(mem.build, access, bytes0, tags0, mem.bytes[..], mem.tags[..], d1, s1, k1)
  {
    ghost var bytes, tags := mem.bytes[..], mem.tags[..];
    CopyElement(mem, access, dst, src, index);
    OneMore(mem.build, access, up, bytes0, tags0, bytes, tags, mem.bytes[..], mem.tags[..],
            dst.At(index), src.At(index), d, s, k, d1, s1, k1);
  }

  /** The loop's arguments describe a copy of the n bytes at s to d, element by element
      and in the safe direction, in bounds and aligned. */
  ghost predicate LoopFits(build: Build, access: Access, dst: Pointer, src: Pointer,
                           first: Address, last: Address, increment: int, d: nat, s: nat, n: nat) {
    var w := access.Size(build);
    && w <= n
    && access.Aligned(build, n) && access.Aligned(build, d) && access.Aligned(build, s)
    && dst.base <= d && d + n <= dst.top && src.base <= s && s + n <= src.top
    && (increment == w || increment == 0 - w)
    && (increment == w ==>
          UpSafe(d, s, n) && dst.At(first) == d && src.At(first) == s
          && first + n - w < 2 * ADDRESS_SPACE && last == Wrap(first + n - w))
    && (increment == 0 - w ==>
          DownSafe(d, s, n) && dst.At(first) == d + n - w && src.At(first) == s + n - w
          && n <= ADDRESS_SPACE && last == Wrap(first - n + w))
  }

  /** Where the loop is when done bytes are moved and the index has just been stepped. */
  lemma AtTurn(build: Build, access: Access, dst: Pointer, src: Pointer, first: Address, last: Address, increment: int,
               d: nat, s: nat, n: nat, done: nat, index: Address)
    requires LoopFits(build, access, dst, src, first, last, increment, d, s, n)
    requires dst.top <= ADDRESS_SPACE && src.top <= ADDRESS_SPACE
    requires done < n && access.Aligned(build, done)
    requires index == Wrap(first + if increment > 0 then done else 0 - done)
    ensures done + access.Size(build) <= n && access.Aligned(build, done + access.Size(build))
    ensures increment > 0 ==> dst.At(index) == d + done && src.At(index) == s + done
    ensures increment < 0 ==> dst.At(index) == d + n - done - access.Size(build)
                              && src.At(index) == s + n - done - access.Size(build)
    ensures access.Aligned(build, dst.At(index)) && access.Aligned(build, src.At(index))
    ensures access.CapAccess? ==> build.Low(dst.At(index)) == build.Low(src.At(index)) && build.Low(d) == build.Low(s)
    ensures index == last <==> done + access.Size(build) == n
  {
    var w, up := access.Size(build), increment > 0;
    ElementAligned(build, access, d, s, n, up, done, if up then done else n - done - w);
    dst.AtShifted(first, if up then done else 0 - done);
    src.AtShifted(first, if up then done else 0 - done);
  }

  /** done bytes of the chunk are moved, those from (dLow, sLow) on, and the next step takes the index
      to the next element. */
  ghost predicate LoopAt(build: Build, access: Access, first: Address, increment: int, d: nat, s: nat, n: nat,
                         dLow: nat, sLow: nat, done: nat, index: Address) {
    && done <= n && access.Aligned(build, done) && -32 <= increment <= 32
    && dLow - d == sLow - s == (if increment > 0 then 0 else n - done)
    && n <= ADDRESS_SPACE
    && (done < n ==> Wrap(index + increment) == Wrap(first + if increment > 0 then done else 0 - done))
  }

  /** The element at (a, b), where done bytes are moved, lies in the chunk and is the next one. */
  lemma NextInChunk(build: Build, access: Access, increment: int, d: nat, s: nat, n: nat, dLow: nat, sLow: nat, done: nat,
                    a: nat, b: nat, dLow1: nat, sLow1: nat, done1: nat)
    requires done1 == done + access.Size(build) <= n && access.Aligned(build, a)
    requires if increment > 0 then UpSafe(d, s, n) else DownSafe(d, s, n)
    requires dLow - d == sLow - s == if increment > 0 then 0 else n - done
    requires a - d == b - s == if increment > 0 then done else n - done1
    requires access.CapAccess? ==> build.Low(a) == build.Low(b) && build.Low(d) == build.Low(s)
    requires dLow1 == (if increment > 0 then dLow else a) && sLow1 == (if increment > 0 then sLow else b)
    ensures d <= a && a + access.Size(build) <= d + n && s <= b && b + access.Size(build) <= s + n
    ensures dLow1 - d == sLow1 - s == if increment > 0 then 0 else n - done1
    ensures NextElement(build, access, increment > 0, a, b, dLow, sLow, done, dLow1, sLow1, done1)
  {
  }

  /** What the element selected by one step of the index is. */
  lemma StepPlan(build: Build, access: Access, dst: Pointer, src: Pointer, first: Address, last: Address, increment: int,
                 d: nat, s: nat, n: nat, dLow: nat, sLow: nat, done: nat, index0: Address, index: Address,
                 a: nat, b: nat, dLow1: nat, sLow1: nat, done1: nat)
    requires LoopFits(build, access, dst, src, first, last, increment, d, s, n)
    requires dst.top <= ADDRESS_SPACE && src.top <= ADDRESS_SPACE
    requires LoopAt(build, access, first, increment, d, s, n, dLow, sLow, done, index0) && done < n
    requires index == Wrap(index0 + increment) && a == dst.At(index) && b == src.At(index)
    requires done1 == done + access.Size(build)
    requires dLow1 == (if increment > 0 then dLow else a) && sLow1 == (if increment > 0 then sLow else b)
    ensures dst.Permits(build, access, index) && src.Permits(build, access, index)
    ensures d <= dLow1 && s <= sLow1 && dLow1 + done1 <= d + n && sLow1 + done1 <= s + n
    ensures NextElement(build, access, increment > 0, a, b, dLow, sLow, done, dLow1, sLow1, done1)
    ensures index == last <==> done1 == n
    ensures LoopAt(build, access, first, increment, d, s, n, dLow1, sLow1, done1, index)
  {
    AtTurn(build, access, dst, src, first, last, increment, d, s, n, done, index);
    NextInChunk(build, access, increment, d, s, n, dLow, sLow, done, a, b, dLow1, sLow1, done1);
  }

  /** Step the index and copy the element it selects. */
  method Step(mem: Memory, access: Access, dst: Pointer, src: Pointer, index0: Address, increment: int,
              ghost first: Address, ghost last: Address, ghost d: nat, ghost s: nat, ghost n: nat,
              ghost bytes0: seq<Byte>, ghost tags0: seq<bool>, ghost dLow: nat, ghost sLow: nat, ghost done: nat)
    returns (index: Address, ghost dLow1: nat, ghost sLow1: nat, ghost done1: nat)
    requires mem.Valid() && dst.top <= mem.bytes.Length && src.top <= mem.bytes.Length && -32 <= increment <= 32
    requires |bytes0| == mem.bytes.Length && |tags0| == mem.tags.Length
    requires LoopFits(mem.build, access, dst, src, first, last, increment, d, s, n)
    requires LoopAt(mem.build, access, first, increment, d, s, n, dLow, sLow, done, index0) && done < n
    requires LoopDone(mem.build, access, bytes0, tags0, mem.bytes[..], mem.tags[..], dLow, sLow, done)
    modifies mem.bytes, mem.tags
    ensures LoopAt(mem.build, access, first, increment, d, s, n, dLow1, sLow1, done1, index)
    ensures done1 == done + access.Size(mem.build) && (index == last <==> done1 == n)
    ensures LoopDone(mem.build, access, bytes0, tags0, mem.bytes[..], mem.tags[..], dLow1, sLow1, done1)
  {
    index := Wrap(index0 + increment);
    ghost var a, b := dst.At(index), src.At(index);
    dLow1, sLow1 := if increment > 0 then dLow else a, if increment > 0 then sLow else b;
    done1 := done + access.Size(mem.build);
    StepPlan(mem.build, access, dst, src, first, last, increment, d, s, n, dLow, sLow, done, index0, index,
             a, b, dLow1, sLow1, done1);
    Turn(mem, access, dst, src, index, increment > 0, bytes0, tags0, dLow, sLow, done, dLow1, sLow1, done1);
  }

  lemma TurnsNext(build: Build, access: Access, turns: nat, done: nat)
    requires turns * access.Size(build) == done
    ensures (turns + 1) * access.Size(build) == done + access.Size(build)
  {
  }

  /** One instance of the copy loop: step the index, copy an element, stop when the
      index has become last.  The index is a size_t and wraps around; d and s are the lowest
      addresses of the chunk and n is its length. */
  method MipsLoop(mem: Memory, access: Access, dst: Pointer, src: Pointer, first: Address, last: Address, increment: int,
                  ghost d: nat, ghost s: nat, ghost n: nat) returns (ghost turns: nat)
    requires mem.Valid() && dst.top <= mem.bytes.Length && src.top <= mem.bytes.Length && -32 <= increment <= 32
    requires LoopFits(mem.build, access, dst, src, first, last, increment, d, s, n)
    modifies mem.bytes, mem.tags
    ensures LoopDone(mem.build, access, old(mem.bytes[..]), old(mem.tags[..]), mem.bytes[..], mem.tags[..], d, s, n)
    ensures turns * access.Size(mem.build) == n
  {
    var index: Address := Wrap(first - increment);
    var more := true;
    turns := 0;
    ghost var bytes0, tags0, done: nat := mem.bytes[..], mem.tags[..], 0;
    ghost var dLow: nat, sLow: nat := if increment > 0 then d else d + n, if increment > 0 then s else s + n;
    while more
      invariant LoopAt(mem.build, access, first, increment, d, s, n, dLow, sLow, done, index) && (more <==> done < n)
      invariant turns * access.Size(mem.build) == done
      invariant LoopDone(mem.build, access, bytes0, tags0, mem.bytes[..], mem.tags[..], dLow, sLow, done)
      decreases n - done
    {
      TurnsNext(mem.build, access, turns, done);
      index, dLow, sLow, done := Step(mem, access, dst, src, index, increment, first, last, d, s, n,
                                      bytes0, tags0, dLow, sLow, done);
      turns := turns + 1;
      more := index != last;
    }
    assert done == n && dLow == d && sLow == s;
  }
}
