/**
 What the effect of a block copy means for those who rely on it.
 */
module CopyProperties {
  import opened TaggedMemory
  import opened CopyLoop

  /** The bytes of granule g. */
  function Contents(build: Build, bytes: seq<Byte>, g: nat): seq<Byte>
    requires build.Start(g) + build.PSize() <= |bytes|
  {
    bytes[build.Start(g)..build.Start(g) + build.PSize()]
  }

  /** No capability is forged: a granule that is tagged after a copy holds, byte for
      byte, what some tagged granule held before it. */
  lemma NoForgery(build: Build, bytes: seq<Byte>, tags: seq<bool>, d: nat, s: nat, n: nat, g: nat) returns (h: nat)
    requires |bytes| == build.Start(|tags|) && d + n <= |bytes| && s + n <= |bytes|
    requires g < |tags| && MovedTags(build, tags, d, s, n)[g]
    ensures h < |tags| && tags[h]
    ensures build.Start(g) + build.PSize() <= |bytes| && build.Start(h) + build.PSize() <= |bytes|
    ensures Contents(build, Moved(bytes, d, s, n), g) == Contents(build, bytes, h)
  {
    assert MovedTag(build, tags, d, s, n, g);
    if build.Touches(g, d, n) {
      h := OriginGranule(build, tags, d, s, n, g);
      SameContents(build, bytes, d, s, n, g, h);
    } else {
      h := g;
      build.GranuleUnique(build.Start(g), g);
      build.GranuleUnique(build.Start(g), |tags|);
      UntouchedContents(build, bytes, d, s, n, g);
    }
  }

  lemma UntouchedContents(build: Build, bytes: seq<Byte>, d: nat, s: nat, n: nat, g: nat)
    requires d + n <= |bytes| && s + n <= |bytes| && !build.Touches(g, d, n) && build.Start(g) + build.PSize() <= |bytes|
    ensures Contents(build, Moved(bytes, d, s, n), g) == Contents(build, bytes, g)
  {
    var x, y := Contents(build, Moved(bytes, d, s, n), g), Contents(build, bytes, g);
    forall i | 0 <= i < |x| ensures x[i] == y[i] {
    }
  }

  lemma OriginGranule(build: Build, tags: seq<bool>, d: nat, s: nat, n: nat, g: nat) returns (h: nat)
    requires d + n <= build.Start(|tags|) && s + n <= build.Start(|tags|) && g < |tags|
    requires build.Touches(g, d, n) && MovedTag(build, tags, d, s, n, g)
    ensures h < |tags| && tags[h] && build.Within(g, d, n)
    ensures build.Start(h) == build.Start(g) - d + s && build.Start(h) + build.PSize() <= build.Start(|tags|)
  {
    OriginStarts(build, d, s, g);
    var from := build.Start(g) - d + s;
    build.GranuleUnique(from, |tags|);
    h := build.Granule(from);
  }

  lemma SameContents(build: Build, bytes: seq<Byte>, d: nat, s: nat, n: nat, g: nat, h: nat)
    requires d + n <= |bytes| && s + n <= |bytes| && build.Within(g, d, n)
    requires build.Start(h) == build.Start(g) - d + s && build.Start(h) + build.PSize() <= |bytes|
    ensures Contents(build, Moved(bytes, d, s, n), g) == Contents(build, bytes, h)
  {
    var x, y := Contents(build, Moved(bytes, d, s, n), g), Contents(build, bytes, h);
    forall i | 0 <= i < |x| ensures x[i] == y[i] {
    }
  }

  /** Saving a region somewhere else and copying it back restores every byte, and every tag
      of a granule wholly inside it, when the two regions agree modulo a capability. */
  lemma SaveAndRestore(build: Build, bytes: seq<Byte>, bytes': seq<Byte>, tags: seq<bool>, tags': seq<bool>,
                       d: nat, s: nat, n: nat)
    requires |bytes| == |bytes'| == build.Start(|tags|) && |tags| == |tags'|
    requires d + n <= |bytes| && s + n <= |bytes| && build.Low(d) == build.Low(s)
    requires forall i :: d <= i < d + n ==> bytes'[i] == Moved(bytes, d, s, n)[i]
    requires forall g :: 0 <= g < |tags| && build.Within(g, d, n) ==> tags'[g] == MovedTags(build, tags, d, s, n)[g]
    ensures forall i :: s <= i < s + n ==> Moved(bytes', s, d, n)[i] == bytes[i]
    ensures forall g :: 0 <= g < |tags| && build.Within(g, s, n) ==> MovedTags(build, tags', s, d, n)[g] == tags[g]
  {
    forall i | s <= i < s + n ensures Moved(bytes', s, d, n)[i] == bytes[i] {
      assert bytes'[d + (i - s)] == Moved(bytes, d, s, n)[d + (i - s)];
    }
    forall g | 0 <= g < |tags| && build.Within(g, s, n) ensures MovedTags(build, tags', s, d, n)[g] == tags[g] {
      RestoredTag(build, tags, tags', d, s, n, g);
    }
  }

  lemma RestoredTag(build: Build, tags: seq<bool>, tags': seq<bool>, d: nat, s: nat, n: nat, g: nat)
    requires |tags| == |tags'| && g < |tags|
    requires d + n <= build.Start(|tags|) && s + n <= build.Start(|tags|) && build.Low(d) == build.Low(s)
    requires forall h :: 0 <= h < |tags| && build.Within(h, d, n) ==> tags'[h] == MovedTags(build, tags, d, s, n)[h]
    requires build.Within(g, s, n)
    ensures MovedTags(build, tags', s, d, n)[g] == tags[g]
  {
    OriginStarts(build, s, d, g);
    var there := build.Start(g) - s + d;
    var h := build.Granule(there);
    build.GranuleUnique(there, |tags|);
    OriginStarts(build, d, s, h);
    build.GranuleUnique(build.Start(g), g);
    assert tags'[h] == MovedTag(build, tags, d, s, n, h) == tags[g];
  }

  /** A region copied onto itself is left alone, tags included; treating it like any
      other copy would give the same memory exactly when no tagged granule straddles an end
      of the region. */
  lemma CopyOntoItself(build: Build, bytes: seq<Byte>, tags: seq<bool>, d: nat, n: nat)
    requires |bytes| == build.Start(|tags|) && d + n <= |bytes|
    ensures Moved(bytes, d, d, n) == bytes
    ensures MovedTags(build, tags, d, d, n) == tags
       <==> forall g :: 0 <= g < |tags| && tags[g] && build.Touches(g, d, n) ==> build.Within(g, d, n)
  {
    var after := MovedTags(build, tags, d, d, n);
    forall g | 0 <= g < |tags|
      ensures after[g] == (tags[g] && (build.Touches(g, d, n) ==> build.Within(g, d, n)))
    {
      if build.Touches(g, d, n) && build.Within(g, d, n) {
        build.GranuleUnique(build.Start(g), g);
      }
    }
  }

  /** The two differ for the first half of a tagged granule of 16 bytes: copied onto itself like any other region, it
      would lose its tag. */
  lemma HalfGranuleLosesTag(bytes: seq<Byte>)
    requires |bytes| == 16
    ensures MovedTags(Cap128, [true], 0, 0, 8) == [false]
    ensures Moved(bytes, 0, 0, 8) == bytes
  {
    CopyOntoItself(Cap128, bytes, [true], 0, 8);
    assert Cap128.Touches(0, 0, 8) && !Cap128.Within(0, 0, 8);
  }
}
