/**
 Byte ranges, the cells they consist of, and tests that write numbers into one list of
 ranges and expect them in another.
 */
module Ranges {

  type UInt8 = b: int | 0 <= b < 256

  type Memory = nat -> UInt8

  /** The bytes [start, start + width). */
  datatype Range = Range(start: nat, width: nat) {
    predicate Has(a: nat) { start <= a < start + width }

    predicate Apart(other: Range) {
      start + width <= other.start || other.start + other.width <= start
    }
  }

  /** The ranges lie between lo and hi, one after the other. */
  ghost predicate InOrder(rs: seq<Range>, lo: nat, hi: nat) {
    && lo <= hi
    && (forall k :: 0 <= k < |rs| ==> lo <= rs[k].start && rs[k].start + rs[k].width <= hi)
    && (forall j, k :: 0 <= j < k < |rs| ==> rs[j].start + rs[j].width <= rs[k].start)
  }

  ghost predicate PairwiseApart(rs: seq<Range>) {
    forall j, k :: 0 <= j < k < |rs| ==> rs[j].Apart(rs[k])
  }

  ghost predicate AllApart(rs: seq<Range>, qs: seq<Range>) {
    forall j, k :: 0 <= j < |rs| && 0 <= k < |qs| ==> rs[j].Apart(qs[k])
  }

  ghost predicate SameWidths(rs: seq<Range>, qs: seq<Range>) {
    |rs| == |qs| && forall k :: 0 <= k < |rs| ==> rs[k].width == qs[k].width
  }

  /** Bytes can be copied from the first ranges to the second in any order. */
  ghost predicate Separate(sources: seq<Range>, dests: seq<Range>) {
    SameWidths(sources, dests) && PairwiseApart(sources) && PairwiseApart(dests) && AllApart(sources, dests)
  }

  lemma SeparateWhenInOrder(sources: seq<Range>, dests: seq<Range>, lo: nat, mid: nat, hi: nat)
    requires SameWidths(sources, dests) && InOrder(sources, lo, mid) && InOrder(dests, mid, hi)
    ensures Separate(sources, dests)
  {
  }

  // ------------------------------------------------------------------ cells

  function Bytes(start: nat, width: nat): (r: seq<nat>)
    ensures |r| == width && forall x :: 0 <= x < width ==> r[x] == start + x
  {
    seq(width, (x: nat) => start + x)
  }

  function Cells(rs: seq<Range>): seq<nat> {
    if rs == [] then []
    else
      var last := rs[|rs| - 1];
      Cells(rs[..|rs| - 1]) + Bytes(last.start, last.width)
  }

  /** The cells of a range are its bytes in order, after the cells of the ranges before it. */
  lemma {:induction false} CellAt(rs: seq<Range>, k: nat, x: nat)
    requires k < |rs| && x < rs[k].width
    ensures |Cells(rs[..k + 1])| == |Cells(rs[..k])| + rs[k].width <= |Cells(rs)|
    ensures Cells(rs)[|Cells(rs[..k])| + x] == rs[k].start + x
  {
    var last := |rs| - 1;
    if k < last {
      CellAt(rs[..last], k, x);
      assert rs[..last][..k] == rs[..k] && rs[..last][..k + 1] == rs[..k + 1];
    } else {
      assert rs[..k + 1] == rs;
    }
  }

  /** Cell n of either list is byte x of range k. */
  lemma {:induction false} CellOf(rs: seq<Range>, qs: seq<Range>, n: nat) returns (k: nat, x: nat)
    requires SameWidths(rs, qs) && n < |Cells(rs)|
    ensures |Cells(qs)| == |Cells(rs)|
    ensures k < |rs| && x < rs[k].width && Cells(rs)[n] == rs[k].start + x && Cells(qs)[n] == qs[k].start + x
  {
    var last := |rs| - 1;
    SameLength(rs, qs);
    SameLength(rs[..last], qs[..last]);
    if n < |Cells(rs[..last])| {
      k, x := CellOf(rs[..last], qs[..last], n);
    } else {
      k, x := last, n - |Cells(rs[..last])|;
    }
  }

  lemma {:induction false} SameLength(rs: seq<Range>, qs: seq<Range>)
    requires SameWidths(rs, qs)
    ensures |Cells(qs)| == |Cells(rs)|
  {
    if rs != [] {
      SameLength(rs[..|rs| - 1], qs[..|qs| - 1]);
    }
  }

  /** Ranges that do not overlap have no cell in common. */
  lemma {:induction false} CellsDistinct(rs: seq<Range>, m: nat, n: nat)
    requires PairwiseApart(rs) && m < n < |Cells(rs)|
    ensures Cells(rs)[m] != Cells(rs)[n]
  {
    var last := |rs| - 1;
    var before := Cells(rs[..last]);
    if n < |before| {
      CellsDistinct(rs[..last], m, n);
    } else if m < |before| {
      var k, x := CellOf(rs[..last], rs[..last], m);
      assert rs[k].Apart(rs[last]);
    }
  }

  // ---------------------------------------------------------------- numbers

  /** An address and the value written to it or expected at it. */
  datatype Cell = Cell(address: nat, value: UInt8)

  /** access_number is a uint8_t. */
  function Numbered(cells: seq<nat>): (r: seq<Cell>)
    ensures |r| == |cells|
  {
    seq(|cells|, n requires 0 <= n < |cells| => Cell(cells[n], n % 256))
  }

  function Write(mem: Memory, ws: seq<Cell>): Memory {
    if ws == [] then mem
    else
      var before := Write(mem, ws[..|ws| - 1]);
      var last := ws[|ws| - 1];
      (a: nat) => if a == last.address then last.value else before(a)
  }

  lemma {:induction false} LastingWrite(mem: Memory, ws: seq<Cell>, n: nat)
    requires n < |ws| && forall i, j :: 0 <= i < j < |ws| ==> ws[i].address != ws[j].address
    ensures Write(mem, ws)(ws[n].address) == ws[n].value
  {
    if n != |ws| - 1 {
      LastingWrite(mem, ws[..|ws| - 1], n);
    }
  }

  lemma {:induction false} WrittenNowhereElse(mem: Memory, ws: seq<Cell>, a: nat)
    requires forall n :: 0 <= n < |ws| ==> ws[n].address != a
    ensures Write(mem, ws)(a) == mem(a)
  {
    if ws != [] {
      WrittenNowhereElse(mem, ws[..|ws| - 1], a);
    }
  }

  /** The cells are numbered modulo 256, in order, and every other address is as it was. */
  ghost predicate NumberedIn(before: Memory, after: Memory, cells: seq<nat>) {
    && (forall n :: 0 <= n < |cells| ==> after(cells[n]) == n % 256)
    && (forall a: nat :: a !in cells ==> after(a) == before(a))
  }

  /** Byte x of the destination is what byte x of the source was. */
  predicate Arrived(before: Memory, after: Memory, source: Range, dest: Range, x: nat) {
    after(dest.start + x) == before(source.start + x)
  }

  /** Every byte of every destination is what the byte of its source was. */
  ghost predicate Transferred(before: Memory, after: Memory, sources: seq<Range>, dests: seq<Range>)
    requires SameWidths(sources, dests)
  {
    forall k: nat, x: nat :: k < |sources| && x < sources[k].width ==> Arrived(before, after, sources[k], dests[k], x)
  }

  ghost predicate Passes(mem: Memory, asserts: seq<Cell>) {
    forall n :: 0 <= n < |asserts| ==> mem(asserts[n].address) == asserts[n].value
  }

  lemma NumbersStay(mem: Memory, sources: seq<Range>, n: nat)
    requires PairwiseApart(sources) && n < |Cells(sources)|
    ensures Write(mem, Numbered(Cells(sources)))(Cells(sources)[n]) == n % 256
  {
    var ws := Numbered(Cells(sources));
    forall i, j | 0 <= i < j < |ws| ensures ws[i].address != ws[j].address {
      CellsDistinct(sources, i, j);
    }
    LastingWrite(mem, ws, n);
  }

  lemma SourcesNumbered(mem: Memory, sources: seq<Range>)
    requires PairwiseApart(sources)
    ensures NumberedIn(mem, Write(mem, Numbered(Cells(sources))), Cells(sources))
  {
    var cells := Cells(sources);
    forall n | 0 <= n < |cells| ensures Write(mem, Numbered(cells))(cells[n]) == n % 256 {
      NumbersStay(mem, sources, n);
    }
    forall a: nat | a !in cells ensures Write(mem, Numbered(cells))(a) == mem(a) {
      WrittenNowhereElse(mem, Numbered(cells), a);
    }
  }

  lemma CellArrives(before: Memory, after: Memory, sources: seq<Range>, dests: seq<Range>, n: nat)
    requires SameWidths(sources, dests) && n < |Cells(sources)|
    requires Transferred(before, after, sources, dests)
    ensures |Cells(dests)| == |Cells(sources)| && after(Cells(dests)[n]) == before(Cells(sources)[n])
  {
    var k, x := CellOf(sources, dests, n);
    assert Arrived(before, after, sources[k], dests[k], x);
  }

  /** Numbers written into the sources are found, in the same order, in the destinations. */
  lemma NumbersArrive(mem: Memory, after: Memory, sources: seq<Range>, dests: seq<Range>)
    requires Separate(sources, dests)
    requires Transferred(Write(mem, Numbered(Cells(sources))), after, sources, dests)
    ensures Passes(after, Numbered(Cells(dests)))
  {
    var before, asserts := Write(mem, Numbered(Cells(sources))), Numbered(Cells(dests));
    SameLength(sources, dests);
    forall n | 0 <= n < |asserts| ensures after(asserts[n].address) == asserts[n].value {
      CellArrives(before, after, sources, dests, n);
      NumbersStay(mem, sources, n);
    }
  }
}
