/**
 The memory a block copy runs on: bytes, plus one validity tag per
 capability-sized granule.  A byte or word store clears the tag of the granule
 it touches; a capability load or store, which must be aligned, carries it.
 */
module TaggedMemory {

  newtype Byte = b: int | 0 <= b < 256

  const WORD: nat := 8                              // wsize, sizeof(long)
  const ADDRESS_SPACE: int := 0x1_0000_0000_0000_0000

  type Address = a: int | 0 <= a < ADDRESS_SPACE

  /** The result of one 64-bit addition, subtraction or negation: size_t and
      pointer arithmetic carries or borrows at most once. */
  function Wrap(x: int): (r: Address)
    requires -ADDRESS_SPACE <= x < 2 * ADDRESS_SPACE
  {
    if x < 0 then x + ADDRESS_SPACE else if x < ADDRESS_SPACE then x else x - ADDRESS_SPACE
  }

  lemma WrapIsModulo(x: int)
    requires -ADDRESS_SPACE <= x < 2 * ADDRESS_SPACE
    ensures Wrap(x) == x % ADDRESS_SPACE
  {
  }

  /** The three ways the copy is compiled: without capability registers, with
      128-bit ones and with 256-bit ones (_MIPS_SZCAP). */
  datatype Build = Plain | Cap128 | Cap256 {

    /** sizeof(ptr), which is also the size of a granule. */
    function PSize(): (r: nat)
      ensures r % WORD == 0 && r >= WORD
    {
      match this case Plain => 8 case Cap128 => 16 case Cap256 => 32
    }

    /** The index of the granule that holds address a, as the hardware computes it. */
    function Index(a: nat): (g: nat)
      ensures Start(g) <= a < Start(g) + PSize()
    {
      match this case Plain => a / 8 case Cap128 => a / 16 case Cap256 => a / 32
    }

    /** The granule that holds address a. */
    ghost function Granule(a: nat): (g: nat)
    {
      var i := Index(a);
      var g :| Start(g) <= a < Start(g) + PSize();
      g
    }

    /** The low bits a & (psize - 1). */
    ghost function Low(a: nat): nat {
      a - Start(Granule(a))
    }

    /** The first address of granule g. */
    function Start(g: nat): nat {
      match this case Plain => 8 * g case Cap128 => 16 * g case Cap256 => 32 * g
    }

    /** Granule g has an address in [a, a + n). */
    predicate Touches(g: nat, a: nat, n: nat) {
      0 < n && Start(g) < a + n && a < Start(g) + PSize()
    }

    /** Granule g lies wholly in [a, a + n). */
    predicate Within(g: nat, a: nat, n: nat) {
      a <= Start(g) && Start(g) + PSize() <= a + n
    }

    lemma GranuleUnique(a: nat, g: nat)
      ensures Start(g) <= a < Start(g) + PSize() <==> g == Granule(a)
      ensures a < Start(g) <==> Granule(a) < g
    {
    }

    /** Multiples of the size of a granule are closed under sum and difference. */
    lemma Sums(a: nat, b: nat)
      requires Low(a) == 0 && Low(b) == 0
      ensures Low(a + b) == 0 && Low(PSize()) == 0
      ensures a <= b ==> Low(b - a) == 0
      ensures a < b ==> a + PSize() <= b
    {
      GranuleUnique(a + b, Granule(a) + Granule(b));
      GranuleUnique(PSize(), 1);
      if a <= b {
        GranuleUnique(b - a, Granule(b) - Granule(a));
      }
    }

    /** Every granule starts on a word boundary. */
    lemma StartIsWord(g: nat)
      ensures Plain.Low(Start(g)) == 0
    {
      match this {
        case Plain => Plain.GranuleUnique(Start(g), g);
        case Cap128 => Plain.GranuleUnique(Start(g), 2 * g);
        case Cap256 => Plain.GranuleUnique(Start(g), 4 * g);
      }
    }

    /** Regions that agree modulo a capability agree modulo a word. */
    lemma LowAgrees(d: nat, s: nat)
      ensures Low(d) == Low(s) ==> Plain.Low(d) == Plain.Low(s)
    {
      LowOfLow(d);
      LowOfLow(s);
    }

    lemma LowOfLow(a: nat)
      ensures Plain.Low(Low(a)) == Plain.Low(a)
    {
      StartIsWord(Granule(a));
      var q, r := Plain.Granule(Start(Granule(a))), Plain.Granule(Low(a));
      Plain.GranuleUnique(a, q + r);
    }

    /** Regions that agree modulo this unit agree at every offset. */
    lemma LowShift(d: nat, s: nat, p: nat)
      ensures Low(d) == Low(s) ==> Low(d + p) == Low(s + p)
    {
      var k := Granule(Low(d) + p);
      GranuleUnique(d + p, Granule(d) + k);
      GranuleUnique(s + p, Granule(s) + k);
    }

    lemma LowBefore(a: nat, p: nat)
      requires Low(a + p) == 0
      ensures Low(a) == if Low(p) == 0 then 0 else PSize() - Low(p)
    {
      GranuleUnique(a, Granule(a + p) - Granule(p) - if Low(p) == 0 then 0 else 1);
    }

    /** No boundary lies strictly between an address and the boundaries below and above it. */
    lemma NoneBetween(a: nat, b: nat)
      requires Low(b) == 0
      ensures a <= b ==> a == b || a + PSize() - Low(a) <= b
      ensures b <= a ==> b <= a - Low(a)
    {
      GranuleUnique(b, Granule(a));
      GranuleUnique(b, Granule(a) + 1);
    }

    /** The boundaries below and above an address. */
    lemma Boundaries(a: nat)
      ensures Low(a - Low(a)) == 0 && Low(a + PSize() - Low(a)) == 0
    {
      GranuleUnique(a - Low(a), Granule(a));
      GranuleUnique(a + PSize() - Low(a), Granule(a) + 1);
    }

    lemma IndexIsGranule(a: nat)
      ensures Index(a) == Granule(a)
    {
      GranuleUnique(a, Index(a));
    }
  }

  /** The instruction that moves one element: a byte, a word or a capability. */
  datatype Access = ByteAccess | WordAccess | CapAccess {
    function Size(build: Build): (w: nat)
      ensures 0 < w <= 32
    {
      match this case ByteAccess => 1 case WordAccess => WORD case CapAccess => build.PSize()
    }

    /** a is a multiple of the access size. */
    ghost predicate Aligned(build: Build, a: nat) {
      match this
      case ByteAccess => true
      case WordAccess => Plain.Low(a) == 0
      case CapAccess => build.Low(a) == 0
    }

    lemma Step(build: Build, a: nat, b: nat)
      requires Aligned(build, a) && Aligned(build, b)
      ensures Aligned(build, a + b)
      ensures a <= b ==> Aligned(build, b - a)
      ensures a < b ==> a + Size(build) <= b
      ensures Aligned(build, Size(build))
    {
      var unit := if CapAccess? then build else Plain;
      if !ByteAccess? {
        unit.Sums(a, b);
      }
    }

    /** An aligned element does not cross the end of its granule. */
    lemma InOneGranule(build: Build, a: nat)
      requires Aligned(build, a)
      ensures a + Size(build) <= build.Start(build.Granule(a)) + build.PSize()
    {
      var q, g := Plain.Granule(a), build.Granule(a);
      if WordAccess? {
        match build {
          case Plain =>
          case Cap128 => assert q < 2 * g + 2;
          case Cap256 => assert q < 4 * g + 4;
        }
      }
    }
  }

  /** t & (sizeof - 1), for the size of a word (Plain) or of a capability. */
  method LowBits(unit: Build, t: nat) returns (r: nat)
    ensures r == unit.Low(t) < unit.PSize()
  {
    unit.IndexIsGranule(t);
    r := t - unit.Start(unit.Index(t));
  }

  /** length / sizeof. */
  method WholeUnits(unit: Build, length: nat) returns (t: int)
    ensures 0 <= t == unit.Granule(length) && unit.Start(t) + unit.Low(length) == length
  {
    unit.IndexIsGranule(length);
    t := unit.Index(length);
  }

  /** A pointer with the bounds [base, top) it may be used in. */
  datatype Pointer = Pointer(base: nat, top: nat, addr: Address) {

    /** Pointer arithmetic changes the address and not the bounds. */
    function Plus(offset: int): Pointer
      requires -ADDRESS_SPACE < offset < ADDRESS_SPACE
    {
      this.(addr := Wrap(addr + offset))
    }

    /** The address of this[index]. */
    function At(index: Address): Address {
      Wrap(addr + index)
    }

    /** Moving the index moves the address by as much. */
    lemma AtShifted(index: Address, delta: int)
      requires 0 <= At(index) + delta < ADDRESS_SPACE
      ensures At(Wrap(index + delta)) == At(index) + delta
    {
    }

    /** An access of this size at this address does not fault. */
    ghost predicate Permits(build: Build, access: Access, index: Address) {
      && access.Aligned(build, At(index))
      && base <= At(index)
      && At(index) + access.Size(build) <= top
    }
  }

  class Memory {
    const build: Build
    const bytes: array<Byte>
    const tags: array<bool>

    ghost predicate Valid() {
      && bytes.Length == build.Start(tags.Length)
      && bytes.Length <= ADDRESS_SPACE
    }

    constructor (build: Build, granules: nat)
      requires build.Start(granules) <= ADDRESS_SPACE
      ensures Valid() && this.build == build && tags.Length == granules
      ensures fresh(bytes) && fresh(tags)
      ensures forall g :: 0 <= g < granules ==> !tags[g]
    {
      this.build := build;
      this.bytes := new Byte[build.Start(granules)];
      this.tags := new bool[granules](_ => false);
    }

    /** Load one element; only a capability load sees a tag. */
    method Load(access: Access, p: Pointer, index: Address) returns (value: seq<Byte>, tag: bool)
      requires Valid() && p.top <= bytes.Length && p.Permits(build, access, index)
      ensures var a, w := p.At(index), access.Size(build);
              value == bytes[a..a + w] && tag == (access.CapAccess? && TagOf(tags[..], a))
    {
      var a, w := p.At(index), access.Size(build);
      GranuleInRange(a);
      value := bytes[a..a + w];
      tag := access.CapAccess? && tags[build.Index(a)];
    }

    ghost function TagOf(ts: seq<bool>, a: nat): bool
      requires build.Granule(a) < |ts|
    {
      ts[build.Granule(a)]
    }

    /** Store one element: its granule gets the tag of a capability store and
        loses its tag to any other store. */
    method Store(access: Access, p: Pointer, index: Address, value: seq<Byte>, tag: bool)
      requires Valid() && p.top <= bytes.Length && p.Permits(build, access, index)
      requires |value| == access.Size(build)
      modifies bytes, tags
      ensures forall i :: 0 <= i < bytes.Length ==>
                bytes[i] == if p.At(index) <= i < p.At(index) + |value| then value[i - p.At(index)] else old(bytes[i])
      ensures build.Granule(p.At(index)) < tags.Length
      ensures tags[..] == old(tags[..])[build.Granule(p.At(index)) := access.CapAccess? && tag]
    {
      var a := p.At(index);
      GranuleInRange(a);
      forall i | 0 <= i < |value| {
        bytes[a + i] := value[i];
      }
      tags[build.Index(a)] := access.CapAccess? && tag;
    }

    lemma GranuleInRange(a: nat)
      requires Valid() && a < bytes.Length
      ensures build.Index(a) == build.Granule(a) < tags.Length
    {
      build.IndexIsGranule(a);
    }
  }
}
