/**
 The linear congruential generator the test generators share.
 */
module Rand {

  const RAND_LIMIT: int := 32767
  const ULONG: int := 0x1_0000_0000_0000_0000       // unsigned long is 64 bits wide

  type State = s: int | 0 <= s < ULONG

  function Advance(s: State): State {
    (s * 1103515245 + 12345) % ULONG
  }

  /** (unsigned)(next / 65536) % 32768 */
  function Draw(s: State): (p: nat)
    ensures p <= RAND_LIMIT
  {
    ((s / 65536) % 0x1_0000_0000) % 32768
  }

  /** The state after n calls. */
  function Later(s: State, n: nat): State
    decreases n
  {
    if n == 0 then s else Advance(Later(s, n - 1))
  }

  class Rng {
    var next: State

    constructor (seed: State)
      ensures next == seed
    {
      next := seed;
    }

    method MyRand() returns (p: nat)
      modifies this
      ensures next == Advance(old(next)) && p == Draw(next)
    {
      next := (next * 1103515245 + 12345) % ULONG;
      p := ((next / 65536) % 0x1_0000_0000) % 32768;
    }
  }

  // --------------------------------- the generator cannot keep drawing zero

  lemma LaterAdds(s: State, m: nat, n: nat)
    ensures Later(Later(s, m), n) == Later(s, m + n)
    decreases n
  {
    if n != 0 {
      LaterAdds(s, m, n - 1);
    }
  }

  const PERIOD: int := 0x8000_0000                  // a draw depends on the state modulo 2^31

  /** A draw of zero comes from a state that is small modulo 2^31. */
  lemma ZeroDraw(s: State) returns (q: int, r: int)
    requires Draw(s) == 0
    ensures s == PERIOD * q + r && 0 <= r < 0x1_0000
  {
    var h := s / 65536;
    var u, v := (h % 0x1_0000_0000) / 32768, h / 0x1_0000_0000;
    assert h == 0x1_0000_0000 * v + 32768 * u;
    q, r := 0x2_0000 * v + u, s % 65536;
  }

  /** One step, modulo 2^31. */
  lemma StepModulo(s: State, q: int, r: int, q': int, r': int) returns (k: int)
    requires s == PERIOD * q + r && Advance(s) == PERIOD * q' + r'
    ensures r' == 1103515245 * r + 12345 - PERIOD * k
  {
    var full := s * 1103515245 + 12345;
    var wraps := full / ULONG;
    assert full == ULONG * wraps + Advance(s);
    k := q' + 0x2_0000_0000 * wraps - 1103515245 * q;
  }

  /** No three draws in a row are zero: 423 x + 144 y - 607 z is the same number modulo 2^31 for any three states
      x, y, z in a row, and too large for three states that all draw zero. */
  lemma NoThreeZeros(s: State)
    ensures !(Draw(s) == 0 && Draw(Advance(s)) == 0 && Draw(Advance(Advance(s))) == 0)
  {
    if Draw(s) == 0 && Draw(Advance(s)) == 0 && Draw(Advance(Advance(s))) == 0 {
      var q, x := ZeroDraw(s);
      var q', y := ZeroDraw(Advance(s));
      var q'', z := ZeroDraw(Advance(Advance(s)));
      var k := StepModulo(s, q, x, q', y);
      var k' := StepModulo(Advance(s), q', y, q'', z);
      ThreeInARow(x, y, z, k, k');
    }
  }

  lemma ThreeInARow(x: int, y: int, z: int, k: int, k': int)
    requires y == 1103515245 * x + 12345 - PERIOD * k
    requires z == 1103515245 * y + 12345 - PERIOD * k'
    ensures !(0 <= x < 0x1_0000 && 0 <= y < 0x1_0000 && 0 <= z < 0x1_0000)
  {
    assert 423 * x + 144 * y - 607 * z
        == 692177742 + PERIOD * (607 * k' + 669833753571 * k - 344203672689 * x - 3850599);
  }

  /** From any state, one of the next three draws is not zero. */
  lemma SomeDrawIsNonzero(s: State) returns (k: nat)
    ensures k <= 2 && Draw(Later(s, k + 1)) != 0
  {
    var first, second := Later(s, 1), Later(s, 2);
    assert second == Advance(first) && Later(s, 3) == Advance(second);
    NoThreeZeros(first);
    k := if Draw(first) != 0 then 0 else if Draw(second) != 0 then 1 else 2;
  }
}
