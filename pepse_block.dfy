/**
 * The block grid of the infinite-world simulation (pepse/world/Block.java):
 * every terrain, trunk and leaf block sits on multiples of SIZE.
 */
module PepseBlock {

  /** Block.SIZE: the edge length of one block, in pixels. */
  const SIZE: int := 30

  predicate OnGrid(c: int)
  {
    c % SIZE == 0
  }

  /** Moving a grid coordinate by whole blocks stays on the grid. */
  lemma OnGridShift(c: int, k: int)
    requires OnGrid(c)
    ensures OnGrid(c + k * SIZE)
  {
    assert c + k * SIZE == (c / SIZE + k) * SIZE;
  }

  /** Moving by whole blocks keeps the offset from the grid. */
  lemma ModShift(c: int, k: int)
    ensures (c + k * SIZE) % SIZE == c % SIZE
  {
    assert c + k * SIZE == (c / SIZE + k) * SIZE + c % SIZE;
  }

  /** Two different grid coordinates are at least a block apart. */
  lemma GridGap(c: int, d: int)
    requires OnGrid(c) && OnGrid(d) && c < d
    ensures c + SIZE <= d
  {
    assert c == (c / SIZE) * SIZE && d == (d / SIZE) * SIZE;
  }

  /** A grid offset at or past block j is block j itself or at or past block j + 1. */
  lemma GridStep(a: int, j: int)
    requires a % SIZE == 0 && j * SIZE <= a
    ensures a == j * SIZE || (j + 1) * SIZE <= a
  {
    var q := a / SIZE;
    assert a == q * SIZE;
    assert q >= j;
  }

  /**
   * Block.getRoundedCoordinate: the largest multiple of SIZE that is not above
   * the coordinate, so negative coordinates round toward minus infinity.
   */
  function RoundedCoordinate(c: real): (r: int)
    ensures OnGrid(r)
    ensures r as real <= c < r as real + SIZE as real
  {
    (c / SIZE as real).Floor * SIZE
  }

  /** getRoundedCoordinate applied to an int argument (Java widens it to float). */
  function RoundInt(c: int): (r: int)
    ensures OnGrid(r)
    ensures r <= c < r + SIZE
  {
    RoundedCoordinate(c as real)
  }

  /** Only one multiple of SIZE lies in (c - SIZE, c]: the floor is unique. */
  lemma RoundedUnique(c: real, r: int)
    requires OnGrid(r) && r as real <= c < r as real + SIZE as real
    ensures RoundedCoordinate(c) == r
  {
    var q := RoundedCoordinate(c);
    assert q == (q / SIZE) * SIZE && r == (r / SIZE) * SIZE;
    assert (q / SIZE) as real * 30.0 <= c < (r / SIZE) as real * 30.0 + 30.0;
    assert (r / SIZE) as real * 30.0 <= c < (q / SIZE) as real * 30.0 + 30.0;
  }

  /** Rounding an already rounded coordinate returns it unchanged. */
  lemma RoundedIdempotent(c: real)
    ensures RoundedCoordinate(RoundedCoordinate(c) as real) == RoundedCoordinate(c)
  {
    var r := RoundedCoordinate(c);
    RoundedUnique(r as real, r);
  }

  /** A coordinate on the grid rounds to itself. */
  lemma RoundedOnGrid(c: int)
    requires OnGrid(c)
    ensures RoundInt(c) == c
  {
    RoundedUnique(c as real, c);
  }

  /** Rounding is monotone. */
  lemma RoundedMonotone(c1: real, c2: real)
    requires c1 <= c2
    ensures RoundedCoordinate(c1) <= RoundedCoordinate(c2)
  {
    var r1, r2 := RoundedCoordinate(c1), RoundedCoordinate(c2);
    assert r1 < r2 + SIZE;
    assert r1 == (r1 / SIZE) * SIZE && r2 == (r2 / SIZE) * SIZE;
  }

  /** The two examples of negative rounding: -1 becomes -30 and -400 becomes -420. */
  lemma RoundedNegativeExamples()
    ensures RoundInt(-1) == -30 && RoundInt(-400) == -420
  {
    RoundedUnique(-1.0, -30);
    RoundedUnique(-400.0, -420);
  }
}
