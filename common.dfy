/** Small helpers shared by all five projects: optional values and random draws. */
module Util {

  /** A value that may be missing; stands for a Java reference that may be null. */
  datatype Option<T> = None | Some(value: T)

  function Abs(r: real): (a: real)
    ensures a >= 0.0 && (a == r || a == -r)
  {
    if r < 0.0 then -r else r
  }

  function Max(a: int, b: int): (m: int)
    ensures m >= a && m >= b && (m == a || m == b)
  {
    if a >= b then a else b
  }

  function Min(a: int, b: int): (m: int)
    ensures m <= a && m <= b && (m == a || m == b)
  {
    if a <= b then a else b
  }

  /** Java's int `/`: the quotient rounded toward zero (Dafny's `/` is Euclidean). */
  function JavaDiv(a: int, b: int): (q: int)
    requires b != 0
    ensures a >= 0 && b > 0 ==> q == a / b
    ensures (a >= 0) == (b > 0) || a == 0 ==> q >= 0
    ensures (a >= 0) != (b > 0) ==> q <= 0
  {
    if a >= 0 then a / b else -((-a) / b)
  }

  /** Java's int `%`: the remainder of JavaDiv, carrying the sign of the dividend. */
  function JavaRem(a: int, b: int): (r: int)
    requires b != 0
    ensures a == b * JavaDiv(a, b) + r
    ensures a >= 0 ==> 0 <= r < (if b > 0 then b else -b)
    ensures a < 0 ==> -(if b > 0 then b else -b) < r <= 0
  {
    a - b * JavaDiv(a, b)
  }

  /** Appending is associative. */
  lemma AppendAssoc<T>(a: seq<T>, b: seq<T>, c: seq<T>)
    ensures a + b + c == a + (b + c)
  {
  }
}

/**
 * Draws of java.util.Random. The generator itself is not modelled: each draw
 * is an oracle value, and every property is stated for all draws.
 */
module Oracle {

  /** An endless stream of raw draws; position k holds the k-th draw. */
  type Stream = nat -> nat

  /**
   * Random.nextInt(bound): a raw draw reduced into [0, bound). Every value of
   * the range is the reduction of itself, so no outcome of the real generator
   * is lost.
   */
  function NextInt(raw: nat, bound: nat): (r: nat)
    requires bound > 0
    ensures r < bound
    ensures raw < bound ==> r == raw
  {
    raw % bound
  }

  /** Random.nextBoolean: an even raw draw reads as true. */
  function NextBoolean(raw: nat): bool
  {
    raw % 2 == 0
  }
}
