/** Java's 32-bit `int`: arithmetic wraps around modulo 2^32. */
module JavaInts {

  const TWO_32: int := 0x1_0000_0000
  const INT_MIN: int := -0x8000_0000
  const INT_MAX: int := 0x7FFF_FFFF

  predicate IsInt(x: int) {
    INT_MIN <= x <= INT_MAX
  }

  /** The `int` a mathematical integer wraps to. */
  function Wrap(x: int): (r: int)
    ensures IsInt(r)
    ensures (r - x) % TWO_32 == 0
  {
    (x - INT_MIN) % TWO_32 + INT_MIN
  }

  lemma WrapOfInt(x: int)
    requires IsInt(x)
    ensures Wrap(x) == x
  {
  }

  /** Two integers congruent modulo 2^32 wrap to the same `int`. */
  lemma WrapCongruent(x: int, y: int)
    requires (x - y) % TWO_32 == 0
    ensures Wrap(x) == Wrap(y)
  {
    var k := (x - y) / TWO_32;
    assert x - y == k * TWO_32;
    assert x - INT_MIN == (y - INT_MIN) + k * TWO_32;
  }

  /** Wrapping after every step or once at the end gives the same `int`. */
  lemma WrapAdd(x: int, y: int)
    ensures Wrap(Wrap(x) + y) == Wrap(x + y)
  {
    WrapCongruent(Wrap(x) + y, x + y);
  }

  /** `a + b` on two `int`s. */
  function Add32(a: int, b: int): (r: int)
    ensures IsInt(r)
  {
    Wrap(a + b)
  }

  /** `a - b` on two `int`s. */
  function Sub32(a: int, b: int): (r: int)
    ensures IsInt(r)
  {
    Wrap(a - b)
  }

  /** Subtracting and then adding back the same amount restores an `int`,
      overflow or not. */
  lemma SubThenAdd32(a: int, b: int)
    requires IsInt(a)
    ensures Add32(Sub32(a, b), b) == a
  {
    WrapAdd(a - b, b);
    WrapOfInt(a);
  }
}
