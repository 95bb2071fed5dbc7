/** The C types the kernel computes with. */
module CTypes {
  newtype byte = x: int | 0 <= x < 256

  const INT_MAX := 0x7fff_ffff
  const INT_MIN := -0x8000_0000

  predicate IsInt(x: int) {
    INT_MIN <= x <= INT_MAX
  }

  /** The value of an `int` computation, which wraps around. */
  function Wrap(x: int): (w: int)
    ensures IsInt(w)
    ensures IsInt(x) ==> w == x
  {
    (x + 0x8000_0000) % 0x1_0000_0000 - 0x8000_0000
  }

  function Abs(x: int): nat {
    if x < 0 then -x else x
  }

  /** Division truncates toward zero ... */
  function CDiv(a: int, b: int): int
    requires b != 0
  {
    var q := Abs(a) / Abs(b);
    if (a < 0) == (b < 0) then q else -q
  }

  /** ... and the remainder has the sign of the dividend. */
  function CMod(a: int, b: int): (r: int)
    requires b != 0
    ensures Abs(r) < Abs(b)
    ensures a >= 0 ==> r >= 0
  {
    if a >= 0 then a % Abs(b) else -(-a % Abs(b))
  }

  lemma SignedProduct(q: int, b: int)
    ensures q * b == (if b < 0 then -(q * Abs(b)) else q * Abs(b)) && (-q) * b == -(q * b)
  {
  }

  /** Together they make up the dividend. */
  lemma QuotientAndRemainder(a: int, b: int)
    requires b != 0
    ensures a == CDiv(a, b) * b + CMod(a, b) && (a <= 0 ==> CMod(a, b) <= 0)
  {
    var x, y := Abs(a), Abs(b);
    var q: int := x / y;
    assert x == q * y + x % y;
    SignedProduct(q, b);
  }

  lemma WrapShift(x: int, k: int)
    ensures Wrap(x + k * 0x1_0000_0000) == Wrap(x)
  {
  }

  /** How often a value goes round. */
  function Turns(x: int): (k: int)
    ensures x == Wrap(x) + k * 0x1_0000_0000
  {
    (x + 0x8000_0000) / 0x1_0000_0000
  }

  /** Wrapping changes a number by a multiple of 2^32. */
  lemma WrapIs(x: int, w: int)
    requires IsInt(w)
    ensures Wrap(x) == w <==> (x - w) % 0x1_0000_0000 == 0
  {
  }

  /** Wrapping early or late makes no difference to a sum ... */
  lemma WrapSum(x: int, y: int)
    ensures Wrap(Wrap(x) + Wrap(y)) == Wrap(x + y)
  {
    var k := Turns(x) + Turns(y);
    assert Wrap(x) + Wrap(y) == x + y + (-k) * 0x1_0000_0000;
    WrapShift(x + y, -k);
  }

  /** ... nor to a product. */
  lemma WrapProduct(x: int, y: int)
    ensures Wrap(x * Wrap(y)) == Wrap(x * y)
  {
    var k := Turns(y);
    assert x * Wrap(y) == x * y + (-(x * k)) * 0x1_0000_0000 by {
      assert Wrap(y) == y - k * 0x1_0000_0000;
      assert x * (y - k * 0x1_0000_0000) == x * y - x * (k * 0x1_0000_0000);
      assert x * (k * 0x1_0000_0000) == (x * k) * 0x1_0000_0000;
    }
    WrapShift(x * y, -(x * k));
  }
}
