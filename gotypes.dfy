/**
 * Go's fixed-width integers and error values, as the rest of the model uses them.
 * Go's uint64 arithmetic wraps around modulo 2^64; it is written out here explicitly
 * because Dafny's integers are unbounded.
 */
module GoTypes {

  const TWO_TO_THE_64: int := 0x1_0000_0000_0000_0000
  const TWO_TO_THE_63: int := 0x8000_0000_0000_0000

  /** Go's uint64. */
  type Uint64 = x: int | 0 <= x < TWO_TO_THE_64

  /** Go's int64 (also wide enough for the int32 and uint32 block sizes of other platforms). */
  type Int64 = x: int | -TWO_TO_THE_63 <= x < TWO_TO_THE_63

  datatype Option<+T> = None | Some(value: T)

  /** A non-nil Go error, identified by the text its Error() method returns. */
  datatype Error = Error(message: string)

  /** Go's conversion uint64(x) of a signed value: the two's-complement bit pattern is kept. */
  function AsUint64(x: Int64): (r: Uint64)
    ensures 0 <= x ==> r == x
    ensures x < 0 ==> r == x + TWO_TO_THE_64
  {
    x % TWO_TO_THE_64
  }

  /** Go's a * b on uint64: the exact product reduced modulo 2^64. */
  function Mul(a: Uint64, b: Uint64): (r: Uint64)
    ensures a * b < TWO_TO_THE_64 ==> r == a * b
    ensures (a * b - r) % TWO_TO_THE_64 == 0
  {
    (a * b) % TWO_TO_THE_64
  }

  /** Go's a - b on uint64: wraps to a - b + 2^64 when b exceeds a. */
  function Sub(a: Uint64, b: Uint64): (r: Uint64)
    ensures b <= a ==> r == a - b
    ensures a < b ==> r == a - b + TWO_TO_THE_64
  {
    (a - b) % TWO_TO_THE_64
  }

  /** Adding a multiple of 2^64 does not change a residue. */
  lemma ModShift(x: int, q: int)
    ensures (x + q * TWO_TO_THE_64) % TWO_TO_THE_64 == x % TWO_TO_THE_64
  {
  }

  /** Wrap-around subtraction commutes with wrap-around scaling: (a*s) - (b*s) == (a - b)*s in uint64. */
  lemma {:induction false} SubOfMuls(a: Uint64, b: Uint64, s: Uint64)
    ensures Sub(Mul(a, s), Mul(b, s)) == Mul(Sub(a, b), s)
  {
    var x, y := a * s, b * s;
    var qx, qy := x / TWO_TO_THE_64, y / TWO_TO_THE_64;
    assert Mul(a, s) == x - qx * TWO_TO_THE_64;
    assert Mul(b, s) == y - qy * TWO_TO_THE_64;
    calc {
      Sub(Mul(a, s), Mul(b, s));
      ((x - y) + (qy - qx) * TWO_TO_THE_64) % TWO_TO_THE_64;
      { ModShift(x - y, qy - qx); }
      (x - y) % TWO_TO_THE_64;
    }
    var e := if a < b then 1 else 0;
    assert Sub(a, b) == (a - b) + e * TWO_TO_THE_64;
    assert Sub(a, b) * s == (x - y) + (e * s) * TWO_TO_THE_64 by {
      assert (a - b) * s == x - y;
    }
    ModShift(x - y, e * s);
  }
}
