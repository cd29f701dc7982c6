/// Value helpers shared by the whole game (include/common.hpp): the absolute
/// value, the two-component vector and the colour triple, plus the global
/// length unit HLINE.

module Common {

  datatype Option<T> = None | Some(value: T)

  type PosInt = n: int | 0 < n witness 1

  /** HLINE, the base world-space length unit. It is an `unsigned int` read
      from the settings file at start-up; only its positivity is known here. */
  const Hline: PosInt

  /** abso(v): the absolute value, by a sign test. */
  function Abso(v: real): (r: real)
    ensures 0.0 <= r
    ensures r == v || r == -v
    ensures r == 0.0 <==> v == 0.0
  {
    if v < 0.0 then v * -1.0 else v
  }

  /** The absolute value ignores the sign and is the larger of v and -v. */
  lemma AbsoSymmetric(v: real)
    ensures Abso(-v) == Abso(v)
    ensures v <= Abso(v) && -v <= Abso(v)
  {
  }

  /** vec2: a point or a velocity in world space. */
  datatype Vec2 = Vec2(x: real, y: real) {

    /** operator==: compares the two components one by one. */
    predicate Same(v: Vec2): (r: bool)
      ensures r <==> this == v
    {
      x == v.x && y == v.y
    }

    /** operator+ with a scalar: a new vector, both components shifted by n;
        the receiver, a value, is left as it was. */
    function PlusScalar(n: real): (r: Vec2)
      ensures r.Same(this) <==> n == 0.0
      ensures r.x - x == r.y - y == n
    {
      Vec2(x + n, y + n)
    }
  }

  /** Adding a scalar and then its negation gives back the original vector,
      and two scalar additions combine into one. */
  lemma PlusScalarInverse(v: Vec2, n: real, m: real)
    ensures v.PlusScalar(n).PlusScalar(-n) == v
    ensures v.PlusScalar(n).PlusScalar(m) == v.PlusScalar(n + m)
  {
  }

  /** A vec2 variable, for the one operator that writes into it. */
  class Vec2Var {
    var x: real
    var y: real

    constructor (v: Vec2)
      ensures x == v.x && y == v.y
    {
      x, y := v.x, v.y;
    }

    function Value(): Vec2
      reads this
    {
      Vec2(x, y)
    }

    /** operator=(n): both components become n; the operator returns a copy
        of the updated receiver. */
    method AssignScalar(n: real) returns (r: Vec2)
      modifies this
      ensures x == n && y == n
      ensures r == Value() && r.Same(Vec2(n, n))
    {
      x, y := n, n;
      r := Vec2(x, y);
    }
  }

  /** Color (struct col): red, green and blue channels. */
  datatype Color = Color(red: real, green: real, blue: real) {

    /** Every channel shifted by a. */
    function Shifted(a: real): (r: Color)
      ensures r.red - red == r.green - green == r.blue - blue == a
    {
      Color(red + a, green + a, blue + a)
    }
  }

  /** A Color variable, for the compound operators that are members of col. */
  class ColorVar {
    var red: real
    var green: real
    var blue: real

    constructor (c: Color)
      ensures Value() == c
    {
      red, green, blue := c.red, c.green, c.blue;
    }

    function Value(): Color
      reads this
    {
      Color(red, green, blue)
    }

    /** operator-=(a): lowers every channel by a and returns the channels as
        they were before the decrement. */
    method SubAssign(a: real) returns (r: Color)
      modifies this
      ensures Value() == old(Value()).Shifted(-a)
      ensures r == old(Value())
    {
      red := red - a;
      green := green - a;
      blue := blue - a;
      r := Color(red + a, green + a, blue + a);
    }

    /** operator+=(a) AS WRITTEN: returns the channels plus a but never
        stores them, so the receiver keeps its old channels. */
    method AddAssign(a: real) returns (r: Color)
      ensures r == Value().Shifted(a)
    {
      r := Color(red + a, green + a, blue + a);
    }

    /** operator+=(a) as a compound assignment is meant to behave: the
        receiver's channels rise by a, and the operator returns the new
        channels. */
    method AddAssignIntended(a: real) returns (r: Color)
      modifies this
      ensures Value() == old(Value()).Shifted(a)
      ensures r == Value()
    {
      red := red + a;
      green := green + a;
      blue := blue + a;
      r := Color(red, green, blue);
    }

    /** operator=(a): every channel becomes a; returns the new channels. */
    method Assign(a: real) returns (r: Color)
      modifies this
      ensures Value() == Color(a, a, a)
      ensures r == Value()
    {
      red, green, blue := a, a, a;
      r := Color(a, a, a);
    }
  }

  /** The as-written operator+= with a non-zero a returns a colour that
      differs from the receiver after the call: the sum is computed and
      dropped. */
  method AddAssignDropsSum(c: ColorVar, a: real) returns (r: Color)
    requires a != 0.0
    ensures r != c.Value()
    ensures r == c.Value().Shifted(a)
  {
    r := c.AddAssign(a);
  }
}
