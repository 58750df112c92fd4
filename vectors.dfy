/** `Vec2` of main.cpp: a plain pair of doubles with value semantics.
    `length()` needs `sqrt`, so the length is supplied by the caller where
    it is needed. */
module Vectors {

  datatype Vec2 = Vec2(x: real, y: real)
  {
    /** `operator+`: subtracting `o` again gives back this vector. */
    function Add(o: Vec2): (r: Vec2)
      ensures r.Sub(o) == this
    {
      Vec2(x + o.x, y + o.y)
    }

    /** `operator-`: adding `o` again gives back this vector. */
    function Sub(o: Vec2): (r: Vec2)
      ensures Vec2(r.x + o.x, r.y + o.y) == this
    {
      Vec2(x - o.x, y - o.y)
    }

    /** `operator*` with a scalar: the squared length scales by `s * s`;
        1 is the identity and 0 gives the zero vector. */
    function Scale(s: real): (r: Vec2)
      ensures r.LengthSquared() == s * s * LengthSquared()
      ensures r.x * x + r.y * y == s * LengthSquared()
      ensures s == 1.0 ==> r == this
      ensures s == 0.0 ==> r == Vec2(0.0, 0.0)
    {
      assert (x * s) * (x * s) + (y * s) * (y * s) == s * s * (x * x + y * y);
      Vec2(x * s, y * s)
    }

    /** The square of `length()`. */
    function LengthSquared(): (n: real)
      ensures n >= 0.0
    {
      x * x + y * y
    }

    /** `normalized()`, given `len`, the value `length()` returns: the zero
        vector when the length is 0, otherwise the vector divided by it. */
    function Normalized(len: real): (r: Vec2)
      requires len >= 0.0 && len * len == LengthSquared()
      ensures len == 0.0 ==> r == Vec2(0.0, 0.0)
      ensures len > 0.0 ==> r.Scale(len) == this
      ensures len > 0.0 ==> r.LengthSquared() == 1.0
    {
      if len > 0.0 then
        var r := Vec2(x / len, y / len);
        assert r.x * len == x && r.y * len == y;
        assert r.LengthSquared() == 1.0 by {
          calc {
            len * len * r.LengthSquared();
            (r.x * len) * (r.x * len) + (r.y * len) * (r.y * len);
            LengthSquared();
            len * len * 1.0;
          }
        }
        r
      else
        Vec2(0.0, 0.0)
    }

    /** `perpendicular()`: the counter-clockwise quarter turn
        `(x, y) -> (-y, x)`: orthogonal, of the same length, and positively
        oriented (the cross product of the vector and its turn is its
        squared length). */
    function Perpendicular(): (r: Vec2)
      ensures r.x * x + r.y * y == 0.0
      ensures r.LengthSquared() == LengthSquared()
      ensures x * r.y - y * r.x == LengthSquared()
    {
      Vec2(-y, x)
    }
  }

  /** Subtraction undoes addition. */
  lemma AddSub(a: Vec2, b: Vec2)
    ensures a.Add(b).Sub(b) == a && a.Sub(b).Add(b) == a
  {
  }

  /** Four quarter turns are the identity, two are a reversal. */
  lemma PerpendicularTwice(v: Vec2)
    ensures v.Perpendicular().Perpendicular() == v.Scale(-1.0)
    ensures v.Perpendicular().Perpendicular().Perpendicular().Perpendicular() == v
  {
  }
}
