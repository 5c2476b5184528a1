/**
 Spherical coordinates in 3D space (the `coordinate::spherical` module of scilib).

 A point is a radial distance `r`, a longitude angle `theta` and a latitude angle
 `phi`. The scalar operators stretch the point along its ray: they touch `r` only
 and pass both angles through. Every `f64` is a `real` here.
 */
module SphericalCoordinates {

  /** The `Spherical` struct: three plain fields, no invariant. */
  datatype Spherical = Spherical(r: real, theta: real, phi: real)

  /** The value `#[derive(Default)]` gives the struct: every field 0.0. */
  function Default(): Spherical
  {
    Spherical(0.0, 0.0, 0.0)
  }

  /** `Spherical::new`: the origin, the same value as the default. */
  function New(): (s: Spherical)
    ensures s.r == 0.0 && s.theta == 0.0 && s.phi == 0.0
    ensures s == Default()
  {
    Default()
  }

  /** `Spherical::from`: each argument stored, unchanged, in its own field. */
  function From(r: real, theta: real, phi: real): (s: Spherical)
    ensures s.r == r && s.theta == theta && s.phi == phi
  {
    Spherical(r, theta, phi)
  }

  /** `s * k`: the radius is scaled by k, the angles are left alone. */
  function Mul(s: Spherical, k: real): (p: Spherical)
    ensures p.r == s.r * k
    ensures p.theta == s.theta && p.phi == s.phi
  {
    s.(r := s.r * k)
  }

  /** `s / k`: the radius is divided by k, the angles are left alone. The source
      does not guard the divisor, so a zero divisor is the caller's to avoid. */
  function Div(s: Spherical, k: real): (p: Spherical)
    requires k != 0.0
    ensures p.r == s.r / k
    ensures p.theta == s.theta && p.phi == s.phi
  {
    s.(r := s.r / k)
  }

  /** `-s`, which the source defines as `s * -1`. */
  function Neg(s: Spherical): (p: Spherical)
    ensures p == Mul(s, -1.0)
    ensures p.r == -s.r && p.theta == s.theta && p.phi == s.phi
  {
    Mul(s, -1.0)
  }

  /** Dividing by k undoes multiplying by k. */
  lemma MulThenDiv(s: Spherical, k: real)
    requires k != 0.0
    ensures Div(Mul(s, k), k) == s
  {
    assert s.r * k / k == s.r;
  }

  /** Multiplying by k undoes dividing by k. */
  lemma DivThenMul(s: Spherical, k: real)
    requires k != 0.0
    ensures Mul(Div(s, k), k) == s
  {
    assert s.r / k * k == s.r;
  }

  /** Two scalings compose into one by the product of the scalars. */
  lemma MulTwice(s: Spherical, k1: real, k2: real)
    ensures Mul(Mul(s, k1), k2) == Mul(s, k1 * k2)
  {
    assert s.r * k1 * k2 == s.r * (k1 * k2);
  }

  /** Negating twice gives the point back. */
  lemma NegInvolutive(s: Spherical)
    ensures Neg(Neg(s)) == s
  {
  }

  /** Negation flips the radius only and never rotates the angles, so a point
      equals its negation exactly when r = 0. */
  lemma NegFixedIffZeroRadius(s: Spherical)
    ensures Neg(s) == s <==> s.r == 0.0
  {
  }

  /** The documented examples: `new()` is the all-zero literal, `from(1, 0.12, 2.8)`
      is the literal with those fields, `(1, 0.2, 2.1) * 2 == (2, 0.2, 2.1)`,
      `(2, 0.2, 2.1) / 2 == (1, 0.2, 2.1)`. */
  lemma DocExamples()
    ensures New() == Spherical(0.0, 0.0, 0.0)
    ensures From(1.0, 0.12, 2.8) == Spherical(1.0, 0.12, 2.8)
    ensures Mul(From(1.0, 0.2, 2.1), 2.0) == From(2.0, 0.2, 2.1)
    ensures Div(From(2.0, 0.2, 2.1), 2.0) == From(1.0, 0.2, 2.1)
    ensures Neg(From(1.0, 0.2, 2.1)) == From(-1.0, 0.2, 2.1)
  {
  }

  /** A mutable `Spherical` place (`let mut s`), on which the assigning operators
      `*=` and `/=` update the field `r` in place. */
  class SphericalCell {
    var r: real
    var theta: real
    var phi: real

    /** The value currently held. */
    function Value(): Spherical
      reads this
    {
      Spherical(r, theta, phi)
    }

    constructor (s: Spherical)
      ensures Value() == s
    {
      r, theta, phi := s.r, s.theta, s.phi;
    }

    /** `s *= k`: only `r` changes, to `old(r) * k`; the result is `s * k`. */
    method MulAssign(k: real)
      modifies this`r
      ensures r == old(r) * k
      ensures theta == old(theta) && phi == old(phi)
      ensures Value() == Mul(old(Value()), k)
    {
      r := r * k;
    }

    /** `s /= k`: only `r` changes, to `old(r) / k`; the result is `s / k`. */
    method DivAssign(k: real)
      requires k != 0.0
      modifies this`r
      ensures r == old(r) / k
      ensures theta == old(theta) && phi == old(phi)
      ensures Value() == Div(old(Value()), k)
    {
      r := r / k;
    }
  }

  /** The documented examples of the assigning operators, and that `*=` then `/=`
      by the same nonzero scalar restores the value held. */
  method AssignExamples(k: real)
    requires k != 0.0
  {
    var c := new SphericalCell(From(1.0, 0.2, 2.1));
    c.MulAssign(2.0);
    assert c.Value() == From(2.0, 0.2, 2.1);
    c.DivAssign(2.0);
    assert c.Value() == From(1.0, 0.2, 2.1);
    c.MulAssign(k);
    c.DivAssign(k);
    MulThenDiv(From(1.0, 0.2, 2.1), k);
    assert c.Value() == From(1.0, 0.2, 2.1);
  }
}
