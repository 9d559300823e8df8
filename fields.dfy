/** The field model: the electric and magnetic field a particle sees at a position,
    for each field type the simulator offers (`getFields`). */
module Fields {

  /** Softening constant added to r² in the radial field, so that the field stays
      finite at the origin. */
  const EPSILON: real := 0.1

  /** The field-type names produced by the field selector. */
  const UNIFORM_E: string := "uniform-e"
  const UNIFORM_B: string := "uniform-b"
  const RADIAL_E: string := "radial-e"

  /** The field configuration captured at set-up: the selected type name and every
      numeric field input, whichever type is selected. */
  datatype FieldConfig = FieldConfig(kind: string, ex: real, ey: real, bz: real, kq: real)

  /** In-plane electric field (ex, ey) and out-of-plane magnetic field bz. */
  datatype FieldVector = FieldVector(ex: real, ey: real, bz: real)

  const ZERO_FIELD: FieldVector := FieldVector(0.0, 0.0, 0.0)

  /** `Math.pow(r², 1.5)`. Its exact value is not modelled: every property below holds
      for any function that is positive on positive arguments. */
  type ThreeHalvesPower = f: real -> real | forall r :: r > 0.0 ==> f(r) > 0.0
    witness (r: real) => r

  /** A field with no magnetic part that is parallel to the position (x, y). */
  predicate IsCentral(f: FieldVector, x: real, y: real) {
    f.bz == 0.0 && f.ex * y == f.ey * x
  }

  predicate IsKnownKind(kind: string) {
    kind == UNIFORM_E || kind == UNIFORM_B || kind == RADIAL_E
  }

  /** Softened squared distance from the origin. */
  function SquaredRadius(x: real, y: real): (rSq: real)
    ensures rSq >= EPSILON > 0.0
  {
    SquareSign(x);
    SquareSign(y);
    x * x + y * y + EPSILON
  }

  /** The factor kQ / r³ by which the radial field scales the position vector. It has
      the sign of kQ: the field points away from the origin for a positive kQ and
      towards it for a negative one. */
  function RadialScale(x: real, y: real, kq: real, pow: ThreeHalvesPower): (k: real)
    ensures k > 0.0 <==> kq > 0.0
    ensures k < 0.0 <==> kq < 0.0
  {
    var rCubed := pow(SquaredRadius(x, y));
    assert kq / rCubed * rCubed == kq;
    kq / rCubed
  }

  /** The field at (x, y). The uniform fields do not depend on the position; the radial
      field is that of a point charge at the origin, the position vector scaled by
      kQ / r³ (RadialFieldIsCoulomb); an unknown type name yields no field at all. */
  function GetFields(x: real, y: real, config: FieldConfig, pow: ThreeHalvesPower): (f: FieldVector)
    ensures config.kind == UNIFORM_E ==> f == FieldVector(config.ex, config.ey, 0.0)
    ensures config.kind == UNIFORM_B ==> f == FieldVector(0.0, 0.0, config.bz)
    ensures !IsKnownKind(config.kind) ==> f == ZERO_FIELD
  {
    if config.kind == UNIFORM_E then
      FieldVector(config.ex, config.ey, 0.0)
    else if config.kind == UNIFORM_B then
      FieldVector(0.0, 0.0, config.bz)
    else if config.kind == RADIAL_E then
      var k := RadialScale(x, y, config.kq, pow);
      FieldVector(k * x, k * y, 0.0)
    else
      ZERO_FIELD
  }

  /** The uniform fields, and the fallback for an unknown type, are the same everywhere. */
  lemma UniformFieldIgnoresPosition(x1: real, y1: real, x2: real, y2: real,
                                    config: FieldConfig, pow: ThreeHalvesPower)
    requires config.kind != RADIAL_E
    ensures GetFields(x1, y1, config, pow) == GetFields(x2, y2, config, pow)
  {
  }

  /** The radial field is parallel to the position vector and has no magnetic part. Its
      direction relative to the position is the sign of kQ, through RadialScale: away
      from the origin for kQ > 0, towards it for kQ < 0. */
  lemma RadialFieldIsCentral(x: real, y: real, config: FieldConfig, pow: ThreeHalvesPower)
    requires config.kind == RADIAL_E
    ensures IsCentral(GetFields(x, y, config, pow), x, y)
  {
    ScaledVectorIsParallel(GetFields(x, y, config, pow), RadialScale(x, y, config.kq, pow), x, y);
  }

  /** The radial field's components are kQ·x / r³ and kQ·y / r³, the Coulomb field of
      a point charge at the origin, with r³ = pow(x² + y² + EPSILON). */
  lemma RadialFieldIsCoulomb(x: real, y: real, config: FieldConfig, pow: ThreeHalvesPower)
    requires config.kind == RADIAL_E
    ensures var f, rCubed := GetFields(x, y, config, pow), pow(SquaredRadius(x, y));
            f.ex == config.kq * x / rCubed && f.ey == config.kq * y / rCubed && f.bz == 0.0
  {
    ScaleIsQuotient(x, y, config.kq, pow, x);
    ScaleIsQuotient(x, y, config.kq, pow, y);
  }

  /** Scaling c by kQ / r³ is dividing kQ·c by r³. */
  lemma ScaleIsQuotient(x: real, y: real, kq: real, pow: ThreeHalvesPower, c: real)
    ensures RadialScale(x, y, kq, pow) * c == kq * c / pow(SquaredRadius(x, y))
  {
    var rCubed := pow(SquaredRadius(x, y));
    assert kq / rCubed * c == kq * c / rCubed;
  }

  /** The softening keeps the radial field finite at the origin, where it vanishes. */
  lemma RadialFieldVanishesAtOrigin(config: FieldConfig, pow: ThreeHalvesPower)
    requires config.kind == RADIAL_E
    ensures GetFields(0.0, 0.0, config, pow) == ZERO_FIELD
  {
  }

  /** A vector k·(x, y) is parallel to (x, y). */
  lemma ScaledVectorIsParallel(f: FieldVector, k: real, x: real, y: real)
    requires f == FieldVector(k * x, k * y, 0.0)
    ensures IsCentral(f, x, y)
  {
  }

  lemma SquareSign(x: real)
    ensures x * x >= 0.0
  {
    if x < 0.0 {
      assert x * x == (-x) * (-x);
    }
  }
}

