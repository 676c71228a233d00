/** Positions and scale props of the scene's groups. */
module Transform {
  import opened Optional

  datatype Vec3 = Vec3(x: real, y: real, z: real)

  /** The `scale` prop of a part component: `number | [number, number, number]`. */
  datatype Scale = Uniform(factor: real) | PerAxis(axes: Vec3)

  /** Every part component defaults its `scale` prop to 1. */
  const DefaultScale: Scale := Uniform(1.0)

  predicate IsUniform(v: Vec3) {
    v.x == v.y == v.z
  }

  /** The scale a part hands to its group: a number `s` becomes `[s, s, s]`,
      a 3-tuple is passed through. */
  function Normalise(s: Scale): (v: Vec3)
    ensures s.PerAxis? ==> v == s.axes
    ensures s.Uniform? ==> IsUniform(v) && v.x == s.factor
    ensures IsUniform(v) <==> s.Uniform? || IsUniform(s.axes)
  {
    match s
    case Uniform(f) => Vec3(f, f, f)
    case PerAxis(axes) => axes
  }

  /** The scale of a part whose `scale` prop may be omitted. */
  function GroupScale(prop: Option<Scale>): (v: Vec3)
    ensures prop.None? ==> v == Vec3(1.0, 1.0, 1.0)
    ensures prop.Some? ==> v == Normalise(prop.value)
  {
    Normalise(prop.GetOr(DefaultScale))
  }

  /** Normalising is idempotent: feeding the normalised triple back as a
      3-tuple prop changes nothing. */
  lemma NormaliseIdempotent(s: Scale)
    ensures Normalise(PerAxis(Normalise(s))) == Normalise(s)
  {
  }

  /** Two uniform props give the same group scale exactly when their factors agree. */
  lemma NormaliseUniformInjective(a: real, b: real)
    ensures Normalise(Uniform(a)) == Normalise(Uniform(b)) <==> a == b
  {
  }
}
