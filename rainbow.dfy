/**
 * The travelling colour wave (`getRainbowColor`) and the material record it
 * is written into. The wave is the same expression in the keyboard and the
 * mouse, so it is defined once here.
 */
module Rainbow {

  /** An RGB triple; channels are reals as in three.js's `Color`. */
  datatype Color = Color(r: real, g: real, b: real)

  const Black: Color := Color(0.0, 0.0, 0.0)
  const White: Color := Color(1.0, 1.0, 1.0)

  /**
   * The library calls the wave needs, passed in rather than axiomatised:
   * `Math.sin`, `Math.sqrt`, and `Color.setHSL(hue, 1, 0.5)` as a function
   * of the hue alone.
   */
  datatype Numerics = Numerics(sin: real -> real, sqrt: real -> real, hsl: real -> Color)

  /** Wave speed, in radians per millisecond of `Date.now()`. */
  const Speed: real := 0.0008

  /** The argument of the sine: the part's offset plus the scaled clock. */
  function Phase(offset: real, now: int): real {
    offset + now as real * Speed
  }

  /** `wave = sin(offset + now * 0.0008) * 0.5 + 0.5`, used directly as the hue;
      whenever the sine lies in [-1, 1] the hue handed to `setHSL` lies in [0, 1]. */
  function Hue(lib: Numerics, offset: real, now: int): (hue: real)
    ensures -1.0 <= lib.sin(Phase(offset, now)) <= 1.0 ==> 0.0 <= hue <= 1.0
    ensures lib.sin(Phase(offset, now)) == 2.0 * hue - 1.0
  {
    lib.sin(Phase(offset, now)) * 0.5 + 0.5
  }

  /** `getRainbowColor(offset)` read at clock value `now`. */
  function RainbowColor(lib: Numerics, offset: real, now: int): Color {
    lib.hsl(Hue(lib, offset, now))
  }

  /** The clock enters only through `offset + now * Speed`: moving the offset
      by `delta * Speed` is the same as reading the clock `delta` ms later. */
  lemma TimeShift(lib: Numerics, offset: real, delta: int, now: int)
    ensures RainbowColor(lib, offset + delta as real * Speed, now) == RainbowColor(lib, offset, now + delta)
  {
    assert Phase(offset + delta as real * Speed, now) == Phase(offset, now + delta);
  }

  /**
   * The fields of a `MeshStandardMaterial` the animation touches or keeps.
   */
  datatype Material = Material(
    color: Color,
    emissive: Color,
    emissiveIntensity: real,
    metalness: real,
    roughness: real)

  /** three.js's defaults for a `MeshStandardMaterial` built without options. */
  const StandardDefaults: Material := Material(White, Black, 1.0, 0.0, 1.0)
}
