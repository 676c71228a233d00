/**
 * The mouse's two RGB side strips: the same rainbow wave as the keyboard,
 * offset by half a radian per strip and written to both `color` and
 * `emissive`.
 */
module MouseStrips {
  import opened Optional
  import opened Rainbow

  /** Length of the material array the effect creates. */
  const StripCount: nat := 2
  /** Phase offset between consecutive strips. */
  const StripSpacing: real := 0.5

  /** Finish given to each material the effect creates. */
  const StripMaterial: Material :=
    StandardDefaults.(metalness := 0.3, roughness := 0.5, emissive := Black, emissiveIntensity := 0.5)

  datatype Side = Left | Right

  /** The slot each strip's material ref writes: left 0, right 1. */
  function Slot(s: Side): (i: nat)
    ensures i < StripCount
    ensures i == 0 <==> s == Left
  {
    match s
    case Left => 0
    case Right => 1
  }

  /** The two strips register into the two slots, one each. */
  lemma SlotsCoverArray(i: nat)
    requires i < StripCount
    ensures exists s :: Slot(s) == i
  {
    if i == 0 {
      assert Slot(Left) == i;
    } else {
      assert Slot(Right) == i;
    }
  }

  /** `getRainbowColor(i * 0.5)` at clock value `now`. */
  function StripColour(lib: Numerics, i: nat, now: int): Color {
    RainbowColor(lib, i as real * StripSpacing, now)
  }

  /** The material array after one frame: `getRainbowColor` reads
      `Date.now()` once per slot, so slot i is coloured at `clock[i]`; its
      `color` and `emissive` both get that one colour, every other field is kept. */
  function Recoloured(ms: seq<Material>, lib: Numerics, clock: seq<int>): (r: seq<Material>)
    requires |clock| == |ms|
    ensures |r| == |ms|
  {
    seq(|ms|, i requires 0 <= i < |ms| =>
      var c := StripColour(lib, i, clock[i]);
      ms[i].(color := c, emissive := c))
  }

  /** After a frame every strip glows in the colour it shows, and that colour
      is the strip's rainbow colour at the slot's reading. */
  lemma EmissiveFollowsColour(ms: seq<Material>, lib: Numerics, clock: seq<int>, i: nat)
    requires |clock| == |ms| && i < |ms|
    ensures Recoloured(ms, lib, clock)[i].emissive == Recoloured(ms, lib, clock)[i].color
    ensures Recoloured(ms, lib, clock)[i].color == StripColour(lib, i, clock[i])
  {
  }

  /** A frame writes only `color` and `emissive`: metalness, roughness and
      emissive intensity are kept. */
  lemma FrameKeepsFinish(ms: seq<Material>, lib: Numerics, clock: seq<int>, i: nat)
    requires |clock| == |ms| && i < |ms|
    ensures Recoloured(ms, lib, clock)[i].metalness == ms[i].metalness
    ensures Recoloured(ms, lib, clock)[i].roughness == ms[i].roughness
    ensures Recoloured(ms, lib, clock)[i].emissiveIntensity == ms[i].emissiveIntensity
  {
  }

  /** The right strip runs 625 ms (0.5 / 0.0008) ahead of the left one. */
  lemma RightStripLeads(lib: Numerics, now: int)
    ensures StripColour(lib, Slot(Right), now) == StripColour(lib, Slot(Left), now + 625)
  {
    TimeShift(lib, 0.0, 625, now);
    assert 0.0 + 625 as real * Speed == 1 as real * StripSpacing;
  }

  /** The mouse's `rgbMaterials` ref: one material per strip. */
  class RgbMaterials {
    var current: array<Material>

    ghost predicate Valid()
      reads this
    {
      current.Length == StripCount
    }

    /** The mount effect: two materials with metalness 0.3, roughness 0.5,
        black emissive and emissive intensity 0.5. */
    constructor ()
      ensures Valid() && fresh(current)
      ensures current[..] == [StripMaterial, StripMaterial]
    {
      current := new Material[StripCount](_ => StripMaterial);
    }

    /** Strip s's material ref callback: a non-null material is stored at `Slot(s)`. */
    method Register(s: Side, m: Option<Material>)
      requires Valid()
      modifies current
      ensures Valid()
      ensures m.Some? ==> current[..] == old(current[..])[Slot(s) := m.value]
      ensures m.None? ==> current[..] == old(current[..])
    {
      if m.Some? {
        current[Slot(s)] := m.value;
      }
    }

    /** One `useFrame` callback; `clock[i]` is what `Date.now()` returns
        when slot i is coloured. */
    method Tick(lib: Numerics, clock: seq<int>)
      requires Valid() && |clock| == current.Length
      modifies current
      ensures Valid()
      ensures current[..] == Recoloured(old(current[..]), lib, clock)
    {
      var i := 0;
      while i < current.Length
        invariant 0 <= i <= current.Length
        invariant forall j :: 0 <= j < i ==> current[j] == Recoloured(old(current[..]), lib, clock)[j]
        invariant forall j :: i <= j < current.Length ==> current[j] == old(current[j])
      {
        var color := RainbowColor(lib, i as real * StripSpacing, clock[i]);
        current[i] := current[i].(color := color, emissive := color);
        i := i + 1;
      }
    }
  }
}
