/**
 * The keyboard's 10 x 30 key lattice: where each key sits, which material
 * slot it registers into, and the per-frame loop that recolours all 300
 * slots with the rainbow wave centred on key (row 5, col 15).
 */
module KeyLattice {
  import opened Optional
  import opened Rainbow

  const Rows: nat := 10
  const Cols: nat := 30
  /** Length of the material array the effect creates. */
  const SlotCount: nat := 300

  /** The lattice point the wave spreads from. */
  const CentreRow: int := 5
  const CentreCol: int := 15
  /** Scale from lattice distance to phase offset. */
  const DistanceScale: real := 0.2

  /** Key layout, in keyboard-group units. */
  const Pitch: real := 0.12
  const KeySize: real := 0.09
  const OriginX: real := -1.8
  const OriginZ: real := -0.6
  /** The key plate (`Key Area` box) is centred on the group origin. */
  const PlateWidth: real := 3.8
  const PlateDepth: real := 1.3

  /** Finish given to each material the effect creates. */
  const KeyMaterial: Material := StandardDefaults.(metalness := 0.3, roughness := 0.5)

  datatype Key = Key(row: nat, col: nat)

  predicate OnBoard(k: Key) {
    k.row < Rows && k.col < Cols
  }

  /** The slot a key's material ref writes: `row * 30 + col`. */
  function Slot(k: Key): nat {
    k.row * Cols + k.col
  }

  /** The frame loop's decoding of slot `i`: `row = floor(i / 30)`, `col = i % 30`. */
  function Decode(i: nat): (k: Key)
    ensures Slot(k) == i
    ensures i < SlotCount <==> OnBoard(k)
  {
    Key(i / Cols, i % Cols)
  }

  /** Decoding inverts registration on the board. */
  lemma DecodeSlot(k: Key)
    requires OnBoard(k)
    ensures Decode(Slot(k)) == k
    ensures Slot(k) < SlotCount
  {
  }

  /** Different keys register into different slots. */
  lemma SlotInjective(k1: Key, k2: Key)
    requires OnBoard(k1) && OnBoard(k2)
    ensures Slot(k1) == Slot(k2) <==> k1 == k2
  {
    DecodeSlot(k1);
    DecodeSlot(k2);
  }

  /** The keys one inner `map` renders for `row`: columns 0 .. n-1 in order. */
  function RowKeys(row: nat, n: nat): (r: seq<Key>)
    ensures |r| == n
    ensures forall c :: 0 <= c < n ==> r[c] == Key(row, c)
  {
    if n == 0 then [] else RowKeys(row, n - 1) + [Key(row, n - 1)]
  }

  /** The keys the nested `map` renders for rows 0 .. n-1, in rendering order:
      the key at position i is the one the frame loop decodes from slot i. */
  function Grid(n: nat): (r: seq<Key>)
    ensures |r| == n * Cols
    ensures forall i :: 0 <= i < |r| ==> r[i] == Decode(i)
  {
    if n == 0 then []
    else
      var prefix, last := Grid(n - 1), RowKeys(n - 1, Cols);
      assert forall i :: (n - 1) * Cols <= i < n * Cols ==>
        i / Cols == n - 1 && i % Cols == i - (n - 1) * Cols;
      prefix + last
  }

  /** All rendered keys. */
  function Keys(): seq<Key> {
    Grid(Rows)
  }

  /** Rendering registers every slot exactly once: the i-th rendered key is
      on the board and writes slot i, and there are exactly 300 keys. */
  lemma RegistrationCoversSlots()
    ensures |Keys()| == SlotCount
    ensures forall i :: 0 <= i < SlotCount ==> OnBoard(Keys()[i]) && Slot(Keys()[i]) == i
  {
  }

  /** `(col - 15)^2 + (row - 5)^2`, the radicand of the key's lattice distance. */
  function SquaredDistance(k: Key): int {
    (k.col - CentreCol) * (k.col - CentreCol) + (k.row - CentreRow) * (k.row - CentreRow)
  }

  lemma SquareBound(x: int, bound: int)
    requires 0 <= bound && -bound <= x <= bound
    ensures 0 <= x * x <= bound * bound
  {
    var y := if x < 0 then -x else x;
    assert x * x == y * y;
    assert y * y <= y * bound <= bound * bound;
  }

  /** On the board the squared distance is between 0 and 250, is 0 only at
      the centre key, and reaches 250 at the corner key (0, 0). */
  lemma SquaredDistanceRange(k: Key)
    requires OnBoard(k)
    ensures 0 <= SquaredDistance(k) <= 250
    ensures SquaredDistance(k) == 0 <==> k == Key(5, 15)
    ensures SquaredDistance(Key(0, 0)) == 250
  {
    SquareBound(k.col - CentreCol, 15);
    SquareBound(k.row - CentreRow, 5);
    if k != Key(5, 15) {
      if k.col != 15 {
        assert (k.col - CentreCol) * (k.col - CentreCol) > 0;
      } else {
        assert (k.row - CentreRow) * (k.row - CentreRow) > 0;
      }
    }
  }

  /** `sqrt((col - 15)^2 + (row - 5)^2) * 0.2`. */
  function Distance(lib: Numerics, k: Key): real {
    lib.sqrt(SquaredDistance(k) as real) * DistanceScale
  }

  /** The colour key `k` shows at clock value `now`. */
  function KeyColour(lib: Numerics, k: Key, now: int): Color {
    RainbowColor(lib, Distance(lib, k), now)
  }

  /** The colour the frame loop writes into slot i. */
  function SlotColour(lib: Numerics, i: nat, now: int): Color {
    KeyColour(lib, Decode(i), now)
  }

  /** The wave is radial: keys at equal squared distance from the centre
      show the same colour at every instant. */
  lemma EqualDistanceEqualColour(lib: Numerics, k1: Key, k2: Key, now: int)
    requires SquaredDistance(k1) == SquaredDistance(k2)
    ensures KeyColour(lib, k1, now) == KeyColour(lib, k2, now)
  {
  }

  /** Mirroring a key through the centre row keeps its colour. */
  lemma RowMirror(lib: Numerics, k: Key, now: int)
    requires OnBoard(k) && 1 <= k.row
    ensures OnBoard(Key(10 - k.row, k.col))
    ensures KeyColour(lib, Key(10 - k.row, k.col), now) == KeyColour(lib, k, now)
  {
    assert SquaredDistance(Key(10 - k.row, k.col)) == SquaredDistance(k);
  }

  /** Mirroring a key through the centre column keeps its colour. */
  lemma ColMirror(lib: Numerics, k: Key, now: int)
    requires OnBoard(k) && 1 <= k.col
    ensures OnBoard(Key(k.row, 30 - k.col))
    ensures KeyColour(lib, Key(k.row, 30 - k.col), now) == KeyColour(lib, k, now)
  {
    assert SquaredDistance(Key(k.row, 30 - k.col)) == SquaredDistance(k);
  }

  /** The clock readings of one frame: `getRainbowColor` reads `Date.now()`
      once per slot, so slot i is coloured at `clock[i]`. */
  predicate ReadingsFor(ms: seq<Material>, clock: seq<int>) {
    |clock| == |ms|
  }

  /** A frame all of whose readings fall in the same millisecond `now`. */
  function Instant(n: nat, now: int): (clock: seq<int>)
    ensures |clock| == n
    ensures forall i :: 0 <= i < n ==> clock[i] == now
  {
    seq(n, _ => now)
  }

  /** The material array after one frame: each slot's `color` replaced by its
      slot colour at that slot's clock reading, every other field kept. */
  function Recoloured(ms: seq<Material>, lib: Numerics, clock: seq<int>): (r: seq<Material>)
    requires ReadingsFor(ms, clock)
    ensures |r| == |ms|
  {
    seq(|ms|, i requires 0 <= i < |ms| => ms[i].(color := SlotColour(lib, i, clock[i])))
  }

  /** A frame writes only `color`: emissive, emissive intensity, metalness and
      roughness of every slot are as before. */
  lemma FrameWritesOnlyColour(ms: seq<Material>, lib: Numerics, clock: seq<int>, i: nat)
    requires ReadingsFor(ms, clock) && i < |ms|
    ensures Recoloured(ms, lib, clock)[i] == ms[i].(color := Recoloured(ms, lib, clock)[i].color)
  {
  }

  /** After a frame on the 300-slot array, key k's slot shows key k's colour
      at the reading taken for that slot. */
  lemma FrameColoursEveryKey(ms: seq<Material>, lib: Numerics, clock: seq<int>, k: Key)
    requires |ms| == SlotCount && ReadingsFor(ms, clock) && OnBoard(k)
    ensures Recoloured(ms, lib, clock)[Slot(k)].color == KeyColour(lib, k, clock[Slot(k)])
  {
    DecodeSlot(k);
  }

  /** When every reading of a frame falls in one millisecond, keys at equal
      distance from the centre end the frame in the same colour. */
  lemma InstantFrameIsRadial(ms: seq<Material>, lib: Numerics, now: int, k1: Key, k2: Key)
    requires |ms| == SlotCount && OnBoard(k1) && OnBoard(k2)
    requires SquaredDistance(k1) == SquaredDistance(k2)
    ensures Recoloured(ms, lib, Instant(SlotCount, now))[Slot(k1)].color
         == Recoloured(ms, lib, Instant(SlotCount, now))[Slot(k2)].color
  {
    FrameColoursEveryKey(ms, lib, Instant(SlotCount, now), k1);
    FrameColoursEveryKey(ms, lib, Instant(SlotCount, now), k2);
  }

  /** No hidden accumulator: a frame's output does not depend on the frames
      before it, so skipped frames never desynchronise the wave. */
  lemma FrameForgetsPast(ms: seq<Material>, lib: Numerics, c1: seq<int>, c2: seq<int>)
    requires ReadingsFor(ms, c1) && ReadingsFor(ms, c2)
    ensures Recoloured(Recoloured(ms, lib, c1), lib, c2) == Recoloured(ms, lib, c2)
  {
  }

  /** Centre of key k in the group's x/z plane. */
  function KeyX(k: Key): real {
    OriginX + Pitch * k.col as real
  }

  function KeyZ(k: Key): real {
    OriginZ + Pitch * k.row as real
  }

  /** The wave's centre key sits at the group origin, the centre of the plate. */
  lemma CentreKeyAtOrigin()
    ensures KeyX(Key(5, 15)) == 0.0 && KeyZ(Key(5, 15)) == 0.0
  {
  }

  function Abs(x: real): real {
    if x < 0.0 then -x else x
  }

  /** Two keys' square footprints overlap. */
  predicate Overlap(k1: Key, k2: Key) {
    Abs(KeyX(k1) - KeyX(k2)) < KeySize && Abs(KeyZ(k1) - KeyZ(k2)) < KeySize
  }

  /** Distinct keys never overlap, because the pitch 0.12 exceeds the key size 0.09. */
  lemma KeysDisjoint(k1: Key, k2: Key)
    requires k1 != k2
    ensures !Overlap(k1, k2)
  {
    if k1.col != k2.col {
      var d := k1.col as real - k2.col as real;
      assert Abs(d) >= 1.0;
      assert KeyX(k1) - KeyX(k2) == Pitch * d;
    } else {
      var d := k1.row as real - k2.row as real;
      assert Abs(d) >= 1.0;
      assert KeyZ(k1) - KeyZ(k2) == Pitch * d;
    }
  }

  /** Every key's footprint lies inside the 3.8 x 1.3 key plate. */
  lemma KeyInsidePlate(k: Key)
    requires OnBoard(k)
    ensures -PlateWidth / 2.0 <= KeyX(k) - KeySize / 2.0
    ensures KeyX(k) + KeySize / 2.0 <= PlateWidth / 2.0
    ensures -PlateDepth / 2.0 <= KeyZ(k) - KeySize / 2.0
    ensures KeyZ(k) + KeySize / 2.0 <= PlateDepth / 2.0
  {
  }

  /** The keyboard's `rgbMaterials` ref: one material per key slot. */
  class RgbMaterials {
    var current: array<Material>

    ghost predicate Valid()
      reads this
    {
      current.Length == SlotCount
    }

    /** The mount effect: 300 fresh materials with metalness 0.3 and roughness 0.5. */
    constructor ()
      ensures Valid() && fresh(current)
      ensures forall i :: 0 <= i < SlotCount ==> current[i] == KeyMaterial
    {
      current := new Material[SlotCount](_ => KeyMaterial);
    }

    /** Key k's material ref callback: a non-null material is stored at `Slot(k)`. */
    method Register(k: Key, m: Option<Material>)
      requires Valid() && OnBoard(k)
      modifies current
      ensures Valid()
      ensures m.Some? ==> current[..] == old(current[..])[Slot(k) := m.value]
      ensures m.None? ==> current[..] == old(current[..])
    {
      if m.Some? {
        current[k.row * Cols + k.col] := m.value;
      }
    }

    /** One `useFrame` callback; `clock[i]` is what `Date.now()` returns
        when slot i is coloured. */
    method Tick(lib: Numerics, clock: seq<int>)
      requires Valid() && |clock| == current.Length
      modifies current
      ensures Valid()
      ensures current[..] == Recoloured(old(current[..]), lib, clock)
    {
      var i := 0;
      while i < current.Length
        invariant 0 <= i <= current.Length
        invariant forall j :: 0 <= j < i ==> current[j] == old(current[j]).(color := SlotColour(lib, j, clock[j]))
        invariant forall j :: i <= j < current.Length ==> current[j] == old(current[j])
      {
        var row := i / Cols;
        var col := i % Cols;
        var distance := lib.sqrt(((col - CentreCol) * (col - CentreCol) + (row - CentreRow) * (row - CentreRow)) as real) * DistanceScale;
        current[i] := current[i].(color := RainbowColor(lib, distance, clock[i]));
        i := i + 1;
      }
    }
  }
}
