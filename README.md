# Desk tableau: colour wave, hover label and part placement

A model of the parts of the 3D desk scene with behaviour that can be stated exactly:

- **Keyboard** (`KeyLattice`): the 10 x 30 key lattice. Key (row, col) registers its material into slot `row*30 + col`. Every frame a loop decodes each slot back to `(i / 30, i % 30)` and overwrites that material's `color` with the rainbow wave. The wave spreads from key (5, 15).
- **Mouse** (`MouseStrips`): the two RGB side strips. They use the same wave with phase offset `i * 0.5`, written to both `color` and `emissive`.
- **Rainbow** (`Rainbow`): `getRainbowColor`, defined once for both components. `hue = sin(offset + now * 0.0008) * 0.5 + 0.5`, then HSL to RGB at saturation 1 and lightness 0.5.
- **Scene** (`Scene`): the hover label, a single nullable string written by `setActiveComponent`. Also the placement table of the five parts and the camera and orbit-control constants.
- **Transform** (`Transform`): the `scale` prop normalisation that every part component uses.

Both `rgbMaterials` refs are classes over an `array<Material>`. Their constructors are the mount effects, `Register` is a material ref callback and `Tick` is one `useFrame` callback. `Tick` is proved against the pure function `Recoloured`, and the lemmas state what a frame does to every slot. The hover state is a class with one field. Its handlers are proved against `Handle`, and lemmas about `Run` (a sequence of events) state the last-writer-wins behaviour.

`Math.sin`, `Math.sqrt` and `Color.setHSL` are library calls. They are fields of a `Numerics` record passed in, not axioms. Where a property needs `-1 <= sin(x) <= 1`, it is a hypothesis. `Date.now()` is read inside `getRainbowColor`, so once per slot. A frame therefore takes a sequence `clock` of integer millisecond readings, one per slot.

Pointer-out writes null unconditionally (src/lib/components/3d/Scene.tsx:35, 41, 47, 53). There is no check that the label names the part being left, so over Keyboard, over Mouse, out of Keyboard ends with no label (`StaleOutClears`, `StaleOutScenario`).

## Model

| member | source | states |
|---|---|---|
| Transform.Normalise | src/lib/components/3d/Keyboard.tsx:43 | a number `s` becomes the uniform triple `[s, s, s]`, a 3-tuple passes through unchanged; the result is uniform exactly when the prop was a number or an already-uniform tuple |
| Transform.GroupScale | src/lib/components/3d/Keyboard.tsx:16-43 | an omitted `scale` prop gives `[1, 1, 1]`; a given one is normalised |
| Transform.NormaliseIdempotent | src/lib/components/3d/Keyboard.tsx:43 | feeding a normalised triple back as a tuple prop changes nothing |
| Transform.NormaliseUniformInjective | src/lib/components/3d/Keyboard.tsx:43 | two numeric props give the same group scale exactly when they are equal |
| Rainbow.Hue | src/lib/components/3d/Keyboard.tsx:9-14 | the hue passed to `setHSL` (in both components) lies in [0, 1] whenever the sine does, and determines the sine value (`sin = 2*hue - 1`) |
| Rainbow.RainbowColor | src/lib/components/3d/Mouse.tsx:9-13 | `setHSL(hue, 1, 0.5)` of the hue at `offset + now * 0.0008`; `TimeShift` states that the clock enters only through that sum |
| Rainbow.TimeShift | src/lib/components/3d/Mouse.tsx:10-11 | the clock enters only through `offset + now * 0.0008`: adding `delta * 0.0008` to the offset equals reading the clock `delta` ms later |
| KeyLattice.Slot | src/lib/components/3d/Keyboard.tsx:72 | the slot `row*30 + col` a key registers into; `DecodeSlot` and `SlotInjective` state that it is a bijection from the board onto [0, 300) |
| KeyLattice.Decode | src/lib/components/3d/Keyboard.tsx:31-32 | decoding slot i gives the key that registers into slot i, and i < 300 exactly when that key has row < 10 and col < 30 |
| KeyLattice.DecodeSlot | src/lib/components/3d/Keyboard.tsx:72 | for row < 10 and col < 30, slot `row*30+col` is below 300 and decodes back to (row, col) |
| KeyLattice.SlotInjective | src/lib/components/3d/Keyboard.tsx:72 | two keys on the board share a slot exactly when they are the same key |
| KeyLattice.RowKeys | src/lib/components/3d/Keyboard.tsx:60 | the inner map renders columns 0 .. n-1 of its row, in order |
| KeyLattice.Grid | src/lib/components/3d/Keyboard.tsx:59-77 | the nested map renders n*30 keys, and the key at rendering position i is the key the frame loop decodes from slot i |
| KeyLattice.Keys | src/lib/components/3d/Keyboard.tsx:59-77 | all keys in rendering order; `RegistrationCoversSlots` states what they register |
| KeyLattice.RegistrationCoversSlots | src/lib/components/3d/Keyboard.tsx:59-74 | exactly 300 keys are rendered; the i-th is on the board and registers into slot i, so every slot is the target of exactly one key's registration |
| KeyLattice.SquaredDistance | src/lib/components/3d/Keyboard.tsx:33 | `(col-15)^2 + (row-5)^2`; `SquaredDistanceRange` bounds it and locates its zero |
| KeyLattice.Distance | src/lib/components/3d/Keyboard.tsx:33 | `sqrt` of the squared distance times 0.2; `EqualDistanceEqualColour` states that colour depends on the key only through the squared distance |
| KeyLattice.KeyColour | src/lib/components/3d/Keyboard.tsx:33-34 | the rainbow colour at the key's distance; the symmetry lemmas below are stated about it |
| KeyLattice.SlotColour | src/lib/components/3d/Keyboard.tsx:31-34 | the colour the loop computes for slot i from its decoded key; `FrameColoursEveryKey` ties it back to the key |
| KeyLattice.SquaredDistanceRange | src/lib/components/3d/Keyboard.tsx:33 | on the board `(col-15)^2 + (row-5)^2` lies in [0, 250], is 0 exactly at key (5, 15), and is 250 at key (0, 0) |
| KeyLattice.EqualDistanceEqualColour | src/lib/components/3d/Keyboard.tsx:33-35 | at any instant, keys at equal squared distance from (5, 15) show the same colour |
| KeyLattice.RowMirror | src/lib/components/3d/Keyboard.tsx:33-35 | for every key with row >= 1, reflecting it through row 5 gives a key on the board with the same colour |
| KeyLattice.ColMirror | src/lib/components/3d/Keyboard.tsx:33-35 | for every key with col >= 1, reflecting it through column 15 gives a key on the board with the same colour |
| KeyLattice.Instant | src/lib/components/3d/Keyboard.tsx:10 | the readings of a frame that falls within one millisecond: one reading per slot, all equal |
| KeyLattice.Recoloured | src/lib/components/3d/Keyboard.tsx:29-37 | the array after one frame, slot i coloured at reading `clock[i]`; it keeps the array's length, and the lemmas below state the rest |
| KeyLattice.FrameWritesOnlyColour | src/lib/components/3d/Keyboard.tsx:29-37 | a frame changes only `color` of each slot; emissive, emissive intensity, metalness and roughness are kept |
| KeyLattice.FrameColoursEveryKey | src/lib/components/3d/Keyboard.tsx:29-37 | after a frame on the 300-slot array, the slot of every key holds that key's colour at the reading taken for that slot |
| KeyLattice.InstantFrameIsRadial | src/lib/components/3d/Keyboard.tsx:29-37 | when all of a frame's readings fall in one millisecond, keys at equal distance from (5, 15) end the frame in the same colour |
| KeyLattice.FrameForgetsPast | src/lib/components/3d/Keyboard.tsx:29-37 | a frame's result does not depend on earlier frames: a frame with readings c1 then one with c2 equals the c2 frame alone |
| KeyLattice.KeyX | src/lib/components/3d/Keyboard.tsx:64 | a key's x centre `-1.8 + 0.12*col`; the layout lemmas below are stated about it |
| KeyLattice.KeyZ | src/lib/components/3d/Keyboard.tsx:66 | a key's z centre `-0.6 + 0.12*row`; the layout lemmas below are stated about it |
| KeyLattice.CentreKeyAtOrigin | src/lib/components/3d/Keyboard.tsx:63-67 | the wave's centre key (5, 15) sits at x = 0, z = 0, the centre of the key plate |
| KeyLattice.KeysDisjoint | src/lib/components/3d/Keyboard.tsx:63-69 | the 0.09 footprints of two distinct keys never overlap, as the pitch is 0.12 |
| KeyLattice.KeyInsidePlate | src/lib/components/3d/Keyboard.tsx:53-69 | every key's footprint lies inside the 3.8 x 1.3 key plate centred at the origin |
| KeyLattice.RgbMaterials.constructor | src/lib/components/3d/Keyboard.tsx:20-27 | the array holds 300 materials, each with metalness 0.3, roughness 0.5 and the library defaults otherwise |
| KeyLattice.RgbMaterials.Register | src/lib/components/3d/Keyboard.tsx:70-74 | a non-null material is stored at slot `row*30+col` and nothing else changes; null changes nothing |
| KeyLattice.RgbMaterials.Tick | src/lib/components/3d/Keyboard.tsx:29-37 | the new array is `Recoloured` of the old one: each slot keeps every field except `color`, which becomes the colour of the key decoded from its index at that slot's clock reading |
| MouseStrips.Slot | src/lib/components/3d/Mouse.tsx:58-69 | each strip's slot is below 2, and slot 0 belongs to the left strip exactly |
| MouseStrips.SlotsCoverArray | src/lib/components/3d/Mouse.tsx:58-69 | both slots 0 and 1 are registered by some strip |
| MouseStrips.StripColour | src/lib/components/3d/Mouse.tsx:32 | `getRainbowColor(i * 0.5)`; `RightStripLeads` relates the two strips' colours |
| MouseStrips.Recoloured | src/lib/components/3d/Mouse.tsx:30-36 | the array after one frame, slot i coloured at reading `clock[i]`; it keeps the array's length, and the lemmas below state the rest |
| MouseStrips.EmissiveFollowsColour | src/lib/components/3d/Mouse.tsx:30-36 | after a frame slot i shows `rainbow(i * 0.5)` at its reading, and its emissive equals its colour |
| MouseStrips.FrameKeepsFinish | src/lib/components/3d/Mouse.tsx:30-36 | a frame keeps metalness, roughness and emissive intensity of every slot |
| MouseStrips.RightStripLeads | src/lib/components/3d/Mouse.tsx:10-32 | strip 1 at time now shows what strip 0 shows 625 ms (0.5 / 0.0008) later |
| MouseStrips.RgbMaterials.constructor | src/lib/components/3d/Mouse.tsx:19-28 | exactly two materials, each with metalness 0.3, roughness 0.5, black emissive and emissive intensity 0.5 |
| MouseStrips.RgbMaterials.Register | src/lib/components/3d/Mouse.tsx:58-69 | a non-null material of the left strip goes to slot 0, of the right strip to slot 1; null changes nothing |
| MouseStrips.RgbMaterials.Tick | src/lib/components/3d/Mouse.tsx:30-36 | the new array is `Recoloured` of the old: `color` and `emissive` of slot i both become `rainbow(i * 0.5)` at that slot's clock reading, all else kept |
| Scene.Name | src/lib/components/3d/Scene.tsx:31-54 | the name a hoverable part writes is one of Monitor, Tower, Keyboard, Mouse |
| Scene.NameInjective | src/lib/components/3d/Scene.tsx:31-54 | distinct parts write distinct names |
| Scene.Handle | src/lib/components/3d/Scene.tsx:27-54 | one event keeps the label none or a hover name, and only events on a part with handlers can change it |
| Scene.OverWritesName | src/lib/components/3d/Scene.tsx:34 | pointer-over on a hoverable part sets the label to that part's exact name, overwriting any earlier label |
| Scene.OutClearsUnconditionally | src/lib/components/3d/Scene.tsx:35 | pointer-out from any hoverable part clears the label, whatever it names |
| Scene.Run | src/lib/components/3d/Scene.tsx:31-54 | the label after a sequence of pointer events handled in delivery order; the three lemmas below state what it keeps and what decides it |
| Scene.RunKeepsActiveOk | src/lib/components/3d/Scene.tsx:34-53 | invariant: after any sequence of events the label is none or one of the four hover names |
| Scene.DeskEventsChangeNothing | src/lib/components/3d/Scene.tsx:27-30 | events on the desk, which has no handlers, never change the label |
| Scene.LastHandledEventDecides | src/lib/components/3d/Scene.tsx:31-54 | last writer wins: the last event on a hoverable part decides the label, whatever came before |
| Scene.StaleOutClears | src/lib/components/3d/Scene.tsx:46-53 | over Keyboard, over Mouse, out of Keyboard leaves no label, not "Mouse" |
| Scene.ActiveComponent.constructor | src/App.tsx:10 | the label starts as none |
| Scene.ActiveComponent.PointerOver | src/lib/components/3d/Scene.tsx:34 | the new label is what `Handle` gives for pointer-over on that part |
| Scene.ActiveComponent.PointerOut | src/lib/components/3d/Scene.tsx:35 | the new label is what `Handle` gives for pointer-out from that part |
| Scene.StaleOutScenario | src/lib/components/3d/Scene.tsx:43-54 | driving the state cell through over Keyboard, over Mouse, out of Keyboard ends with no label |
| Scene.IndexOf | src/lib/components/3d/Scene.tsx:27-54 | every part has a row in the placement table |
| Scene.PlacementTableWellFormed | src/lib/components/3d/Scene.tsx:27-54 | the table has five rows, no part twice, every scale uniform; per part its position and group scale: Desk (0, -1, 0) scale 1, Monitor (0, -0.9, -1.8) 0.5, Tower (2.5, 0.05, -1.5) 0.5, Keyboard (0, -0.9, -0.8) 0.5, Mouse (1.5, -0.9, -0.8) 0.2 |
| Scene.SceneControlsWellFormed | src/lib/components/3d/Scene.tsx:59-68 | polar bounds pi/6 < pi/2 within [0, pi], distance bounds 0 < 2 < 4, and rotate, pan and zoom all enabled |
| Scene.CameraStartsInsideMinDistance | src/lib/components/3d/Scene.tsx:18-64 | the camera starts at squared distance 3.9817 from the orbit target, inside the minimum distance 2 |

## Left out

- `Math.sin`, `Math.sqrt` and `Color.setHSL` are library calls and floating point. They are uninterpreted function fields of `Numerics`, and reals are exact. Rounding is not modelled, and neither is any property of sine beyond the [-1, 1] bound taken as a hypothesis.
- The wave's periodicity in time (period 2*pi / 0.0008) is left out. It is a property of `Math.sin`, and with an integer millisecond clock that period is never reached exactly.
- `Date.now()` is read once per slot. Its readings are the parameter `clock`, and the clock itself is not modelled. No ordering between the readings of one frame is assumed.
- HSL to RGB conversion is abstract, so no bound on the RGB channels is stated.
- React's lifecycle order is not modelled. The mount effect (src/lib/components/3d/Keyboard.tsx:20-27) replaces the array after ref callbacks may already have filled it. The model treats the constructor as the effect and `Register` as a ref callback, callable in any order. Every slot is the target of exactly one key's registration (`RegistrationCoversSlots`).
- The mouse frame writes one `Color` object into both `color` and `emissive`, so the two fields alias. The model keeps values, so `color == emissive` holds but the sharing of one object does not appear.
- `MeshStandardMaterial`'s defaults (white colour, black emissive, emissive intensity 1, metalness 0, roughness 1) come from three.js. They are written as the constant `StandardDefaults`.
- Orbit-control clamping happens inside the drei/three library and is not modelled. Only the configured constants are stated. The orbit target is assumed to be the library default, the origin. `CameraStartsInsideMinDistance` shows that the camera starts inside the minimum distance.
- The scene group's own transform (position [0, 0, 1], half turn about y) and the world positions it gives the parts are not modelled. Only the per-part table is.
- `Suspense fallback={null}` is the only loading gate. No resource loader or progress value exists in the code, so there is nothing to model.
- Lights, shadows, `Environment`, `Canvas` and all geometry other than the key lattice and plate are presentation only.
- Desk.tsx, Tower.tsx, Monitor.tsx and Speakers.tsx hold only constant geometry and the same scale normalisation. Speakers is not used in the scene.
- The App overlay, the modal and the Controls toolbar are UI that only reads the label or styles buttons.
