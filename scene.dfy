/**
 * The scene: which part the pointer is over (the single nullable label
 * owned by the app and written through `setActiveComponent`), where each
 * part is placed, and the camera and orbit-control constants.
 */
module Scene {
  import opened Optional
  import opened Transform

  datatype Part = Desk | Monitor | Tower | Keyboard | Mouse

  /** The parts that carry pointer handlers; the desk has none. */
  predicate Hoverable(p: Part) {
    p != Desk
  }

  /** The labels the handlers write. */
  const HoverNames: set<string> := {"Monitor", "Tower", "Keyboard", "Mouse"}

  function Name(p: Part): (s: string)
    ensures Hoverable(p) ==> s in HoverNames
  {
    match p
    case Desk => "Desk"
    case Monitor => "Monitor"
    case Tower => "Tower"
    case Keyboard => "Keyboard"
    case Mouse => "Mouse"
  }

  /** Distinct parts have distinct names, so a label identifies its part. */
  lemma NameInjective(p: Part, q: Part)
    ensures Name(p) == Name(q) <==> p == q
  {
  }

  /** The invariant of the label: none, or one of the four hover names. */
  predicate ActiveOk(active: Option<string>) {
    active.None? || active.value in HoverNames
  }

  /** A pointer event on a part. */
  datatype Pointer = Over(part: Part) | Out(part: Part)

  /** The label after one event: pointer-over a hoverable part writes its
      name, pointer-out from a hoverable part writes null whatever the label
      was, and events on the desk reach no handler. */
  function Handle(active: Option<string>, e: Pointer): (r: Option<string>)
    ensures ActiveOk(active) ==> ActiveOk(r)
    ensures r != active ==> Hoverable(e.part)
  {
    if !Hoverable(e.part) then active
    else if e.Over? then Some(Name(e.part))
    else None
  }

  /** Pointer-over on a hoverable part overwrites any previous label with that part's name. */
  lemma OverWritesName(active: Option<string>, p: Part)
    requires Hoverable(p)
    ensures Handle(active, Over(p)) == Some(Name(p))
    ensures Handle(active, Over(p)).value in HoverNames
  {
  }

  /** Pointer-out from any hoverable part clears the label, whichever part it names. */
  lemma OutClearsUnconditionally(active: Option<string>, p: Part)
    requires Hoverable(p)
    ensures Handle(active, Out(p)).None?
  {
  }

  /** The label after a sequence of events, delivered in order. */
  function Run(active: Option<string>, es: seq<Pointer>): Option<string>
    decreases |es|
  {
    if es == [] then active else Run(Handle(active, es[0]), es[1..])
  }

  /** Every sequence of events keeps the label none or a hover name. */
  lemma {:induction false} RunKeepsActiveOk(active: Option<string>, es: seq<Pointer>)
    requires ActiveOk(active)
    ensures ActiveOk(Run(active, es))
    decreases |es|
  {
    if es != [] {
      RunKeepsActiveOk(Handle(active, es[0]), es[1..]);
    }
  }

  /** Events on the desk alone never change the label. */
  lemma {:induction false} DeskEventsChangeNothing(active: Option<string>, es: seq<Pointer>)
    requires forall j :: 0 <= j < |es| ==> !Hoverable(es[j].part)
    ensures Run(active, es) == active
    decreases |es|
  {
    if es != [] {
      DeskEventsChangeNothing(Handle(active, es[0]), es[1..]);
    }
  }

  /** Last writer wins: the last event on a hoverable part alone decides the
      label, whatever came before it. */
  lemma {:induction false} LastHandledEventDecides(active: Option<string>, es: seq<Pointer>, i: nat)
    requires i < |es| && Hoverable(es[i].part)
    requires forall j :: i < j < |es| ==> !Hoverable(es[j].part)
    ensures Run(active, es) == (if es[i].Over? then Some(Name(es[i].part)) else None)
    decreases |es|
  {
    if i == 0 {
      DeskEventsChangeNothing(Handle(active, es[0]), es[1..]);
    } else {
      LastHandledEventDecides(Handle(active, es[0]), es[1..], i - 1);
    }
  }

  /** Over the keyboard, over the mouse, then out of the keyboard: the late
      pointer-out still clears the label the mouse wrote. */
  lemma StaleOutClears()
    ensures Run(None, [Over(Keyboard), Over(Mouse), Out(Keyboard)]) == None
  {
  }

  /** The app's `activeComponent` state cell. */
  class ActiveComponent {
    var active: Option<string>

    /** `useState<string | null>(null)`. */
    constructor ()
      ensures active == None
    {
      active := None;
    }

    /** The `onPointerOver` handler of part p, if it has one. */
    method PointerOver(p: Part)
      modifies this
      ensures active == Handle(old(active), Over(p))
    {
      if Hoverable(p) {
        active := Some(Name(p));
      }
    }

    /** The `onPointerOut` handler of part p, if it has one. */
    method PointerOut(p: Part)
      modifies this
      ensures active == Handle(old(active), Out(p))
    {
      if Hoverable(p) {
        active := None;
      }
    }
  }

  /** The stale-leave sequence driven through the state cell itself. */
  method StaleOutScenario() returns (final: Option<string>)
    ensures final == None
  {
    var cell := new ActiveComponent();
    cell.PointerOver(Keyboard);
    cell.PointerOver(Mouse);
    assert cell.active == Some("Mouse");
    cell.PointerOut(Keyboard);
    final := cell.active;
  }

  /** A part's position and `scale` prop inside the scene group. */
  datatype Placement = Placement(part: Part, position: Vec3, scale: Scale)

  const Placements: seq<Placement> := [
    Placement(Desk, Vec3(0.0, -1.0, 0.0), Uniform(1.0)),
    Placement(Monitor, Vec3(0.0, -0.9, -1.8), Uniform(0.5)),
    Placement(Tower, Vec3(2.5, 0.05, -1.5), Uniform(0.5)),
    Placement(Keyboard, Vec3(0.0, -0.9, -0.8), Uniform(0.5)),
    Placement(Mouse, Vec3(1.5, -0.9, -0.8), Uniform(0.2))
  ]

  /** Where part p's row sits in the table. */
  function IndexOf(p: Part): (i: nat)
    ensures i < |Placements| && Placements[i].part == p
  {
    match p
    case Desk => 0
    case Monitor => 1
    case Tower => 2
    case Keyboard => 3
    case Mouse => 4
  }

  /** The table places each of the five parts exactly once, at its position
      and with a uniform scale (the same factor on every axis of its group). */
  lemma PlacementTableWellFormed()
    ensures |Placements| == 5
    ensures forall i, j :: 0 <= i < j < |Placements| ==> Placements[i].part != Placements[j].part
    ensures forall i :: 0 <= i < |Placements| ==>
      Placements[i].scale.Uniform? && IsUniform(Normalise(Placements[i].scale))
    ensures Placements[IndexOf(Desk)].position == Vec3(0.0, -1.0, 0.0)
    ensures Normalise(Placements[IndexOf(Desk)].scale) == Vec3(1.0, 1.0, 1.0)
    ensures Placements[IndexOf(Monitor)].position == Vec3(0.0, -0.9, -1.8)
    ensures Normalise(Placements[IndexOf(Monitor)].scale) == Vec3(0.5, 0.5, 0.5)
    ensures Placements[IndexOf(Tower)].position == Vec3(2.5, 0.05, -1.5)
    ensures Normalise(Placements[IndexOf(Tower)].scale) == Vec3(0.5, 0.5, 0.5)
    ensures Placements[IndexOf(Keyboard)].position == Vec3(0.0, -0.9, -0.8)
    ensures Normalise(Placements[IndexOf(Keyboard)].scale) == Vec3(0.5, 0.5, 0.5)
    ensures Placements[IndexOf(Mouse)].position == Vec3(1.5, -0.9, -0.8)
    ensures Normalise(Placements[IndexOf(Mouse)].scale) == Vec3(0.2, 0.2, 0.2)
  {
  }

  /** Orbit-control settings; polar angles are in multiples of pi. */
  datatype OrbitControls = OrbitControls(
    enabled: bool,
    minPolarAngle: real,
    maxPolarAngle: real,
    minDistance: real,
    maxDistance: real,
    enablePan: bool,
    enableZoom: bool,
    enableRotate: bool)

  /** Polar angle in [pi/6, pi/2], distance in [2, 4], all three gestures on. */
  const SceneControls: OrbitControls := OrbitControls(true, 1.0 / 6.0, 1.0 / 2.0, 2.0, 4.0, true, true, true)

  /** Bounds a clamp can honour: a non-empty polar range within [0, pi] and a
      non-empty positive distance range. */
  predicate WellFormed(c: OrbitControls) {
    0.0 <= c.minPolarAngle < c.maxPolarAngle <= 1.0 && 0.0 < c.minDistance < c.maxDistance
  }

  /** The "free explore" mode: controls on and rotate, pan and zoom all enabled. */
  predicate FreeExplore(c: OrbitControls) {
    c.enabled && c.enableRotate && c.enablePan && c.enableZoom
  }

  lemma SceneControlsWellFormed()
    ensures WellFormed(SceneControls)
    ensures FreeExplore(SceneControls)
  {
  }

  /** The default camera: its position, and its vertical field of view in degrees. */
  datatype PerspectiveCamera = PerspectiveCamera(position: Vec3, fov: real)

  const SceneCamera: PerspectiveCamera := PerspectiveCamera(Vec3(0.64, 0.0, -1.89), 45.0)

  function SquaredLength(v: Vec3): real {
    v.x * v.x + v.y * v.y + v.z * v.z
  }

  /** The camera starts 3.9817 squared units from the orbit target at the
      origin, just inside the minimum distance 2, so the first clamp of the
      orbit controls moves it outwards. */
  lemma CameraStartsInsideMinDistance()
    ensures SquaredLength(SceneCamera.position) == 3.9817
    ensures SquaredLength(SceneCamera.position) < SceneControls.minDistance * SceneControls.minDistance
  {
  }
}
