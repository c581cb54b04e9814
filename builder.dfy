/**
 * The weapon builder component of the plugin: it spawns the base
 * attachments, walks the attachment graph breadth first, spawns the
 * children each link declares, places rail-mounted children by sweeping
 * the rail, attaches the others to the socket named after their category,
 * destroys children that cannot be placed, and registers what it placed.
 *
 * Actors live in an arena `world` keyed by integer handles.  What only the
 * engine knows (whether a spawn succeeds, which sockets a mesh has, whether
 * a box overlaps anything, the spline's length and slot mapping) is a field
 * of an `Engine` value, fixed for the duration of a call.
 */
module WeaponBuilder {
  import opened AttachmentTypes
  import opened Uint64
  import opened RailSlots
  import opened ActorGraph

  /** The rail part of an actor that is an `ARailAttachment`. */
  datatype RailState = RailState(numSlots: Int32, occupancyMask: U64, mounted: set<Handle>)

  /** Where an actor's mesh hangs: under the weapon's root component
   *  (`parent == Nothing`) or under a parent's mesh at a socket, with the
   *  transform last applied to it. */
  datatype AttachPoint = AttachPoint(parent: Option<MeshRef>, socket: Option<string>, transform: Transform)

  /** An `AAttachment` actor: its class, info row, whether it has a mesh
   *  component, its links, its rail position and size, its rail state when
   *  it is a rail, where its mesh is attached, and whether it was destroyed. */
  datatype Actor = Actor(
    cls: ClassId,
    info: AttachmentInfo,
    hasMesh: bool,
    links: seq<Link>,
    startPosition: Int32,
    size: Int32,
    rail: Option<RailState>,
    mount: Option<AttachPoint>,
    destroyed: bool)

  /** The engine's answers. */
  datatype Engine = Engine(
    /** `GetOwner() && GetOwner()->HasAuthority()` */
    hasAuthority: bool,
    /** `Weapon && Weapon->GetRoot()` */
    weaponRoot: bool,
    /** The defaults of an actor of a class, with its info row loaded. */
    template: ClassId -> Actor,
    /** Whether `SpawnActor` of a class succeeds when the next free handle is the second argument. */
    spawnSucceeds: (ClassId, Handle) -> bool,
    /** `DoesSocketExist` on an actor's mesh. */
    socketExists: (Handle, string) -> bool,
    /** `GetSplineLength` of a rail. */
    splineLength: Handle -> real,
    /** `GetSlotFromDistance` of a rail. */
    slotFromDistance: (Handle, real) -> Int32,
    /** `DoesCollideWithRail` for a child with a mesh at a distance along a rail. */
    overlaps: (Handle, Handle, real) -> bool)

  /** Rails have at most 64 slots (one bit each in the mask) and a mesh. */
  ghost predicate RailFits(a: Actor)
  {
    a.rail.Some? ==> a.rail.value.numSlots <= 64 && a.hasMesh
  }

  /** Every class the engine can spawn yields a fitting rail, if a rail. */
  ghost predicate WellFormed(engine: Engine)
  {
    forall c :: RailFits(engine.template(c))
  }

  /** A link as it is on a new actor: no live instances yet. */
  function FreshLink(l: Link): Link
  {
    l.(childInstances := [])
  }

  /** The actor a successful spawn of class `c` yields: the class's
   *  defaults, links without instances, an empty rail, not attached. */
  function Spawned(engine: Engine, c: ClassId): (a: Actor)
    ensures forall j :: 0 <= j < |a.links| ==> a.links[j].childInstances == []
    ensures WellFormed(engine) ==> RailFits(a)
  {
    var t := engine.template(c);
    Actor(c, t.info, t.hasMesh, seq(|t.links|, j requires 0 <= j < |t.links| => FreshLink(t.links[j])),
          t.startPosition, t.size,
          if t.rail.Some? then Some(RailState(t.rail.value.numSlots, 0, {})) else Nothing,
          Nothing, false)
  }

  /** The live children of an actor's links. */
  ghost function ChildSet(links: seq<Link>): set<Handle>
  {
    set j, k | 0 <= j < |links| && 0 <= k < |links[j].childInstances| && links[j].childInstances[k].Some?
             :: links[j].childInstances[k].value
  }

  /** The attachment graph of a world. */
  ghost function Graph(world: map<Handle, Actor>): Succ
  {
    map h | h in world :: ChildSet(world[h].links)
  }

  /** Handles below `next` are taken; live children are actors of the
   *  world; rails fit. */
  ghost predicate WorldOk(world: map<Handle, Actor>, next: Handle)
  {
    (forall h :: h in world ==> h < next)
    && (forall h :: h in world ==> ChildSet(world[h].links) <= world.Keys)
    && (forall h :: h in world ==> RailFits(world[h]))
  }

  ghost predicate Distinct(s: seq<Handle>)
  {
    forall i, j :: 0 <= i < j < |s| ==> s[i] != s[j]
  }

  // ---------------------------------------------------------------------
  // The rail sweep.

  const Step: real := 2.5

  /** The `k`-th distance the sweep tries. */
  function Distance(k: nat): real
  {
    k as real * Step
  }

  /** How many distances `0, 2.5, 5, ...` do not exceed `len`. */
  function SweepSteps(len: real): nat
  {
    if len < 0.0 then 0 else (len / Step).Floor + 1
  }

  /** The sweep tries exactly the first `SweepSteps(len)` distances. */
  lemma SweepStepsExact(len: real, k: nat)
    ensures Distance(k) <= len <==> k < SweepSteps(len)
  {
    if len >= 0.0 {
      var f := (len / Step).Floor;
      assert f as real <= len / Step < f as real + 1.0;
      if Distance(k) <= len {
        assert k as real <= len / Step;
      } else {
        assert k as real > len / Step;
      }
    }
  }

  /** The four checks the sweep makes at the `k`-th distance along `rail`
   *  for `child`: the run fits the rail, `CanPlaceAttachment` with the
   *  mapped start slot, the category socket exists on the rail's mesh, and
   *  the child's mesh collides with nothing there (a child without a mesh
   *  counts as colliding). */
  predicate SweepPasses(engine: Engine, rail: Handle, rs: RailState, child: Handle, c: Actor, k: nat)
    requires rs.numSlots <= 64
  {
    var slot := engine.slotFromDistance(rail, Distance(k));
    var splineCheck := slot + c.size <= rs.numSlots;
    var maskCheck := CanPlace(rs.numSlots, rs.occupancyMask, slot, c.size);
    var socketExists := engine.socketExists(rail, SocketName(c.info.category));
    var collisionFree := c.hasMesh && !engine.overlaps(child, rail, Distance(k));
    splineCheck && maskCheck && socketExists && collisionFree
  }

  /** The spline check of the plugin's `WeaponBuilderComponent.cpp:161-162`
   *  as written: `MappedSlot + Size` is
   *  an `int32` sum, which overflows (undefined behaviour; wraps on common
   *  targets). */
  predicate SplineCheckAsWritten(slot: Int32, size: Int32, numSlots: Int32)
  {
    Wrap32(slot + size) <= numSlots
  }

  /** As written, a child of `INT32_MAX` slots mapped to slot 1 of a 15-slot
   *  rail passes the spline check, and the bounds guard of the rail's own
   *  check lets it through as well; with exact sums both refuse it. */
  lemma SplineCheckOverflow()
    ensures SplineCheckAsWritten(1, 0x7FFF_FFFF, 15) && InBoundsAsWritten(1, 0x7FFF_FFFF, 15)
    ensures !(1 + 0x7FFF_FFFF <= 15) && !CanPlace(15, 0, 1, 0x7FFF_FFFF)
  {
    assert Wrap32(1 + 0x7FFF_FFFF) == -0x8000_0000;
  }

  /** With the sums computed exactly, a distance at which every check
   *  passes puts the child on a run of slots of the rail whose mask is
   *  defined and free. */
  lemma SweepPassFits(engine: Engine, rail: Handle, rs: RailState, child: Handle, c: Actor, k: nat)
    requires rs.numSlots <= 64 && SweepPasses(engine, rail, rs, child, c, k)
    ensures var slot := engine.slotFromDistance(rail, Distance(k));
            && 0 <= slot && MaskDefined(slot, c.size)
            && (forall i :: i in Range(slot, c.size) ==> i < rs.numSlots)
            && Range(slot, c.size) * Slots(rs.occupancyMask) == {}
  {
    var slot := engine.slotFromDistance(rail, Distance(k));
    InBoundsFits(slot, c.size, rs.numSlots);
  }

  /** The first distance index from `k` on, while within the rail's
   *  length, at which every check passes. */
  function FirstPass(engine: Engine, rail: Handle, rs: RailState, child: Handle, c: Actor, k: nat): Option<nat>
    requires rs.numSlots <= 64
    decreases SweepSteps(engine.splineLength(rail)) - k
  {
    SweepStepsExact(engine.splineLength(rail), k);
    if Distance(k) > engine.splineLength(rail) then Nothing
    else if SweepPasses(engine, rail, rs, child, c, k) then Some(k)
    else FirstPass(engine, rail, rs, child, c, k + 1)
  }

  /** `FirstPass` finds the first passing distance within the rail, and
   *  finds nothing only when no distance within the rail passes. */
  lemma {:induction false} FirstPassIsFirst(engine: Engine, rail: Handle, rs: RailState, child: Handle, c: Actor, k: nat)
    requires rs.numSlots <= 64
    decreases SweepSteps(engine.splineLength(rail)) - k
    ensures var r := FirstPass(engine, rail, rs, child, c, k);
            r.Some? ==> k <= r.value && Distance(r.value) <= engine.splineLength(rail)
                        && SweepPasses(engine, rail, rs, child, c, r.value)
                        && forall j :: k <= j < r.value ==> !SweepPasses(engine, rail, rs, child, c, j)
    ensures FirstPass(engine, rail, rs, child, c, k).Nothing? ==>
              forall j :: k <= j && Distance(j) <= engine.splineLength(rail) ==> !SweepPasses(engine, rail, rs, child, c, j)
  {
    SweepStepsExact(engine.splineLength(rail), k);
    if Distance(k) <= engine.splineLength(rail) && !SweepPasses(engine, rail, rs, child, c, k) {
      FirstPassIsFirst(engine, rail, rs, child, c, k + 1);
    }
  }

  /** The slot the sweep leaves in the child's `StartPosition`: the one it
   *  accepted, else the one of the last distance it tried, else (the rail
   *  has negative length and nothing was tried) the child's own. */
  function SweepSlot(engine: Engine, rail: Handle, found: Option<nat>, own: Int32): Int32
  {
    var steps := SweepSteps(engine.splineLength(rail));
    if found.Some? then engine.slotFromDistance(rail, Distance(found.value))
    else if steps == 0 then own
    else engine.slotFromDistance(rail, Distance(steps - 1))
  }

  /** The sweep of lines 147-197: from distance 0 in steps of 2.5 while
   *  within the rail's length, map the distance to a slot, try the four
   *  checks and stop at the first distance that passes.  Returns the
   *  accepted distance index and the slot last written to `StartPosition`. */
  method SweepRail(engine: Engine, rail: Handle, rs: RailState, child: Handle, c: Actor)
    returns (found: Option<nat>, slot: Int32)
    requires rs.numSlots <= 64
    ensures found == FirstPass(engine, rail, rs, child, c, 0)
    ensures slot == SweepSlot(engine, rail, found, c.startPosition)
  {
    var railLength := engine.splineLength(rail);
    var k: nat := 0;
    found := Nothing;
    slot := c.startPosition;
    while Distance(k) <= railLength
      invariant k <= SweepSteps(railLength)
      invariant FirstPass(engine, rail, rs, child, c, 0) == FirstPass(engine, rail, rs, child, c, k)
      invariant slot == if k == 0 then c.startPosition else engine.slotFromDistance(rail, Distance(k - 1))
      decreases SweepSteps(railLength) - k
    {
      SweepStepsExact(railLength, k);
      slot := engine.slotFromDistance(rail, Distance(k));
      var splineCheck := slot + c.size <= rs.numSlots;
      var maskCheck := CanPlace(rs.numSlots, rs.occupancyMask, slot, c.size);
      var socketExists := engine.socketExists(rail, SocketName(c.info.category));
      var collisionFree := c.hasMesh && !engine.overlaps(child, rail, Distance(k));
      if splineCheck && maskCheck && socketExists && collisionFree {
        found := Some(k);
        return;
      }
      k := k + 1;
    }
    SweepStepsExact(railLength, k);
    if k > 0 {
      SweepStepsExact(railLength, k - 1);
    }
  }

  // ---------------------------------------------------------------------
  // Placing one live child of the node being expanded (lines 117-254).

  /** What becomes of a child: placed on the rail at the `k`-th distance,
   *  attached to its category socket, or rejected. */
  datatype Placement = OnRail(k: nat) | OnSocket | Rejected

  /** The child goes through the rail sweep: its parent is a rail and the
   *  child's info asks for rail placement. */
  predicate RailPath(parent: Actor, c: Actor)
  {
    parent.rail.Some? && c.info.useRail
  }

  /** The standard pipeline's test: both meshes exist and the parent's mesh
   *  has the socket named after the child's category. */
  predicate CanMount(engine: Engine, current: Handle, parent: Actor, c: Actor)
  {
    parent.hasMesh && c.hasMesh && engine.socketExists(current, SocketName(c.info.category))
  }

  function ChildPlacement(engine: Engine, world: map<Handle, Actor>, current: Handle, child: Handle): Placement
    requires current in world && child in world && RailFits(world[current])
  {
    var parent, c := world[current], world[child];
    if RailPath(parent, c) then
      match FirstPass(engine, current, parent.rail.value, child, c, 0)
      case Some(k) => OnRail(k)
      case Nothing => Rejected
    else if CanMount(engine, current, parent, c) then OnSocket
    else Rejected
  }

  /** A child is placed on the rail at the first distance within the rail
   *  that passes all four checks, and rejected from the rail only when no
   *  such distance exists; off the rail it is attached exactly when both
   *  meshes and the socket exist. */
  lemma PlacementMeaning(engine: Engine, world: map<Handle, Actor>, current: Handle, child: Handle)
    requires current in world && child in world && RailFits(world[current])
    ensures var p, parent, c := ChildPlacement(engine, world, current, child), world[current], world[child];
            p.OnRail? ==> RailPath(parent, c) && Distance(p.k) <= engine.splineLength(current)
                          && SweepPasses(engine, current, parent.rail.value, child, c, p.k)
                          && forall j :: 0 <= j < p.k ==> !SweepPasses(engine, current, parent.rail.value, child, c, j)
    ensures var p, parent, c := ChildPlacement(engine, world, current, child), world[current], world[child];
            RailPath(parent, c) && p.Rejected? ==>
              forall j :: Distance(j) <= engine.splineLength(current) ==> !SweepPasses(engine, current, parent.rail.value, child, c, j)
    ensures var p, parent, c := ChildPlacement(engine, world, current, child), world[current], world[child];
            !RailPath(parent, c) ==> !p.OnRail? && (p.OnSocket? <==> CanMount(engine, current, parent, c))
    ensures var p, parent, c := ChildPlacement(engine, world, current, child), world[current], world[child];
            RailPath(parent, c) ==> !p.OnSocket?
  {
    var parent, c := world[current], world[child];
    if RailPath(parent, c) {
      FirstPassIsFirst(engine, current, parent.rail.value, child, c, 0);
    }
  }

  /** `w2` has the actors of `w1` (and maybe more), each with or without a mesh as before,
   *  and every actor whose mesh was attached still attached. */
  ghost predicate SameMeshes(w1: map<Handle, Actor>, w2: map<Handle, Actor>)
  {
    w1.Keys <= w2.Keys
    && forall h :: h in w1 ==> w2[h].hasMesh == w1[h].hasMesh && (w1[h].mount.Some? ==> w2[h].mount.Some?)
  }

  /** `w2` differs from `w1` at most in positions, mounts (never undone),
   *  rail masks and mounted sets, and destruction flags. */
  ghost predicate SameShape(w1: map<Handle, Actor>, w2: map<Handle, Actor>)
  {
    SameMeshes(w1, w2) && w1.Keys == w2.Keys
    && forall h :: h in w1 ==>
         w2[h].links == w1[h].links
         && (w1[h].rail.Some? <==> w2[h].rail.Some?)
         && (w1[h].rail.Some? ==> w2[h].rail.value.numSlots == w1[h].rail.value.numSlots)
  }

  lemma SameMeshesTrans(w1: map<Handle, Actor>, w2: map<Handle, Actor>, w3: map<Handle, Actor>)
    requires SameMeshes(w1, w2) && SameMeshes(w2, w3)
    ensures SameMeshes(w1, w3)
  {
  }

  /** Registered actors stay valid while meshes stay as they are. */
  lemma SameMeshesSpawned(w1: map<Handle, Actor>, w2: map<Handle, Actor>, spawned: seq<Handle>, meshes: map<Handle, Option<MeshRef>>)
    requires SpawnedOk(w1, spawned, meshes) && SameMeshes(w1, w2)
    ensures SpawnedOk(w2, spawned, meshes)
  {
    forall x | x in meshes
      ensures x in w2 && meshes[x] == MeshOfActor(x, w2[x])
    {
      assert x in w1;
    }
  }

  lemma SameShapeOk(w1: map<Handle, Actor>, w2: map<Handle, Actor>, next: Handle)
    requires WorldOk(w1, next) && SameShape(w1, w2)
    ensures WorldOk(w2, next)
  {
    forall h | h in w2
      ensures ChildSet(w2[h].links) <= w2.Keys && RailFits(w2[h])
    {
      assert h in w1;
    }
  }

  lemma SameShapeTrans(w1: map<Handle, Actor>, w2: map<Handle, Actor>, w3: map<Handle, Actor>)
    requires SameShape(w1, w2) && SameShape(w2, w3)
    ensures SameShape(w1, w3)
  {
  }

  /** `ChildInstance->StartPosition = MappedSlot`. */
  function SetStart(world: map<Handle, Actor>, h: Handle, slot: Int32): (w: map<Handle, Actor>)
    requires h in world
    ensures SameShape(world, w)
  {
    world[h := world[h].(startPosition := slot)]
  }

  /** `AttachToComponent` followed by setting the transform. */
  function MountAt(world: map<Handle, Actor>, h: Handle, m: AttachPoint): (w: map<Handle, Actor>)
    requires h in world
    ensures SameShape(world, w)
  {
    world[h := world[h].(mount := Some(m))]
  }

  /** `ChildInstance->Destroy()`. */
  function Destroy(world: map<Handle, Actor>, h: Handle): (w: map<Handle, Actor>)
    requires h in world
    ensures SameShape(world, w)
  {
    world[h := world[h].(destroyed := true)]
  }

  /** `Link.ChildInstances[i] = nullptr` on the `li`-th link of `current`. */
  function NullOut(world: map<Handle, Actor>, current: Handle, li: nat, i: nat): (w: map<Handle, Actor>)
    requires current in world && li < |world[current].links| && i < |world[current].links[li].childInstances|
    ensures SameMeshes(world, w)
  {
    var a := world[current];
    var l := a.links[li];
    world[current := a.(links := a.links[li := l.(childInstances := l.childInstances[i := Nothing])])]
  }

  /** `RailAttachment::PlaceAttachment` on a rail's state, for an
   *  attachment at `start` of `size` slots: OR in its run and mount it when
   *  `CanPlaceAttachment` holds, else leave the rail as it is. */
  function RailPlace(rs: RailState, h: Handle, start: Int32, size: Int32): RailState
    requires rs.numSlots <= 64
  {
    if CanPlace(rs.numSlots, rs.occupancyMask, start, size) then
      rs.(occupancyMask := Or(rs.occupancyMask, MakeMask(start, size)), mounted := rs.mounted + {h})
    else rs
  }

  /** `Rail->PlaceAttachment(ChildInstance)`, with the child's current
   *  `StartPosition` and `Size`. */
  function PlaceOnRail(world: map<Handle, Actor>, rail: Handle, h: Handle): (w: map<Handle, Actor>)
    requires rail in world && h in world && world[rail].rail.Some? && world[rail].rail.value.numSlots <= 64
    ensures SameShape(world, w)
  {
    var r := world[rail];
    world[rail := r.(rail := Some(RailPlace(r.rail.value, h, world[h].startPosition, world[h].size)))]
  }

  /** The world after the builder has dealt with the live child at
   *  `current.links[li].childInstances[i]`, in the order the statements of
   *  lines 117-254 run. */
  function AfterChild(engine: Engine, world: map<Handle, Actor>, current: Handle, li: nat, i: nat): map<Handle, Actor>
    requires current in world && RailFits(world[current])
    requires li < |world[current].links| && i < |world[current].links[li].childInstances|
    requires world[current].links[li].childInstances[i].Some?
    requires world[current].links[li].childInstances[i].value in world
  {
    var child := world[current].links[li].childInstances[i].value;
    var parent, c := world[current], world[child];
    var socket := SocketName(c.info.category);
    match ChildPlacement(engine, world, current, child)
    case OnRail(k) =>
      var w1 := SetStart(world, child, engine.slotFromDistance(current, Distance(k)));
      var w2 := PlaceOnRail(w1, current, child);
      MountAt(w2, child, AttachPoint(Some(MeshOf(current)), Some(socket), AlongSpline(Distance(k))))
    case OnSocket =>
      MountAt(world, child, AttachPoint(Some(MeshOf(current)), Some(socket), parent.links[li].offset))
    case Rejected =>
      var w1 := if RailPath(parent, c) then SetStart(world, child, SweepSlot(engine, current, Nothing, c.startPosition)) else world;
      NullOut(Destroy(w1, child), current, li, i)
  }

  /** Once the sweep accepts a slot, `Rail->PlaceAttachment` succeeds: the
   *  rail's mask gains exactly the child's run and the child is mounted. */
  lemma AcceptedPlacementSucceeds(engine: Engine, world: map<Handle, Actor>, current: Handle, child: Handle)
    requires current in world && child in world && RailFits(world[current])
    requires ChildPlacement(engine, world, current, child).OnRail?
    ensures var k := ChildPlacement(engine, world, current, child).k;
            var slot := engine.slotFromDistance(current, Distance(k));
            var rs := world[current].rail.value;
            CanPlace(rs.numSlots, rs.occupancyMask, slot, world[child].size)
            && PlaceOnRail(SetStart(world, child, slot), current, child)[current].rail
               == Some(RailState(rs.numSlots, Or(rs.occupancyMask, MakeMask(slot, world[child].size)), rs.mounted + {child}))
  {
    PlacementMeaning(engine, world, current, child);
  }

  /** A rejected child is destroyed and its link entry nulled; a child that
   *  is placed or attached keeps its entry and gets a mount on `current`'s
   *  mesh at its category socket. */
  lemma AfterChildEffect(engine: Engine, world: map<Handle, Actor>, current: Handle, li: nat, i: nat)
    requires current in world && RailFits(world[current])
    requires li < |world[current].links| && i < |world[current].links[li].childInstances|
    requires world[current].links[li].childInstances[i].Some?
    requires world[current].links[li].childInstances[i].value in world
    ensures var child := world[current].links[li].childInstances[i].value;
            var w := AfterChild(engine, world, current, li, i);
            w.Keys == world.Keys
            && |w[current].links| == |world[current].links|
            && (forall j :: 0 <= j < |world[current].links| ==>
                  |w[current].links[j].childInstances| == |world[current].links[j].childInstances|)
            && (ChildPlacement(engine, world, current, child).Rejected? ==>
                  w[child].destroyed && w[current].links[li].childInstances[i] == Nothing)
            && (!ChildPlacement(engine, world, current, child).Rejected? ==>
                  w[current].links == world[current].links
                  && w[child].mount.Some? && w[child].mount.value.parent == Some(MeshOf(current))
                  && w[child].mount.value.socket == Some(SocketName(world[child].info.category)))
  {
  }

  /** Nulling a link entry can only remove children. */
  lemma NullOutChildren(world: map<Handle, Actor>, current: Handle, li: nat, i: nat)
    requires current in world && li < |world[current].links| && i < |world[current].links[li].childInstances|
    ensures ChildSet(NullOut(world, current, li, i)[current].links) <= ChildSet(world[current].links)
  {
    var before, after := world[current].links, NullOut(world, current, li, i)[current].links;
    forall x | x in ChildSet(after)
      ensures x in ChildSet(before)
    {
      var j, k :| 0 <= j < |after| && 0 <= k < |after[j].childInstances|
                  && after[j].childInstances[k].Some? && after[j].childInstances[k].value == x;
      assert before[j].childInstances[k] == after[j].childInstances[k];
    }
  }

  /** Dealing with a child keeps the world well formed. */
  lemma AfterChildOk(engine: Engine, world: map<Handle, Actor>, next: Handle, current: Handle, li: nat, i: nat)
    requires WorldOk(world, next) && current in world
    requires li < |world[current].links| && i < |world[current].links[li].childInstances|
    requires world[current].links[li].childInstances[i].Some?
    ensures world[current].links[li].childInstances[i].value in world
    ensures WorldOk(AfterChild(engine, world, current, li, i), next)
    ensures SameMeshes(world, AfterChild(engine, world, current, li, i))
  {
    var child := world[current].links[li].childInstances[i].value;
    assert child in ChildSet(world[current].links);
    var w := AfterChild(engine, world, current, li, i);
    var p := ChildPlacement(engine, world, current, child);
    var c := world[child];
    if p.Rejected? {
      var w1 := if RailPath(world[current], c) then SetStart(world, child, SweepSlot(engine, current, Nothing, c.startPosition)) else world;
      var w2 := Destroy(w1, child);
      assert SameShape(world, w2);
      SameShapeOk(world, w2, next);
      NullOutOk(w2, next, current, li, i);
      SameMeshesTrans(world, w2, w);
    } else if p.OnRail? {
      var w1 := SetStart(world, child, engine.slotFromDistance(current, Distance(p.k)));
      var w2 := PlaceOnRail(w1, current, child);
      SameShapeTrans(world, w1, w2);
      SameShapeTrans(world, w2, w);
      SameShapeOk(world, w, next);
    } else {
      SameShapeOk(world, w, next);
    }
  }

  /** Nulling a link entry keeps the world well formed. */
  lemma NullOutOk(world: map<Handle, Actor>, next: Handle, current: Handle, li: nat, i: nat)
    requires WorldOk(world, next) && current in world
    requires li < |world[current].links| && i < |world[current].links[li].childInstances|
    ensures WorldOk(NullOut(world, current, li, i), next)
  {
    NullOutChildren(world, current, li, i);
    var w := NullOut(world, current, li, i);
    forall h | h in w
      ensures ChildSet(w[h].links) <= w.Keys && RailFits(w[h])
    {
      assert h in world;
    }
  }

  /** Registered actors are actors of the world, none twice, each with its
   *  mesh entry. */
  ghost predicate SpawnedOk(world: map<Handle, Actor>, spawned: seq<Handle>, meshes: map<Handle, Option<MeshRef>>)
  {
    (forall x :: x in spawned ==> x in world)
    && Distinct(spawned)
    && meshes.Keys == (set x | x in spawned)
    && forall x :: x in meshes ==> x in world && meshes[x] == MeshOfActor(x, world[x])
  }

  /** An actor's `MeshComponent`. */
  function MeshOfActor(h: Handle, a: Actor): Option<MeshRef>
  {
    if a.hasMesh then Some(MeshOf(h)) else Nothing
  }

  /** The classes of the successful spawns among the first `n` classes of
   *  a link when spawning starts at handle `next`: a null class is
   *  skipped, a failed spawn takes no handle, so the `t`-th success gets
   *  handle `next + t`. */
  function Successes(spawns: (ClassId, Handle) -> bool, classes: seq<Option<ClassId>>, next: Handle, n: nat): (r: seq<ClassId>)
    requires n <= |classes|
    ensures |r| <= n
  {
    if n == 0 then []
    else
      var p := Successes(spawns, classes, next, n - 1);
      p + (if classes[n - 1].Some? && spawns(classes[n - 1].value, next + |p|) then [classes[n - 1].value] else [])
  }

  /** Every spawned class is a non-null class of the link, and every
   *  non-null class whose spawn succeeded was spawned. */
  lemma {:induction false} SuccessesMembers(engine: Engine, classes: seq<Option<ClassId>>, next: Handle, n: nat)
    requires n <= |classes|
    ensures forall t :: 0 <= t < |Successes(engine.spawnSucceeds, classes, next, n)| ==>
              exists j :: 0 <= j < n && classes[j] == Some(Successes(engine.spawnSucceeds, classes, next, n)[t])
    ensures (forall j :: 0 <= j < n ==> classes[j].Nothing?) ==> Successes(engine.spawnSucceeds, classes, next, n) == []
  {
    if n > 0 {
      SuccessesMembers(engine, classes, next, n - 1);
      var p := Successes(engine.spawnSucceeds, classes, next, n - 1);
      var r := Successes(engine.spawnSucceeds, classes, next, n);
      var added := if classes[n - 1].Some? && engine.spawnSucceeds(classes[n - 1].value, next + |p|) then [classes[n - 1].value] else [];
      assert r == p + added;
      forall t | 0 <= t < |r|
        ensures exists j :: 0 <= j < n && classes[j] == Some(r[t])
      {
        if t < |p| {
          assert r[t] == p[t];
          var j :| 0 <= j < n - 1 && classes[j] == Some(p[t]);
        } else {
          assert classes[n - 1] == Some(r[t]);
        }
      }
      if forall j :: 0 <= j < n ==> classes[j].Nothing? {
        assert added == [];
        assert r == p;
      }
    } else {
      assert Successes(engine.spawnSucceeds, classes, next, n) == [];
    }
  }

  /** One more class of the link considered. */
  lemma SuccessesNext(engine: Engine, classes: seq<Option<ClassId>>, next: Handle, n: nat)
    requires n < |classes|
    ensures var p := Successes(engine.spawnSucceeds, classes, next, n);
            Successes(engine.spawnSucceeds, classes, next, n + 1)
              == p + (if classes[n].Some? && engine.spawnSucceeds(classes[n].value, next + |p|) then [classes[n].value] else [])
  {
  }

  /** `m` live entries with the handles `next, next + 1, ...`. */
  function Handles(next: Handle, m: nat): (r: seq<Option<Handle>>)
    ensures |r| == m
    ensures forall t :: 0 <= t < m ==> r[t] == Some(next + t)
  {
    seq(m, t requires 0 <= t < m => Some(next + t))
  }

  /** Actor `a` with the instances of its `li`-th link replaced by `ci`. */
  function WithInstances(a: Actor, li: nat, ci: seq<Option<Handle>>): Actor
    requires li < |a.links|
  {
    a.(links := a.links[li := a.links[li].(childInstances := ci)])
  }

  /** `Link.ChildInstances.Add(NewChild)` on the `li`-th link of `current`. */
  function AppendChild(world: map<Handle, Actor>, current: Handle, li: nat, h: Handle): map<Handle, Actor>
    requires current in world && li < |world[current].links|
  {
    var a := world[current];
    world[current := WithInstances(a, li, a.links[li].childInstances + [Some(h)])]
  }

  /** Adding an actor of the world as a live child keeps the world well
   *  formed and the registered actors valid. */
  lemma AppendChildOk(world: map<Handle, Actor>, next: Handle, spawned: seq<Handle>, meshes: map<Handle, Option<MeshRef>>,
                      current: Handle, li: nat, h: Handle)
    requires WorldOk(world, next) && SpawnedOk(world, spawned, meshes)
    requires current in world && li < |world[current].links| && h in world
    ensures WorldOk(AppendChild(world, current, li, h), next)
    ensures SpawnedOk(AppendChild(world, current, li, h), spawned, meshes)
  {
    var w := AppendChild(world, current, li, h);
    var before, after := world[current].links, w[current].links;
    forall x | x in ChildSet(after)
      ensures x in world
    {
      var j, k :| 0 <= j < |after| && 0 <= k < |after[j].childInstances|
                  && after[j].childInstances[k].Some? && after[j].childInstances[k].value == x;
      if j != li || k < |before[li].childInstances| {
        assert before[j].childInstances[k] == after[j].childInstances[k];
        assert x in ChildSet(before);
      }
    }
    assert w.Keys == world.Keys;
  }

  /** The actors at `next, next + 1, ...` are new actors of the classes
   *  `kids`, in order. */
  ghost predicate SpawnedRun(engine: Engine, world: map<Handle, Actor>, next: Handle, kids: seq<ClassId>)
  {
    forall t :: 0 <= t < |kids| ==> next + t in world && world[next + t] == Spawned(engine, kids[t])
  }

  /** `world`/`next` is `w0`/`next0` after the spawns of the classes
   *  `kids` into the empty `li`-th link of `current` succeeded: new actors
   *  of those classes at consecutive handles from `next0`, all of them the
   *  link's instances, and nothing else changed. */
  ghost predicate Filled(engine: Engine, w0: map<Handle, Actor>, next0: Handle, world: map<Handle, Actor>, next: Handle,
                         current: Handle, li: nat, kids: seq<ClassId>)
    requires current in w0 && li < |w0[current].links|
  {
    next == next0 + |kids|
    && current in world
    && world[current] == WithInstances(w0[current], li, Handles(next0, |kids|))
    && SpawnedRun(engine, world, next0, kids)
    && (forall h :: h in world <==> h in w0 || next0 <= h < next)
    && (forall h :: h in w0 && h != current ==> world[h] == w0[h])
  }

  /** `Filled` for the classes of all successful spawns of the link. */
  ghost predicate FilledLink(engine: Engine, w0: map<Handle, Actor>, next0: Handle, world: map<Handle, Actor>, next: Handle,
                             current: Handle, li: nat)
    requires current in w0 && li < |w0[current].links|
  {
    var l := w0[current].links[li];
    Filled(engine, w0, next0, world, next, current, li, Successes(engine.spawnSucceeds, l.childClasses, next0, |l.childClasses|))
  }

  /** Nothing spawned yet. */
  lemma FilledStart(engine: Engine, w0: map<Handle, Actor>, next0: Handle, current: Handle, li: nat)
    requires current in w0 && li < |w0[current].links| && w0[current].links[li].childInstances == []
    ensures Filled(engine, w0, next0, w0, next0, current, li, [])
  {
    assert WithInstances(w0[current], li, Handles(next0, 0)) == w0[current];
  }

  /** One more successful spawn into the link. */
  lemma FilledStep(engine: Engine, w0: map<Handle, Actor>, next0: Handle, world: map<Handle, Actor>, next: Handle,
                   current: Handle, li: nat, kids: seq<ClassId>, c: ClassId)
    requires current in w0 && li < |w0[current].links| && forall h :: h in w0 ==> h < next0
    requires Filled(engine, w0, next0, world, next, current, li, kids)
    ensures var w' := world[next := Spawned(engine, c)];
            Filled(engine, w0, next0, AppendChild(w', current, li, next), next + 1, current, li, kids + [c])
  {
    var w' := world[next := Spawned(engine, c)];
    var w := AppendChild(w', current, li, next);
    assert Handles(next0, |kids|) + [Some(next)] == Handles(next0, |kids| + 1);
    assert w[current] == WithInstances(w0[current], li, Handles(next0, |kids| + 1));
    forall t | 0 <= t < |kids + [c]|
      ensures next0 + t in w && w[next0 + t] == Spawned(engine, (kids + [c])[t])
    {
      if t < |kids| {
        assert w[next0 + t] == world[next0 + t];
      }
    }
  }

  /** Filling a link with fresh handles adds only those children. */
  lemma WithInstancesChildren(a: Actor, li: nat, next: Handle, m: nat)
    requires li < |a.links|
    ensures forall x :: x in ChildSet(WithInstances(a, li, Handles(next, m)).links) ==>
                        x in ChildSet(a.links) || next <= x < next + m
  {
    var after := WithInstances(a, li, Handles(next, m)).links;
    forall x | x in ChildSet(after)
      ensures x in ChildSet(a.links) || next <= x < next + m
    {
      var j, k :| 0 <= j < |after| && 0 <= k < |after[j].childInstances|
                  && after[j].childInstances[k].Some? && after[j].childInstances[k].value == x;
      if j != li {
        assert a.links[j].childInstances[k] == after[j].childInstances[k];
      }
    }
  }

  /** Filling a link keeps the world well formed and the registered actors
   *  valid. */
  lemma FilledOk(engine: Engine, w0: map<Handle, Actor>, next0: Handle, world: map<Handle, Actor>, next: Handle,
                 current: Handle, li: nat, kids: seq<ClassId>, spawned: seq<Handle>, meshes: map<Handle, Option<MeshRef>>)
    requires WellFormed(engine) && WorldOk(w0, next0) && SpawnedOk(w0, spawned, meshes)
    requires current in w0 && li < |w0[current].links|
    requires Filled(engine, w0, next0, world, next, current, li, kids)
    ensures WorldOk(world, next) && SpawnedOk(world, spawned, meshes)
    ensures SameMeshes(w0, world)
  {
    WithInstancesChildren(w0[current], li, next0, |kids|);
    forall h | h in world
      ensures ChildSet(world[h].links) <= world.Keys && RailFits(world[h])
    {
      if next0 <= h < next {
        assert world[next0 + (h - next0)] == Spawned(engine, kids[h - next0]);
        assert ChildSet(world[h].links) == {};
      }
    }
  }

  /** One class of the link considered: spawn it into the link when it is
   *  not null and the engine's spawn succeeds. */
  method SpawnNext(engine: Engine, ghost w0: map<Handle, Actor>, ghost next0: Handle,
                   world: map<Handle, Actor>, next: Handle, current: Handle, li: nat,
                   cls: Option<ClassId>, ghost kids: seq<ClassId>)
    returns (world': map<Handle, Actor>, next': Handle, ghost kids': seq<ClassId>)
    requires current in w0 && li < |w0[current].links| && forall h :: h in w0 ==> h < next0
    requires Filled(engine, w0, next0, world, next, current, li, kids)
    ensures kids' == kids + (if cls.Some? && engine.spawnSucceeds(cls.value, next) then [cls.value] else [])
    ensures Filled(engine, w0, next0, world', next', current, li, kids')
  {
    if cls.Some? && engine.spawnSucceeds(cls.value, next) {
      FilledStep(engine, w0, next0, world, next, current, li, kids, cls.value);
      world' := AppendChild(world[next := Spawned(engine, cls.value)], current, li, next);
      next' := next + 1;
      kids' := kids + [cls.value];
    } else {
      world', next', kids' := world, next, kids;
      assert kids + [] == kids;
    }
  }

  /** Lines 96-112: spawn an actor per non-null class of the empty
   *  `li`-th link of `current` in arena `w0`, handing out handles from
   *  `next0`, and add each successful spawn to the link's instances. */
  method SpawnChildren(engine: Engine, w0: map<Handle, Actor>, next0: Handle, current: Handle, li: nat)
    returns (world: map<Handle, Actor>, next: Handle)
    requires current in w0 && li < |w0[current].links| && w0[current].links[li].childInstances == []
    requires forall h :: h in w0 ==> h < next0
    ensures FilledLink(engine, w0, next0, world, next, current, li)
  {
    var classes := w0[current].links[li].childClasses;
    world, next := w0, next0;
    FilledStart(engine, w0, next0, current, li);
    var j := 0;
    ghost var kids: seq<ClassId> := [];
    while j < |classes|
      invariant 0 <= j <= |classes|
      invariant kids == Successes(engine.spawnSucceeds, classes, next0, j)
      invariant next == next0 + |kids|
      invariant Filled(engine, w0, next0, world, next, current, li, kids)
    {
      SuccessesNext(engine, classes, next0, j);
      world, next, kids := SpawnNext(engine, w0, next0, world, next, current, li, classes[j], kids);
      j := j + 1;
    }
  }

  /** The statements of lines 117-254 on the arena `w0`: the new arena and
   *  `bShouldRegister`. */
  method Place(engine: Engine, w0: map<Handle, Actor>, current: Handle, li: nat, i: nat)
    returns (w: map<Handle, Actor>, register: bool)
    requires current in w0 && RailFits(w0[current])
    requires li < |w0[current].links| && i < |w0[current].links[li].childInstances|
    requires w0[current].links[li].childInstances[i].Some?
    requires w0[current].links[li].childInstances[i].value in w0
    ensures w == AfterChild(engine, w0, current, li, i)
    ensures register <==> !ChildPlacement(engine, w0, current, w0[current].links[li].childInstances[i].value).Rejected?
  {
    var child := w0[current].links[li].childInstances[i].value;
    var parent := w0[current];
    var c := w0[child];
    var socket := SocketName(c.info.category);
    w := w0;
    if parent.rail.Some? {
      if c.info.useRail {
        var found, slot := SweepRail(engine, current, parent.rail.value, child, c);
        w := SetStart(w, child, slot);
        if found.Some? {
          w := PlaceOnRail(w, current, child);
          w := MountAt(w, child, AttachPoint(Some(MeshOf(current)), Some(socket), AlongSpline(Distance(found.value))));
          register := true;
        } else {
          w := Destroy(w, child);
          w := NullOut(w, current, li, i);
          register := false;
        }
      } else if CanMount(engine, current, parent, c) {
        w := MountAt(w, child, AttachPoint(Some(MeshOf(current)), Some(socket), parent.links[li].offset));
        register := true;
      } else {
        w := Destroy(w, child);
        w := NullOut(w, current, li, i);
        register := false;
      }
    } else if CanMount(engine, current, parent, c) {
      w := MountAt(w, child, AttachPoint(Some(MeshOf(current)), Some(socket), parent.links[li].offset));
      register := true;
    } else {
      w := Destroy(w, child);
      w := NullOut(w, current, li, i);
      register := false;
    }
  }

  /** The breadth-first bookkeeping: `order` lists every actor ever put in
   *  the queue (those already expanded, then the queue itself), none
   *  twice, and `visited` is exactly the set of them. */
  ghost predicate Enqueued(order: seq<Handle>, visited: set<Handle>)
  {
    Distinct(order) && visited == set x | x in order
  }

  /** The actors already expanded are distinct. */
  lemma DistinctPrefix(expanded: seq<Handle>, queue: seq<Handle>)
    requires Distinct(expanded + queue)
    ensures Distinct(expanded)
  {
    forall i, j | 0 <= i < j < |expanded|
      ensures expanded[i] != expanded[j]
    {
      assert (expanded + queue)[i] == expanded[i] && (expanded + queue)[j] == expanded[j];
    }
  }

  /** Enqueueing an unvisited actor and marking it visited. */
  lemma EnqueueFresh(expanded: seq<Handle>, queue: seq<Handle>, visited: set<Handle>, x: Handle)
    requires Enqueued(expanded + queue, visited) && x !in visited
    ensures Enqueued(expanded + (queue + [x]), visited + {x})
  {
    assert expanded + (queue + [x]) == (expanded + queue) + [x];
    var order := expanded + queue;
    assert x !in order;
  }

  /** Every actor of `s` is in the world with its mesh attached. */
  ghost predicate AllMounted(world: map<Handle, Actor>, s: seq<Handle>)
  {
    forall x :: x in s ==> x in world && world[x].mount.Some?
  }

  /** Attached actors stay attached, and the registrations of two
   *  successive steps add up. */
  lemma MountedExtend(w1: map<Handle, Actor>, w2: map<Handle, Actor>, s0: seq<Handle>, s1: seq<Handle>, s2: seq<Handle>)
    requires s0 <= s1 <= s2 && SameMeshes(w1, w2)
    requires AllMounted(w1, s1[|s0|..]) && AllMounted(w2, s2[|s1|..])
    ensures AllMounted(w2, s2[|s0|..])
  {
    forall x | x in s2[|s0|..]
      ensures x in w2 && w2[x].mount.Some?
    {
      var t :| 0 <= t < |s2[|s0|..]| && s2[|s0|..][t] == x;
      if |s0| + t < |s1| {
        assert x == s1[|s0|..][t];
      } else {
        assert x == s2[|s1|..][|s0| + t - |s1|];
      }
    }
  }

  // ---------------------------------------------------------------------
  // Clearing and searching the graph from the registered actors.

  /** Every actor's live children are actors of the world. */
  ghost predicate Linked(world: map<Handle, Actor>)
  {
    forall h :: h in world ==> ChildSet(world[h].links) <= world.Keys
  }

  /** Some actor of `roots` reaches `x`. */
  ghost predicate ReachedFrom(g: Succ, roots: seq<Handle>, x: Handle)
  {
    exists r :: r in roots && Reachable(g, r, x)
  }

  /** An actor after `MeshComponent->DetachFromComponent`, when it has a mesh. */
  function Detached(a: Actor): Actor
  {
    if a.hasMesh then a.(mount := Nothing) else a
  }

  /** The live entries among the first `n` of `instances` are in `v`. */
  ghost predicate EntriesIn(instances: seq<Option<Handle>>, n: nat, v: set<Handle>)
    requires n <= |instances|
  {
    forall k :: 0 <= k < n && instances[k].Some? ==> instances[k].value in v
  }

  /** The live children of the first `n` links are in `v`. */
  ghost predicate LinksIn(links: seq<Link>, n: nat, v: set<Handle>)
    requires n <= |links|
  {
    forall j :: 0 <= j < n ==> EntriesIn(links[j].childInstances, |links[j].childInstances|, v)
  }

  lemma EntriesGrow(instances: seq<Option<Handle>>, n: nat, v: set<Handle>, v': set<Handle>)
    requires n <= |instances| && EntriesIn(instances, n, v) && v <= v'
    ensures EntriesIn(instances, n, v')
  {
  }

  lemma LinksGrow(links: seq<Link>, n: nat, v: set<Handle>, v': set<Handle>)
    requires n <= |links| && LinksIn(links, n, v) && v <= v'
    ensures LinksIn(links, n, v')
  {
    forall j | 0 <= j < n
      ensures EntriesIn(links[j].childInstances, |links[j].childInstances|, v')
    {
      EntriesGrow(links[j].childInstances, |links[j].childInstances|, v, v');
    }
  }

  /** Once every link is done, every live child is in `v`. */
  lemma LinksInChildSet(links: seq<Link>, v: set<Handle>)
    requires LinksIn(links, |links|, v)
    ensures ChildSet(links) <= v
  {
    forall x | x in ChildSet(links)
      ensures x in v
    {
      var j, k :| 0 <= j < |links| && 0 <= k < |links[j].childInstances|
                  && links[j].childInstances[k].Some? && links[j].childInstances[k].value == x;
      assert EntriesIn(links[j].childInstances, |links[j].childInstances|, v);
    }
  }

  /** `w` is `world` after a walk that took the visited set from `visited`
   *  to `v`: each newly visited actor is detached and has all its children
   *  visited, and every other actor is as it was. */
  ghost predicate Cleared(world: map<Handle, Actor>, w: map<Handle, Actor>, visited: set<Handle>, v: set<Handle>)
  {
    w.Keys == world.Keys && visited <= v <= world.Keys
    && forall x :: x in world ==>
         if x in v - visited then w[x] == Detached(world[x]) && ChildSet(world[x].links) <= v
         else w[x] == world[x]
  }

  lemma ClearedTrans(w0: map<Handle, Actor>, w1: map<Handle, Actor>, w2: map<Handle, Actor>,
                     v0: set<Handle>, v1: set<Handle>, v2: set<Handle>)
    requires Cleared(w0, w1, v0, v1) && Cleared(w1, w2, v1, v2)
    ensures Cleared(w0, w2, v0, v2)
  {
    forall x | x in w0 && x in v2 - v0
      ensures w2[x] == Detached(w0[x]) && ChildSet(w0[x].links) <= v2
    {
      if x in v1 {
        assert w2[x] == w1[x];
      } else {
        assert w1[x] == w0[x];
      }
    }
  }

  /** Detaching changes no link: the graph stays the same. */
  lemma ClearedGraph(world: map<Handle, Actor>, w: map<Handle, Actor>, visited: set<Handle>, v: set<Handle>)
    requires Cleared(world, w, visited, v)
    ensures Graph(w) == Graph(world)
    ensures Linked(world) ==> Linked(w)
  {
    forall x | x in world
      ensures w[x].links == world[x].links
    {
      if x in v - visited {
        assert w[x] == Detached(world[x]);
      }
    }
  }

  /** What a walk from a child of `a` newly visits is reachable from `a`. */
  lemma ReachThroughChild(g: Succ, a: Handle, child: Handle, visited: set<Handle>, v1: set<Handle>, v: set<Handle>)
    requires a in g && child in g[a]
    requires forall x :: x in v1 - visited ==> Reachable(g, a, x)
    requires forall x :: x in v - v1 ==> Reachable(g, child, x)
    ensures forall x :: x in v - visited ==> Reachable(g, a, x)
  {
    forall x | x in v - visited
      ensures Reachable(g, a, x)
    {
      if x !in v1 {
        ReachablePrepend(g, a, child, x);
      }
    }
  }

  /** Lines 419-439 on the arena: unless `a` is already visited, visit it,
   *  clear every live child of every link depth first, then detach its
   *  mesh.  Everything newly visited is reachable from `a`. */
  method ClearAttachmentRecursive(world: map<Handle, Actor>, a: Handle, visited: set<Handle>)
    returns (w: map<Handle, Actor>, v: set<Handle>)
    requires Linked(world) && a in world && visited <= world.Keys
    ensures Cleared(world, w, visited, v) && a in v
    ensures a in visited ==> w == world && v == visited
    ensures forall x :: x in v - visited ==> Reachable(Graph(world), a, x)
    decreases world.Keys - visited, 1
  {
    if a in visited {
      return world, visited;
    }
    var start := visited + {a};
    ghost var g := Graph(world);
    ReachableSelf(g, a);
    w, v := world, start;
    var links := world[a].links;
    var li := 0;
    while li < |links|
      invariant 0 <= li <= |links|
      invariant Cleared(world, w, start, v) && Linked(w) && a in v
      invariant LinksIn(links, li, v)
      invariant forall x :: x in v - visited ==> Reachable(g, a, x)
    {
      ghost var w1, v1 := w, v;
      ClearedGraph(world, w1, start, v1);
      assert w1[a] == world[a];
      w, v := ClearInstances(w, a, li, v, visited);
      ClearedTrans(world, w1, w, start, v1, v);
      ClearedGraph(world, w, start, v);
      LinksGrow(links, li, v1, v);
      li := li + 1;
    }
    LinksInChildSet(links, v);
    assert w[a] == world[a];
    w := w[a := Detached(w[a])];
  }

  /** Lines 427-431: clear from each live child of the `li`-th link of
   *  `a`, which is being visited, sharing the visited set. */
  method ClearInstances(world: map<Handle, Actor>, a: Handle, li: nat, visited: set<Handle>, ghost outer: set<Handle>)
    returns (w: map<Handle, Actor>, v: set<Handle>)
    requires Linked(world) && a in world && visited <= world.Keys && a in visited && outer <= visited - {a}
    requires li < |world[a].links|
    ensures Cleared(world, w, visited, v) && Linked(w)
    ensures EntriesIn(world[a].links[li].childInstances, |world[a].links[li].childInstances|, v)
    ensures forall x :: x in v - visited ==> Reachable(Graph(world), a, x)
    decreases world.Keys - outer, 0
  {
    ghost var g := Graph(world);
    var instances := world[a].links[li].childInstances;
    w, v := world, visited;
    var i := 0;
    while i < |instances|
      invariant 0 <= i <= |instances|
      invariant Cleared(world, w, visited, v) && Linked(w)
      invariant EntriesIn(instances, i, v)
      invariant forall x :: x in v - visited ==> Reachable(g, a, x)
    {
      if instances[i].Some? {
        var child := instances[i].value;
        assert child in g[a] by {
          assert world[a].links[li].childInstances[i].Some?;
        }
        ghost var w1, v1 := w, v;
        ClearedGraph(world, w1, visited, v1);
        assert w1.Keys - v1 < world.Keys - outer by {
          assert a in world.Keys - outer && a !in w1.Keys - v1;
        }
        w, v := ClearAttachmentRecursive(w, child, v);
        EntriesGrow(instances, i, v1, v);
        ClearedTrans(world, w1, w, visited, v1, v);
        ReachThroughChild(g, a, child, visited, v1, v);
      }
      i := i + 1;
    }
  }

  /** Lines 390-410 on the arena: clear from each registered actor in
   *  turn, sharing one visited set, then detach each registered mesh once
   *  more.  Exactly the actors reachable from a registered one end
   *  detached; every other actor is as it was. */
  method ClearAll(world: map<Handle, Actor>, roots: seq<Handle>, meshes: map<Handle, Option<MeshRef>>)
    returns (w: map<Handle, Actor>)
    requires Linked(world) && SpawnedOk(world, roots, meshes)
    ensures w.Keys == world.Keys
    ensures forall x :: x in world ==>
              w[x] == if ReachedFrom(Graph(world), roots, x) then Detached(world[x]) else world[x]
  {
    ghost var v;
    w, v := ClearFromRoots(world, roots);
    ClearedExactly(world, w, roots, v);
    w := DetachMeshes(world, w, roots, meshes);
  }

  /** Lines 401-406: detach every registered mesh, which the walk has
   *  already detached, so nothing changes. */
  method DetachMeshes(ghost world: map<Handle, Actor>, cleared: map<Handle, Actor>, roots: seq<Handle>,
                      meshes: map<Handle, Option<MeshRef>>)
    returns (w: map<Handle, Actor>)
    requires SpawnedOk(world, roots, meshes) && cleared.Keys == world.Keys
    requires forall x :: x in world ==>
               cleared[x] == if ReachedFrom(Graph(world), roots, x) then Detached(world[x]) else world[x]
    ensures w == cleared
  {
    w := cleared;
    var j := 0;
    while j < |roots|
      invariant 0 <= j <= |roots|
      invariant w == cleared
    {
      var mesh := meshes[roots[j]];
      if mesh.Some? && mesh.value.owner in w {
        RedetachRegistered(world, w, roots, meshes, j);
        w := w[mesh.value.owner := Detached(w[mesh.value.owner])];
      }
      j := j + 1;
    }
  }

  /** Lines 396-399: clear from each registered actor in turn, sharing
   *  one visited set. */
  method ClearFromRoots(world: map<Handle, Actor>, roots: seq<Handle>)
    returns (w: map<Handle, Actor>, ghost v: set<Handle>)
    requires Linked(world) && forall x :: x in roots ==> x in world
    ensures Cleared(world, w, {}, v)
    ensures forall k :: 0 <= k < |roots| ==> roots[k] in v
    ensures forall x :: x in v ==> ReachedFrom(Graph(world), roots, x)
  {
    ghost var g := Graph(world);
    var visited: set<Handle> := {};
    w := world;
    var i := 0;
    while i < |roots|
      invariant 0 <= i <= |roots|
      invariant Cleared(world, w, {}, visited) && Linked(w)
      invariant forall k :: 0 <= k < i ==> roots[k] in visited
      invariant forall x :: x in visited ==> ReachedFrom(g, roots, x)
    {
      ghost var w1, v1 := w, visited;
      ClearedGraph(world, w1, {}, v1);
      w, visited := ClearAttachmentRecursive(w, roots[i], visited);
      ClearedTrans(world, w1, w, {}, v1, visited);
      ClearedGraph(world, w, {}, visited);
      ReachedFromRoot(g, roots, i, v1, visited);
      i := i + 1;
    }
    v := visited;
  }

  /** What the walk from the `i`-th registered actor newly visits is
   *  reached from a registered actor. */
  lemma ReachedFromRoot(g: Succ, roots: seq<Handle>, i: nat, v1: set<Handle>, v: set<Handle>)
    requires i < |roots|
    requires forall x :: x in v1 ==> ReachedFrom(g, roots, x)
    requires forall x :: x in v - v1 ==> Reachable(g, roots[i], x)
    ensures forall x :: x in v ==> ReachedFrom(g, roots, x)
  {
    forall x | x in v
      ensures ReachedFrom(g, roots, x)
    {
      if x !in v1 {
        assert Reachable(g, roots[i], x);
      }
    }
  }

  /** A walk that visited every registered actor, and nothing beyond what
   *  they reach, detached exactly what they reach. */
  lemma ClearedExactly(world: map<Handle, Actor>, w: map<Handle, Actor>, roots: seq<Handle>, v: set<Handle>)
    requires Cleared(world, w, {}, v)
    requires forall k :: 0 <= k < |roots| ==> roots[k] in v
    requires forall x :: x in v ==> ReachedFrom(Graph(world), roots, x)
    ensures w.Keys == world.Keys
    ensures forall x :: x in world ==>
              w[x] == if ReachedFrom(Graph(world), roots, x) then Detached(world[x]) else world[x]
  {
    var g := Graph(world);
    assert Closed(g, v);
    forall x | x in world
      ensures x in v <==> ReachedFrom(g, roots, x)
    {
      if ReachedFrom(g, roots, x) {
        var r :| r in roots && Reachable(g, r, x);
        ClosedHoldsReachable(g, v, r, x);
      }
    }
  }

  /** Detaching a registered mesh once more changes nothing: its actor was
   *  detached by the walk from the registered actors. */
  lemma RedetachRegistered(world: map<Handle, Actor>, w: map<Handle, Actor>, roots: seq<Handle>,
                           meshes: map<Handle, Option<MeshRef>>, j: nat)
    requires SpawnedOk(world, roots, meshes) && j < |roots| && w.Keys == world.Keys
    requires forall x :: x in world ==>
               w[x] == if ReachedFrom(Graph(world), roots, x) then Detached(world[x]) else world[x]
    ensures var mesh := meshes[roots[j]];
            mesh.Some? ==> mesh.value.owner in w && w[mesh.value.owner := Detached(w[mesh.value.owner])] == w
  {
    var r := roots[j];
    assert r in meshes;
    ReachableSelf(Graph(world), r);
    assert ReachedFrom(Graph(world), roots, r);
  }

  /** The actors newly visited between `visited` and `v` have a category
   *  other than `target`, and all their children are visited. */
  ghost predicate Searched(world: map<Handle, Actor>, target: Category, visited: set<Handle>, v: set<Handle>)
  {
    visited <= v <= world.Keys
    && forall x :: x in v - visited ==> world[x].info.category != target && ChildSet(world[x].links) <= v
  }

  lemma SearchedTrans(world: map<Handle, Actor>, target: Category, v0: set<Handle>, v1: set<Handle>, v2: set<Handle>)
    requires Searched(world, target, v0, v1) && Searched(world, target, v1, v2)
    ensures Searched(world, target, v0, v2)
  {
  }

  /** Lines 454-486: unless `a` is already visited, visit it; return it if
   *  its category is `target`; otherwise go through the live children of
   *  every link, returning the first child whose category is `target`
   *  (visited or not) or the first find of a search from a child. */
  method FindAttachmentRecursive(world: map<Handle, Actor>, a: Handle, target: Category, visited: set<Handle>)
    returns (found: Option<Handle>, v: set<Handle>)
    requires Linked(world) && a in world && visited <= world.Keys
    ensures visited <= v <= world.Keys && a in v
    ensures found.Some? ==>
              found.value in world && world[found.value].info.category == target
              && Reachable(Graph(world), a, found.value)
    ensures found.Nothing? ==> Searched(world, target, visited, v)
    decreases world.Keys - visited
  {
    found := Nothing;
    if a in visited {
      return Nothing, visited;
    }
    var start := visited + {a};
    ghost var g := Graph(world);
    ReachableSelf(g, a);
    v := start;
    if world[a].info.category == target {
      return Some(a), v;
    }
    var links := world[a].links;
    var li := 0;
    while li < |links|
      invariant 0 <= li <= |links|
      invariant start <= v && Searched(world, target, start, v)
      invariant LinksIn(links, li, v)
    {
      var instances := links[li].childInstances;
      var i := 0;
      while i < |instances|
        invariant 0 <= i <= |instances|
        invariant start <= v && Searched(world, target, start, v)
        invariant LinksIn(links, li, v) && EntriesIn(instances, i, v)
      {
        if instances[i].Some? {
          var child := instances[i].value;
          assert child in g[a] by {
            assert links[li].childInstances[i].Some?;
          }
          if world[child].info.category == target {
            ReachableStep(g, a, a, child);
            return Some(child), v;
          }
          ghost var v1 := v;
          assert world.Keys - v1 < world.Keys - visited by {
            assert a in world.Keys - visited && a !in world.Keys - v1;
          }
          var f;
          f, v := FindAttachmentRecursive(world, child, target, v);
          LinksGrow(links, li, v1, v);
          EntriesGrow(instances, i, v1, v);
          if f.Some? {
            ReachablePrepend(g, a, child, f.value);
            return f, v;
          }
          SearchedTrans(world, target, start, v1, v);
        }
        i := i + 1;
      }
      li := li + 1;
    }
    LinksInChildSet(links, v);
  }

  /** Detaching the actors reachable from the registered ones keeps the
   *  world well formed. */
  lemma DetachedOk(world: map<Handle, Actor>, w: map<Handle, Actor>, next: Handle, roots: seq<Handle>)
    requires WorldOk(world, next) && w.Keys == world.Keys
    requires forall x :: x in world ==>
               w[x] == if ReachedFrom(Graph(world), roots, x) then Detached(world[x]) else world[x]
    ensures WorldOk(w, next)
  {
    forall h | h in w
      ensures w[h].links == world[h].links && w[h].rail == world[h].rail && w[h].hasMesh == world[h].hasMesh
    {
    }
  }

  /** A search that visited every registered actor without finding
   *  category `c` has seen everything they reach. */
  lemma NothingReached(world: map<Handle, Actor>, c: Category, roots: seq<Handle>, v: set<Handle>)
    requires Searched(world, c, {}, v)
    requires forall k :: 0 <= k < |roots| ==> roots[k] in v
    ensures forall x :: x in world && ReachedFrom(Graph(world), roots, x) ==> world[x].info.category != c
  {
    var g := Graph(world);
    assert Closed(g, v);
    forall x | x in world && ReachedFrom(g, roots, x)
      ensures world[x].info.category != c
    {
      var r :| r in roots && Reachable(g, r, x);
      ClosedHoldsReachable(g, v, r, x);
    }
  }

  class WeaponBuilderComponent {
    /** The actors this component has spawned or reached. */
    var world: map<Handle, Actor>
    /** The handle the next spawned actor gets. */
    var nextHandle: Handle
    var baseAttachments: seq<Option<ClassId>>
    var spawnedAttachments: seq<Handle>
    var spawnedMeshes: map<Handle, Option<MeshRef>>

    ghost predicate Valid()
      reads this
    {
      WorldOk(world, nextHandle) && SpawnedOk(world, spawnedAttachments, spawnedMeshes)
    }

    constructor(base: seq<Option<ClassId>>)
      ensures Valid()
      ensures world == map[] && baseAttachments == base
      ensures spawnedAttachments == [] && spawnedMeshes == map[]
    {
      world := map[];
      nextHandle := 0;
      baseAttachments := base;
      spawnedAttachments := [];
      spawnedMeshes := map[];
    }

    /** `GetWorld()->SpawnActor<AAttachment>(Class, ...)`: a new actor of
     *  class `c` under the next free handle, or null when the engine's
     *  spawn fails. */
    method Spawn(engine: Engine, c: ClassId) returns (h: Option<Handle>)
      requires Valid() && WellFormed(engine)
      modifies this
      ensures Valid()
      ensures baseAttachments == old(baseAttachments)
      ensures spawnedAttachments == old(spawnedAttachments) && spawnedMeshes == old(spawnedMeshes)
      ensures engine.spawnSucceeds(c, old(nextHandle)) ==>
                h == Some(old(nextHandle)) && nextHandle == old(nextHandle) + 1
                && world == old(world)[old(nextHandle) := Spawned(engine, c)]
      ensures !engine.spawnSucceeds(c, old(nextHandle)) ==>
                h == Nothing && nextHandle == old(nextHandle) && world == old(world)
    {
      if !engine.spawnSucceeds(c, nextHandle) {
        return Nothing;
      }
      var a := Spawned(engine, c);
      assert ChildSet(a.links) == {};
      world := world[nextHandle := a];
      h := Some(nextHandle);
      nextHandle := nextHandle + 1;
    }

    /** Lines 117-254 for the live child at `links[li].childInstances[i]`
     *  of `current`: sweep the rail, or attach to the category socket, or
     *  destroy the child and null its entry.  Returns `bShouldRegister`. */
    method PlaceChild(engine: Engine, current: Handle, li: nat, i: nat) returns (register: bool)
      requires Valid()
      requires current in world && li < |world[current].links| && i < |world[current].links[li].childInstances|
      requires world[current].links[li].childInstances[i].Some?
      modifies this
      ensures Valid()
      ensures nextHandle == old(nextHandle) && baseAttachments == old(baseAttachments)
      ensures spawnedAttachments == old(spawnedAttachments) && spawnedMeshes == old(spawnedMeshes)
      ensures world == AfterChild(engine, old(world), current, li, i)
      ensures register <==> !ChildPlacement(engine, old(world), current, old(world)[current].links[li].childInstances[i].value).Rejected?
    {
      AfterChildOk(engine, world, nextHandle, current, li, i);
      SameMeshesSpawned(world, AfterChild(engine, world, current, li, i), spawnedAttachments, spawnedMeshes);
      world, register := Place(engine, world, current, li, i);
    }

    /** Lines 95-113: when a link has no live instances but declares
     *  classes, spawn one actor per non-null class and add the successful
     *  ones to `ChildInstances`; otherwise leave everything as it is. */
    method SpawnLinkChildren(engine: Engine, current: Handle, li: nat)
      requires Valid() && WellFormed(engine)
      requires current in world && li < |world[current].links|
      modifies this
      ensures Valid()
      ensures baseAttachments == old(baseAttachments)
      ensures spawnedAttachments == old(spawnedAttachments) && spawnedMeshes == old(spawnedMeshes)
      ensures var l := old(world)[current].links[li];
              !(|l.childInstances| == 0 && |l.childClasses| > 0) ==>
                world == old(world) && nextHandle == old(nextHandle)
      ensures var l := old(world)[current].links[li];
              |l.childInstances| == 0 && |l.childClasses| > 0 ==>
                FilledLink(engine, old(world), old(nextHandle), world, nextHandle, current, li)
      ensures SameMeshes(old(world), world)
      ensures current in world && |world[current].links| == |old(world)[current].links|
    {
      var link := world[current].links[li];
      if |link.childInstances| == 0 && |link.childClasses| > 0 {
        ghost var w0, next0 := world, nextHandle;
        world, nextHandle := SpawnChildren(engine, world, nextHandle, current, li);
        FilledOk(engine, w0, next0, world, nextHandle, current, li,
                 Successes(engine.spawnSucceeds, link.childClasses, next0, |link.childClasses|), spawnedAttachments, spawnedMeshes);
      }
    }

    /** Lines 263-266: add a placed actor and its mesh unless already
     *  registered. */
    method Register(h: Handle)
      requires Valid() && h in world
      modifies this
      ensures Valid()
      ensures world == old(world) && nextHandle == old(nextHandle) && baseAttachments == old(baseAttachments)
      ensures h in old(spawnedAttachments) ==>
                spawnedAttachments == old(spawnedAttachments) && spawnedMeshes == old(spawnedMeshes)
      ensures h !in old(spawnedAttachments) ==>
                spawnedAttachments == old(spawnedAttachments) + [h]
                && spawnedMeshes == old(spawnedMeshes)[h := MeshOfActor(h, world[h])]
    {
      if h !in spawnedAttachments {
        spawnedAttachments := spawnedAttachments + [h];
        spawnedMeshes := spawnedMeshes[h := MeshOfActor(h, world[h])];
      }
    }

    /** Lines 117-268 for every entry of the `li`-th link of `current`:
     *  place each live child, and enqueue and register those placed. */
    method PlaceLinkChildren(engine: Engine, current: Handle, li: nat, queue: seq<Handle>, visited: set<Handle>,
                             ghost expanded: seq<Handle>)
      returns (queue': seq<Handle>, visited': set<Handle>)
      requires Valid() && current in world && li < |world[current].links|
      requires Enqueued(expanded + queue, visited) && visited <= world.Keys
      requires forall x :: x in spawnedAttachments ==> x in visited
      modifies this
      ensures Valid() && nextHandle == old(nextHandle) && baseAttachments == old(baseAttachments)
      ensures current in world && |world[current].links| == |old(world)[current].links|
      ensures SameMeshes(old(world), world)
      ensures Enqueued(expanded + queue', visited') && visited' <= world.Keys && queue <= queue'
      ensures forall x :: x in spawnedAttachments ==> x in visited'
      ensures old(spawnedAttachments) <= spawnedAttachments
      ensures AllMounted(world, spawnedAttachments[|old(spawnedAttachments)|..])
    {
      queue', visited' := queue, visited;
      var m := |world[current].links[li].childInstances|;
      var i := 0;
      while i < m
        invariant 0 <= i <= m
        invariant Valid() && nextHandle == old(nextHandle) && baseAttachments == old(baseAttachments)
        invariant current in world && |world[current].links| == |old(world)[current].links|
        invariant |world[current].links[li].childInstances| == m
        invariant SameMeshes(old(world), world)
        invariant Enqueued(expanded + queue', visited') && visited' <= world.Keys && queue <= queue'
        invariant forall x :: x in spawnedAttachments ==> x in visited'
        invariant old(spawnedAttachments) <= spawnedAttachments
        invariant AllMounted(world, spawnedAttachments[|old(spawnedAttachments)|..])
      {
        ghost var wb, sb := world, spawnedAttachments;
        queue', visited' := HandleEntry(engine, current, li, i, queue', visited', expanded);
        MountedExtend(wb, world, old(spawnedAttachments), sb, spawnedAttachments);
        i := i + 1;
      }
    }

    /** Lines 118-267 for the entry `links[li].childInstances[i]` of
     *  `current`: skip a null entry; otherwise place the child, and enqueue
     *  it (unless visited) and register it when it was placed. */
    method HandleEntry(engine: Engine, current: Handle, li: nat, i: nat, queue: seq<Handle>, visited: set<Handle>,
                       ghost expanded: seq<Handle>)
      returns (queue': seq<Handle>, visited': set<Handle>)
      requires Valid() && current in world && li < |world[current].links| && i < |world[current].links[li].childInstances|
      requires Enqueued(expanded + queue, visited) && visited <= world.Keys
      requires forall x :: x in spawnedAttachments ==> x in visited
      modifies this
      ensures Valid() && nextHandle == old(nextHandle) && baseAttachments == old(baseAttachments)
      ensures current in world && |world[current].links| == |old(world)[current].links|
      ensures forall j :: 0 <= j < |world[current].links| ==>
                |world[current].links[j].childInstances| == |old(world)[current].links[j].childInstances|
      ensures SameMeshes(old(world), world)
      ensures Enqueued(expanded + queue', visited') && visited' <= world.Keys && queue <= queue'
      ensures forall x :: x in spawnedAttachments ==> x in visited'
      ensures old(spawnedAttachments) <= spawnedAttachments
      ensures AllMounted(world, spawnedAttachments[|old(spawnedAttachments)|..])
    {
      queue', visited' := queue, visited;
      var entry := world[current].links[li].childInstances[i];
      if entry.Some? {
        var child := entry.value;
        AfterChildOk(engine, world, nextHandle, current, li, i);
        AfterChildEffect(engine, world, current, li, i);
        var register := PlaceChild(engine, current, li, i);
        if register {
          queue', visited' := Admit(child, queue', visited', expanded);
        } else {
          assert spawnedAttachments[|old(spawnedAttachments)|..] == [];
        }
      } else {
        assert spawnedAttachments[|old(spawnedAttachments)|..] == [];
      }
    }

    /** Lines 257-267 for a placed child: enqueue and visit it unless
     *  visited, and register it unless registered. */
    method Admit(child: Handle, queue: seq<Handle>, visited: set<Handle>, ghost expanded: seq<Handle>)
      returns (queue': seq<Handle>, visited': set<Handle>)
      requires Valid() && child in world && world[child].mount.Some?
      requires Enqueued(expanded + queue, visited) && visited <= world.Keys
      requires forall x :: x in spawnedAttachments ==> x in visited
      modifies this
      ensures Valid()
      ensures world == old(world) && nextHandle == old(nextHandle) && baseAttachments == old(baseAttachments)
      ensures queue' == if child in visited then queue else queue + [child]
      ensures visited' == visited + {child}
      ensures Enqueued(expanded + queue', visited') && visited' <= world.Keys
      ensures forall x :: x in spawnedAttachments ==> x in visited'
      ensures spawnedAttachments == if child in old(spawnedAttachments) then old(spawnedAttachments) else old(spawnedAttachments) + [child]
      ensures AllMounted(world, spawnedAttachments[|old(spawnedAttachments)|..])
    {
      queue', visited' := queue, visited;
      if child !in visited' {
        EnqueueFresh(expanded, queue', visited', child);
        queue' := queue' + [child];
        visited' := visited' + {child};
      }
      Register(child);
      assert spawnedAttachments[|old(spawnedAttachments)|..] == [] || spawnedAttachments[|old(spawnedAttachments)|..] == [child];
    }

    /** Lines 93-269 for the dequeued actor `current`: for each of its
     *  links, spawn the link's children when it has none, then place each
     *  live child, and enqueue and register those placed. */
    method Expand(engine: Engine, current: Handle, queue: seq<Handle>, visited: set<Handle>,
                  ghost expanded: seq<Handle>)
      returns (queue': seq<Handle>, visited': set<Handle>)
      requires Valid() && WellFormed(engine) && current in world
      requires Enqueued(expanded + queue, visited) && visited <= world.Keys
      requires forall x :: x in spawnedAttachments ==> x in visited
      modifies this
      ensures Valid() && baseAttachments == old(baseAttachments)
      ensures SameMeshes(old(world), world)
      ensures Enqueued(expanded + queue', visited') && visited' <= world.Keys && queue <= queue'
      ensures forall x :: x in spawnedAttachments ==> x in visited'
      ensures old(spawnedAttachments) <= spawnedAttachments
      ensures AllMounted(world, spawnedAttachments[|old(spawnedAttachments)|..])
    {
      var n := |world[current].links|;
      queue', visited' := queue, visited;
      var li := 0;
      while li < n
        invariant 0 <= li <= n
        invariant Valid() && baseAttachments == old(baseAttachments)
        invariant current in world && |world[current].links| == n
        invariant SameMeshes(old(world), world)
        invariant Enqueued(expanded + queue', visited') && visited' <= world.Keys && queue <= queue'
        invariant forall x :: x in spawnedAttachments ==> x in visited'
        invariant old(spawnedAttachments) <= spawnedAttachments
        invariant AllMounted(world, spawnedAttachments[|old(spawnedAttachments)|..])
      {
        ghost var wb, sb := world, spawnedAttachments;
        SpawnLinkChildren(engine, current, li);
        SameMeshesTrans(old(world), wb, world);
        MountedExtend(wb, world, old(spawnedAttachments), sb, sb);
        ghost var wm := world;
        queue', visited' := PlaceLinkChildren(engine, current, li, queue', visited', expanded);
        SameMeshesTrans(old(world), wm, world);
        MountedExtend(wm, world, old(spawnedAttachments), sb, spawnedAttachments);
        li := li + 1;
      }
    }

    /** Lines 57-81 for one non-null base class: spawn it; on success
     *  attach its mesh to the weapon's root with the identity transform
     *  when the weapon and the mesh exist, and register it. */
    method AddRoot(engine: Engine, c: ClassId) returns (h: Option<Handle>)
      requires Valid() && WellFormed(engine)
      modifies this
      ensures Valid() && baseAttachments == old(baseAttachments)
      ensures SameMeshes(old(world), world)
      ensures engine.spawnSucceeds(c, old(nextHandle)) ==>
                h == Some(old(nextHandle)) && nextHandle == old(nextHandle) + 1
                && spawnedAttachments == old(spawnedAttachments) + [old(nextHandle)]
                && (engine.weaponRoot && world[h.value].hasMesh ==>
                      world[h.value].mount == Some(AttachPoint(Nothing, Nothing, Identity)))
      ensures !engine.spawnSucceeds(c, old(nextHandle)) ==>
                h == Nothing && nextHandle == old(nextHandle) && world == old(world)
                && spawnedAttachments == old(spawnedAttachments) && spawnedMeshes == old(spawnedMeshes)
    {
      h := Spawn(engine, c);
      if h.Nothing? {
        return;
      }
      var root := h.value;
      if engine.weaponRoot && world[root].hasMesh {
        var m := AttachPoint(Nothing, Nothing, Identity);
        SameShapeOk(world, MountAt(world, root, m), nextHandle);
        SameMeshesSpawned(world, MountAt(world, root, m), spawnedAttachments, spawnedMeshes);
        world := MountAt(world, root, m);
      }
      assert root !in spawnedAttachments;
      spawnedAttachments := spawnedAttachments + [root];
      spawnedMeshes := spawnedMeshes[root := MeshOfActor(root, world[root])];
    }

    /** Lines 53-82: spawn an actor per non-null base class, attach and
     *  register each one spawned, and enqueue and visit it.  Starts from
     *  nothing registered. */
    method SpawnBase(engine: Engine) returns (queue: seq<Handle>, visited: set<Handle>)
      requires Valid() && WellFormed(engine) && spawnedAttachments == []
      modifies this
      ensures Valid() && baseAttachments == old(baseAttachments)
      ensures var roots := Successes(engine.spawnSucceeds, baseAttachments, old(nextHandle), |baseAttachments|);
              |spawnedAttachments| == |roots|
              && (forall t :: 0 <= t < |roots| ==> spawnedAttachments[t] == old(nextHandle) + t)
      ensures engine.weaponRoot ==> forall x :: x in spawnedAttachments && world[x].hasMesh ==> world[x].mount.Some?
      ensures queue == spawnedAttachments && Enqueued(queue, visited) && visited <= world.Keys
    {
      ghost var next0 := nextHandle;
      queue, visited := [], {};
      var j := 0;
      while j < |baseAttachments|
        invariant 0 <= j <= |baseAttachments|
        invariant Valid() && baseAttachments == old(baseAttachments)
        invariant var roots := Successes(engine.spawnSucceeds, baseAttachments, next0, j);
                  |spawnedAttachments| == |roots| && nextHandle == next0 + |roots|
                  && (forall t :: 0 <= t < |roots| ==> spawnedAttachments[t] == next0 + t)
        invariant engine.weaponRoot ==> forall x :: x in spawnedAttachments && world[x].hasMesh ==> world[x].mount.Some?
        invariant queue == spawnedAttachments && Enqueued(queue, visited) && visited <= world.Keys
      {
        SuccessesNext(engine, baseAttachments, next0, j);
        queue, visited := AddBase(engine, baseAttachments[j], queue, visited);
        j := j + 1;
      }
    }

    /** Lines 54-81 for one base class: skip a null class, else spawn,
     *  attach and register it, and enqueue and visit it. */
    method AddBase(engine: Engine, cls: Option<ClassId>, queue: seq<Handle>, visited: set<Handle>)
      returns (queue': seq<Handle>, visited': set<Handle>)
      requires Valid() && WellFormed(engine)
      requires engine.weaponRoot ==> forall x :: x in spawnedAttachments && world[x].hasMesh ==> world[x].mount.Some?
      requires queue == spawnedAttachments && Enqueued(queue, visited) && visited <= world.Keys
      modifies this
      ensures Valid() && baseAttachments == old(baseAttachments)
      ensures cls.Some? && engine.spawnSucceeds(cls.value, old(nextHandle)) ==>
                nextHandle == old(nextHandle) + 1 && spawnedAttachments == old(spawnedAttachments) + [old(nextHandle)]
      ensures !(cls.Some? && engine.spawnSucceeds(cls.value, old(nextHandle))) ==>
                nextHandle == old(nextHandle) && spawnedAttachments == old(spawnedAttachments)
      ensures engine.weaponRoot ==> forall x :: x in spawnedAttachments && world[x].hasMesh ==> world[x].mount.Some?
      ensures queue' == spawnedAttachments && Enqueued(queue', visited') && visited' <= world.Keys
    {
      queue', visited' := queue, visited;
      if cls.Nothing? {
        return;
      }
      var h := AddRoot(engine, cls.value);
      if h.Some? {
        EnqueueFresh([], queue', visited', h.value);
        queue' := queue' + [h.value];
        visited' := visited' + {h.value};
      }
    }

    /** `BuildWeapon`.  Without authority the request is forwarded to the
     *  server and nothing changes here.  With it: clear the old weapon,
     *  spawn the base attachments, then expand actors breadth first (at
     *  most `fuel` of them), and broadcast the registered actors.  The base
     *  attachments are registered first, in order; every other registered
     *  actor was placed or attached under its parent; no actor is expanded
     *  or registered twice; and once the queue runs dry every registered
     *  actor has been expanded. */
    method BuildWeapon(engine: Engine, fuel: nat) returns (broadcast: Option<seq<Handle>>, ghost expanded: seq<Handle>)
      requires Valid() && WellFormed(engine)
      modifies this
      ensures Valid() && baseAttachments == old(baseAttachments)
      ensures !engine.hasAuthority ==>
                broadcast == Nothing && world == old(world) && nextHandle == old(nextHandle)
                && spawnedAttachments == old(spawnedAttachments) && spawnedMeshes == old(spawnedMeshes)
      ensures engine.hasAuthority ==> broadcast == Some(spawnedAttachments)
      ensures engine.hasAuthority ==>
                var roots := Successes(engine.spawnSucceeds, baseAttachments, old(nextHandle), |baseAttachments|);
                |roots| <= |spawnedAttachments|
                && (forall t :: 0 <= t < |roots| ==> spawnedAttachments[t] == old(nextHandle) + t)
                && AllMounted(world, spawnedAttachments[|roots|..])
                && (engine.weaponRoot ==> forall x :: x in spawnedAttachments[..|roots|] && world[x].hasMesh ==> world[x].mount.Some?)
      ensures engine.hasAuthority ==> Distinct(expanded) && |expanded| <= fuel
      ensures engine.hasAuthority && |expanded| < fuel ==> forall x :: x in spawnedAttachments ==> x in expanded
    {
      expanded := [];
      if !engine.hasAuthority {
        return Nothing, expanded;
      }
      ClearWeapon(engine);
      ghost var next0 := nextHandle;
      var queue, visited := SpawnBase(engine);
      ghost var roots := spawnedAttachments;
      ghost var w0 := world;
      var steps := 0;
      while queue != [] && steps < fuel
        invariant Valid() && baseAttachments == old(baseAttachments)
        invariant Enqueued(expanded + queue, visited) && visited <= world.Keys
        invariant forall x :: x in spawnedAttachments ==> x in visited
        invariant steps == |expanded| <= fuel
        invariant roots <= spawnedAttachments
        invariant SameMeshes(w0, world)
        invariant AllMounted(world, spawnedAttachments[|roots|..])
        decreases fuel - steps
      {
        var current := queue[0];
        assert expanded + queue == (expanded + [current]) + queue[1..];
        expanded := expanded + [current];
        queue := queue[1..];
        ghost var wb, sb := world, spawnedAttachments;
        queue, visited := Expand(engine, current, queue, visited, expanded);
        SameMeshesTrans(w0, wb, world);
        MountedExtend(wb, world, roots, sb, spawnedAttachments);
        steps := steps + 1;
      }
      assert spawnedAttachments[..|roots|] == roots;
      DistinctPrefix(expanded, queue);
      broadcast := Some(spawnedAttachments);
    }

    /** `ClearWeapon`.  Without authority the request is forwarded and
     *  nothing changes here.  With it, every actor reachable from a
     *  registered one has its mesh detached, every other actor is left as
     *  it was, and nothing stays registered.  Clearing with nothing
     *  registered changes nothing, so clearing twice is clearing once. */
    method ClearWeapon(engine: Engine)
      requires Valid()
      modifies this
      ensures Valid()
      ensures nextHandle == old(nextHandle) && baseAttachments == old(baseAttachments)
      ensures !engine.hasAuthority ==>
                world == old(world) && spawnedAttachments == old(spawnedAttachments) && spawnedMeshes == old(spawnedMeshes)
      ensures engine.hasAuthority ==>
                spawnedAttachments == [] && spawnedMeshes == map[] && world.Keys == old(world).Keys
                && forall x :: x in old(world) ==>
                     world[x] == if ReachedFrom(Graph(old(world)), old(spawnedAttachments), x) then Detached(old(world)[x])
                                 else old(world)[x]
      ensures engine.hasAuthority && old(spawnedAttachments) == [] ==> world == old(world)
    {
      if !engine.hasAuthority {
        return;
      }
      var w := ClearAll(world, spawnedAttachments, spawnedMeshes);
      DetachedOk(world, w, nextHandle, spawnedAttachments);
      world := w;
      spawnedAttachments := [];
      spawnedMeshes := map[];
    }

    /** `GetAttachmentAtSocket`: search depth first from each registered
     *  actor in turn, sharing one visited set.  Finds an actor of category
     *  `c` that a registered actor reaches, and finds nothing only when no
     *  actor a registered one reaches has category `c`. */
    method GetAttachmentAtSocket(c: Category) returns (found: Option<Handle>)
      requires Valid()
      ensures found.Some? ==>
                found.value in world && world[found.value].info.category == c
                && ReachedFrom(Graph(world), spawnedAttachments, found.value)
      ensures found.Nothing? ==>
                forall x :: x in world && ReachedFrom(Graph(world), spawnedAttachments, x) ==> world[x].info.category != c
    {
      var visited: set<Handle> := {};
      var i := 0;
      while i < |spawnedAttachments|
        invariant 0 <= i <= |spawnedAttachments|
        invariant Searched(world, c, {}, visited)
        invariant forall k :: 0 <= k < i ==> spawnedAttachments[k] in visited
      {
        var f;
        ghost var v1 := visited;
        f, visited := FindAttachmentRecursive(world, spawnedAttachments[i], c, visited);
        if f.Some? {
          return f;
        }
        SearchedTrans(world, c, {}, v1, visited);
        i := i + 1;
      }
      NothingReached(world, c, spawnedAttachments, visited);
      return Nothing;
    }
  }
}
