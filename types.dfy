/**
 * Shared enums and records of the attachment system: attachment
 * categories, bullet types, durability modes, attachment links and the
 * per-attachment and per-weapon data rows, with their declared defaults.
 * Engine objects (actors, attachment classes, mesh components) are named
 * by integer handles; a null pointer is `Nothing`.
 */
module AttachmentTypes {

  datatype Option<T> = Nothing | Some(value: T)

  /** C++ `int32`. */
  type Int32 = x: int | -0x8000_0000 <= x < 0x8000_0000

  /** Two's-complement wrap-around of an integer into `int32`: what an
   *  overflowing `int32` sum, undefined behaviour in C++, gives on common
   *  targets. */
  function Wrap32(x: int): (r: Int32)
    ensures -0x8000_0000 <= x < 0x8000_0000 ==> r == x
    ensures (r - x) % 0x1_0000_0000 == 0
  {
    (x + 0x8000_0000) % 0x1_0000_0000 - 0x8000_0000
  }

  /** `FMath::Clamp(x, lo, hi)` on integers: `x < lo ? lo : x < hi ? x : hi`. */
  function ClampInt(x: int, lo: int, hi: int): (r: int)
    ensures lo <= hi ==> lo <= r <= hi
    ensures lo <= x <= hi ==> r == x
    ensures x < lo ==> r == lo
  {
    if x < lo then lo else if x < hi then x else hi
  }

  /** `FMath::Clamp(x, lo, hi)` on floats, modelled as reals. */
  function ClampReal(x: real, lo: real, hi: real): (r: real)
    ensures lo <= hi ==> lo <= r <= hi
    ensures lo <= x <= hi ==> r == x
    ensures x < lo ==> r == lo
  {
    if x < lo then lo else if x < hi then x else hi
  }

  /** An actor (attachment) in the world. */
  type Handle = nat

  /** An attachment class (`TSubclassOf<AAttachment>`). */
  type ClassId = nat

  /** An actor's skeletal mesh component, named by its owning actor. */
  datatype MeshRef = MeshOf(owner: Handle)

  /** `FTransform`, kept abstract: the identity, an authored offset, or the
   *  transform the rail spline yields at a distance along it. */
  datatype Transform = Identity | Authored(tag: nat) | AlongSpline(distance: real)

  /** `EWeaponDurabilityMode`. */
  datatype DurabilityMode = Average | Minimum | Maximum

  /** `EAttachmentCategory`, in declaration order. */
  datatype Category =
    | MonolithicReceiver | UpperReceiver | LowerReceiver
    | PistolSlide | PistolFrame
    | Optic | IronSights
    | Barrel | MuzzleDevice | Suppressor | GasBlock
    | Underbarrel | Foregrip | TacticalDevice | Laser | Flashlight
    | Trigger | FiringControlGroup | ActionReturnSpringAssembly | BufferTube
    | ChargingHandle | BoltCarrierGroup
    | Stock | HandGrip | PistolGripInsert | RecoilPad
    | Magazine
    | Rail | RailCover | Mount | OpticMount
    | EjectionPortCover | Charm

  /** `EBulletType`: `None` is the "no bullet" sentinel. */
  datatype BulletType =
    | None | Standard_FMJ | ArmorPiercing | HollowPoint_SP | Tracer | Subsonic | Hunting_JSP

  /** `FAttachmentLink`: the classes to spawn under a parent's link, the
   *  local offset from the socket, the desired rail slot and the live
   *  (transient) child instances, a null entry being `Nothing`. */
  datatype Link = Link(
    childClasses: seq<Option<ClassId>>,
    offset: Transform,
    startSlot: Int32,
    childInstances: seq<Option<Handle>>)

  /** A link as declared: identity offset, slot 0, no live instances. */
  function NewLink(classes: seq<Option<ClassId>>): (l: Link)
    ensures l.childClasses == classes && l.offset == Identity
    ensures l.startSlot == 0 && l.childInstances == []
  {
    Link(classes, Identity, 0, [])
  }

  /** `FAttachmentInfo` (the fields this model uses). */
  datatype AttachmentInfo = AttachmentInfo(
    category: Category,
    useRail: bool,
    size: Int32,
    startSlot: Int32,
    durability: real)

  /** An info row with the declared defaults for everything but its category. */
  function NewAttachmentInfo(category: Category): (info: AttachmentInfo)
    ensures info.category == category && !info.useRail
    ensures info.size == 1 && info.startSlot == 0 && info.durability == 100.0
  {
    AttachmentInfo(category, false, 1, 0, 100.0)
  }

  /** `FAttachmentCurrentState.Durability` and `FWeaponCurrentState.Durability` start here. */
  const InitialDurability: real := 100.0

  /** `FAttachmentCurrentState`: a part's durability at run time. */
  datatype AttachmentCurrentState = AttachmentCurrentState(durability: real)

  /** `FWeaponCurrentState`: the weapon's durability and the live
   *  attachments (and their meshes) it registered. */
  datatype WeaponCurrentState = WeaponCurrentState(
    durability: real,
    activeAttachments: seq<Handle>,
    activeAttachmentMeshes: seq<MeshRef>)

  /** Both current states as declared: full durability, nothing registered. */
  function NewAttachmentCurrentState(): (st: AttachmentCurrentState)
    ensures st.durability == InitialDurability
  {
    AttachmentCurrentState(100.0)
  }

  function NewWeaponCurrentState(): (st: WeaponCurrentState)
    ensures st.durability == InitialDurability
    ensures st.activeAttachments == [] && st.activeAttachmentMeshes == []
  {
    WeaponCurrentState(100.0, [], [])
  }

  /** `FWeaponInfo` (the fields this model uses). */
  datatype WeaponInfo = WeaponInfo(
    defaultDurabilityMode: DurabilityMode,
    linkedAttachments: seq<Option<ClassId>>)

  /** A weapon info row with the declared default mode. */
  function NewWeaponInfo(linked: seq<Option<ClassId>>): (info: WeaponInfo)
    ensures info.defaultDurabilityMode == Average && info.linkedAttachments == linked
  {
    WeaponInfo(Average, linked)
  }

  /**
   * The socket name of a category: the enum value's own name, as
   * `GetSocketFromCategory` obtains it from the reflected enum.
   */
  function SocketName(c: Category): string
  {
    match c
    case MonolithicReceiver => "MonolithicReceiver"
    case UpperReceiver => "UpperReceiver"
    case LowerReceiver => "LowerReceiver"
    case PistolSlide => "PistolSlide"
    case PistolFrame => "PistolFrame"
    case Optic => "Optic"
    case IronSights => "IronSights"
    case Barrel => "Barrel"
    case MuzzleDevice => "MuzzleDevice"
    case Suppressor => "Suppressor"
    case GasBlock => "GasBlock"
    case Underbarrel => "Underbarrel"
    case Foregrip => "Foregrip"
    case TacticalDevice => "TacticalDevice"
    case Laser => "Laser"
    case Flashlight => "Flashlight"
    case Trigger => "Trigger"
    case FiringControlGroup => "FiringControlGroup"
    case ActionReturnSpringAssembly => "ActionReturnSpringAssembly"
    case BufferTube => "BufferTube"
    case ChargingHandle => "ChargingHandle"
    case BoltCarrierGroup => "BoltCarrierGroup"
    case Stock => "Stock"
    case HandGrip => "HandGrip"
    case PistolGripInsert => "PistolGripInsert"
    case RecoilPad => "RecoilPad"
    case Magazine => "Magazine"
    case Rail => "Rail"
    case RailCover => "RailCover"
    case Mount => "Mount"
    case OpticMount => "OpticMount"
    case EjectionPortCover => "EjectionPortCover"
    case Charm => "Charm"
  }

  /** The enum's underlying value (`static_cast<int64>(Category)`). */
  function Ordinal(c: Category): (k: nat)
    ensures k < 33
  {
    match c
    case MonolithicReceiver => 0
    case UpperReceiver => 1
    case LowerReceiver => 2
    case PistolSlide => 3
    case PistolFrame => 4
    case Optic => 5
    case IronSights => 6
    case Barrel => 7
    case MuzzleDevice => 8
    case Suppressor => 9
    case GasBlock => 10
    case Underbarrel => 11
    case Foregrip => 12
    case TacticalDevice => 13
    case Laser => 14
    case Flashlight => 15
    case Trigger => 16
    case FiringControlGroup => 17
    case ActionReturnSpringAssembly => 18
    case BufferTube => 19
    case ChargingHandle => 20
    case BoltCarrierGroup => 21
    case Stock => 22
    case HandGrip => 23
    case PistolGripInsert => 24
    case RecoilPad => 25
    case Magazine => 26
    case Rail => 27
    case RailCover => 28
    case Mount => 29
    case OpticMount => 30
    case EjectionPortCover => 31
    case Charm => 32
  }

  /** Length, first and next-to-last character of each socket name. */
  function NameKey(c: Category): (int, char, char)
  {
    match c
    case MonolithicReceiver => (18, 'M', 'e')
    case UpperReceiver => (13, 'U', 'e')
    case LowerReceiver => (13, 'L', 'e')
    case PistolSlide => (11, 'P', 'd')
    case PistolFrame => (11, 'P', 'm')
    case Optic => (5, 'O', 'i')
    case IronSights => (10, 'I', 't')
    case Barrel => (6, 'B', 'e')
    case MuzzleDevice => (12, 'M', 'c')
    case Suppressor => (10, 'S', 'o')
    case GasBlock => (8, 'G', 'c')
    case Underbarrel => (11, 'U', 'e')
    case Foregrip => (8, 'F', 'i')
    case TacticalDevice => (14, 'T', 'c')
    case Laser => (5, 'L', 'e')
    case Flashlight => (10, 'F', 'h')
    case Trigger => (7, 'T', 'e')
    case FiringControlGroup => (18, 'F', 'u')
    case ActionReturnSpringAssembly => (26, 'A', 'l')
    case BufferTube => (10, 'B', 'b')
    case ChargingHandle => (14, 'C', 'l')
    case BoltCarrierGroup => (16, 'B', 'u')
    case Stock => (5, 'S', 'c')
    case HandGrip => (8, 'H', 'i')
    case PistolGripInsert => (16, 'P', 'r')
    case RecoilPad => (9, 'R', 'a')
    case Magazine => (8, 'M', 'n')
    case Rail => (4, 'R', 'i')
    case RailCover => (9, 'R', 'e')
    case Mount => (5, 'M', 'n')
    case OpticMount => (10, 'O', 'n')
    case EjectionPortCover => (17, 'E', 'e')
    case Charm => (5, 'C', 'r')
  }

  /** The category with a given name key; no two categories share a key. */
  function CategoryOfKey(k: (int, char, char)): Option<Category>
  {
    if k == (18, 'M', 'e') then Some(MonolithicReceiver)
    else if k == (13, 'U', 'e') then Some(UpperReceiver)
    else if k == (13, 'L', 'e') then Some(LowerReceiver)
    else if k == (11, 'P', 'd') then Some(PistolSlide)
    else if k == (11, 'P', 'm') then Some(PistolFrame)
    else if k == (5, 'O', 'i') then Some(Optic)
    else if k == (10, 'I', 't') then Some(IronSights)
    else if k == (6, 'B', 'e') then Some(Barrel)
    else if k == (12, 'M', 'c') then Some(MuzzleDevice)
    else if k == (10, 'S', 'o') then Some(Suppressor)
    else if k == (8, 'G', 'c') then Some(GasBlock)
    else if k == (11, 'U', 'e') then Some(Underbarrel)
    else if k == (8, 'F', 'i') then Some(Foregrip)
    else if k == (14, 'T', 'c') then Some(TacticalDevice)
    else if k == (5, 'L', 'e') then Some(Laser)
    else if k == (10, 'F', 'h') then Some(Flashlight)
    else if k == (7, 'T', 'e') then Some(Trigger)
    else if k == (18, 'F', 'u') then Some(FiringControlGroup)
    else if k == (26, 'A', 'l') then Some(ActionReturnSpringAssembly)
    else if k == (10, 'B', 'b') then Some(BufferTube)
    else if k == (14, 'C', 'l') then Some(ChargingHandle)
    else if k == (16, 'B', 'u') then Some(BoltCarrierGroup)
    else if k == (5, 'S', 'c') then Some(Stock)
    else if k == (8, 'H', 'i') then Some(HandGrip)
    else if k == (16, 'P', 'r') then Some(PistolGripInsert)
    else if k == (9, 'R', 'a') then Some(RecoilPad)
    else if k == (8, 'M', 'n') then Some(Magazine)
    else if k == (4, 'R', 'i') then Some(Rail)
    else if k == (9, 'R', 'e') then Some(RailCover)
    else if k == (5, 'M', 'n') then Some(Mount)
    else if k == (10, 'O', 'n') then Some(OpticMount)
    else if k == (17, 'E', 'e') then Some(EjectionPortCover)
    else if k == (5, 'C', 'r') then Some(Charm)
    else Nothing
  }

  // The key of each name, checked in three groups of categories.

  lemma NameKeyLow(c: Category)
    requires Ordinal(c) < 11
    ensures var n := SocketName(c); |n| >= 2 && NameKey(c) == (|n|, n[0], n[|n| - 2])
  {
  }

  lemma NameKeyMid(c: Category)
    requires 11 <= Ordinal(c) < 22
    ensures var n := SocketName(c); |n| >= 2 && NameKey(c) == (|n|, n[0], n[|n| - 2])
  {
  }

  lemma NameKeyHigh(c: Category)
    requires 22 <= Ordinal(c)
    ensures var n := SocketName(c); |n| >= 2 && NameKey(c) == (|n|, n[0], n[|n| - 2])
  {
  }

  lemma NameKeyOfSocketName(c: Category)
    ensures var n := SocketName(c); |n| >= 2 && NameKey(c) == (|n|, n[0], n[|n| - 2])
  {
    if Ordinal(c) < 11 { NameKeyLow(c); }
    else if Ordinal(c) < 22 { NameKeyMid(c); }
    else { NameKeyHigh(c); }
  }

  lemma KeyRoundTripLow(c: Category)
    requires Ordinal(c) < 11
    ensures CategoryOfKey(NameKey(c)) == Some(c)
  {
  }

  lemma KeyRoundTripMid(c: Category)
    requires 11 <= Ordinal(c) < 22
    ensures CategoryOfKey(NameKey(c)) == Some(c)
  {
  }

  lemma KeyRoundTripHigh(c: Category)
    requires 22 <= Ordinal(c)
    ensures CategoryOfKey(NameKey(c)) == Some(c)
  {
  }

  lemma NameKeyRoundTrip(c: Category)
    ensures CategoryOfKey(NameKey(c)) == Some(c)
  {
    if Ordinal(c) < 11 { KeyRoundTripLow(c); }
    else if Ordinal(c) < 22 { KeyRoundTripMid(c); }
    else { KeyRoundTripHigh(c); }
  }

  /** Distinct categories give distinct sockets. */
  lemma SocketNameInjective(c: Category, d: Category)
    ensures SocketName(c) == SocketName(d) <==> c == d
  {
    if SocketName(c) == SocketName(d) {
      NameKeyOfSocketName(c);
      NameKeyOfSocketName(d);
      NameKeyRoundTrip(c);
      NameKeyRoundTrip(d);
    }
  }
}
