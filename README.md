# Attachment system core, modelled in Dafny

This project models the runtime core of the `AttachmentSystem` Unreal Engine
plugin: the pieces that assemble a weapon from attachments and keep its
ammunition and wear.

- **Rail slot allocator** (`RailSlots`, `rail.dfy`). A rail attachment keeps
  a 64-bit occupancy mask, one bit per slot, and the set of attachments
  mounted on it. `MakeMask` builds the run of bits an item covers.
  `CanPlaceAttachment` checks bounds and overlap. `PlaceAttachment` ORs a run
  into the mask and `RemoveAttachment` clears it. `uint64` arithmetic is
  modelled bit by bit in `Uint64` (`uint64.dfy`).
- **Magazine** (`Magazine`, `magazine.dfy`). A first-in first-out buffer of
  bullet types with a capacity of 30, together with its fill, drain and
  non-destructive dump loops.
- **Chamber** (`Chamber`, `barrel.dfy`). The barrel's optional chambered
  round, kept in step with a replicated enum in which `None` means empty.
- **Weapon** (`Weapons`, `weapon.dfy`). Firing takes the magazine's front
  round and wears the weapon. Durability is aggregated over the spawned
  parts as an average, a minimum or a maximum. `HandleWeaponBuilt` registers
  the parts and picks the last magazine among them.
- **Weapon builder of the plugin** (`WeaponBuilder`, `builder.dfy`).
  - An authority gate.
  - A breadth-first build with a visited set. It spawns a link's children
    only when the link has none.
  - The rail sweep at distances 0, 2.5, 5, … along the rail.
  - Rejected children are destroyed, and no actor is registered twice.
  - `ClearWeapon`, and a depth-first search by category.
- **Weapon builder of the older `AttachmentSystem` module**
  (`LegacyBuilder`, `legacy_builder.dfy`).
  - One child per link.
  - Every live child is registered, attached or not.
  - A serialiser of an attachment tree into stored data, and a respawner
    that rebuilds actors from stored data.
- **Types** (`AttachmentTypes`, `types.dfy`). Categories, bullet types,
  durability modes, links and data rows, with their declared defaults, and
  the socket name of each category.
- `ActorGraph` (`graph.dfy`) gives reachability over child links. Both
  builders use it.

Actors live in an arena: a `map` from integer handles to actor values,
owned by the builder object. A null pointer is `Nothing`. The engine's
answers are fields of an `Engine` value that stays fixed during a call:
whether a spawn succeeds, whether a socket exists, whether a box overlaps
something, the spline's length and the slot at a distance. Floats are
modelled as reals.

## Model

| member | source | states |
|---|---|---|
| AttachmentTypes.Wrap32 | Plugins/AttachmentSystem/Source/AttachmentSystem/Private/Actors/RailAttachment.cpp:30 | `int32` arithmetic as common targets carry out an overflow, which C++ leaves undefined: the result is an `int32` that is congruent to the exact value modulo 2^32, and equal to it when it fits |
| AttachmentTypes.ClampInt | Plugins/AttachmentSystem/Source/AttachmentSystem/Private/Actors/RailAttachment.cpp:82 | `FMath::Clamp` on integers stays within `[lo, hi]`, is the identity inside that range, and gives `lo` below it |
| AttachmentTypes.ClampReal | Plugins/AttachmentSystem/Source/AttachmentSystemPlugin/Private/Actors/Weapon.cpp:196-200 | `FMath::Clamp` on floats has the same three properties |
| AttachmentTypes.NewLink | Plugins/AttachmentSystem/Source/AttachmentSystemPlugin/Public/Misc/AttachmentSystemTypes.h:288-322 | a declared link has an identity offset, start slot 0 and no live instances |
| AttachmentTypes.NewAttachmentInfo | Plugins/AttachmentSystem/Source/AttachmentSystemPlugin/Public/Misc/AttachmentSystemTypes.h:372-393 | info defaults: no rail use, size 1, start slot 0, durability 100 |
| AttachmentTypes.NewAttachmentCurrentState | Plugins/AttachmentSystem/Source/AttachmentSystemPlugin/Public/Misc/AttachmentSystemTypes.h:396-407 | a part's current durability starts at 100 |
| AttachmentTypes.NewWeaponCurrentState | Plugins/AttachmentSystem/Source/AttachmentSystemPlugin/Public/Misc/AttachmentSystemTypes.h:426-451 | the weapon's current durability starts at 100, with no active attachments or meshes |
| AttachmentTypes.NewWeaponInfo | Plugins/AttachmentSystem/Source/AttachmentSystemPlugin/Public/Misc/AttachmentSystemTypes.h:409-424 | the default durability mode is `Average` |
| AttachmentTypes.Ordinal | Plugins/AttachmentSystem/Source/AttachmentSystemPlugin/Public/Misc/AttachmentSystemTypes.h:28-173 | every category's ordinal is below 33, the number of declared categories |
| AttachmentTypes.NameKeyRoundTrip | Plugins/AttachmentSystem/Source/AttachmentSystemPlugin/Private/Components/WeaponBuilderComponent.cpp:488-495 | the category is recovered from the length and two characters of its socket name |
| AttachmentTypes.SocketNameInjective | Plugins/AttachmentSystem/Source/AttachmentSystemPlugin/Private/Components/WeaponBuilderComponent.cpp:488-495 | distinct categories get distinct socket names |
| Uint64.ShlOne | Plugins/AttachmentSystem/Source/AttachmentSystem/Private/Actors/RailAttachment.cpp:19 | `1ULL << n` is `2^n` while `n` is below the word width |
| Uint64.SubNoWrap | Plugins/AttachmentSystem/Source/AttachmentSystem/Private/Actors/RailAttachment.cpp:19 | the `- 1ULL` of `MakeMask` does not wrap when the minuend is at least 1 |
| Uint64.OrBit | Plugins/AttachmentSystem/Source/AttachmentSystem/Private/Actors/RailAttachment.cpp:46 | bit `i` of `a \| b` is set iff it is set in `a` or in `b` |
| Uint64.AndBit | Plugins/AttachmentSystem/Source/AttachmentSystem/Private/Actors/RailAttachment.cpp:35 | bit `i` of `a & b` is set iff it is set in both |
| Uint64.NotBit | Plugins/AttachmentSystem/Source/AttachmentSystem/Private/Actors/RailAttachment.cpp:68 | `~a` flips each of the 64 bits |
| Uint64.ShlBit | Plugins/AttachmentSystem/Source/AttachmentSystem/Private/Actors/RailAttachment.cpp:19 | bit `i` of `x << s` is bit `i - s` of `x` for `s <= i < 64`, and clear otherwise |
| Uint64.Ext64 | Plugins/AttachmentSystem/Source/AttachmentSystem/Private/Actors/RailAttachment.cpp:15-20 | two words that agree on every bit are equal |
| Uint64.ZeroIff | Plugins/AttachmentSystem/Source/AttachmentSystem/Private/Actors/RailAttachment.cpp:35 | a word is 0 iff none of its bits is set |
| RailSlots.SlotsOr | Plugins/AttachmentSystem/Source/AttachmentSystem/Private/Actors/RailAttachment.cpp:46 | the slots of `a \| b` are the union of the slots of each |
| RailSlots.SlotsAnd | Plugins/AttachmentSystem/Source/AttachmentSystem/Private/Actors/RailAttachment.cpp:35 | the slots of `a & b` are the intersection |
| RailSlots.SlotsAndNot | Plugins/AttachmentSystem/Source/AttachmentSystem/Private/Actors/RailAttachment.cpp:68 | the slots of `a & ~b` are those of `a` minus those of `b` |
| RailSlots.SlotsInjective | Plugins/AttachmentSystem/Source/AttachmentSystem/Private/Actors/RailAttachment.cpp:15-20 | a mask is determined by its set of slots |
| RailSlots.AndZeroIff | Plugins/AttachmentSystem/Source/AttachmentSystem/Private/Actors/RailAttachment.cpp:35 | `(a & b) == 0` iff the slot sets are disjoint |
| RailSlots.EmptySlots | Plugins/AttachmentSystem/Source/AttachmentSystem/Private/Actors/RailAttachment.cpp:12 | the empty mask 0 occupies no slot |
| RailSlots.MakeMaskSlots | Plugins/AttachmentSystem/Source/AttachmentSystem/Private/Actors/RailAttachment.cpp:15-20 | `MakeMask(s, n)` has exactly the slots `s .. s+n-1` that exist in the word: none for `n <= 0`, and from `s` to the top for `n >= 64` |
| RailSlots.RunOfBit | Plugins/AttachmentSystem/Source/AttachmentSystem/Private/Actors/RailAttachment.cpp:19 | the unshifted run has exactly its low `n` bits set |
| RailSlots.MakeMaskEmpty | Plugins/AttachmentSystem/Source/AttachmentSystem/Private/Actors/RailAttachment.cpp:18 | `MakeMask` is 0 when the size is not positive |
| RailSlots.MakeMaskFull | Plugins/AttachmentSystem/Source/AttachmentSystem/Private/Actors/RailAttachment.cpp:19 | a size of 64 or more from slot 0 gives all ones |
| RailSlots.PlaceRemoveRoundTrip | Plugins/AttachmentSystem/Source/AttachmentSystem/Private/Actors/RailAttachment.cpp:38-71 | ORing in a free run and then clearing it gives back the mask exactly |
| RailSlots.InBoundsOverflow | Plugins/AttachmentSystem/Source/AttachmentSystem/Private/Actors/RailAttachment.cpp:30 | the bounds guard as written, with an `int32` sum that overflows (undefined behaviour; wraps on common targets), accepts start 1 and size `INT32_MAX` on a 15-slot rail; the mask then claims slot 20 |
| RailSlots.InBoundsFits | Plugins/AttachmentSystem/Source/AttachmentSystem/Private/Actors/RailAttachment.cpp:30 | with the sum computed exactly, an item that passes the guard lies on slots `0 .. NumSlots-1` and its mask is defined |
| RailSlots.CanPlace | Plugins/AttachmentSystem/Source/AttachmentSystem/Private/Actors/RailAttachment.cpp:22-36 | true iff the rail has slots, the run starts at or after 0 and ends within the rail, and the run meets no occupied slot |
| RailSlots.OccupiedAdd | Plugins/AttachmentSystem/Source/AttachmentSystem/Private/Actors/RailAttachment.cpp:45-47 | mounting a run that meets no mounted run adds exactly that run to the occupied slots and keeps the runs pairwise disjoint |
| RailSlots.OccupiedRemove | Plugins/AttachmentSystem/Source/AttachmentSystem/Private/Actors/RailAttachment.cpp:67-70 | dismounting frees exactly the attachment's run and keeps the others disjoint |
| RailSlots.PlaceKeepsInvariant | Plugins/AttachmentSystem/Source/AttachmentSystem/Private/Actors/RailAttachment.cpp:45-47 | ORing in a free run that lies on the rail keeps "mask = union of mounted runs, pairwise disjoint, on the rail" |
| RailSlots.RemoveKeepsInvariant | Plugins/AttachmentSystem/Source/AttachmentSystem/Private/Actors/RailAttachment.cpp:67-70 | clearing a mounted attachment's run keeps the same invariant and frees exactly that run |
| RailSlots.ClampedSlot | Plugins/AttachmentSystem/Source/AttachmentSystem/Private/Actors/RailAttachment.cpp:82 | the clamped slot lies in `0 .. NumSlots-1`; a slot inside that range is kept, and one above it becomes the last slot |
| RailSlots.RailAttachment.constructor | Plugins/AttachmentSystem/Source/AttachmentSystem/Private/Actors/RailAttachment.cpp:4-13 | a new rail has 15 slots, spacing 2.54, mask 0 and nothing mounted |
| RailSlots.RailAttachment.CanPlaceAttachment | Plugins/AttachmentSystem/Source/AttachmentSystem/Private/Actors/RailAttachment.cpp:22-36 | false for a null attachment or a rail without slots; otherwise the bounds and overlap test of `CanPlace` |
| RailSlots.RailAttachment.CanPlaceIsFree | Plugins/AttachmentSystem/Source/AttachmentSystem/Private/Actors/RailAttachment.cpp:22-36 | a placeable attachment's run meets no mounted attachment's run |
| RailSlots.RailAttachment.GetSlotTransform | Plugins/AttachmentSystem/Source/AttachmentSystem/Private/Actors/RailAttachment.cpp:73-89 | identity without a spline; otherwise the spline point at the clamped slot times the spacing |
| RailSlots.RailAttachment.PlaceAttachment | Plugins/AttachmentSystem/Source/AttachmentSystem/Private/Actors/RailAttachment.cpp:38-58 | succeeds iff `CanPlaceAttachment`; on failure nothing changes; on success the run is ORed in, the attachment is mounted, the invariant is kept and the mesh snaps to the slot transform |
| RailSlots.RailAttachment.RemoveAttachment | Plugins/AttachmentSystem/Source/AttachmentSystem/Private/Actors/RailAttachment.cpp:60-71 | a no-op for a null or unmounted attachment; otherwise its run's bits are cleared and it is dismounted |
| Magazine.Fill | Plugins/AttachmentSystem/Source/AttachmentSystemPlugin/Private/Actors/MagazineAttachment.cpp:202-212 | the number of successful puts is at most `count`, never overfills, and falls short of `count` only when the magazine becomes full |
| Magazine.Drain | Plugins/AttachmentSystem/Source/AttachmentSystemPlugin/Private/Actors/MagazineAttachment.cpp:214-229 | the number of successful gets is at most `count` and the count held, and is one of them |
| Magazine.BulletTypeToString | Plugins/AttachmentSystem/Source/AttachmentSystemPlugin/Private/Actors/MagazineAttachment.cpp:154-167 | total over bullet types; "None (Empty)" exactly for `None` |
| Magazine.BulletNamesDistinct | Plugins/AttachmentSystem/Source/AttachmentSystemPlugin/Private/Actors/MagazineAttachment.cpp:154-167 | distinct bullet types have distinct display names |
| Magazine.MagazineAttachment.constructor | Plugins/AttachmentSystem/Source/AttachmentSystemPlugin/Public/Actors/MagazineAttachment.h:47-50 | a new magazine is empty |
| Magazine.MagazineAttachment.Put | Plugins/AttachmentSystem/Source/AttachmentSystemPlugin/Public/Actors/MagazineAttachment.h:47-50 | the ring buffer's put appends at the back iff fewer than 30 rounds are held |
| Magazine.MagazineAttachment.Get | Plugins/AttachmentSystem/Source/AttachmentSystemPlugin/Public/Actors/MagazineAttachment.h:47-50 | the ring buffer's get takes the front round iff one is held |
| Magazine.MagazineAttachment.AddBullet | Plugins/AttachmentSystem/Source/AttachmentSystemPlugin/Private/Actors/MagazineAttachment.cpp:108-121 | true iff not full; then the round is appended and the count rises by one; otherwise nothing changes |
| Magazine.MagazineAttachment.RemoveBullet | Plugins/AttachmentSystem/Source/AttachmentSystemPlugin/Private/Actors/MagazineAttachment.cpp:123-137 | the oldest round, which leaves the magazine; `None` from an empty magazine, which is left as it was |
| Magazine.MagazineAttachment.GetAmmoCount | Plugins/AttachmentSystem/Source/AttachmentSystemPlugin/Private/Actors/MagazineAttachment.cpp:139-142 | the number of rounds held, between 0 and 30 |
| Magazine.MagazineAttachment.IsEmpty | Plugins/AttachmentSystem/Source/AttachmentSystemPlugin/Private/Actors/MagazineAttachment.cpp:144-147 | true iff the count is 0 |
| Magazine.MagazineAttachment.EnqueueNTimes | Plugins/AttachmentSystem/Source/AttachmentSystemPlugin/Private/Actors/MagazineAttachment.cpp:202-212 | appends `Fill(count, held)` copies of the round: `min(count, 30 - held)` |
| Magazine.MagazineAttachment.DequeueNTimes | Plugins/AttachmentSystem/Source/AttachmentSystemPlugin/Private/Actors/MagazineAttachment.cpp:214-229 | removes the `Drain(count, held)` oldest rounds: `min(count, held)` |
| Magazine.MagazineAttachment.LogBufferNonDestructive | Plugins/AttachmentSystem/Source/AttachmentSystemPlugin/Private/Actors/MagazineAttachment.cpp:169-200 | the drained list is the contents in order, and the magazine ends exactly as it began |
| Magazine.MagazineAttachment.BeginPlay | Plugins/AttachmentSystem/Source/AttachmentSystemPlugin/Private/Actors/MagazineAttachment.cpp:14-23 | 30 attempted puts of `Standard_FMJ` top the magazine up to full |
| Chamber.ChamberOf | Plugins/AttachmentSystem/Source/AttachmentSystemPlugin/Private/Actors/BarrelAttachment.cpp:22-32 | the replicated `None` stands for an empty chamber; any other value stands for that round |
| Chamber.ChamberOfRoundTrip | Plugins/AttachmentSystem/Source/AttachmentSystemPlugin/Private/Actors/BarrelAttachment.cpp:10-32 | a chamber state is recovered from the replicated value it is sent as |
| Chamber.BarrelAttachment.constructor | Plugins/AttachmentSystem/Source/AttachmentSystemPlugin/Public/Actors/BarrelAttachment.h:35-38 | a new barrel is empty, replicates `None` and is in sync |
| Chamber.BarrelAttachment.GetChamberedRound | Plugins/AttachmentSystem/Source/AttachmentSystemPlugin/Public/Actors/BarrelAttachment.h:26 | when in sync, the round the replicated field stands for |
| Chamber.BarrelAttachment.HasRoundChambered | Plugins/AttachmentSystem/Source/AttachmentSystemPlugin/Public/Actors/BarrelAttachment.h:30 | the chamber holds a round; when in sync, iff the replicated field is not `None` |
| Chamber.BarrelAttachment.SetChamberedRound | Plugins/AttachmentSystem/Source/AttachmentSystemPlugin/Private/Actors/BarrelAttachment.cpp:10-14 | replicates the new round; the chamber is empty for `None` and holds the round otherwise; the state is in sync |
| Chamber.BarrelAttachment.ClearChamber | Plugins/AttachmentSystem/Source/AttachmentSystemPlugin/Private/Actors/BarrelAttachment.cpp:16-20 | the chamber is empty and `None` is replicated, whatever the old state, so a second clear changes nothing |
| Chamber.BarrelAttachment.OnRep_ChamberedRound | Plugins/AttachmentSystem/Source/AttachmentSystemPlugin/Private/Actors/BarrelAttachment.cpp:22-32 | the local state comes into sync with the replicated field, which is not changed |
| Chamber.ReplicateToClient | Plugins/AttachmentSystem/Source/AttachmentSystemPlugin/Private/Actors/BarrelAttachment.cpp:10-32 | a client that receives what the server set and runs `OnRep_ChamberedRound` ends in the server's state |
| Weapons.RealRounds | Plugins/AttachmentSystem/Source/AttachmentSystemPlugin/Private/Actors/Weapon.cpp:259-262 | at most one per round, and 0 iff every round is the `None` sentinel |
| Weapons.IdsMembers | Plugins/AttachmentSystem/Source/AttachmentSystemPlugin/Private/Actors/Weapon.cpp:61-65 | a handle is registered iff it is the handle of a non-null spawned entry |
| Weapons.MeshesMembers | Plugins/AttachmentSystem/Source/AttachmentSystemPlugin/Private/Actors/Weapon.cpp:67-70 | a mesh is registered iff it is the mesh of a non-null entry that has one |
| Weapons.DurabilitiesCount | Plugins/AttachmentSystem/Source/AttachmentSystemPlugin/Private/Actors/Weapon.cpp:114-128 | one durability per non-null entry, so none iff every entry is null |
| Weapons.LastMagazineIsLast | Plugins/AttachmentSystem/Source/AttachmentSystemPlugin/Private/Actors/Weapon.cpp:72-78 | the current magazine is kept when no entry is a magazine; otherwise it is the magazine of an entry after which none is one |
| Weapons.LeastIsMin | Plugins/AttachmentSystem/Source/AttachmentSystemPlugin/Private/Actors/Weapon.cpp:109-121 | the minimum fold from `FLT_MAX` is at most every durability, and is one of them unless it is still the seed |
| Weapons.GreatestIsMax | Plugins/AttachmentSystem/Source/AttachmentSystemPlugin/Private/Actors/Weapon.cpp:110-122 | the maximum fold from `-FLT_MAX` is at least every durability, and is one of them unless it is still the seed |
| Weapons.EffectiveMode | Plugins/AttachmentSystem/Source/AttachmentSystemPlugin/Private/Actors/Weapon.cpp:95-98 | a requested `Average` stands for the weapon's default mode; any other mode is used as requested |
| Weapons.FoldStep | Plugins/AttachmentSystem/Source/AttachmentSystemPlugin/Private/Actors/Weapon.cpp:120-122 | one more durability adds to the total and updates the minimum and maximum as `FMath::Min`/`Max` do |
| Weapons.ModeOrder | Plugins/AttachmentSystem/Source/AttachmentSystemPlugin/Private/Actors/Weapon.cpp:131-142 | for a nonempty list, Minimum <= Average <= Maximum |
| Weapons.ModeSpan | Plugins/AttachmentSystem/Source/AttachmentSystemPlugin/Private/Actors/Weapon.cpp:109-122 | with finite float durabilities, the minimum and the maximum are durabilities of actual parts |
| Weapons.GatherStep | Plugins/AttachmentSystem/Source/AttachmentSystemPlugin/Private/Actors/Weapon.cpp:114-125 | how one spawned entry moves the running total, minimum, maximum and count |
| Weapons.GatherDurabilities | Plugins/AttachmentSystem/Source/AttachmentSystemPlugin/Private/Actors/Weapon.cpp:107-125 | the loop's total, minimum, maximum and count are the sum, folds and length of the non-null parts' durabilities |
| Weapons.Weapon.constructor | Plugins/AttachmentSystem/Source/AttachmentSystemPlugin/Public/Misc/AttachmentSystemTypes.h:426-451 | a new weapon has the default current state and no magazine |
| Weapons.Weapon.GetAmmoCount | Plugins/AttachmentSystem/Source/AttachmentSystemPlugin/Private/Actors/Weapon.cpp:210-213 | the magazine's count, or 0 without a magazine; always in `0 .. 30` |
| Weapons.Weapon.HasAmmo | Plugins/AttachmentSystem/Source/AttachmentSystemPlugin/Private/Actors/Weapon.cpp:215-218 | true iff there is a magazine holding a round |
| Weapons.Weapon.IsValidBullet | Plugins/AttachmentSystem/Source/AttachmentSystemPlugin/Private/Actors/Weapon.cpp:259-262 | true iff the round is not `None` |
| Weapons.Weapon.ModifyDurability | Plugins/AttachmentSystem/Source/AttachmentSystemPlugin/Private/Actors/Weapon.cpp:193-204 | durability becomes `clamp(old + delta, 0, 100)` and lies in `[0, 100]`; nothing else changes |
| Weapons.Weapon.ConsumeBullet | Plugins/AttachmentSystem/Source/AttachmentSystemPlugin/Private/Actors/Weapon.cpp:220-240 | the magazine's front round, removed; `None` with no magazine or an empty one |
| Weapons.Weapon.FireWeapon | Plugins/AttachmentSystem/Source/AttachmentSystemPlugin/Private/Actors/Weapon.cpp:148-187 | without ammo nothing changes and `None` is returned; otherwise the front round leaves the magazine and is returned, and a real round wears the weapon by 0.5, clamped |
| Weapons.Weapon.BeginPlay | Plugins/AttachmentSystem/Source/AttachmentSystemPlugin/Private/Actors/Weapon.cpp:30-41 | full durability, then five shots: the first `min(5, held)` rounds leave the magazine, and durability drops by 0.5 per real round among them |
| Weapons.Weapon.ReloadMagazine | Plugins/AttachmentSystem/Source/AttachmentSystemPlugin/Private/Actors/Weapon.cpp:242-257 | the new magazine, possibly none, replaces the old; nothing else changes |
| Weapons.Weapon.HandleWeaponBuilt | Plugins/AttachmentSystem/Source/AttachmentSystemPlugin/Private/Actors/Weapon.cpp:54-85 | active attachments and meshes are those of the non-null entries, in order; the current magazine is the last magazine in the list, or is kept when there is none |
| Weapons.Weapon.GetWeaponDurability | Plugins/AttachmentSystem/Source/AttachmentSystemPlugin/Private/Actors/Weapon.cpp:92-146 | 0 and nothing stored without a builder or without a non-null part; otherwise the aggregate of the parts' durabilities under the effective mode, which is stored |
| ActorGraph.ReachableStep | Plugins/AttachmentSystem/Source/AttachmentSystemPlugin/Private/Components/WeaponBuilderComponent.cpp:85-93 | a child of a reachable actor is reachable |
| ActorGraph.ReachablePrepend | Plugins/AttachmentSystem/Source/AttachmentSystemPlugin/Private/Components/WeaponBuilderComponent.cpp:419-439 | what a child reaches, its parent reaches |
| ActorGraph.ClosedHoldsReachable | Plugins/AttachmentSystem/Source/AttachmentSystemPlugin/Private/Components/WeaponBuilderComponent.cpp:85-270 | a set that holds the children of each of its members and holds `a` holds everything `a` reaches |
| WeaponBuilder.Spawned | Plugins/AttachmentSystem/Source/AttachmentSystemPlugin/Private/Components/WeaponBuilderComponent.cpp:62-68 | a freshly spawned actor's links have no live instances, and a rail it brings fits the 64-bit mask |
| WeaponBuilder.SweepStepsExact | Plugins/AttachmentSystem/Source/AttachmentSystemPlugin/Private/Components/WeaponBuilderComponent.cpp:136-196 | the sweep tries distance `k * 2.5` iff `k` is below the number of steps that fit the rail's length, so the sweep terminates |
| WeaponBuilder.SplineCheckOverflow | Plugins/AttachmentSystem/Source/AttachmentSystemPlugin/Private/Components/WeaponBuilderComponent.cpp:161-163 | as written, the spline check and the rail's bounds guard both accept a child of `INT32_MAX` slots at slot 1 of a 15-slot rail, which the exact sums refuse |
| WeaponBuilder.SweepPassFits | Plugins/AttachmentSystem/Source/AttachmentSystemPlugin/Private/Components/WeaponBuilderComponent.cpp:161-163 | a distance that passes the sweep's checks, with exact sums, puts the child's run on slots `0 .. NumSlots-1`, with a defined mask, clear of every occupied slot |
| WeaponBuilder.FirstPassIsFirst | Plugins/AttachmentSystem/Source/AttachmentSystemPlugin/Private/Components/WeaponBuilderComponent.cpp:147-197 | the accepted distance lies within the rail, passes all four checks, and no earlier distance does; nothing is accepted only when no distance within the rail passes |
| WeaponBuilder.SweepRail | Plugins/AttachmentSystem/Source/AttachmentSystemPlugin/Private/Components/WeaponBuilderComponent.cpp:135-197 | the loop finds the first passing distance, and leaves in `StartPosition` the slot of the accepted or the last tried distance |
| WeaponBuilder.PlacementMeaning | Plugins/AttachmentSystem/Source/AttachmentSystemPlugin/Private/Components/WeaponBuilderComponent.cpp:133-254 | a rail child is placed at the first passing distance, or rejected only when none passes; any other child is attached iff both meshes and the category socket exist |
| WeaponBuilder.AcceptedPlacementSucceeds | Plugins/AttachmentSystem/Source/AttachmentSystemPlugin/Private/Components/WeaponBuilderComponent.cpp:157-177 | once the sweep accepts, `PlaceAttachment` succeeds: the rail's mask gains exactly the child's run and the child is mounted |
| WeaponBuilder.AfterChildEffect | Plugins/AttachmentSystem/Source/AttachmentSystemPlugin/Private/Components/WeaponBuilderComponent.cpp:199-254 | a rejected child is destroyed and its entry nulled; a placed or attached child keeps its entry and hangs at its category socket on the parent's mesh |
| WeaponBuilder.SuccessesMembers | Plugins/AttachmentSystem/Source/AttachmentSystemPlugin/Private/Components/WeaponBuilderComponent.cpp:96-112 | every spawned class is a non-null class declared by the link, and a link whose classes are all null spawns nothing |
| WeaponBuilder.SpawnChildren | Plugins/AttachmentSystem/Source/AttachmentSystemPlugin/Private/Components/WeaponBuilderComponent.cpp:96-112 | the link's instances become the successful spawns under consecutive fresh handles; null classes and failed spawns are skipped |
| WeaponBuilder.Place | Plugins/AttachmentSystem/Source/AttachmentSystemPlugin/Private/Components/WeaponBuilderComponent.cpp:117-254 | the new arena and `bShouldRegister` follow the child's placement: rail, socket, or destroy and null |
| WeaponBuilder.ClearAttachmentRecursive | Plugins/AttachmentSystem/Source/AttachmentSystemPlugin/Private/Components/WeaponBuilderComponent.cpp:419-439 | everything newly visited is reachable from the start and is detached; nothing else changes |
| WeaponBuilder.ClearAll | Plugins/AttachmentSystem/Source/AttachmentSystemPlugin/Private/Components/WeaponBuilderComponent.cpp:396-406 | exactly the actors reachable from a registered one are detached |
| WeaponBuilder.FindAttachmentRecursive | Plugins/AttachmentSystem/Source/AttachmentSystemPlugin/Private/Components/WeaponBuilderComponent.cpp:454-486 | a found actor has the target category and is reachable from the start; when nothing is found, no newly visited actor has that category |
| WeaponBuilder.WeaponBuilderComponent.Spawn | Plugins/AttachmentSystem/Source/AttachmentSystemPlugin/Private/Components/WeaponBuilderComponent.cpp:105-107 | a new actor of the class under the next free handle, or null when the engine's spawn fails |
| WeaponBuilder.WeaponBuilderComponent.PlaceChild | Plugins/AttachmentSystem/Source/AttachmentSystemPlugin/Private/Components/WeaponBuilderComponent.cpp:117-254 | the placement of one live child, as `Place` gives it |
| WeaponBuilder.WeaponBuilderComponent.SpawnLinkChildren | Plugins/AttachmentSystem/Source/AttachmentSystemPlugin/Private/Components/WeaponBuilderComponent.cpp:95-113 | children are spawned only when the link has no instances and declares classes; otherwise nothing changes |
| WeaponBuilder.WeaponBuilderComponent.Register | Plugins/AttachmentSystem/Source/AttachmentSystemPlugin/Private/Components/WeaponBuilderComponent.cpp:263-266 | adds an actor and its mesh unless it is already registered, so nothing is registered twice |
| WeaponBuilder.WeaponBuilderComponent.PlaceLinkChildren | Plugins/AttachmentSystem/Source/AttachmentSystemPlugin/Private/Components/WeaponBuilderComponent.cpp:117-268 | every entry of the link is handled in order; only placed children are enqueued and registered |
| WeaponBuilder.WeaponBuilderComponent.HandleEntry | Plugins/AttachmentSystem/Source/AttachmentSystemPlugin/Private/Components/WeaponBuilderComponent.cpp:118-267 | a null entry is skipped; a live child is placed, then enqueued (unless visited) and registered only if placed |
| WeaponBuilder.WeaponBuilderComponent.Admit | Plugins/AttachmentSystem/Source/AttachmentSystemPlugin/Private/Components/WeaponBuilderComponent.cpp:257-267 | enqueue and visit unless visited; register unless registered |
| WeaponBuilder.WeaponBuilderComponent.Expand | Plugins/AttachmentSystem/Source/AttachmentSystemPlugin/Private/Components/WeaponBuilderComponent.cpp:93-269 | every link of the dequeued actor is handled; the actors it registers are mounted, and the queue and visited set only grow |
| WeaponBuilder.WeaponBuilderComponent.AddRoot | Plugins/AttachmentSystem/Source/AttachmentSystemPlugin/Private/Components/WeaponBuilderComponent.cpp:57-81 | a spawned base attachment hangs at the weapon's root with the identity transform when the root and its mesh exist, and is registered |
| WeaponBuilder.WeaponBuilderComponent.AddBase | Plugins/AttachmentSystem/Source/AttachmentSystemPlugin/Private/Components/WeaponBuilderComponent.cpp:54-81 | a null class is skipped; otherwise the base is spawned, attached, registered, enqueued and visited |
| WeaponBuilder.WeaponBuilderComponent.SpawnBase | Plugins/AttachmentSystem/Source/AttachmentSystemPlugin/Private/Components/WeaponBuilderComponent.cpp:53-82 | the registered actors are the successful base spawns, in order, and all are queued and visited |
| WeaponBuilder.WeaponBuilderComponent.BuildWeapon | Plugins/AttachmentSystem/Source/AttachmentSystemPlugin/Private/Components/WeaponBuilderComponent.cpp:39-274 | without authority nothing changes; with it the successful bases are registered first and in order, every later registered actor is mounted, no actor is expanded twice, and, when the fuel was not used up, every registered actor was expanded |
| WeaponBuilder.WeaponBuilderComponent.ClearWeapon | Plugins/AttachmentSystem/Source/AttachmentSystemPlugin/Private/Components/WeaponBuilderComponent.cpp:390-410 | without authority nothing changes; with it both collections are emptied and exactly the reachable actors are detached; clearing an empty weapon changes nothing |
| WeaponBuilder.WeaponBuilderComponent.GetAttachmentAtSocket | Plugins/AttachmentSystem/Source/AttachmentSystemPlugin/Private/Components/WeaponBuilderComponent.cpp:441-452 | finds a reachable actor of the category, and finds nothing iff no reachable actor has it |
| LegacyBuilder.Spawned | Plugins/AttachmentSystem/Source/AttachmentSystem/Private/Components/WeaponBuilderComponent.cpp:102-107 | a freshly spawned actor has the class, no live child in any link, and is not attached |
| LegacyBuilder.WalkDrained | Plugins/AttachmentSystem/Source/AttachmentSystem/Private/Components/WeaponBuilderComponent.cpp:84-145 | when the queue is empty and everything queued was expanded, an actor is registered iff a base attachment reaches it |
| LegacyBuilder.ClearAttachmentRecursive | Plugins/AttachmentSystem/Source/AttachmentSystem/Private/Components/WeaponBuilderComponent.cpp:222-240 | everything newly visited is reachable from the start and is detached; nothing else changes |
| LegacyBuilder.ClearFromRoots | Plugins/AttachmentSystem/Source/AttachmentSystem/Private/Components/WeaponBuilderComponent.cpp:204-208 | every registered actor is visited, and only what they reach |
| LegacyBuilder.DetachMeshes | Plugins/AttachmentSystem/Source/AttachmentSystem/Private/Components/WeaponBuilderComponent.cpp:210-216 | detaching the registered meshes again changes nothing |
| LegacyBuilder.ClearedExactly | Plugins/AttachmentSystem/Source/AttachmentSystem/Private/Components/WeaponBuilderComponent.cpp:204-216 | a walk over the registered actors detaches exactly what they reach |
| LegacyBuilder.FindAttachmentRecursive | Plugins/AttachmentSystem/Source/AttachmentSystem/Private/Components/WeaponBuilderComponent.cpp:255-284 | a found actor has the target category and is reachable from the start; when nothing is found, no newly visited actor has it |
| LegacyBuilder.NothingReached | Plugins/AttachmentSystem/Source/AttachmentSystem/Private/Components/WeaponBuilderComponent.cpp:246-252 | a search that visited every registered actor without a match has seen everything they reach |
| LegacyBuilder.BuildStoredDataFromAttachment | Plugins/AttachmentSystem/Source/AttachmentSystem/Private/Components/WeaponBuilderComponent.cpp:299-321 | null iff the attachment is null; otherwise the root carries the attachment's class and category |
| LegacyBuilder.StoredChildrenInOrder | Plugins/AttachmentSystem/Source/AttachmentSystem/Private/Components/WeaponBuilderComponent.cpp:308-318 | one stored child per link with a live child, in link order: that child's stored tree, carrying the link's offset |
| LegacyBuilder.StoredLabels | Plugins/AttachmentSystem/Source/AttachmentSystem/Private/Components/WeaponBuilderComponent.cpp:299-321 | the stored tree names exactly the class and category pairs of the actors reachable from the attachment |
| LegacyBuilder.StoredClassed | Plugins/AttachmentSystem/Source/AttachmentSystem/Private/Components/WeaponBuilderComponent.cpp:304 | every node of a stored tree has a class |
| LegacyBuilder.RespawnSize | Plugins/AttachmentSystem/Source/AttachmentSystem/Private/Components/WeaponBuilderComponent.cpp:325-361 | when every spawn succeeds, respawning a tree with a class at every node spawns one actor per node |
| LegacyBuilder.StoreThenRespawn | Plugins/AttachmentSystem/Source/AttachmentSystem/Private/Components/WeaponBuilderComponent.cpp:299-361 | storing an actor and respawning the data, when every spawn succeeds, spawns one actor per node of the stored tree |
| LegacyBuilder.ChildStartCount | Plugins/AttachmentSystem/Source/AttachmentSystem/Private/Components/WeaponBuilderComponent.cpp:353-358 | the stored children's spawns take consecutive handles: child `k` starts right after the root's handle plus the actors its earlier siblings spawned |
| LegacyBuilder.ChildStartSized | Plugins/AttachmentSystem/Source/AttachmentSystem/Private/Components/WeaponBuilderComponent.cpp:353-358 | when every spawn succeeds and every stored node has a class, child `k` starts after one handle per node of its earlier siblings' trees |
| LegacyBuilder.RespawnedKept | Plugins/AttachmentSystem/Source/AttachmentSystem/Private/Components/WeaponBuilderComponent.cpp:323-362 | a respawned tree stays described by `RespawnedAt` in any world that keeps the actors it spawned |
| LegacyBuilder.RespawnMirrors | Plugins/AttachmentSystem/Source/AttachmentSystem/Private/Components/WeaponBuilderComponent.cpp:299-361 | when every spawn succeeds, storing an actor and respawning the data rebuilds its tree: each respawned actor has the class of the original it stands for, hangs at that original's category socket on the respawned parent's mesh with the offset of the original's link, and the children follow the live links in order |
| LegacyBuilder.UnlinkedStoresLeaf | Plugins/AttachmentSystem/Source/AttachmentSystem/Private/Components/WeaponBuilderComponent.cpp:308-318 | an actor none of whose links holds a live child is stored without children |
| LegacyBuilder.RootsReached | Plugins/AttachmentSystem/Source/AttachmentSystem/Private/Components/WeaponBuilderComponent.cpp:77-80 | every base attachment is reached from the base attachments |
| LegacyBuilder.ChildReached | Plugins/AttachmentSystem/Source/AttachmentSystem/Private/Components/WeaponBuilderComponent.cpp:110-143 | the live child of a link of a visited actor is reached from a base attachment |
| LegacyBuilder.WeaponBuilderComponent.Spawn | Plugins/AttachmentSystem/Source/AttachmentSystem/Private/Components/WeaponBuilderComponent.cpp:102-107 | a new actor of the class under the next free handle, or null when the spawn fails |
| LegacyBuilder.WeaponBuilderComponent.SpawnForLink | Plugins/AttachmentSystem/Source/AttachmentSystem/Private/Components/WeaponBuilderComponent.cpp:96-108 | a link's child is spawned only when its instance is null and its class is set; an existing instance is reused |
| LegacyBuilder.WeaponBuilderComponent.AttachChild | Plugins/AttachmentSystem/Source/AttachmentSystem/Private/Components/WeaponBuilderComponent.cpp:115-129 | the child hangs at its category socket on the parent's mesh, with the link's offset, iff that socket exists; otherwise it stays where it was |
| LegacyBuilder.WeaponBuilderComponent.Admit | Plugins/AttachmentSystem/Source/AttachmentSystem/Private/Components/WeaponBuilderComponent.cpp:131-143 | enqueue and visit unless visited; register unless registered |
| LegacyBuilder.WeaponBuilderComponent.AdmitChild | Plugins/AttachmentSystem/Source/AttachmentSystem/Private/Components/WeaponBuilderComponent.cpp:110-143 | every live child ends visited and registered, whether or not it was attached |
| LegacyBuilder.WeaponBuilderComponent.ExpandLink | Plugins/AttachmentSystem/Source/AttachmentSystem/Private/Components/WeaponBuilderComponent.cpp:95-143 | spawn the link's child if needed, then attach, enqueue and register it |
| LegacyBuilder.WeaponBuilderComponent.Expand | Plugins/AttachmentSystem/Source/AttachmentSystem/Private/Components/WeaponBuilderComponent.cpp:88-144 | afterwards every live child of the dequeued actor is visited and registered |
| LegacyBuilder.WeaponBuilderComponent.AddRoot | Plugins/AttachmentSystem/Source/AttachmentSystem/Private/Components/WeaponBuilderComponent.cpp:54-81 | a spawned base hangs at the weapon's root mesh with the identity transform when the weapon has one, and is registered |
| LegacyBuilder.WeaponBuilderComponent.AddBase | Plugins/AttachmentSystem/Source/AttachmentSystem/Private/Components/WeaponBuilderComponent.cpp:46-82 | a null class is skipped; otherwise the base is spawned, attached, registered, enqueued and visited |
| LegacyBuilder.WeaponBuilderComponent.SpawnBase | Plugins/AttachmentSystem/Source/AttachmentSystem/Private/Components/WeaponBuilderComponent.cpp:46-82 | the registered actors are the successful base spawns, in order, and all are queued and visited |
| LegacyBuilder.WeaponBuilderComponent.RunQueue | Plugins/AttachmentSystem/Source/AttachmentSystem/Private/Components/WeaponBuilderComponent.cpp:84-145 | the breadth-first loop stops early only when the queue runs dry, expands no actor twice, and registers only what the bases reach |
| LegacyBuilder.WeaponBuilderComponent.BuildWeapon | Plugins/AttachmentSystem/Source/AttachmentSystem/Private/Components/WeaponBuilderComponent.cpp:37-146 | the successful bases are registered first, in order; every registered actor is reached from a base; no actor is registered or expanded twice; when the fuel was not used up, an actor is registered iff a base reaches it |
| LegacyBuilder.WeaponBuilderComponent.ClearWeapon | Plugins/AttachmentSystem/Source/AttachmentSystem/Private/Components/WeaponBuilderComponent.cpp:202-220 | both collections are emptied and exactly the reachable actors are detached; clearing an empty weapon changes nothing |
| LegacyBuilder.WeaponBuilderComponent.GetAttachmentAtSocket | Plugins/AttachmentSystem/Source/AttachmentSystem/Private/Components/WeaponBuilderComponent.cpp:242-253 | finds a reachable actor of the category, and finds nothing iff no reachable actor has it |
| LegacyBuilder.WeaponBuilderComponent.SpawnAttachmentFromStoredData | Plugins/AttachmentSystem/Source/AttachmentSystem/Private/Components/WeaponBuilderComponent.cpp:323-362 | null data spawns nothing and gives null; otherwise as `SpawnStored`, including the respawned tree `RespawnedAt` describes |
| LegacyBuilder.WeaponBuilderComponent.SpawnStored | Plugins/AttachmentSystem/Source/AttachmentSystem/Private/Components/WeaponBuilderComponent.cpp:325-361 | null and no spawn for a missing class or a failed spawn; otherwise the new actors are the next `SpawnCount` handles, none linked and none registered, and `RespawnedAt` holds: the root has the stored class and hangs at the parent's socket with the stored offset, and each stored child whose spawn succeeds is an actor of its class hanging at its category's socket on the new actor's mesh with its stored offset, at the handle where the earlier siblings' spawns end (`ChildStart`), and so on down the tree |
| LegacyBuilder.WeaponBuilderComponent.SpawnChildren | Plugins/AttachmentSystem/Source/AttachmentSystem/Private/Components/WeaponBuilderComponent.cpp:353-358 | the stored children are respawned in turn: child `k` starts at `ChildStart` (the handles its earlier siblings took), and every child is respawned there as `RespawnedAt` describes, at its category's socket on the parent's new mesh |

## Left out

- Engine services are oracles of the `Engine` value, never computed:
  - spawning;
  - socket lookup;
  - the overlap test of `DoesCollideWithRail` (plugin `WeaponBuilderComponent.cpp:283-331`);
  - the spline's length, slot mapping and transforms;
  - the data-table lookup of `LoadAttachmentInfo`/`BuildAttachment`. The info row comes with the class's template.
- Floats are modelled as reals: no IEEE rounding of durability, the 0.5 wear or the 2.5 sweep step.
- WeaponBuilder.WeaponBuilderComponent.BuildWeapon: bounded by a `fuel` count of expansions. A class whose links spawn that class again makes the source loop forever. The contract states the drained-queue properties only when fewer than `fuel` actors were expanded.
- LegacyBuilder.WeaponBuilderComponent.BuildWeapon: the same `fuel` bound, for the same reason.
- LegacyBuilder.FindAttachmentRecursive: states that the match is reachable and of the category, and that a miss means no visited match. It does not state that the match is the first one in depth-first order, because an independent definition of depth-first order over a visited set shared between branches would restate the search itself.
- LegacyBuilder.BuildStoredDataFromAttachment: requires a rank map under which every live child ranks below its parent. The source recurses without a visited set and terminates only on acyclic links.
- The stored-data class `UStoredAttachmentData` is not part of this model. Its offset is taken to default to the identity, which the root of a stored tree keeps. Its children are taken to be non-null.
- `SpawnAttachmentFromStoredData` takes a mesh reference that cannot be null, since the source dereferences `ParentMesh` before testing it. The older module's actors always have a mesh, created in its `Attachment.cpp:8`.
- `GetSocketFromCategory` is modelled as the category's name. Its `NAME_None` branch for a missing reflected enum cannot occur for a compiled enum.
- Both `BuildWeaponFromAttachmentGraph` variants are left out (plugin lines 333-387, older lines 149-199). They are recursive builders that nothing calls.
- `AddBehaviorComponent` is left out: it is empty in both modules.
- Also left out:
  - logging and `DrawDebugBox`;
  - replication registration and the `Server_*` transport. The authority gate is modelled as "forward and change nothing".
  - `RunPerformanceTest`, a wall-clock benchmark;
  - the component lifecycle (`BeginPlay`, `EndPlay`, `Tick`), except the magazine's and the weapon's `BeginPlay`.
- The staged reload, chambering and multi-round firing declared in the plugin's `Weapon.h` are left out: no implementation of them exists in `Weapon.cpp`.
- The ring buffer behind the magazine is modelled by what it does: a sequence of at most 30 rounds, with put at the back and get at the front.
- RailSlots.RailAttachment.RemoveAttachment: keeps the rail invariant only when the attachment's start and size are those it was placed with. The source does not guard against a moved attachment.
- RailSlots.CanPlace: computes `Start + ItemSize` exactly, which is the corrected guard. The source's `int32` sum overflows; see Findings.
- RailSlots.RailAttachment.CanPlaceAttachment: uses the exact sum of `CanPlace`, the corrected guard, for the same reason; see Findings.
- WeaponBuilder.SweepPasses: the spline check computes `MappedSlot + Size` exactly, which is the corrected check. The source's `int32` sum overflows; see Findings.
- Rails have at most 64 slots, because `MakeMask` shifts a 64-bit word and C++ leaves larger shifts undefined.
- The older module's types header declares array-form links. The older builder uses a single `ChildClass`/`ChildInstance` per link, and the model follows the builder.

## Findings

| source | as written | input that shows it | evidently intended | confidence | as-written member | corrected member |
|---|---|---|---|---|---|---|
| Plugins/AttachmentSystem/Source/AttachmentSystem/Private/Actors/RailAttachment.cpp:30 | `Start + ItemSize > NumSlots` is computed in `int32` and overflows (undefined behaviour; wraps on common targets) | `StartPosition = 1`, `Size = INT32_MAX` on a 15-slot rail: the sum overflows, wrapping negative on common targets, the guard passes, and the mask claims slots 1 to 63 | the run must end within the rail: the sum computed without overflow | not executed | RailSlots.InBoundsOverflow | RailSlots.InBoundsFits |
| Plugins/AttachmentSystem/Source/AttachmentSystemPlugin/Private/Components/WeaponBuilderComponent.cpp:161-162 | the spline check `MappedSlot + Size <= NumSlots` is computed in `int32` and overflows (undefined behaviour; wraps on common targets) | a child with `Size = INT32_MAX` whose distance maps to slot 1 of a 15-slot rail: the sum overflows, the spline check passes, and so does the rail's own bounds guard | the run must end within the rail: the sum computed without overflow | not executed | WeaponBuilder.SplineCheckOverflow | WeaponBuilder.SweepPassFits |
