/**
 * A rail attachment (Picatinny, M-LOK): a row of `NumSlots` slots along a
 * spline.  Slot occupancy is a 64-bit mask, one bit per slot; each mounted
 * attachment covers the contiguous run of slots from its `StartPosition`
 * for `Size` slots.
 */
module RailSlots {
  import opened AttachmentTypes
  import opened Uint64

  const DefaultNumSlots: Int32 := 15
  const DefaultSlotSpacing: real := 2.54

  /** The slot indices whose bits are set in `m`. */
  ghost function Slots(m: U64): set<nat>
  {
    set i: nat | i < Width && Bit(m, i)
  }

  /** The slots from `start` for `size` slots, cut at the top of the word. */
  ghost function Range(start: int, size: int): set<nat>
  {
    set i: nat | i < Width && InRun(i, start, size)
  }

  predicate InRun(i: int, start: int, size: int)
  {
    start <= i < start + size
  }

  /** `MakeMask` shifts by `StartSlot`, which C++ defines only below 64. */
  predicate MaskDefined(start: int, size: int)
  {
    size <= 0 || 0 <= start < Width
  }

  /** `MakeMask(StartSlot, ItemSize)`: a run of `ItemSize` one-bits
   *  shifted up by `StartSlot`; all ones before the shift once the run
   *  would not fit in the word. */
  function MakeMask(start: int, size: int): U64
    requires MaskDefined(start, size)
  {
    if size <= 0 then 0 else Shl(RunOf(size), start)
  }

  /** The unshifted run: `ItemSize >= 64 ? ~0ull : (1ULL << ItemSize) - 1ULL`. */
  function RunOf(size: int): U64
    requires size > 0
  {
    if size >= 64 then Not(0) else Sub(Shl(1, size), 1)
  }

  // ---------------------------------------------------------------------
  // Masks as slot sets.

  lemma SlotsOr(a: U64, b: U64)
    ensures Slots(Or(a, b)) == Slots(a) + Slots(b)
  {
    forall i: nat ensures i in Slots(Or(a, b)) <==> i in Slots(a) + Slots(b) {
      OrBit(a, b, i);
    }
  }

  lemma SlotsAnd(a: U64, b: U64)
    ensures Slots(And(a, b)) == Slots(a) * Slots(b)
  {
    forall i: nat ensures i in Slots(And(a, b)) <==> i in Slots(a) * Slots(b) {
      AndBit(a, b, i);
    }
  }

  lemma SlotsAndNot(a: U64, b: U64)
    ensures Slots(And(a, Not(b))) == Slots(a) - Slots(b)
  {
    forall i: nat ensures i in Slots(And(a, Not(b))) <==> i in Slots(a) - Slots(b) {
      AndBit(a, Not(b), i);
      NotBit(b, i);
    }
  }

  /** A mask is determined by its slot set. */
  lemma SlotsInjective(a: U64, b: U64)
    requires Slots(a) == Slots(b)
    ensures a == b
  {
    forall i: nat | i < Width ensures Bit(a, i) <==> Bit(b, i) {
      assert i in Slots(a) <==> i in Slots(b);
    }
    Ext64(a, b);
  }

  /** `(a & b) == 0` exactly when the slot sets are disjoint. */
  lemma AndZeroIff(a: U64, b: U64)
    ensures And(a, b) == 0 <==> Slots(a) * Slots(b) == {}
  {
    SlotsAnd(a, b);
    ZeroIff(And(a, b));
    if Slots(And(a, b)) != {} {
      var i :| i in Slots(And(a, b));
      assert i < Width && Bit(And(a, b), i);
    } else {
      forall i: nat | i < Width ensures !Bit(And(a, b), i) {
        assert i !in Slots(And(a, b));
      }
    }
  }

  lemma EmptySlots()
    ensures Slots(0) == {}
  {
    forall i: nat ensures i !in Slots(0) { ZeroBit(i); }
  }

  /** `MakeMask(s, n)` has exactly the bits of slots `s .. s+n-1` that
   *  exist in the word: none when `n <= 0`, and from `s` to the top once
   *  `n >= 64`. */
  lemma MakeMaskSlots(start: int, size: int)
    requires MaskDefined(start, size)
    ensures Slots(MakeMask(start, size)) == Range(start, size)
  {
    if size <= 0 {
      EmptySlots();
    } else {
      forall i: nat
        ensures i in Slots(MakeMask(start, size)) <==> i in Range(start, size)
      {
        ShlBit(RunOf(size), start, i);
        if start <= i { RunOfBit(size, i - start); }
      }
    }
  }

  /** The unshifted run has exactly its low `size` bits set. */
  lemma RunOfBit(size: int, j: nat)
    requires size > 0
    ensures Bit(RunOf(size), j) <==> j < size && j < Width
  {
    if size >= 64 {
      NotBit(0, j);
      ZeroBit(j);
    } else {
      ShlOne(size, Width);
      SubNoWrap(Shl(1, size), 1);
      LowOnesBit(size, j);
    }
  }

  /** Zero-sized or negative-sized items need no slots. */
  lemma MakeMaskEmpty(start: int, size: int)
    requires size <= 0
    ensures MakeMask(start, size) == 0
  {
  }

  /** A run of 64 or more from slot 0 is the all-ones word. */
  lemma MakeMaskFull(size: int)
    requires size >= 64
    ensures MakeMask(0, size) == Not(0)
  {
    MakeMaskSlots(0, size);
    forall i: nat ensures i in Slots(Not(0)) <==> i in Range(0, size) {
      NotBit(0, i);
      ZeroBit(i);
    }
    SlotsInjective(MakeMask(0, size), Not(0));
  }

  /** OR-ing in a range that was free and then clearing it gives back the
   *  mask exactly: what `PlaceAttachment` followed by `RemoveAttachment`
   *  does to `OccupancyMask` when the item has not moved. */
  lemma PlaceRemoveRoundTrip(mask: U64, start: int, size: int)
    requires MaskDefined(start, size)
    requires And(mask, MakeMask(start, size)) == 0
    ensures And(Or(mask, MakeMask(start, size)), Not(MakeMask(start, size))) == mask
  {
    var m := MakeMask(start, size);
    forall i: nat | i < Width ensures Bit(And(Or(mask, m), Not(m)), i) <==> Bit(mask, i) {
      AndBit(Or(mask, m), Not(m), i);
      OrBit(mask, m, i);
      NotBit(m, i);
      AndBit(mask, m, i);
      ZeroBit(i);
    }
    Ext64(And(Or(mask, m), Not(m)), mask);
  }

  // ---------------------------------------------------------------------
  // The bounds guard of `CanPlaceAttachment`.

  /** The guard `Start < 0 || Start + ItemSize > NumSlots` as written,
   *  where the sum is `int32` arithmetic and overflows (undefined behaviour;
   *  wraps on common targets). */
  predicate InBoundsAsWritten(start: Int32, size: Int32, numSlots: Int32)
  {
    !(start < 0 || Wrap32(start + size) > numSlots)
  }

  /** The same guard with the sum computed without overflow. */
  predicate InBounds(start: Int32, size: Int32, numSlots: Int32)
  {
    !(start < 0 || start + size > numSlots)
  }

  /** The overflowing sum, wrapped as on common targets, lets an item of `INT32_MAX` slots at slot 1 through
   *  the guard of a 15-slot rail, and its mask then claims slots 1..63. */
  lemma InBoundsOverflow()
    ensures InBoundsAsWritten(1, 0x7FFF_FFFF, 15)
    ensures !InBounds(1, 0x7FFF_FFFF, 15)
    ensures 20 in Slots(MakeMask(1, 0x7FFF_FFFF))
  {
    assert Wrap32(1 + 0x7FFF_FFFF) == -0x8000_0000;
    MakeMaskSlots(1, 0x7FFF_FFFF);
  }

  /** With the sum computed exactly, an item that passes the guard lies
   *  within slots `0 .. NumSlots-1`, and its mask is defined. */
  lemma InBoundsFits(start: Int32, size: Int32, numSlots: Int32)
    requires numSlots <= 64 && InBounds(start, size, numSlots)
    ensures MaskDefined(start, size)
    ensures forall i :: i in Range(start, size) ==> i < numSlots
  {
  }

  /** The test of `CanPlaceAttachment` on a rail of `numSlots` slots with
   *  occupancy `mask`, for a run from `start` of `size` slots: the rail has
   *  slots, the run lies within them and meets no occupied slot. */
  function CanPlace(numSlots: Int32, mask: U64, start: Int32, size: Int32): (ok: bool)
    requires numSlots <= 64
    ensures ok <==> 0 < numSlots && 0 <= start && start + size <= numSlots
                    && Range(start, size) * Slots(mask) == {}
  {
    if numSlots <= 0 then false
    else if !InBounds(start, size, numSlots) then false
    else
      InBoundsFits(start, size, numSlots);
      MakeMaskSlots(start, size);
      AndZeroIff(mask, MakeMask(start, size));
      And(mask, MakeMask(start, size)) == 0
  }

  /** An attachment as the rail sees it: identity, current `StartPosition`
   *  and `Size`, and whether it has a mesh component to snap. */
  datatype RailItem = RailItem(id: Handle, startPosition: Int32, size: Int32, hasMesh: bool)

  /** The slots every mounted attachment was placed on. */
  ghost function Occupied(ranges: map<Handle, set<nat>>): set<nat>
  {
    set i: nat | i < Width && Covered(ranges, i)
  }

  ghost predicate Covered(ranges: map<Handle, set<nat>>, i: nat)
  {
    exists h :: h in ranges && i in ranges[h]
  }

  ghost predicate PairwiseDisjoint(ranges: map<Handle, set<nat>>)
  {
    forall h, k :: h in ranges && k in ranges && h != k ==> ranges[h] * ranges[k] == {}
  }

  /** Mounting `id` on a run `r` that meets no mounted run adds exactly
   *  `r` to the occupied slots and keeps the runs pairwise disjoint. */
  lemma OccupiedAdd(ranges: map<Handle, set<nat>>, id: Handle, r: set<nat>)
    requires PairwiseDisjoint(ranges)
    requires forall h :: h in ranges ==> r * ranges[h] == {}
    requires forall i :: i in r ==> i < Width
    ensures var after := ranges[id := (if id in ranges then ranges[id] else {}) + r];
            Occupied(after) == Occupied(ranges) + r && PairwiseDisjoint(after)
  {
    var after := ranges[id := (if id in ranges then ranges[id] else {}) + r];
    forall i: nat ensures i in Occupied(after) <==> i in Occupied(ranges) + r {
      if i in r {
        assert i in after[id];
      } else if i in Occupied(ranges) {
        var h :| h in ranges && i in ranges[h];
        assert i in after[h];
      }
    }
  }

  /** Dismounting `id` frees exactly its run, because no other mounted run
   *  shares a slot with it. */
  lemma OccupiedRemove(ranges: map<Handle, set<nat>>, id: Handle)
    requires PairwiseDisjoint(ranges) && id in ranges
    ensures Occupied(ranges - {id}) == Occupied(ranges) - ranges[id]
    ensures PairwiseDisjoint(ranges - {id})
  {
    var after := ranges - {id};
    forall i: nat ensures i in Occupied(after) <==> i in Occupied(ranges) - ranges[id] {
      if i in Occupied(ranges) && i !in ranges[id] {
        var h :| h in ranges && i in ranges[h];
        assert i in after[h];
      }
      if i in Occupied(after) {
        var h :| h in after && i in after[h];
        assert h in ranges && h != id && i in ranges[h];
        assert Covered(ranges, i);
        assert i !in ranges[h] * ranges[id];
      }
    }
  }

  /** Every mounted run lies on slots `0 .. numSlots-1`. */
  ghost predicate OnRail(ranges: map<Handle, set<nat>>, numSlots: int)
  {
    forall h, i :: h in ranges && i in ranges[h] ==> i < numSlots
  }

  /** The rail's invariant: the mask is the union of the mounted
   *  attachments' runs, the runs are pairwise disjoint and lie on the rail. */
  ghost predicate RailInvariant(numSlots: int, mask: U64, mounted: set<Handle>,
                                ranges: map<Handle, set<nat>>)
  {
    && numSlots <= 64
    && ranges.Keys == mounted
    && Slots(mask) == Occupied(ranges)
    && PairwiseDisjoint(ranges)
    && OnRail(ranges, numSlots)
  }

  /** OR-ing in a free run that lies on the rail keeps the invariant. */
  lemma PlaceKeepsInvariant(numSlots: int, mask: U64, mounted: set<Handle>,
                            ranges: map<Handle, set<nat>>, id: Handle, m: U64)
    requires RailInvariant(numSlots, mask, mounted, ranges)
    requires Slots(m) * Slots(mask) == {}
    requires forall i :: i in Slots(m) ==> i < numSlots
    ensures RailInvariant(numSlots, Or(mask, m), mounted + {id},
                          ranges[id := (if id in ranges then ranges[id] else {}) + Slots(m)])
  {
    var r := Slots(m);
    forall h | h in ranges ensures r * ranges[h] == {} {
      forall i | i in ranges[h] ensures i !in r {
        assert i < numSlots && Covered(ranges, i);
        assert i in Slots(mask);
        assert i !in Slots(m) * Slots(mask);
      }
    }
    OccupiedAdd(ranges, id, r);
    SlotsOr(mask, m);
  }

  /** Clearing the run an attachment was placed on keeps the invariant. */
  lemma RemoveKeepsInvariant(numSlots: int, mask: U64, mounted: set<Handle>,
                             ranges: map<Handle, set<nat>>, id: Handle, m: U64)
    requires RailInvariant(numSlots, mask, mounted, ranges)
    requires id in ranges && Slots(m) == ranges[id]
    ensures RailInvariant(numSlots, And(mask, Not(m)), mounted - {id}, ranges - {id})
    ensures Slots(And(mask, Not(m))) == Slots(mask) - ranges[id]
  {
    OccupiedRemove(ranges, id);
    SlotsAndNot(mask, m);
  }

  /** The slot a spline lookup uses: `FMath::Clamp(SlotIndex, 0, NumSlots - 1)`. */
  function ClampedSlot(slotIndex: Int32, numSlots: Int32): (k: int)
    ensures numSlots >= 1 ==> 0 <= k < numSlots
    ensures 0 <= slotIndex < numSlots ==> k == slotIndex
    ensures numSlots >= 1 && slotIndex >= numSlots ==> k == numSlots - 1
  {
    ClampInt(slotIndex, 0, numSlots - 1)
  }

  class RailAttachment {
    var numSlots: Int32
    var slotSpacing: real
    /** `IsValid(RailSpline)`. */
    var hasSpline: bool
    var occupancyMask: U64
    var mountedAttachments: set<Handle>
    /** The slots each mounted attachment was placed on (one attachment
     *  placed twice without removal holds both runs). */
    ghost var ranges: map<Handle, set<nat>>

    /** The occupancy mask is the union of the mounted attachments' runs,
     *  the runs are pairwise disjoint and lie on the rail. */
    ghost predicate Valid()
      reads this
    {
      RailInvariant(numSlots, occupancyMask, mountedAttachments, ranges)
    }

    constructor()
      ensures Valid()
      ensures numSlots == DefaultNumSlots && slotSpacing == DefaultSlotSpacing
      ensures hasSpline && occupancyMask == 0 && mountedAttachments == {}
    {
      numSlots := DefaultNumSlots;
      slotSpacing := DefaultSlotSpacing;
      hasSpline := true;
      occupancyMask := 0;
      mountedAttachments := {};
      ranges := map[];
      EmptySlots();
    }

    /** `CanPlaceAttachment`: a present attachment on a rail with slots,
     *  whose run lies within the rail and meets no occupied slot. */
    function CanPlaceAttachment(a: Option<RailItem>): (ok: bool)
      reads this
      requires numSlots <= 64
      ensures ok <==> a.Some? && 0 < numSlots
                      && 0 <= a.value.startPosition
                      && a.value.startPosition + a.value.size <= numSlots
                      && Range(a.value.startPosition, a.value.size) * Slots(occupancyMask) == {}
    {
      a.Some? && CanPlace(numSlots, occupancyMask, a.value.startPosition, a.value.size)
    }

    /** A placeable attachment's run meets no mounted attachment's run. */
    lemma CanPlaceIsFree(a: RailItem, h: Handle)
      requires Valid() && CanPlaceAttachment(Some(a)) && h in mountedAttachments
      ensures Range(a.startPosition, a.size) * ranges[h] == {}
    {
      forall i | i in ranges[h] ensures i in Slots(occupancyMask) {
        assert i < numSlots;
      }
    }

    /** `GetSlotTransform`: identity without a spline, else the spline
     *  point at the clamped slot's distance. */
    function GetSlotTransform(slotIndex: Int32): (t: Transform)
      reads this
      ensures !hasSpline ==> t == Identity
      ensures hasSpline ==> t == AlongSpline(ClampedSlot(slotIndex, numSlots) as real * slotSpacing)
    {
      if !hasSpline then Identity
      else AlongSpline(ClampedSlot(slotIndex, numSlots) as real * slotSpacing)
    }

    /** `PlaceAttachment`: when the attachment can be placed, OR its run
     *  into the mask, add it to the mounted set and report the slot
     *  transform its mesh snaps to; otherwise change nothing. */
    method PlaceAttachment(a: Option<RailItem>) returns (ok: bool, snap: Option<Transform>)
      requires Valid()
      modifies this
      ensures Valid()
      ensures ok == old(CanPlaceAttachment(a))
      ensures numSlots == old(numSlots) && slotSpacing == old(slotSpacing) && hasSpline == old(hasSpline)
      ensures !ok ==> occupancyMask == old(occupancyMask) && mountedAttachments == old(mountedAttachments)
                      && ranges == old(ranges) && snap == Nothing
      ensures ok ==> occupancyMask == Or(old(occupancyMask), MakeMask(a.value.startPosition, a.value.size))
                     && mountedAttachments == old(mountedAttachments) + {a.value.id}
                     && Slots(occupancyMask) == old(Slots(occupancyMask)) + Range(a.value.startPosition, a.value.size)
      ensures ok ==> snap == (if hasSpline && a.value.hasMesh then Some(GetSlotTransform(a.value.startPosition)) else Nothing)
    {
      ok := CanPlaceAttachment(a);
      snap := Nothing;
      if !ok {
        return;
      }
      var item := a.value;
      InBoundsFits(item.startPosition, item.size, numSlots);
      var mask := MakeMask(item.startPosition, item.size);
      MakeMaskSlots(item.startPosition, item.size);
      SlotsOr(occupancyMask, mask);
      PlaceKeepsInvariant(numSlots, occupancyMask, mountedAttachments, ranges, item.id, mask);
      ghost var before := if item.id in ranges then ranges[item.id] else {};
      occupancyMask := Or(occupancyMask, mask);
      mountedAttachments := mountedAttachments + {item.id};
      ranges := ranges[item.id := before + Slots(mask)];
      if hasSpline && item.hasMesh {
        snap := Some(GetSlotTransform(item.startPosition));
      }
    }

    /** `RemoveAttachment`: for a mounted attachment, clear the bits of its
     *  current run and drop it from the mounted set; otherwise a no-op.
     *  The invariant survives when the attachment has not moved since it
     *  was placed. */
    method RemoveAttachment(a: Option<RailItem>)
      requires Valid()
      requires a.Some? && a.value.id in mountedAttachments ==> MaskDefined(a.value.startPosition, a.value.size)
      modifies this
      ensures numSlots == old(numSlots) && slotSpacing == old(slotSpacing) && hasSpline == old(hasSpline)
      ensures (a.Nothing? || a.value.id !in old(mountedAttachments)) ==>
                occupancyMask == old(occupancyMask) && mountedAttachments == old(mountedAttachments)
                && ranges == old(ranges) && Valid()
      ensures a.Some? && a.value.id in old(mountedAttachments) ==>
                occupancyMask == And(old(occupancyMask), Not(MakeMask(a.value.startPosition, a.value.size)))
                && mountedAttachments == old(mountedAttachments) - {a.value.id}
                && ranges == old(ranges) - {a.value.id}
      ensures a.Some? && a.value.id in old(mountedAttachments)
              && old(ranges)[a.value.id] == Range(a.value.startPosition, a.value.size) ==>
                Valid() && Slots(occupancyMask) == old(Slots(occupancyMask)) - old(ranges)[a.value.id]
    {
      if a.Nothing? || a.value.id !in mountedAttachments {
        return;
      }
      var item := a.value;
      var mask := MakeMask(item.startPosition, item.size);
      ghost var oldRanges := ranges;
      ghost var oldMask := occupancyMask;
      occupancyMask := And(occupancyMask, Not(mask));
      mountedAttachments := mountedAttachments - {item.id};
      ranges := ranges - {item.id};
      if oldRanges[item.id] == Range(item.startPosition, item.size) {
        MakeMaskSlots(item.startPosition, item.size);
        RemoveKeepsInvariant(numSlots, oldMask, old(mountedAttachments), oldRanges, item.id, mask);
      }
    }
  }
}
