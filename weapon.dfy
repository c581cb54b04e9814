/**
 * A weapon: the magazine it fires from, its durability (aggregated from
 * its parts or worn down by firing) and the live attachments the builder
 * reported.  Floats are modelled as reals.
 */
module Weapons {
  import opened AttachmentTypes
  import opened Magazine

  /** `FLT_MAX`, the largest finite single-precision float. */
  const FltMax: real := 340282346638528859811704183484516925440.0

  /** Durability lost per shot fired. */
  const WearPerShot: real := 0.5

  /** How many times `BeginPlay` fires. */
  const BeginPlayShots: nat := 5

  /** How many of the rounds `s` are real rounds (not the `None` sentinel). */
  function RealRounds(s: seq<BulletType>): (k: nat)
    ensures k <= |s|
    ensures k == 0 <==> forall j :: 0 <= j < |s| ==> s[j] == None
  {
    if s == [] then 0 else (if s[0] != None then 1 else 0) + RealRounds(s[1..])
  }

  /** One more round counts when it is real. */
  lemma {:induction false} RealRoundsSnoc(s: seq<BulletType>, b: BulletType)
    ensures RealRounds(s + [b]) == RealRounds(s) + (if b != None then 1 else 0)
  {
    if s != [] {
      assert (s + [b])[1..] == s[1..] + [b];
      RealRoundsSnoc(s[1..], b);
    }
  }

  /** A spawned attachment as the weapon sees it: its handle, its current
   *  durability, its mesh component if any, and the magazine it is when the
   *  cast to `AMagazineAttachment` succeeds. */
  datatype Part = Part(id: Handle, durability: real, mesh: Option<MeshRef>, magazine: MagazineAttachment?)

  // ---------------------------------------------------------------------
  // Specification functions over the spawned list.

  /** The handles of the non-null entries among the first `n`, in order. */
  function IdsUpTo(spawned: seq<Option<Part>>, n: nat): (r: seq<Handle>)
    requires n <= |spawned|
    ensures |r| <= n
  {
    if n == 0 then []
    else IdsUpTo(spawned, n - 1) + (if spawned[n - 1].Some? then [spawned[n - 1].value.id] else [])
  }

  /** The mesh components of the non-null entries among the first `n` that
   *  have one, in order. */
  function MeshesUpTo(spawned: seq<Option<Part>>, n: nat): (r: seq<MeshRef>)
    requires n <= |spawned|
    ensures |r| <= n
  {
    if n == 0 then []
    else
      MeshesUpTo(spawned, n - 1)
      + (if spawned[n - 1].Some? && spawned[n - 1].value.mesh.Some? then [spawned[n - 1].value.mesh.value] else [])
  }

  /** The durabilities of the non-null entries among the first `n`, in
   *  order. */
  function DurabilitiesUpTo(spawned: seq<Option<Part>>, n: nat): (ds: seq<real>)
    requires n <= |spawned|
    ensures |ds| <= n
  {
    if n == 0 then []
    else DurabilitiesUpTo(spawned, n - 1)
         + (if spawned[n - 1].Some? then [spawned[n - 1].value.durability] else [])
  }

  /** Entry `i` is a non-null part that casts to a magazine. */
  predicate MagazineAt(spawned: seq<Option<Part>>, i: nat)
    requires i < |spawned|
  {
    spawned[i].Some? && spawned[i].value.magazine != null
  }

  /** The magazine of the last magazine entry among the first `n`, or
   *  `current` when there is none. */
  function LastMagazineUpTo(spawned: seq<Option<Part>>, n: nat, current: MagazineAttachment?): MagazineAttachment?
    requires n <= |spawned|
  {
    if n == 0 then current
    else if MagazineAt(spawned, n - 1) then spawned[n - 1].value.magazine
    else LastMagazineUpTo(spawned, n - 1, current)
  }

  /** The same over the whole spawned list. */
  function ActiveIds(spawned: seq<Option<Part>>): seq<Handle>
  {
    IdsUpTo(spawned, |spawned|)
  }

  function ActiveMeshes(spawned: seq<Option<Part>>): seq<MeshRef>
  {
    MeshesUpTo(spawned, |spawned|)
  }

  function PartDurabilities(spawned: seq<Option<Part>>): seq<real>
  {
    DurabilitiesUpTo(spawned, |spawned|)
  }

  function LastMagazine(spawned: seq<Option<Part>>, current: MagazineAttachment?): MagazineAttachment?
  {
    LastMagazineUpTo(spawned, |spawned|, current)
  }

  /** A handle is registered exactly when it is the handle of a non-null
   *  entry. */
  lemma {:induction false} IdsMembers(spawned: seq<Option<Part>>, n: nat)
    requires n <= |spawned|
    ensures forall h :: h in IdsUpTo(spawned, n) <==>
                        exists i :: 0 <= i < n && spawned[i].Some? && spawned[i].value.id == h
  {
    if n > 0 {
      IdsMembers(spawned, n - 1);
    }
  }

  /** A mesh is registered exactly when it is the mesh of a non-null entry. */
  lemma {:induction false} MeshesMembers(spawned: seq<Option<Part>>, n: nat)
    requires n <= |spawned|
    ensures forall m :: m in MeshesUpTo(spawned, n) <==>
                        exists i :: 0 <= i < n && spawned[i].Some? && spawned[i].value.mesh == Some(m)
  {
    if n > 0 {
      MeshesMembers(spawned, n - 1);
    }
  }

  /** There is a durability for every non-null entry: none at all exactly
   *  when every entry is null. */
  lemma {:induction false} DurabilitiesCount(spawned: seq<Option<Part>>, n: nat)
    requires n <= |spawned|
    ensures |DurabilitiesUpTo(spawned, n)| == |IdsUpTo(spawned, n)|
    ensures |DurabilitiesUpTo(spawned, n)| == 0 <==> forall i :: 0 <= i < n ==> spawned[i].Nothing?
  {
    if n > 0 {
      DurabilitiesCount(spawned, n - 1);
    }
  }

  /** `LastMagazine` keeps `current` when no entry is a magazine, and
   *  otherwise is the magazine of an entry after which none is one. */
  lemma {:induction false} LastMagazineIsLast(spawned: seq<Option<Part>>, n: nat, current: MagazineAttachment?)
    requires n <= |spawned|
    ensures (forall i :: 0 <= i < n ==> !MagazineAt(spawned, i)) ==> LastMagazineUpTo(spawned, n, current) == current
    ensures (exists i :: 0 <= i < n && MagazineAt(spawned, i)) ==>
              exists i :: 0 <= i < n && MagazineAt(spawned, i)
                          && LastMagazineUpTo(spawned, n, current) == spawned[i].value.magazine
                          && forall j :: i < j < n ==> !MagazineAt(spawned, j)
  {
    if n > 0 && !MagazineAt(spawned, n - 1) {
      LastMagazineIsLast(spawned, n - 1, current);
    }
  }

  // ---------------------------------------------------------------------
  // Durability aggregation.

  function Sum(ds: seq<real>): real
  {
    if ds == [] then 0.0 else Sum(ds[..|ds| - 1]) + ds[|ds| - 1]
  }

  /** `FMath::Min` folded over `ds` from `FLT_MAX`. */
  function Least(ds: seq<real>): real
  {
    if ds == [] then FltMax
    else
      var m := Least(ds[..|ds| - 1]);
      if m <= ds[|ds| - 1] then m else ds[|ds| - 1]
  }

  /** `FMath::Max` folded over `ds` from `-FLT_MAX`. */
  function Greatest(ds: seq<real>): real
  {
    if ds == [] then -FltMax
    else
      var m := Greatest(ds[..|ds| - 1]);
      if m >= ds[|ds| - 1] then m else ds[|ds| - 1]
  }

  /** The fold from `FLT_MAX` is at most every element, and is an element
   *  unless it is still the seed. */
  lemma {:induction false} LeastIsMin(ds: seq<real>)
    ensures Least(ds) <= FltMax
    ensures forall i :: 0 <= i < |ds| ==> Least(ds) <= ds[i]
    ensures Least(ds) == FltMax || exists i :: 0 <= i < |ds| && Least(ds) == ds[i]
  {
    if ds != [] {
      var pre := ds[..|ds| - 1];
      LeastIsMin(pre);
      assert forall i :: 0 <= i < |pre| ==> pre[i] == ds[i];
    }
  }

  /** The fold from `-FLT_MAX` is at least every element, and is an
   *  element unless it is still the seed. */
  lemma {:induction false} GreatestIsMax(ds: seq<real>)
    ensures Greatest(ds) >= -FltMax
    ensures forall i :: 0 <= i < |ds| ==> ds[i] <= Greatest(ds)
    ensures Greatest(ds) == -FltMax || exists i :: 0 <= i < |ds| && Greatest(ds) == ds[i]
  {
    if ds != [] {
      var pre := ds[..|ds| - 1];
      GreatestIsMax(pre);
      assert forall i :: 0 <= i < |pre| ==> pre[i] == ds[i];
    }
  }

  /** The mode `GetWeaponDurability` uses: a requested `Average` stands for
   *  the weapon's default mode; any other mode is used as requested. */
  function EffectiveMode(requested: DurabilityMode, default: DurabilityMode): (m: DurabilityMode)
    ensures requested != Average ==> m == requested
    ensures requested == Average ==> m == default
  {
    if requested == Average && default != Average then default else requested
  }

  /** The durability of a nonempty list of part durabilities under a mode. */
  function Aggregate(mode: DurabilityMode, ds: seq<real>): real
    requires |ds| > 0
  {
    match mode
    case Average => Sum(ds) / (|ds| as real)
    case Minimum => Least(ds)
    case Maximum => Greatest(ds)
  }

  /** The durability a builder's spawned list yields under `mode`: 0
   *  without a builder or without a non-null part. */
  function WeaponDurability(mode: DurabilityMode, builder: Option<seq<Option<Part>>>): real
  {
    if builder.Nothing? || |PartDurabilities(builder.value)| == 0 then 0.0
    else Aggregate(mode, PartDurabilities(builder.value))
  }

  /** One more durability extends each fold by one step. */
  lemma FoldStep(ds: seq<real>, d: real)
    ensures Sum(ds + [d]) == Sum(ds) + d
    ensures Least(ds + [d]) == if Least(ds) <= d then Least(ds) else d
    ensures Greatest(ds + [d]) == if Greatest(ds) >= d then Greatest(ds) else d
  {
    assert (ds + [d])[..|ds|] == ds;
  }

  lemma {:induction false} SumAtLeast(ds: seq<real>, m: real)
    requires forall i :: 0 <= i < |ds| ==> m <= ds[i]
    ensures Sum(ds) >= (|ds| as real) * m
  {
    if ds != [] {
      var pre := ds[..|ds| - 1];
      assert forall i :: 0 <= i < |pre| ==> pre[i] == ds[i];
      SumAtLeast(pre, m);
      assert (|ds| as real) * m == (|pre| as real) * m + m;
    }
  }

  lemma {:induction false} SumAtMost(ds: seq<real>, m: real)
    requires forall i :: 0 <= i < |ds| ==> ds[i] <= m
    ensures Sum(ds) <= (|ds| as real) * m
  {
    if ds != [] {
      var pre := ds[..|ds| - 1];
      assert forall i :: 0 <= i < |pre| ==> pre[i] == ds[i];
      SumAtMost(pre, m);
      assert (|ds| as real) * m == (|pre| as real) * m + m;
    }
  }

  /** The minimum of the parts' durabilities is at most their average, and
   *  the average at most the maximum. */
  lemma ModeOrder(ds: seq<real>)
    requires |ds| > 0
    ensures Aggregate(Minimum, ds) <= Aggregate(Average, ds) <= Aggregate(Maximum, ds)
  {
    var n := |ds| as real;
    var s := Sum(ds);
    LeastIsMin(ds);
    GreatestIsMax(ds);
    SumAtLeast(ds, Least(ds));
    SumAtMost(ds, Greatest(ds));
    QuotientAtLeast(s, n, Least(ds));
    QuotientAtMost(s, n, Greatest(ds));
  }

  /** With finite float durabilities, the minimum and the maximum are
   *  durabilities of actual parts (never the `FLT_MAX` seeds). */
  lemma ModeSpan(ds: seq<real>)
    requires |ds| > 0
    requires forall i :: 0 <= i < |ds| ==> -FltMax <= ds[i] <= FltMax
    ensures exists i :: 0 <= i < |ds| && Aggregate(Minimum, ds) == ds[i]
    ensures exists i :: 0 <= i < |ds| && Aggregate(Maximum, ds) == ds[i]
  {
    LeastIsMin(ds);
    GreatestIsMax(ds);
    if Least(ds) == FltMax {
      assert ds[0] == FltMax;
    }
    if Greatest(ds) == -FltMax {
      assert ds[0] == -FltMax;
    }
  }

  /** `s / n` lies at or above `lo` once `s` is at least `n` copies of it. */
  lemma QuotientAtLeast(s: real, n: real, lo: real)
    requires n > 0.0 && s >= n * lo
    ensures s / n >= lo
  {
    var q := s / n;
    assert q * n == s;
    assert (q - lo) * n == s - lo * n;
  }

  lemma QuotientAtMost(s: real, n: real, hi: real)
    requires n > 0.0 && s <= n * hi
    ensures s / n <= hi
  {
    var q := s / n;
    assert q * n == s;
    assert (hi - q) * n == hi * n - s;
  }

  /** How one more entry of the spawned list moves the folds. */
  lemma GatherStep(spawned: seq<Option<Part>>, i: nat)
    requires i < |spawned|
    ensures var before, after := DurabilitiesUpTo(spawned, i), DurabilitiesUpTo(spawned, i + 1);
            if spawned[i].Some? then
              var d := spawned[i].value.durability;
              && |after| == |before| + 1
              && Sum(after) == Sum(before) + d
              && Least(after) == (if Least(before) <= d then Least(before) else d)
              && Greatest(after) == (if Greatest(before) >= d then Greatest(before) else d)
            else after == before
  {
    var before := DurabilitiesUpTo(spawned, i);
    if spawned[i].Some? {
      FoldStep(before, spawned[i].value.durability);
    } else {
      assert before + [] == before;
    }
  }

  /** The accumulation loop of `GetWeaponDurability`: over the non-null
   *  entries, the running total, the minimum from `FLT_MAX`, the maximum
   *  from `-FLT_MAX`, and the count. */
  method GatherDurabilities(spawned: seq<Option<Part>>)
    returns (total: real, minDurability: real, maxDurability: real, validCount: nat)
    ensures validCount == |PartDurabilities(spawned)|
    ensures total == Sum(PartDurabilities(spawned))
    ensures minDurability == Least(PartDurabilities(spawned))
    ensures maxDurability == Greatest(PartDurabilities(spawned))
  {
    total := 0.0;
    minDurability := FltMax;
    maxDurability := -FltMax;
    validCount := 0;
    var i := 0;
    while i < |spawned|
      invariant 0 <= i <= |spawned|
      invariant validCount == |DurabilitiesUpTo(spawned, i)|
      invariant total == Sum(DurabilitiesUpTo(spawned, i))
      invariant minDurability == Least(DurabilitiesUpTo(spawned, i))
      invariant maxDurability == Greatest(DurabilitiesUpTo(spawned, i))
    {
      GatherStep(spawned, i);
      if spawned[i].Some? {
        var d := spawned[i].value.durability;
        total := total + d;
        minDurability := if minDurability <= d then minDurability else d;
        maxDurability := if maxDurability >= d then maxDurability else d;
        validCount := validCount + 1;
      }
      i := i + 1;
    }
  }

  class Weapon {
    var weaponInfo: WeaponInfo
    var weaponCurrentState: WeaponCurrentState
    var currentMagazine: MagazineAttachment?

    /** The current magazine, if any, keeps its capacity bound. */
    ghost predicate Valid()
      reads this, currentMagazine
    {
      currentMagazine != null ==> currentMagazine.Valid()
    }

    constructor(info: WeaponInfo)
      ensures weaponInfo == info && weaponCurrentState == NewWeaponCurrentState()
      ensures currentMagazine == null && Valid()
    {
      weaponInfo := info;
      weaponCurrentState := NewWeaponCurrentState();
      currentMagazine := null;
    }

    /** `GetAmmoCount`: the magazine's count, or 0 without one. */
    function GetAmmoCount(): (n: Int32)
      reads this, currentMagazine
      requires Valid()
      ensures currentMagazine == null ==> n == 0
      ensures currentMagazine != null ==> n == |currentMagazine.bulletBuffer|
      ensures 0 <= n <= MagazineCapacity
    {
      if currentMagazine != null then currentMagazine.GetAmmoCount() else 0
    }

    /** `HasAmmo`: there is a magazine and it holds a round. */
    function HasAmmo(): (h: bool)
      reads this, currentMagazine
      requires Valid()
      ensures h <==> currentMagazine != null && |currentMagazine.bulletBuffer| > 0
    {
      GetAmmoCount() > 0
    }

    /** `IsValidBullet`: anything but the `None` sentinel. */
    static function IsValidBullet(b: BulletType): (v: bool)
      ensures v <==> b != None
      ensures v ==> BulletTypeToString(b) != "None (Empty)"
    {
      b != None
    }

    /** `ModifyDurability`: add `delta` and clamp to `[0, 100]`. */
    method ModifyDurability(delta: real)
      modifies this
      ensures weaponCurrentState == old(weaponCurrentState).(durability := ClampReal(old(weaponCurrentState).durability + delta, 0.0, 100.0))
      ensures 0.0 <= weaponCurrentState.durability <= 100.0
      ensures weaponInfo == old(weaponInfo) && currentMagazine == old(currentMagazine)
    {
      weaponCurrentState := weaponCurrentState.(durability := ClampReal(weaponCurrentState.durability + delta, 0.0, 100.0));
    }

    /** `ConsumeBullet`: the magazine's front round, removed; `None` with no
     *  magazine or an empty one. */
    method ConsumeBullet() returns (b: BulletType)
      requires Valid()
      modifies currentMagazine
      ensures Valid()
      ensures currentMagazine == null ==> b == None
      ensures currentMagazine != null && |old(currentMagazine.bulletBuffer)| > 0 ==>
                b == old(currentMagazine.bulletBuffer)[0]
                && currentMagazine.bulletBuffer == old(currentMagazine.bulletBuffer)[1..]
      ensures currentMagazine != null && |old(currentMagazine.bulletBuffer)| == 0 ==>
                b == None && currentMagazine.bulletBuffer == old(currentMagazine.bulletBuffer)
    {
      if currentMagazine != null {
        b := currentMagazine.RemoveBullet();
      } else {
        b := None;
      }
    }

    /** `FireWeapon`: with no round to fire, nothing happens and `None` is
     *  returned.  Otherwise the front round leaves the magazine and is
     *  returned; a real round (not `None`) also wears the weapon by 0.5. */
    method FireWeapon() returns (fired: BulletType)
      requires Valid()
      modifies this, currentMagazine
      ensures Valid()
      ensures currentMagazine == old(currentMagazine) && weaponInfo == old(weaponInfo)
      ensures !old(HasAmmo()) ==>
                fired == None && weaponCurrentState == old(weaponCurrentState)
                && (currentMagazine != null ==> currentMagazine.bulletBuffer == old(currentMagazine.bulletBuffer))
      ensures old(HasAmmo()) ==>
                fired == old(currentMagazine.bulletBuffer)[0]
                && currentMagazine.bulletBuffer == old(currentMagazine.bulletBuffer)[1..]
                && weaponCurrentState == (if fired != None then old(weaponCurrentState).(durability := ClampReal(old(weaponCurrentState).durability - WearPerShot, 0.0, 100.0))
                                          else old(weaponCurrentState))
    {
      if currentMagazine == null {
        return None;
      }
      if !HasAmmo() {
        return None;
      }
      var b := ConsumeBullet();
      if IsValidBullet(b) {
        ModifyDurability(-WearPerShot);
        return b;
      }
      return None;
    }

    /** `BeginPlay`: restore full durability, then fire five times.  The
     *  first rounds of the magazine (at most five) leave it, and each real
     *  round among them wears the weapon by 0.5. */
    method BeginPlay()
      requires Valid()
      modifies this, currentMagazine
      ensures Valid() && currentMagazine == old(currentMagazine) && weaponInfo == old(weaponInfo)
      ensures currentMagazine == null ==> weaponCurrentState == old(weaponCurrentState).(durability := InitialDurability)
      ensures currentMagazine != null ==>
                var n := if BeginPlayShots < |old(currentMagazine.bulletBuffer)| then BeginPlayShots else |old(currentMagazine.bulletBuffer)|;
                currentMagazine.bulletBuffer == old(currentMagazine.bulletBuffer)[n..]
                && weaponCurrentState == old(weaponCurrentState).(durability := InitialDurability - WearPerShot * RealRounds(old(currentMagazine.bulletBuffer)[..n]) as real)
    {
      weaponCurrentState := weaponCurrentState.(durability := InitialDurability);
      ghost var start := if currentMagazine != null then currentMagazine.bulletBuffer else [];
      var i := 0;
      while i < BeginPlayShots
        invariant 0 <= i <= BeginPlayShots
        invariant Valid() && currentMagazine == old(currentMagazine) && weaponInfo == old(weaponInfo)
        invariant currentMagazine == null ==> weaponCurrentState == old(weaponCurrentState).(durability := InitialDurability)
        invariant currentMagazine != null ==>
                    var n := if i < |start| then i else |start|;
                    currentMagazine.bulletBuffer == start[n..]
                    && weaponCurrentState == old(weaponCurrentState).(durability := InitialDurability - WearPerShot * RealRounds(start[..n]) as real)
      {
        ghost var n := if i < |start| then i else |start|;
        if currentMagazine != null && n < |start| {
          assert start[..n + 1] == start[..n] + [start[n]];
          RealRoundsSnoc(start[..n], start[n]);
          assert start[n..][1..] == start[n + 1..];
        }
        var fired := FireWeapon();
        i := i + 1;
      }
    }

    /** `ReloadMagazine`: the new magazine (possibly none) replaces the old. */
    method ReloadMagazine(newMag: MagazineAttachment?)
      modifies this
      ensures currentMagazine == newMag
      ensures weaponInfo == old(weaponInfo) && weaponCurrentState == old(weaponCurrentState)
    {
      currentMagazine := newMag;
    }

    /** `HandleWeaponBuilt`: register every non-null spawned attachment and
     *  its mesh, in order, and take the last magazine among them as the
     *  current one (keeping the current magazine when there is none). */
    method HandleWeaponBuilt(spawned: seq<Option<Part>>)
      modifies this
      ensures weaponCurrentState.activeAttachments == ActiveIds(spawned)
      ensures weaponCurrentState.activeAttachmentMeshes == ActiveMeshes(spawned)
      ensures weaponCurrentState.durability == old(weaponCurrentState).durability
      ensures currentMagazine == LastMagazine(spawned, old(currentMagazine))
      ensures weaponInfo == old(weaponInfo)
    {
      weaponCurrentState := weaponCurrentState.(activeAttachments := [], activeAttachmentMeshes := []);
      ghost var start := currentMagazine;
      var i := 0;
      while i < |spawned|
        invariant 0 <= i <= |spawned|
        invariant weaponInfo == old(weaponInfo)
        invariant weaponCurrentState.durability == old(weaponCurrentState).durability
        invariant weaponCurrentState.activeAttachments == IdsUpTo(spawned, i)
        invariant weaponCurrentState.activeAttachmentMeshes == MeshesUpTo(spawned, i)
        invariant currentMagazine == LastMagazineUpTo(spawned, i, start)
      {
        var entry := spawned[i];
        if entry.Some? {
          var a := entry.value;
          weaponCurrentState := weaponCurrentState.(activeAttachments := weaponCurrentState.activeAttachments + [a.id]);
          if a.mesh.Some? {
            weaponCurrentState := weaponCurrentState.(activeAttachmentMeshes := weaponCurrentState.activeAttachmentMeshes + [a.mesh.value]);
          } else {
            assert MeshesUpTo(spawned, i + 1) == MeshesUpTo(spawned, i) + [];
          }
          if a.magazine != null {
            currentMagazine := a.magazine;
          }
        } else {
          assert IdsUpTo(spawned, i + 1) == IdsUpTo(spawned, i) + [];
          assert MeshesUpTo(spawned, i + 1) == MeshesUpTo(spawned, i) + [];
        }
        i := i + 1;
      }
    }

    /** `GetWeaponDurability`: aggregate the durabilities of the non-null
     *  spawned parts under the effective mode and store the result.  No
     *  builder component, or no non-null part, gives 0 and stores nothing. */
    method GetWeaponDurability(mode: DurabilityMode, builder: Option<seq<Option<Part>>>) returns (r: real)
      modifies this
      ensures weaponInfo == old(weaponInfo) && currentMagazine == old(currentMagazine)
      ensures r == WeaponDurability(EffectiveMode(mode, weaponInfo.defaultDurabilityMode), builder)
      ensures builder.Nothing? || |PartDurabilities(builder.value)| == 0 ==> weaponCurrentState == old(weaponCurrentState)
      ensures builder.Some? && |PartDurabilities(builder.value)| > 0 ==>
                weaponCurrentState == old(weaponCurrentState).(durability := r)
    {
      var m := mode;
      if m == Average && weaponInfo.defaultDurabilityMode != Average {
        m := weaponInfo.defaultDurabilityMode;
      }
      if builder.Nothing? {
        return 0.0;
      }
      var spawned := builder.value;
      if |spawned| == 0 {
        return 0.0;
      }
      var total, minDurability, maxDurability, validCount := GatherDurabilities(spawned);
      if validCount == 0 {
        return 0.0;
      }
      if m == Average {
        weaponCurrentState := weaponCurrentState.(durability := total / (validCount as real));
      } else if m == Minimum {
        weaponCurrentState := weaponCurrentState.(durability := minDurability);
      } else {
        weaponCurrentState := weaponCurrentState.(durability := maxDurability);
      }
      r := weaponCurrentState.durability;
    }
  }
}
