/**
 * A magazine: a first-in first-out store of rounds with a fixed capacity of
 * 30.  The ring buffer behind it is seen only through its observable
 * behaviour: `Put` appends at the back unless the buffer is full, `Get`
 * takes from the front unless it is empty.
 */
module Magazine {
  import opened AttachmentTypes

  const MagazineCapacity: nat := 30

  /** `n` copies of round `t`. */
  function Repeat(t: BulletType, n: nat): (r: seq<BulletType>)
    ensures |r| == n
    ensures forall i :: 0 <= i < n ==> r[i] == t
  {
    if n == 0 then [] else Repeat(t, n - 1) + [t]
  }

  /** How many of `count` puts succeed on a buffer already holding `held`
   *  rounds: every one of them while there is room, then none. */
  function Fill(count: int, held: nat): (k: nat)
    requires held <= MagazineCapacity
    ensures held + k <= MagazineCapacity
    ensures k <= if count < 0 then 0 else count
    ensures k == count || held + k == MagazineCapacity || count < 0
  {
    if count <= 0 then 0
    else if count <= MagazineCapacity - held then count
    else MagazineCapacity - held
  }

  /** How many of `count` gets succeed on a buffer holding `held` rounds. */
  function Drain(count: int, held: nat): (k: nat)
    ensures k <= held
    ensures k <= if count < 0 then 0 else count
    ensures k == count || k == held || count < 0
  {
    if count <= 0 then 0 else if count <= held then count else held
  }

  /** `BulletTypeToString`: the display name of a round. */
  function BulletTypeToString(t: BulletType): (s: string)
    ensures |s| >= 6
    ensures s == "None (Empty)" <==> t == None
  {
    match t
    case None => "None (Empty)"
    case Standard_FMJ => "Standard FMJ (Ball)"
    case ArmorPiercing => "Armor Piercing (Black Tip)"
    case HollowPoint_SP => "Hollow/Soft Point"
    case Tracer => "Tracer (Green Tip)"
    case Subsonic => "Subsonic"
    case Hunting_JSP => "Jacketed Soft Point"
  }

  /** Distinct rounds have distinct display names: the first two
   *  characters already tell them apart. */
  lemma BulletNamesDistinct(t: BulletType, u: BulletType)
    ensures BulletTypeToString(t) == BulletTypeToString(u) <==> t == u
  {
    var s, r := BulletTypeToString(t), BulletTypeToString(u);
    if t != u {
      assert s[0] != r[0] || s[1] != r[1];
    }
  }

  class MagazineAttachment {
    /** The rounds held, front (oldest) first. */
    var bulletBuffer: seq<BulletType>

    ghost predicate Valid()
      reads this
    {
      |bulletBuffer| <= MagazineCapacity
    }

    /** A new magazine's buffer is empty. */
    constructor()
      ensures Valid() && bulletBuffer == []
    {
      bulletBuffer := [];
    }

    /** The ring buffer's `Put`: append at the back unless full. */
    method Put(t: BulletType) returns (ok: bool)
      requires Valid()
      modifies this
      ensures Valid()
      ensures ok <==> |old(bulletBuffer)| < MagazineCapacity
      ensures bulletBuffer == if ok then old(bulletBuffer) + [t] else old(bulletBuffer)
    {
      if |bulletBuffer| < MagazineCapacity {
        bulletBuffer := bulletBuffer + [t];
        ok := true;
      } else {
        ok := false;
      }
    }

    /** The ring buffer's `Get`: take the front round unless empty. */
    method Get() returns (out: Option<BulletType>)
      requires Valid()
      modifies this
      ensures Valid()
      ensures out.Some? <==> |old(bulletBuffer)| > 0
      ensures out.Some? ==> out.value == old(bulletBuffer)[0] && bulletBuffer == old(bulletBuffer)[1..]
      ensures out.Nothing? ==> bulletBuffer == old(bulletBuffer)
    {
      if |bulletBuffer| > 0 {
        out := Some(bulletBuffer[0]);
        bulletBuffer := bulletBuffer[1..];
      } else {
        out := Nothing;
      }
    }

    /** `AddBullet`: true, with the round appended, exactly when the
     *  magazine is not full; a full magazine is left as it was. */
    method AddBullet(t: BulletType) returns (added: bool)
      requires Valid()
      modifies this
      ensures Valid()
      ensures added <==> |old(bulletBuffer)| < MagazineCapacity
      ensures added ==> bulletBuffer == old(bulletBuffer) + [t] && GetAmmoCount() == old(GetAmmoCount()) + 1
      ensures !added ==> bulletBuffer == old(bulletBuffer)
    {
      added := Put(t);
    }

    /** `RemoveBullet`: the oldest round, which leaves the magazine; `None`
     *  from an empty magazine, which is left as it was. */
    method RemoveBullet() returns (r: BulletType)
      requires Valid()
      modifies this
      ensures Valid()
      ensures |old(bulletBuffer)| > 0 ==>
                r == old(bulletBuffer)[0] && bulletBuffer == old(bulletBuffer)[1..]
                && GetAmmoCount() == old(GetAmmoCount()) - 1
      ensures |old(bulletBuffer)| == 0 ==> r == None && bulletBuffer == old(bulletBuffer)
    {
      var out := Get();
      if out.Some? {
        return out.value;
      }
      return None;
    }

    /** `GetAmmoCount`: the number of rounds held, at most the capacity. */
    function GetAmmoCount(): (n: Int32)
      reads this
      requires Valid()
      ensures n == |bulletBuffer|
      ensures 0 <= n <= MagazineCapacity
    {
      |bulletBuffer|
    }

    /** `IsEmpty`: no round is held. */
    function IsEmpty(): (e: bool)
      reads this
      requires Valid()
      ensures e <==> GetAmmoCount() == 0
      ensures !e ==> |bulletBuffer| > 0
    {
      |bulletBuffer| == 0
    }

    /** `EnqueueNTimes`: put `count` copies of `t`, stopping at the first
     *  put that fails. */
    method EnqueueNTimes(t: BulletType, count: Int32)
      requires Valid()
      modifies this
      ensures Valid()
      ensures bulletBuffer == old(bulletBuffer) + Repeat(t, Fill(count, |old(bulletBuffer)|))
    {
      ghost var start := bulletBuffer;
      var i := 0;
      while i < count
        invariant 0 <= i <= if count < 0 then 0 else count
        invariant Valid()
        invariant |start| + i <= MagazineCapacity
        invariant bulletBuffer == start + Repeat(t, i)
        decreases count - i
      {
        var ok := Put(t);
        if !ok {
          break;
        }
        i := i + 1;
      }
      assert i == Fill(count, |start|);
    }

    /** `DequeueNTimes`: get `count` rounds from the front, stopping once
     *  the magazine is empty. */
    method DequeueNTimes(count: Int32)
      requires Valid()
      modifies this
      ensures Valid()
      ensures bulletBuffer == old(bulletBuffer)[Drain(count, |old(bulletBuffer)|)..]
    {
      ghost var start := bulletBuffer;
      var i := 0;
      while i < count
        invariant 0 <= i <= |start|
        invariant i <= if count < 0 then 0 else count
        invariant Valid()
        invariant bulletBuffer == start[i..]
        decreases count - i
      {
        var out := Get();
        if out.Nothing? {
          break;
        }
        i := i + 1;
      }
      assert i == Drain(count, |start|);
    }

    /** `LogBufferNonDestructive`: drain every round into a temporary list,
     *  then put them back in the same order.  Returns the drained list
     *  (what is logged); the magazine ends exactly as it began. */
    method LogBufferNonDestructive() returns (temp: seq<BulletType>)
      requires Valid()
      modifies this
      ensures Valid()
      ensures temp == old(bulletBuffer)
      ensures bulletBuffer == old(bulletBuffer)
    {
      ghost var start := bulletBuffer;
      temp := [];
      while true
        invariant Valid()
        invariant start == temp + bulletBuffer
        decreases |bulletBuffer|
      {
        var item := Get();
        if item.Nothing? {
          break;
        }
        temp := temp + [item.value];
      }
      assert bulletBuffer == [];
      var j := 0;
      while j < |temp|
        invariant 0 <= j <= |temp|
        invariant Valid()
        invariant bulletBuffer == temp[..j]
      {
        var ok := Put(temp[j]);
        assert temp[..j + 1] == temp[..j] + [temp[j]];
        j := j + 1;
      }
      assert temp[..j] == temp;
    }

    /** `BeginPlay`: `MagazineCapacity` attempts to add a `Standard_FMJ`
     *  round, so the magazine ends full, topped up with `Standard_FMJ`. */
    method BeginPlay()
      requires Valid()
      modifies this
      ensures Valid()
      ensures bulletBuffer == old(bulletBuffer) + Repeat(Standard_FMJ, MagazineCapacity - |old(bulletBuffer)|)
      ensures GetAmmoCount() == MagazineCapacity
    {
      ghost var start := bulletBuffer;
      var i := 0;
      while i < MagazineCapacity
        invariant 0 <= i <= MagazineCapacity
        invariant Valid()
        invariant bulletBuffer == start + Repeat(Standard_FMJ, Fill(i, |start|))
      {
        var added := AddBullet(Standard_FMJ);
        i := i + 1;
      }
    }
  }
}
