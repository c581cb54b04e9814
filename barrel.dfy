/**
 * A barrel's chamber: a local optional round kept in step with a replicated
 * bullet-type field in which `None` stands for an empty chamber.  The
 * engine writes the replicated field on clients and then calls
 * `OnRep_ChamberedRound`.
 */
module Chamber {
  import opened AttachmentTypes

  /** The local chamber state a replicated value stands for. */
  function ChamberOf(r: BulletType): (c: Option<BulletType>)
    ensures c.Nothing? <==> r == None
    ensures c.Some? ==> c.value == r && c.value != None
  {
    if r == None then Nothing else Some(r)
  }

  /** A chamber state is recovered from its replicated value, and a
   *  chamber never holds the `None` sentinel as a round. */
  lemma ChamberOfRoundTrip(c: Option<BulletType>)
    requires c.Nothing? || c.value != None
    ensures ChamberOf(if c.Some? then c.value else None) == c
  {
  }

  class BarrelAttachment {
    /** `ReplicatedChamberedRound`. */
    var replicatedChamberedRound: BulletType
    /** `ChamberedRound`, the local `std::optional`. */
    var chamberedRound: Option<BulletType>

    /** The local state agrees with the replicated field. */
    ghost predicate Synced()
      reads this
    {
      chamberedRound == ChamberOf(replicatedChamberedRound)
    }

    constructor()
      ensures replicatedChamberedRound == None && chamberedRound == Nothing
      ensures Synced()
    {
      replicatedChamberedRound := None;
      chamberedRound := Nothing;
    }

    /** `GetChamberedRound`. */
    function GetChamberedRound(): (c: Option<BulletType>)
      reads this
      ensures Synced() ==> c == ChamberOf(replicatedChamberedRound)
    {
      chamberedRound
    }

    /** `HasRoundChambered`: the chamber holds a round; once synced, exactly
     *  when the replicated field is not `None`. */
    function HasRoundChambered(): (b: bool)
      reads this
      ensures b <==> GetChamberedRound().Some?
      ensures Synced() ==> (b <==> replicatedChamberedRound != None)
    {
      chamberedRound.Some?
    }

    /** `SetChamberedRound`: chamber `newRound` (none for `None`) and
     *  replicate it. */
    method SetChamberedRound(newRound: BulletType)
      modifies this
      ensures replicatedChamberedRound == newRound
      ensures newRound == None ==> chamberedRound == Nothing
      ensures newRound != None ==> chamberedRound == Some(newRound)
      ensures Synced()
    {
      chamberedRound := if newRound != None then Some(newRound) else Nothing;
      replicatedChamberedRound := newRound;
    }

    /** `ClearChamber`: empty the chamber and replicate `None`.  The new
     *  state does not depend on the old one, so clearing is idempotent. */
    method ClearChamber()
      modifies this
      ensures chamberedRound == Nothing && replicatedChamberedRound == None
      ensures Synced() && !HasRoundChambered()
    {
      chamberedRound := Nothing;
      replicatedChamberedRound := None;
    }

    /** `OnRep_ChamberedRound`: bring the local state in line with whatever
     *  value replication delivered. */
    method OnRep_ChamberedRound()
      modifies this
      ensures replicatedChamberedRound == old(replicatedChamberedRound)
      ensures Synced()
      ensures HasRoundChambered() <==> replicatedChamberedRound != None
    {
      if replicatedChamberedRound == None {
        chamberedRound := Nothing;
      } else {
        chamberedRound := Some(replicatedChamberedRound);
      }
    }
  }

  /** A client that receives what the server set ends in the server's
   *  state: replication followed by `OnRep_ChamberedRound` reproduces
   *  `SetChamberedRound`. */
  method ReplicateToClient(server: BarrelAttachment, client: BarrelAttachment, r: BulletType)
    requires server != client
    modifies server, client
    ensures server.chamberedRound == client.chamberedRound
    ensures server.replicatedChamberedRound == client.replicatedChamberedRound == r
  {
    server.SetChamberedRound(r);
    client.replicatedChamberedRound := server.replicatedChamberedRound;
    client.OnRep_ChamberedRound();
  }
}
