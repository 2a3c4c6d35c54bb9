/** The digital deposit (src/components/deposit/Deposit.jsx): the list of
    vehicles waiting to be claimed, and the trust-based claim that gives one
    of them to the signed-in user. */
module Deposit {
  import opened Common
  import opened Store

  const CLAIM_REASON := "Reclamación desde Depósito Digital"

  function ClaimMessage(plate: string): string
  {
    "Has reclamado exitosamente el vehículo " + plate + " del Depósito Digital."
  }

  /** The deposit listing: every row with the deposit status, deleted or not. */
  function InDeposit(vehicles: seq<Vehicle>): seq<Vehicle>
  {
    Filter(vehicles, (v: Vehicle) => v.status == UnregisteredDeposit)
  }

  class DepositPage {
    const db: Database
    /** The signed-in user, if any. */
    const user: Option<Id>
    var vehicles: seq<Vehicle>

    constructor (db: Database, user: Option<Id>)
      ensures this.db == db && this.user == user && vehicles == []
    {
      this.db, this.user, vehicles := db, user, [];
    }

    /** `fetchDepositVehicles`; a failed query keeps the previous list. */
    method FetchDepositVehicles(fails: bool)
      modifies this`vehicles
      ensures vehicles == if fails then old(vehicles) else InDeposit(db.vehicles)
    {
      if !fails {
        vehicles := InDeposit(db.vehicles);
      }
    }

    /** `handleClaim`: with a signed-in user and a confirmed dialog, the
        vehicle gets the user as owner and the active status, whatever its
        previous status; then one transfer with no sender and one
        notification to the claimant are recorded and the list is
        refreshed. No user, a declined dialog or a failed update write
        nothing. */
    method HandleClaim(vehicle: Vehicle, confirmed: bool, updateFails: bool, now: int)
      modifies db`vehicles, db`transfers, db`notifications, db`nextId, this`vehicles
      ensures if user.None? || !confirmed || updateFails then unchanged(db) && unchanged(this)
        else
          && db.vehicles == UpdateVehicle(old(db.vehicles), vehicle.id, v => Reassigned(v, user, Active))
          && db.transfers == old(db.transfers) + [Transfer(vehicle.id, None, user, CLAIM_REASON)]
          && db.notifications == old(db.notifications) +
               [Notification(old(db.nextId), user.value, ClaimMessage(vehicle.plate), "transferencia", false, now)]
          && db.nextId == old(db.nextId) + 1
          && vehicles == InDeposit(db.vehicles)
    {
      if user.None? || !confirmed || updateFails {
        return;
      }
      db.vehicles := UpdateVehicle(db.vehicles, vehicle.id, v => Reassigned(v, user, Active));
      db.transfers := db.transfers + [Transfer(vehicle.id, None, user, CLAIM_REASON)];
      db.notifications := db.notifications +
        [Notification(db.nextId, user.value, ClaimMessage(vehicle.plate), "transferencia", false, now)];
      db.nextId := db.nextId + 1;
      vehicles := InDeposit(db.vehicles);
    }
  }

  /** The deposit lists exactly the rows with the deposit status; deleted
      rows are not excluded. */
  lemma InDepositIff(vehicles: seq<Vehicle>, v: Vehicle)
    ensures v in InDeposit(vehicles) <==> v in vehicles && v.status == UnregisteredDeposit
  {
    FilterMembers(vehicles, (x: Vehicle) => x.status == UnregisteredDeposit);
  }

  /** Sending a vehicle to the deposit puts it on the deposit list; claiming
      it takes it off again and makes the claimant its owner. */
  lemma DepositThenClaim(vehicles: seq<Vehicle>, i: nat, claimant: Id)
    requires i < |vehicles|
    ensures var id := vehicles[i].id;
      var deposited := UpdateVehicle(vehicles, id, v => Reassigned(v, None, UnregisteredDeposit));
      var claimed := UpdateVehicle(deposited, id, v => Reassigned(v, Some(claimant), Active));
      && deposited[i] in InDeposit(deposited)
      && claimed[i] !in InDeposit(claimed)
      && claimed[i].owner == Some(claimant) && claimed[i].status == Active
  {
    var id := vehicles[i].id;
    var deposited := UpdateVehicle(vehicles, id, v => Reassigned(v, None, UnregisteredDeposit));
    var claimed := UpdateVehicle(deposited, id, v => Reassigned(v, Some(claimant), Active));
    InDepositIff(deposited, deposited[i]);
    InDepositIff(claimed, claimed[i]);
    UpdateKeepsIds(vehicles, id, v => Reassigned(v, None, UnregisteredDeposit));
  }

  /** A claim does not check the vehicle's status: even a stolen vehicle's
      row becomes active and owned by the claimant. */
  lemma ClaimIgnoresStatus(v: Vehicle, claimant: Id)
    requires v.status == Stolen
    ensures var r := UpdateVehicle([v], v.id, w => Reassigned(w, Some(claimant), Active));
      r[0].status == Active && r[0].owner == Some(claimant)
  {
  }
}
