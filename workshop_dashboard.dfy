/** The workshop's dashboard (src/components/workshop/WorkshopDashboard.jsx):
    looking a vehicle up, recording verified maintenance for it, notifying
    its owner, and the list of the workshop's most recent services. */
module WorkshopDashboard {
  import opened Common
  import opened Store

  const RECENT_LIMIT := 5

  const BLANK_SERVICE := ServiceData("", "Mantenimiento General", "", "", "")

  /** The owner's notification, signed with `user_metadata.full_name`, or
      "Taller" when that is absent. */
  function MaintenanceMessage(plate: string, metadataFullName: string): string
  {
    "Nuevo mantenimiento registrado para tu vehículo " + plate + " por " +
      (if metadataFullName == "" then "Taller" else metadataFullName) + "."
  }

  /** The lookup condition: the raw term equals the plate or the VIN. */
  predicate MatchesTerm(v: Vehicle, term: string)
  {
    v.plate == term || v.vin == term
  }

  /** `.or(plate.eq.term, vin_full.eq.term).single()`. */
  function Lookup(vehicles: seq<Vehicle>, term: string): Option<Vehicle>
  {
    Single(Filter(vehicles, (v: Vehicle) => MatchesTerm(v, term)))
  }

  function ServiceDate(m: Maintenance): int { m.date }

  predicate ByWorkshop(workshop: Id, m: Maintenance) { m.workshopId == workshop }

  /** `fetchRecentServices`: this workshop's records, newest date first, at
      most five. */
  function RecentServices(maintenance: seq<Maintenance>, workshop: Id): seq<Maintenance>
  {
    Take(SortDesc(Filter(maintenance, m => ByWorkshop(workshop, m)), ServiceDate), RECENT_LIMIT)
  }

  class Dashboard {
    const db: Database
    /** The signed-in workshop. */
    const user: Id
    /** `user.user_metadata?.full_name`. The session holds a users-table
        row, which has no `user_metadata`, so for every signed-in workshop
        this is "" and the notification is signed "Taller". */
    const metadataFullName: string
    var foundVehicle: Option<Vehicle>
    var serviceData: ServiceData
    var showMaintenanceModal: bool
    var recentServices: seq<Maintenance>

    constructor (db: Database, user: Id, metadataFullName: string)
      ensures this.db == db && this.user == user && this.metadataFullName == metadataFullName
      ensures foundVehicle == None && serviceData == BLANK_SERVICE && !showMaintenanceModal && recentServices == []
    {
      this.db, this.user, this.metadataFullName := db, user, metadataFullName;
      foundVehicle, serviceData, showMaintenanceModal, recentServices := None, BLANK_SERVICE, false, [];
    }

    /** `fetchRecentServices`; a failed query keeps the previous list. */
    method FetchRecentServices(fails: bool)
      modifies this`recentServices
      ensures recentServices == if fails then old(recentServices) else RecentServices(db.maintenance, user)
    {
      if !fails {
        recentServices := RecentServices(db.maintenance, user);
      }
    }

    /** `handleSearch`: the previous result is cleared, then the one row
        whose plate or VIN equals the term as typed becomes the result; no
        row, several rows or a failed query leave no result. */
    method Search(term: string, queryFails: bool)
      modifies this`foundVehicle
      ensures foundVehicle == if queryFails then None else Lookup(db.vehicles, term)
    {
      foundVehicle := None;
      if !queryFails {
        foundVehicle := Lookup(db.vehicles, term);
      }
    }

    /** `handleAddMaintenance`. With no vehicle found nothing happens. The
        record carries the vehicle, this workshop and the form's fields; a
        failed insert writes nothing and keeps the form. After an insert the
        owner, when the vehicle has one, is notified, the dialog closes, the
        form is reset and the recent list refreshed. */
    method AddMaintenance(insertFails: bool, now: int)
      modifies db`maintenance, db`notifications, db`nextId
      modifies this`showMaintenanceModal, this`serviceData, this`recentServices
      ensures if old(foundVehicle).None? || insertFails then unchanged(db) && unchanged(this)
        else
          var v := old(foundVehicle).value;
          && db.maintenance == old(db.maintenance) + [Maintenance(v.id, user, old(serviceData), now)]
          && db.notifications == old(db.notifications) +
               (if v.owner.Some? then
                  [Notification(old(db.nextId), v.owner.value, MaintenanceMessage(v.plate, metadataFullName), "mantenimiento", false, now)]
                else [])
          && db.nextId == old(db.nextId) + (if v.owner.Some? then 1 else 0)
          && !showMaintenanceModal && serviceData == BLANK_SERVICE
          && recentServices == RecentServices(db.maintenance, user)
    {
      if foundVehicle.None? || insertFails {
        return;
      }
      var v := foundVehicle.value;
      db.maintenance := db.maintenance + [Maintenance(v.id, user, serviceData, now)];
      if v.owner.Some? {
        db.notifications := db.notifications +
          [Notification(db.nextId, v.owner.value, MaintenanceMessage(v.plate, metadataFullName), "mantenimiento", false, now)];
        db.nextId := db.nextId + 1;
      }
      showMaintenanceModal := false;
      serviceData := BLANK_SERVICE;
      recentServices := RecentServices(db.maintenance, user);
    }
  }

  /** The recent list holds at most five of this workshop's records, newest
      first; no record of the workshop left out is newer than one shown, and
      with fewer than five shown none was left out. */
  lemma RecentServicesSpec(maintenance: seq<Maintenance>, workshop: Id)
    ensures var r := RecentServices(maintenance, workshop);
      && |r| <= RECENT_LIMIT
      && SortedDesc(r, ServiceDate)
      && (forall m :: m in r ==> m in maintenance && m.workshopId == workshop)
      && (forall m, n :: m in maintenance && m.workshopId == workshop && m !in r && n in r ==> ServiceDate(n) >= ServiceDate(m))
      && (|r| < RECENT_LIMIT ==> forall m :: m in maintenance && m.workshopId == workshop ==> m in r)
  {
    NewestFirstSpec(maintenance, m => ByWorkshop(workshop, m), ServiceDate, RECENT_LIMIT);
  }

  /** The term is not normalised: when stored plates and VINs are in
      normal form, a term with a lower-case letter finds nothing. */
  lemma LowerCaseTermFindsNothing(vehicles: seq<Vehicle>, term: string, k: nat)
    requires k < |term| && IsLower(term[k])
    requires forall v :: v in vehicles ==> NoLower(v.plate) && NoLower(v.vin)
    ensures Lookup(vehicles, term) == None
  {
    var p := (v: Vehicle) => MatchesTerm(v, term);
    FilterMembers(vehicles, p);
    FilterEmptyIff(vehicles, p);
    forall i | 0 <= i < |vehicles| ensures !p(vehicles[i]) {
      assert vehicles[i] in vehicles;
    }
  }
}
