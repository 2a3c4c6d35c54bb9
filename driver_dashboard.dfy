/** The driver's dashboard (src/components/driver/DriverDashboard.jsx):
    registration with duplicate rejection, editing, transfer to another user
    or to the digital deposit, soft delete, and the list of the driver's own
    vehicles. Each handler is one sequential step over the tables. */
module DriverDashboard {
  import opened Common
  import opened Normalization
  import opened Store

  /** The add/edit vehicle form. */
  datatype VehicleForm = VehicleForm(
    plate: string, vin: string, engine: string,
    brand: string, model: string, year: int, color: string, photoUrl: string)

  /** The blank add form; its year is the current calendar year. */
  function BlankForm(currentYear: int): VehicleForm
  {
    VehicleForm("", "", "", "", "", currentYear, "", "")
  }

  /** The identity of the first duplicate, as shown by the conflict dialog. */
  datatype ConflictData = ConflictData(plate: string, vin: string, engine: string)

  datatype TransferType = ByEmail | ToDeposit

  const DEPOSIT_REASON := "Enviado a Depósito Digital"
  const DIRECT_REASON := "Transferencia directa"

  function DepositMessage(plate: string): string
  {
    "Has enviado tu vehículo " + plate + " al Depósito Digital."
  }

  /** The duplicate lookup's condition: any one of the three identity fields
      equal. It does not look at `isDeleted`. */
  predicate SharesIdentity(v: Vehicle, plate: string, vin: string, engine: string)
  {
    v.plate == plate || v.vin == vin || v.engine == engine
  }

  /** The rows the duplicate lookup returns, in table order. */
  function Duplicates(vehicles: seq<Vehicle>, plate: string, vin: string, engine: string): seq<Vehicle>
  {
    Filter(vehicles, (v: Vehicle) => SharesIdentity(v, plate, vin, engine))
  }

  /** The row a successful registration inserts: the form with its identity
      fields normalised, owned by the registering user. */
  function NewRow(id: Id, form: VehicleForm, owner: Id): Vehicle
  {
    Vehicle(id, NormalizePlate(form.plate), NormalizeVin(form.vin), NormalizeEngine(form.engine),
      form.brand, form.model, form.year, form.color, form.photoUrl,
      Some(owner), Active, false, None, None)
  }

  /** The dashboard list: non-deleted vehicles owned by the user. */
  function OwnedActive(vehicles: seq<Vehicle>, user: Id): seq<Vehicle>
  {
    Filter(vehicles, (v: Vehicle) => v.owner == Some(user) && !v.isDeleted)
  }

  /** No two rows share a plate, a VIN or an engine number. */
  predicate DistinctIdentities(vehicles: seq<Vehicle>)
  {
    forall i, j :: 0 <= i < j < |vehicles| ==>
      !SharesIdentity(vehicles[i], vehicles[j].plate, vehicles[j].vin, vehicles[j].engine)
  }

  /** The edit handler's update: the typed identity fields and details,
      stored exactly as typed. */
  function Edited(v: Vehicle, form: VehicleForm): Vehicle
  {
    v.(plate := form.plate, vin := form.vin, engine := form.engine, brand := form.brand,
      model := form.model, year := form.year, color := form.color, photoUrl := form.photoUrl)
  }

  function SoftDeleted(v: Vehicle, now: int, user: Id): Vehicle
  {
    v.(isDeleted := true, deletedAt := Some(now), deletedBy := Some(user))
  }

  /** `delete().eq('vehicle_id', id)` on the marketplace table. */
  function Unlisted(listings: seq<Listing>, vehicleId: Id): seq<Listing>
  {
    Filter(listings, (l: Listing) => l.vehicleId != vehicleId)
  }

  class Dashboard {
    const db: Database
    /** The signed-in driver. */
    const user: Id
    var vehicles: seq<Vehicle>
    var newVehicle: VehicleForm
    var showAddModal: bool
    var showConflictModal: bool
    var conflictData: Option<ConflictData>
    var conflictVehicleId: Option<Id>
    var editingVehicle: Option<(Id, VehicleForm)>
    var showEditModal: bool
    var vehicleToDelete: Option<Vehicle>
    var showDeleteVehicleModal: bool
    var selectedVehicle: Option<Vehicle>
    var transferType: TransferType
    var transferEmail: string
    var showTransferModal: bool

    constructor (db: Database, user: Id, currentYear: int)
      ensures this.db == db && this.user == user
      ensures vehicles == [] && newVehicle == BlankForm(currentYear)
      ensures !showAddModal && !showConflictModal && conflictData == None && conflictVehicleId == None
      ensures editingVehicle == None && !showEditModal && vehicleToDelete == None && !showDeleteVehicleModal
      ensures selectedVehicle == None && transferType == ByEmail && transferEmail == "" && !showTransferModal
    {
      this.db, this.user := db, user;
      vehicles, newVehicle := [], BlankForm(currentYear);
      showAddModal, showConflictModal, conflictData, conflictVehicleId := false, false, None, None;
      editingVehicle, showEditModal, vehicleToDelete, showDeleteVehicleModal := None, false, None, false;
      selectedVehicle, transferType, transferEmail, showTransferModal := None, ByEmail, "", false;
    }

    /** `fetchVehicles`: on success the list is the user's non-deleted
        vehicles; a failed query leaves it as it was. */
    method FetchVehicles(fails: bool)
      modifies this`vehicles
      ensures vehicles == if fails then old(vehicles) else OwnedActive(db.vehicles, user)
    {
      if !fails {
        vehicles := OwnedActive(db.vehicles, user);
      }
    }

    /** `handleAddVehicle`. The lookup matches every row, deleted or not, that
        shares one normalised identity field; the first match is reported and
        nothing is inserted. Otherwise one row with the normalised fields is
        appended, the dialog closes, the list is refreshed and the form reset. */
    method AddVehicle(searchFails: bool, insertFails: bool, currentYear: int)
      modifies db`vehicles, db`nextId, this`vehicles, this`newVehicle, this`showAddModal
      modifies this`showConflictModal, this`conflictData, this`conflictVehicleId
      ensures var dups := Duplicates(old(db.vehicles), NormalizePlate(old(newVehicle.plate)),
          NormalizeVin(old(newVehicle.vin)), NormalizeEngine(old(newVehicle.engine)));
        if searchFails || (dups == [] && insertFails) then
          unchanged(db) && unchanged(this)
        else if dups != [] then
          && unchanged(db) && vehicles == old(vehicles) && newVehicle == old(newVehicle)
          && conflictData == Some(ConflictData(dups[0].plate, dups[0].vin, dups[0].engine))
          && conflictVehicleId == Some(dups[0].id)
          && !showAddModal && showConflictModal
        else
          && db.vehicles == old(db.vehicles) + [NewRow(old(db.nextId), old(newVehicle), user)]
          && db.nextId == old(db.nextId) + 1
          && vehicles == OwnedActive(db.vehicles, user)
          && newVehicle == BlankForm(currentYear)
          && !showAddModal && showConflictModal == old(showConflictModal)
          && conflictData == old(conflictData) && conflictVehicleId == old(conflictVehicleId)
    {
      var normPlate := NormalizePlate(newVehicle.plate);
      var normVin := NormalizeVin(newVehicle.vin);
      var normEngine := NormalizeEngine(newVehicle.engine);
      if searchFails {
        return;
      }
      var existing := Duplicates(db.vehicles, normPlate, normVin, normEngine);
      if |existing| > 0 {
        var conflict := existing[0];
        conflictData := Some(ConflictData(conflict.plate, conflict.vin, conflict.engine));
        conflictVehicleId := Some(conflict.id);
        showAddModal := false;
        showConflictModal := true;
        return;
      }
      if insertFails {
        return;
      }
      db.vehicles := db.vehicles + [NewRow(db.nextId, newVehicle, user)];
      db.nextId := db.nextId + 1;
      showAddModal := false;
      vehicles := OwnedActive(db.vehicles, user);
      newVehicle := BlankForm(currentYear);
    }

    /** `handleEditVehicle`: the rows with the edited id take the typed
        fields as they are, with no normalisation and no duplicate check.
        With no vehicle under edit the handler fails before any write. */
    method EditVehicle(updateFails: bool)
      modifies db`vehicles, this`vehicles, this`showEditModal, this`editingVehicle
      ensures if old(editingVehicle).None? || updateFails then unchanged(db) && unchanged(this)
        else
          var edit := old(editingVehicle).value;
          && db.vehicles == UpdateVehicle(old(db.vehicles), edit.0, v => Edited(v, edit.1))
          && !showEditModal && editingVehicle == None
          && vehicles == OwnedActive(db.vehicles, user)
    {
      if editingVehicle.None? || updateFails {
        return;
      }
      var (id, form) := editingVehicle.value;
      db.vehicles := UpdateVehicle(db.vehicles, id, v => Edited(v, form));
      showEditModal := false;
      vehicles := OwnedActive(db.vehicles, user);
      editingVehicle := None;
    }

    /** `handleTransfer`. By e-mail, the recipient is the one user row with
        that address (`.single()`); with none the handler alerts and writes
        nothing. The vehicle then gets the new owner (none for the deposit)
        and the matching status, one transfer is recorded, and a deposit also
        notifies the sender. A failed vehicle update writes nothing more. */
    method Transfer(updateFails: bool, now: int)
      modifies db`vehicles, db`transfers, db`notifications, db`nextId
      modifies this`vehicles, this`showTransferModal, this`transferEmail
      ensures var recipient := Single(UsersWithEmail(old(db.users), old(transferEmail)));
        if old(selectedVehicle).None? || updateFails || (old(transferType) == ByEmail && recipient.None?) then
          unchanged(db) && unchanged(this)
        else
          var sel := old(selectedVehicle).value;
          var deposit := old(transferType) == ToDeposit;
          var to := if deposit then None else Some(recipient.value.id);
          && db.vehicles == UpdateVehicle(old(db.vehicles), sel.id,
               v => Reassigned(v, to, if deposit then UnregisteredDeposit else Active))
          && db.transfers == old(db.transfers) +
               [Store.Transfer(sel.id, Some(user), to, if deposit then DEPOSIT_REASON else DIRECT_REASON)]
          && db.notifications == old(db.notifications) +
               (if deposit then [Notification(old(db.nextId), user, DepositMessage(sel.plate), "deposito", false, now)]
                else [])
          && db.nextId == old(db.nextId) + (if deposit then 1 else 0)
          && !showTransferModal && transferEmail == ""
          && vehicles == OwnedActive(db.vehicles, user)
    {
      if selectedVehicle.None? {
        return;
      }
      var sel := selectedVehicle.value;
      var newOwner: Option<Id> := None;
      if transferType == ByEmail {
        var found := Single(UsersWithEmail(db.users, transferEmail));
        if found.None? {
          return;
        }
        newOwner := Some(found.value.id);
      }
      if updateFails {
        return;
      }
      var deposit := transferType == ToDeposit;
      var status := if deposit then UnregisteredDeposit else Active;
      db.vehicles := UpdateVehicle(db.vehicles, sel.id, v => Reassigned(v, newOwner, status));
      db.transfers := db.transfers +
        [Store.Transfer(sel.id, Some(user), newOwner, if deposit then DEPOSIT_REASON else DIRECT_REASON)];
      if deposit {
        db.notifications := db.notifications +
          [Notification(db.nextId, user, DepositMessage(sel.plate), "deposito", false, now)];
        db.nextId := db.nextId + 1;
      }
      showTransferModal := false;
      transferEmail := "";
      vehicles := OwnedActive(db.vehicles, user);
    }

    /** `handleDeleteVehicle`: the target rows are marked deleted by the user
        at `now`, every marketplace listing of the vehicle is removed, the
        dialog closes and the list is refreshed. */
    method DeleteVehicle(updateFails: bool, now: int)
      modifies db`vehicles, db`marketplace, this`vehicles, this`showDeleteVehicleModal, this`vehicleToDelete
      ensures if old(vehicleToDelete).None? || updateFails then unchanged(db) && unchanged(this)
        else
          var id := old(vehicleToDelete).value.id;
          && db.vehicles == UpdateVehicle(old(db.vehicles), id, v => SoftDeleted(v, now, user))
          && db.marketplace == Unlisted(old(db.marketplace), id)
          && !showDeleteVehicleModal && vehicleToDelete == None
          && vehicles == OwnedActive(db.vehicles, user)
    {
      if vehicleToDelete.None? || updateFails {
        return;
      }
      var id := vehicleToDelete.value.id;
      db.vehicles := UpdateVehicle(db.vehicles, id, v => SoftDeleted(v, now, user));
      db.marketplace := Unlisted(db.marketplace, id);
      showDeleteVehicleModal := false;
      vehicleToDelete := None;
      vehicles := OwnedActive(db.vehicles, user);
    }
  }

  // ---------------------------------------------------------------------------
  // Properties of the registration, transfer and delete steps

  /** Registration is rejected exactly when some row, deleted or not, shares
      one normalised identity field with the form. */
  lemma RejectedIff(vehicles: seq<Vehicle>, form: VehicleForm)
    ensures var p, v, e := NormalizePlate(form.plate), NormalizeVin(form.vin), NormalizeEngine(form.engine);
      Duplicates(vehicles, p, v, e) != [] <==>
        exists i :: 0 <= i < |vehicles| && SharesIdentity(vehicles[i], p, v, e)
  {
    var p, v, e := NormalizePlate(form.plate), NormalizeVin(form.vin), NormalizeEngine(form.engine);
    FilterEmptyIff(vehicles, (x: Vehicle) => SharesIdentity(x, p, v, e));
  }

  /** The conflict reported is the first matching row in table order. */
  lemma FirstDuplicateIsFirstMatch(vehicles: seq<Vehicle>, plate: string, vin: string, engine: string)
    requires Duplicates(vehicles, plate, vin, engine) != []
    ensures exists k ::
      && 0 <= k < |vehicles| && vehicles[k] == Duplicates(vehicles, plate, vin, engine)[0]
      && SharesIdentity(vehicles[k], plate, vin, engine)
      && (forall j :: 0 <= j < k ==> !SharesIdentity(vehicles[j], plate, vin, engine))
  {
    FilterHeadIsFirst(vehicles, (v: Vehicle) => SharesIdentity(v, plate, vin, engine));
  }

  /** A registration that passes the lookup keeps every identity field
      distinct across the table, with deleted rows counted. */
  lemma AddKeepsDistinct(vehicles: seq<Vehicle>, id: Id, form: VehicleForm, owner: Id)
    requires DistinctIdentities(vehicles)
    requires Duplicates(vehicles, NormalizePlate(form.plate), NormalizeVin(form.vin), NormalizeEngine(form.engine)) == []
    ensures DistinctIdentities(vehicles + [NewRow(id, form, owner)])
  {
    var row := NewRow(id, form, owner);
    FilterEmptyIff(vehicles, (x: Vehicle) => SharesIdentity(x, row.plate, row.vin, row.engine));
    var r := vehicles + [row];
    forall i, j | 0 <= i < j < |r| ensures !SharesIdentity(r[i], r[j].plate, r[j].vin, r[j].engine) {
      if j < |vehicles| {
        assert r[i] == vehicles[i] && r[j] == vehicles[j];
      } else {
        assert r[i] == vehicles[i] && r[j] == row;
      }
    }
  }

  /** A soft-deleted row still blocks the registration of a vehicle that
      shares its plate: the lookup has no deleted-flag filter. */
  lemma DeletedRowStillBlocks(vehicles: seq<Vehicle>, i: nat, form: VehicleForm)
    requires i < |vehicles| && vehicles[i].isDeleted
    requires vehicles[i].plate == NormalizePlate(form.plate)
    ensures Duplicates(vehicles, NormalizePlate(form.plate), NormalizeVin(form.vin), NormalizeEngine(form.engine)) != []
  {
    RejectedIff(vehicles, form);
  }

  /** Editing stores the typed identity fields verbatim: a plate typed with
      a space is stored with it, although registration would have removed it. */
  lemma EditStoresRawPlate(v: Vehicle, form: VehicleForm)
    requires form.plate == "AB 12"
    ensures Edited(v, form).plate == "AB 12"
    ensures NormalizePlate(form.plate) != form.plate
  {
    PlateShape(form.plate);
    assert !NoSpaceOrHyphen(form.plate) by {
      assert form.plate[2] == ' ';
    }
  }

  /** Editing runs no duplicate check, so it can give two rows the same plate. */
  lemma EditCanDuplicatePlate(a: Vehicle, b: Vehicle, form: VehicleForm)
    requires a.id == 1 && b.id == 2 && a.plate != b.plate && form.plate == b.plate
    ensures !DistinctIdentities(UpdateVehicle([a, b], 1, v => Edited(v, form)))
  {
    var r := UpdateVehicle([a, b], 1, v => Edited(v, form));
    assert r[0].plate == b.plate && r[1] == b;
  }

  /** After a soft delete the vehicle is no longer on anyone's dashboard. */
  lemma DeletedLeavesDashboard(vehicles: seq<Vehicle>, id: Id, now: int, user: Id, owner: Id)
    ensures forall v :: v in OwnedActive(UpdateVehicle(vehicles, id, w => SoftDeleted(w, now, user)), owner) ==>
      v.id != id
  {
    var r := UpdateVehicle(vehicles, id, w => SoftDeleted(w, now, user));
    FilterMembers(r, (v: Vehicle) => v.owner == Some(owner) && !v.isDeleted);
    forall v | v in OwnedActive(r, owner) ensures v.id != id {
      var i :| 0 <= i < |r| && r[i] == v;
      assert !v.isDeleted;
    }
  }

  /** A deposit transfer leaves the vehicle with no owner and the deposit
      status, so it shows up in the digital deposit and on no dashboard. */
  lemma DepositLeavesNoOwner(vehicles: seq<Vehicle>, id: Id, i: nat)
    requires i < |vehicles| && vehicles[i].id == id
    ensures var r := UpdateVehicle(vehicles, id, v => Reassigned(v, None, UnregisteredDeposit));
      r[i].owner == None && r[i].status == UnregisteredDeposit
      && r[i].plate == vehicles[i].plate && r[i].isDeleted == vehicles[i].isDeleted
  {
  }
}
