/** The hosted table store, abstracted as in-memory tables. Each table the
    components read or write is a sequence of rows in insertion order; a
    server-assigned id comes from a counter, server-side timestamps are
    passed in by the caller. Filters are equality lookups, `.single()` and
    `.maybeSingle()` are selections that succeed only on exactly one match. */
module Store {
  import opened Common

  /** The lifecycle states a vehicle row can hold. `Disputed` is a legal
      value of the column that no component writes. */
  datatype VehicleStatus = Active | UnregisteredDeposit | Stolen | Disputed

  datatype Vehicle = Vehicle(
    id: Id,
    plate: string,
    vin: string,
    engine: string,
    brand: string,
    model: string,
    year: int,
    color: string,
    photoUrl: string,
    owner: Option<Id>,
    status: VehicleStatus,
    isDeleted: bool,
    deletedAt: Option<int>,
    deletedBy: Option<Id>)

  datatype Transfer = Transfer(vehicleId: Id, from: Option<Id>, to: Option<Id>, reason: string)

  datatype Notification = Notification(
    id: Id, userId: Id, message: string, kind: string, isRead: bool, createdAt: int)

  /** A marketplace listing; only its link to a vehicle matters to the
      handlers that write this table. */
  datatype Listing = Listing(id: Id, vehicleId: Id, price: int, status: string)

  datatype ClaimStatus = Pending | Approved | Rejected

  datatype Claim = Claim(vehicleId: Id, claimant: Id, status: ClaimStatus, evidenceUrls: seq<string>)

  /** The maintenance form's fields, stored verbatim. */
  datatype ServiceData = ServiceData(
    mileage: string, serviceType: string, description: string, cost: string, nextDate: string)

  datatype Maintenance = Maintenance(vehicleId: Id, workshopId: Id, service: ServiceData, date: int)

  /** A structural change. The form writes its kind to the `type` column;
      `changeType` is the `change_type` column, which no component writes. */
  datatype StructuralChange = StructuralChange(
    vehicleId: Id,
    workshopId: Id,
    kind: string,
    changeType: Option<string>,
    date: string,
    km: Option<string>,
    odoNotWorking: bool,
    description: string,
    photos: seq<string>)

  datatype OwnerNote = OwnerNote(id: Id, vehicleId: Id, ownerId: Id, date: string, text: string)

  datatype User = User(id: Id, email: string, password: string, fullName: string, role: string)

  datatype Certificate = Certificate(
    id: string,
    vehicleId: Id,
    workshopId: Id,
    certType: string,
    pdfUrl: string,
    qrUrl: string,
    checklist: map<string, bool>,
    observations: string,
    validUntil: int)

  class Database {
    var vehicles: seq<Vehicle>
    var transfers: seq<Transfer>
    var notifications: seq<Notification>
    var marketplace: seq<Listing>
    var claims: seq<Claim>
    var maintenance: seq<Maintenance>
    var structuralChanges: seq<StructuralChange>
    var ownerNotes: seq<OwnerNote>
    var users: seq<User>
    var certificates: seq<Certificate>
    /** The next server-assigned row id. */
    var nextId: nat

    constructor ()
      ensures vehicles == [] && transfers == [] && notifications == [] && marketplace == []
      ensures claims == [] && maintenance == [] && structuralChanges == []
      ensures ownerNotes == [] && users == [] && certificates == [] && nextId == 0
    {
      vehicles, transfers, notifications, marketplace := [], [], [], [];
      claims, maintenance, structuralChanges := [], [], [];
      ownerNotes, users, certificates, nextId := [], [], [], 0;
    }
  }

  /** A file chosen in a file input. */
  type FileRef = nat

  /** The image host (and the object store): an upload returns the public URL
      of the file, or fails. Every attempt is logged in order. */
  class ImageHost {
    /** The URL the host gives each file it accepts; other files fail. */
    const accepted: map<FileRef, string>
    var uploads: seq<FileRef>

    constructor (accepted: map<FileRef, string>)
      ensures this.accepted == accepted && uploads == []
    {
      this.accepted, uploads := accepted, [];
    }

    function UrlFor(f: FileRef): Option<string>
    {
      if f in accepted then Some(accepted[f]) else None
    }

    method Upload(f: FileRef) returns (url: Option<string>)
      modifies this`uploads
      ensures uploads == old(uploads) + [f]
      ensures url == UrlFor(f)
    {
      uploads := uploads + [f];
      url := UrlFor(f);
    }
  }

  /** `.single()`/`.maybeSingle()`: the row when exactly one row matched. */
  function Single<T>(rows: seq<T>): (r: Option<T>)
    ensures r.Some? <==> |rows| == 1
    ensures r.Some? ==> r.value == rows[0]
  {
    if |rows| == 1 then Some(rows[0]) else None
  }

  function UsersWithEmail(users: seq<User>, email: string): seq<User>
  {
    Filter(users, (u: User) => u.email == email)
  }

  /** `update(...).eq('id', id)`: every row with that id is replaced by
      `f` of it, every other row stays as it was, in place. */
  function UpdateVehicle(vehicles: seq<Vehicle>, id: Id, f: Vehicle -> Vehicle): (r: seq<Vehicle>)
    ensures |r| == |vehicles|
    ensures forall i :: 0 <= i < |r| ==> r[i] == if vehicles[i].id == id then f(vehicles[i]) else vehicles[i]
  {
    seq(|vehicles|, i requires 0 <= i < |vehicles| =>
      if vehicles[i].id == id then f(vehicles[i]) else vehicles[i])
  }

  /** The update a transfer or a deposit claim makes: new owner, new status. */
  function Reassigned(v: Vehicle, owner: Option<Id>, status: VehicleStatus): Vehicle
  {
    v.(owner := owner, status := status)
  }

  /** Ids are unique in a table of vehicles. */
  predicate UniqueVehicleIds(vehicles: seq<Vehicle>)
  {
    forall i, j :: 0 <= i < |vehicles| && 0 <= j < |vehicles| && vehicles[i].id == vehicles[j].id ==> i == j
  }

  /** An id update touches no row with another id and leaves ids as they were,
      so it keeps the ids unique. */
  lemma UpdateKeepsIds(vehicles: seq<Vehicle>, id: Id, f: Vehicle -> Vehicle)
    requires forall v :: f(v).id == v.id
    ensures var r := UpdateVehicle(vehicles, id, f);
      forall i :: 0 <= i < |r| ==> r[i].id == vehicles[i].id
    ensures UniqueVehicleIds(vehicles) ==> UniqueVehicleIds(UpdateVehicle(vehicles, id, f))
  {
    var r := UpdateVehicle(vehicles, id, f);
    assert forall i :: 0 <= i < |r| ==> r[i].id == vehicles[i].id;
  }
}
