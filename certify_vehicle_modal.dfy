/** The workshop's certification dialog
    (src/components/workshop/CertifyVehicleModal.jsx): step 1 searches a
    vehicle, step 2 fills the certificate form, step 3 reports success.
    Stolen vehicles are refused at the search. */
module CertifyVehicleModal {
  import opened Common
  import opened Normalization
  import opened Store

  const SEARCH_FAILED := "Error al buscar el vehículo o no existe."
  const STOLEN_ALERT := "⚠️ ALERTA: Este vehículo tiene reporte de robo. No se puede certificar."

  /** A certificate is valid for 365 days, counted in milliseconds. */
  const YEAR_MS := 365 * 24 * 60 * 60 * 1000

  function CertifyError(message: string): string
  {
    "Error al generar el certificado: " + message
  }

  /** The public page the certificate's QR code points to. */
  function QrUrl(origin: string, plate: string): string
  {
    origin + "/marketplace?plate=" + plate
  }

  /** The search condition: the normalised query equals the plate, the VIN
      or the engine number. */
  predicate MatchesQuery(v: Vehicle, query: string)
  {
    v.plate == query || v.vin == query || v.engine == query
  }

  /** `.or(...).limit(1).single()`: the first matching row, if any. */
  function FirstMatch(vehicles: seq<Vehicle>, query: string): Option<Vehicle>
  {
    Single(Take(Filter(vehicles, (v: Vehicle) => MatchesQuery(v, query)), 1))
  }

  /** The form's initial checklist: every item checked. */
  const INITIAL_CHECKLIST: map<string, bool> := map[
    "motor" := true, "chasis" := true, "transmision" := true, "frenos" := true,
    "suspension" := true, "luces" := true, "neumaticos" := true]

  class CertifyDialog {
    const db: Database
    /** The signed-in workshop. */
    const workshopId: Id
    /** `window.location.origin`. */
    const origin: string
    var step: nat
    var searchQuery: string
    var loading: bool
    var vehicle: Option<Vehicle>
    var error: Option<string>
    var certType: string
    var observations: string
    var checklist: map<string, bool>

    /** The step is 1, 2 or 3, and the form step always has a vehicle that
        is not stolen. */
    ghost predicate Valid()
      reads this
    {
      1 <= step <= 3 && (step == 2 ==> vehicle.Some? && vehicle.value.status != Stolen)
    }

    constructor (db: Database, workshopId: Id, origin: string)
      ensures Valid() && this.db == db && this.workshopId == workshopId && this.origin == origin
      ensures step == 1 && searchQuery == "" && !loading && vehicle == None && error == None
      ensures certType == "basic" && observations == "" && checklist == INITIAL_CHECKLIST
    {
      this.db, this.workshopId, this.origin := db, workshopId, origin;
      step, searchQuery, loading, vehicle, error := 1, "", false, None, None;
      certType, observations, checklist := "basic", "", INITIAL_CHECKLIST;
    }

    /** The query field upper-cases what is typed. */
    method TypeQuery(typed: string)
      modifies this`searchQuery
      ensures searchQuery == Upper(typed)
    {
      searchQuery := Upper(typed);
    }

    /** `handleSearch`, offered at step 1. A blank query does nothing.
        Otherwise the normalised query selects the first vehicle whose plate,
        VIN or engine number equals it; a failed query or no match sets the
        search error, a stolen vehicle sets the theft alert, and any other
        vehicle is stored and the dialog moves to step 2. */
    method Search(queryFails: bool)
      requires Valid() && step == 1
      modifies this`loading, this`error, this`vehicle, this`step
      ensures Valid()
      ensures if Trim(old(searchQuery)) == "" then unchanged(this)
        else
          var found := FirstMatch(db.vehicles, NormalizePlate(searchQuery));
          && !loading
          && if queryFails || found.None? then
               error == Some(SEARCH_FAILED) && vehicle == None && step == 1
             else if found.value.status == Stolen then
               error == Some(STOLEN_ALERT) && vehicle == None && step == 1
             else
               error == None && vehicle == found && step == 2
    {
      if Trim(searchQuery) == "" {
        return;
      }
      loading := true;
      error := None;
      vehicle := None;
      var found := FirstMatch(db.vehicles, NormalizePlate(searchQuery));
      if queryFails || found.None? {
        error := Some(SEARCH_FAILED);
      } else if found.value.status == Stolen {
        error := Some(STOLEN_ALERT);
      } else {
        vehicle := found;
        step := 2;
      }
      loading := false;
    }

    /** `handleCertify`, offered at step 2. The PDF upload's outcome is
        `pdfUrl`; on success one certificate with the generated id, valid
        for a year from `now`, is recorded and the dialog moves to step 3.
        A failed upload or insert sets the error and stays at step 2. */
    method Certify(certificateId: string, now: int, pdfUrl: Option<string>, insertFails: bool, failure: string)
      requires Valid() && step == 2
      modifies this`loading, this`error, this`step, db`certificates
      ensures Valid() && !loading
      ensures if pdfUrl.None? || insertFails then
          db.certificates == old(db.certificates) && step == 2 && error == Some(CertifyError(failure))
        else
          var v := vehicle.value;
          var cert := Certificate(certificateId, v.id, workshopId, certType, pdfUrl.value,
            QrUrl(origin, v.plate), checklist, observations, now + YEAR_MS);
          db.certificates == old(db.certificates) + [cert] && step == 3 && error == old(error)
    {
      loading := true;
      var v := vehicle.value;
      if pdfUrl.None? || insertFails {
        error := Some(CertifyError(failure));
        loading := false;
        return;
      }
      var cert := Certificate(certificateId, v.id, workshopId, certType, pdfUrl.value,
        QrUrl(origin, v.plate), checklist, observations, now + YEAR_MS);
      db.certificates := db.certificates + [cert];
      step := 3;
      loading := false;
    }

    /** The form's cancel button: back to step 1, nothing else changes. */
    method Cancel()
      requires Valid() && step == 2
      modifies this`step
      ensures Valid() && step == 1
    {
      step := 1;
    }

    /** `reset`: back to step 1 with an empty query, no vehicle, no error and
        no observations; the certificate type and checklist are kept. */
    method Reset()
      modifies this`step, this`searchQuery, this`vehicle, this`error, this`observations
      ensures Valid()
      ensures step == 1 && searchQuery == "" && vehicle == None && error == None && observations == ""
    {
      step, searchQuery, vehicle, error, observations := 1, "", None, None, "";
    }
  }

  /** The search finds a vehicle exactly when some row matches the
      normalised query, and the one it finds is the first such row. */
  lemma FirstMatchSpec(vehicles: seq<Vehicle>, query: string)
    ensures FirstMatch(vehicles, query).Some? <==> exists i :: 0 <= i < |vehicles| && MatchesQuery(vehicles[i], query)
    ensures FirstMatch(vehicles, query).Some? ==> exists k ::
      && 0 <= k < |vehicles| && vehicles[k] == FirstMatch(vehicles, query).value
      && MatchesQuery(vehicles[k], query)
      && (forall j :: 0 <= j < k ==> !MatchesQuery(vehicles[j], query))
  {
    var p := (v: Vehicle) => MatchesQuery(v, query);
    var f := Filter(vehicles, p);
    FilterEmptyIff(vehicles, p);
    if f != [] {
      FilterHeadIsFirst(vehicles, p);
    }
  }

  /** The query goes through the plate normaliser, so a VIN or engine number
      stored with an inner space or hyphen can never be matched by it. */
  lemma SeparatedIdentityNotFound(stored: string, typed: string, k: nat)
    requires k < |stored| && IsSpaceOrHyphen(stored[k])
    ensures NormalizePlate(typed) != stored
  {
    PlateShape(typed);
  }
}
