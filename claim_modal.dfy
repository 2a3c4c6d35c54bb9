/** The evidence claim dialog (src/components/shared/ClaimModal.jsx): a
    driver whose registration hit a duplicate uploads a photo of the
    registration card and one of the VIN, and a pending claim is recorded. */
module ClaimModal {
  import opened Common
  import opened Store

  const MISSING_FILES := "Debes subir ambas fotos para procesar el reclamo."
  const SUBMIT_FAILED := "Error al enviar el reclamo. Inténtalo de nuevo."

  /** The claim a successful submission records. */
  function PendingClaim(vehicleId: Id, claimant: Id, cardUrl: string, vinUrl: string): Claim
  {
    Claim(vehicleId, claimant, Pending, [cardUrl, vinUrl])
  }

  class ClaimDialog {
    const db: Database
    const host: ImageHost
    /** The contested vehicle. */
    const vehicleId: Id
    var isSubmitting: bool
    var error: Option<string>
    var success: bool
    var cardFile: Option<FileRef>
    var vinFile: Option<FileRef>

    constructor (db: Database, host: ImageHost, vehicleId: Id)
      ensures this.db == db && this.host == host && this.vehicleId == vehicleId
      ensures !isSubmitting && error == None && !success && cardFile == None && vinFile == None
    {
      this.db, this.host, this.vehicleId := db, host, vehicleId;
      isSubmitting, error, success, cardFile, vinFile := false, None, false, None, None;
    }

    /** `handleSubmit`. Without both files it only sets the error. Otherwise
        the card photo is uploaded, then the VIN photo, then the hosted auth
        service's user (`supabase.auth.getUser()`) is read, then the claim is
        inserted; the first failure stops the sequence with the generic
        error, and only a completed insert sets `success`. `isSubmitting` is
        false when the handler ends. No path writes to the vehicles table.
        `authUser` is that service's user id: the app's own session never
        signs in to the service, so it is usually `None`, and when present it
        is not a users-table id. */
    method HandleSubmit(authUser: Option<Id>, insertFails: bool)
      modifies this`isSubmitting, this`error, this`success, host`uploads, db`claims
      ensures db.vehicles == old(db.vehicles)
      ensures if old(cardFile).None? || old(vinFile).None? then
          && error == Some(MISSING_FILES)
          && isSubmitting == old(isSubmitting) && success == old(success)
          && host.uploads == old(host.uploads) && db.claims == old(db.claims)
        else
          var card, vin := old(cardFile).value, old(vinFile).value;
          var cardUrl, vinUrl := host.UrlFor(card), host.UrlFor(vin);
          var ok := cardUrl.Some? && vinUrl.Some? && authUser.Some? && !insertFails;
          && !isSubmitting
          && host.uploads == old(host.uploads) + (if cardUrl.Some? then [card, vin] else [card])
          && db.claims == old(db.claims) +
               (if ok then [PendingClaim(vehicleId, authUser.value, cardUrl.value, vinUrl.value)] else [])
          && success == (old(success) || ok)
          && error == if ok then None else Some(SUBMIT_FAILED)
    {
      if cardFile.None? || vinFile.None? {
        error := Some(MISSING_FILES);
        return;
      }
      isSubmitting := true;
      error := None;
      var cardUrl := host.Upload(cardFile.value);
      if cardUrl.None? {
        error := Some(SUBMIT_FAILED);
        isSubmitting := false;
        return;
      }
      var vinUrl := host.Upload(vinFile.value);
      if vinUrl.None? || authUser.None? || insertFails {
        error := Some(SUBMIT_FAILED);
        isSubmitting := false;
        return;
      }
      db.claims := db.claims + [PendingClaim(vehicleId, authUser.value, cardUrl.value, vinUrl.value)];
      success := true;
      isSubmitting := false;
    }
  }
}
