/** The structural change form (src/components/workshop/StructuralChangeModal.jsx):
    a workshop records an engine swap, a chassis repair and the like, with
    one to six photo URLs as evidence. */
module StructuralChangeModal {
  import opened Common
  import opened Store

  const MAX_PHOTOS := 6
  const NO_PHOTOS := "Debes agregar al menos una URL de foto válida como evidencia."
  const NO_KM := "Debes ingresar el kilometraje o marcar 'Odómetro no funciona'."
  const SAVE_FAILED := "Error al guardar el cambio estructural. Intenta nuevamente."

  predicate NotBlank(p: string) { Trim(p) != "" }

  /** The photo entries that are not blank after trimming, in form order. */
  function ValidPhotos(photos: seq<string>): seq<string>
  {
    Filter(photos, NotBlank)
  }

  /** The row a submission inserts. The kind goes to the `type` column; the
      `change_type` column is left empty. */
  function ChangeRecord(vehicleId: Id, workshop: Id, kind: string, date: string, km: string,
                        odoNotWorking: bool, description: string, photos: seq<string>): StructuralChange
  {
    StructuralChange(vehicleId, workshop, kind, None, date, if odoNotWorking then None else Some(km),
      odoNotWorking, description, ValidPhotos(photos))
  }

  class StructuralForm {
    const db: Database
    const vehicleId: Id
    var kind: string
    var date: string
    var km: string
    var odoNotWorking: bool
    var description: string
    var photos: seq<string>
    var loading: bool
    var error: Option<string>
    /** Set once `onSave` and `onClose` have been called. */
    var saved: bool

    /** The UI keeps between one and six photo entries. */
    ghost predicate Valid()
      reads this
    {
      1 <= |photos| <= MAX_PHOTOS
    }

    /** The form opens with an engine swap dated `today` and one empty
        photo entry. */
    constructor (db: Database, vehicleId: Id, today: string)
      ensures Valid() && this.db == db && this.vehicleId == vehicleId
      ensures kind == "Cambio de motor" && date == today && km == "" && !odoNotWorking && description == ""
      ensures photos == [""] && !loading && error == None && !saved
    {
      this.db, this.vehicleId := db, vehicleId;
      kind, date, km, odoNotWorking, description := "Cambio de motor", today, "", false, "";
      photos, loading, error, saved := [""], false, None, false;
    }

    /** `handlePhotoChange`: only the entry at `index` changes. */
    method PhotoChange(index: nat, value: string)
      requires Valid() && index < |photos|
      modifies this`photos
      ensures Valid() && |photos| == old(|photos|) && photos[index] == value
      ensures forall j :: 0 <= j < |photos| && j != index ==> photos[j] == old(photos[j])
    {
      photos := photos[index := value];
    }

    /** `addPhotoField`: an empty entry is appended unless there are six. */
    method AddPhotoField()
      requires Valid()
      modifies this`photos
      ensures Valid()
      ensures photos == if old(|photos|) < MAX_PHOTOS then old(photos) + [""] else old(photos)
    {
      if |photos| < MAX_PHOTOS {
        photos := photos + [""];
      }
    }

    /** `removePhotoField`, offered only while there is more than one entry:
        the entry at `index` goes, the others keep their order. */
    method RemovePhotoField(index: nat)
      requires Valid() && |photos| > 1 && index < |photos|
      modifies this`photos
      ensures Valid() && |photos| == old(|photos|) - 1
      ensures forall j :: 0 <= j < index ==> photos[j] == old(photos[j])
      ensures forall j :: index <= j < |photos| ==> photos[j] == old(photos[j + 1])
    {
      photos := photos[..index] + photos[index + 1..];
    }

    /** `handleSubmit`. All-blank photos or, with a working odometer, an
        empty km reading are rejected before any write. The workshop id is
        read from the stored session; with none the insert is never reached.
        An insert failure sets the save error; a success inserts one row and
        calls `onSave`/`onClose`. `loading` is false afterwards. */
    method Submit(storedUser: Option<Id>, insertFails: bool)
      modifies this`loading, this`error, this`saved, db`structuralChanges
      ensures !loading
      ensures var rec := ChangeRecord(vehicleId, if storedUser.Some? then storedUser.value else 0,
          kind, date, km, odoNotWorking, description, photos);
        if ValidPhotos(photos) == [] then
          error == Some(NO_PHOTOS) && db.structuralChanges == old(db.structuralChanges) && saved == old(saved)
        else if !odoNotWorking && km == "" then
          error == Some(NO_KM) && db.structuralChanges == old(db.structuralChanges) && saved == old(saved)
        else if storedUser.None? || insertFails then
          error == Some(SAVE_FAILED) && db.structuralChanges == old(db.structuralChanges) && saved == old(saved)
        else
          error == None && db.structuralChanges == old(db.structuralChanges) + [rec] && saved
    {
      loading := true;
      error := None;
      var valid := ValidPhotos(photos);
      if valid == [] {
        error := Some(NO_PHOTOS);
        loading := false;
        return;
      }
      if !odoNotWorking && km == "" {
        error := Some(NO_KM);
        loading := false;
        return;
      }
      if storedUser.None? || insertFails {
        error := Some(SAVE_FAILED);
        loading := false;
        return;
      }
      db.structuralChanges := db.structuralChanges +
        [ChangeRecord(vehicleId, storedUser.value, kind, date, km, odoNotWorking, description, photos)];
      saved := true;
      loading := false;
    }
  }

  /** The saved photos are exactly the non-blank entries, in form order. */
  lemma ValidPhotosSpec(photos: seq<string>)
    ensures IsSubsequence(ValidPhotos(photos), photos)
    ensures forall p :: p in ValidPhotos(photos) <==> p in photos && Trim(p) != ""
  {
    FilterIsSubsequence(photos, NotBlank);
    FilterMembers(photos, NotBlank);
  }

  /** The submission is rejected for photos exactly when every entry is
      blank after trimming. */
  lemma NoValidPhotosIff(photos: seq<string>)
    ensures ValidPhotos(photos) == [] <==> forall i :: 0 <= i < |photos| ==> Trim(photos[i]) == ""
  {
    FilterEmptyIff(photos, NotBlank);
  }

  /** The record has no km reading exactly when the odometer is marked
      broken, and its photos are the non-blank entries. */
  lemma ChangeRecordSpec(vehicleId: Id, workshop: Id, kind: string, date: string, km: string,
                         odo: bool, description: string, photos: seq<string>)
    ensures var r := ChangeRecord(vehicleId, workshop, kind, date, km, odo, description, photos);
      && (r.km == None <==> odo)
      && (!odo ==> r.km == Some(km))
      && r.kind == kind && r.changeType == None
      && (forall p :: p in r.photos ==> p in photos && Trim(p) != "")
  {
    ValidPhotosSpec(photos);
  }

  /** The entries a fresh form starts with are all blank, so submitting it
      untouched is always rejected. */
  lemma FreshFormRejected()
    ensures ValidPhotos([""]) == []
  {
    assert Filter([""], NotBlank) == [] by {
      assert Trim("") == "";
    }
  }
}
