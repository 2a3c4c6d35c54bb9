/** The vehicle detail dialog (src/components/shared/VehicleDetailModal.jsx):
    who may see the plate and the owner's notes, and the owner's note form
    with its save, delete and edit handlers. */
module VehicleDetailModal {
  import opened Common
  import opened Store

  const WORKSHOP_ROLE := "taller"
  const SAVE_FAILED := "Error al guardar la nota"

  datatype NoteForm = NoteForm(date: string, text: string)

  /** The form as it opens for a new note: today's date and no text. */
  function BlankNote(today: string): NoteForm { NoteForm(today, "") }

  /** `user && vehicle.current_owner_id === user.id`. */
  predicate IsOwner(user: Option<User>, v: Vehicle)
  {
    user.Some? && v.owner == Some(user.value.id)
  }

  /** `profile?.role === 'taller'`; the profile is the signed-in user's row. */
  predicate IsWorkshop(user: Option<User>)
  {
    user.Some? && user.value.role == WORKSHOP_ROLE
  }

  /** What the dialog offers a viewer. */
  datatype Access = Access(plate: bool, notesTab: bool, addNote: bool, noteControls: bool)

  function AccessFor(user: Option<User>, v: Vehicle): Access
  {
    var owner := IsOwner(user, v);
    var privileged := owner || IsWorkshop(user);
    Access(privileged, privileged, privileged && owner, privileged && owner)
  }

  function NotesOf(notes: seq<OwnerNote>, vehicleId: Id): seq<OwnerNote>
  {
    Filter(notes, (n: OwnerNote) => n.vehicleId == vehicleId)
  }

  /** `update({date, note_text}).eq('id', id).eq('owner_id', owner)`. */
  function UpdateNote(notes: seq<OwnerNote>, id: Id, owner: Id, form: NoteForm): (r: seq<OwnerNote>)
    ensures |r| == |notes|
  {
    seq(|notes|, i requires 0 <= i < |notes| =>
      if notes[i].id == id && notes[i].ownerId == owner
      then notes[i].(date := form.date, text := form.text) else notes[i])
  }

  /** `delete().eq('id', id).eq('owner_id', owner)`. */
  function DeleteNote(notes: seq<OwnerNote>, id: Id, owner: Id): seq<OwnerNote>
  {
    Filter(notes, (n: OwnerNote) => !(n.id == id && n.ownerId == owner))
  }

  class DetailDialog {
    const db: Database
    /** The signed-in user's row, which is also the profile. */
    const user: Option<User>
    const vehicle: Vehicle
    var maintenance: seq<Maintenance>
    var structuralChanges: seq<StructuralChange>
    var ownerNotes: seq<OwnerNote>
    var noteForm: NoteForm
    var editingNoteId: Option<Id>
    var showNoteForm: bool
    var loading: bool

    constructor (db: Database, user: Option<User>, vehicle: Vehicle, today: string)
      ensures this.db == db && this.user == user && this.vehicle == vehicle
      ensures maintenance == [] && structuralChanges == [] && ownerNotes == []
      ensures noteForm == BlankNote(today) && editingNoteId == None && !showNoteForm && loading
    {
      this.db, this.user, this.vehicle := db, user, vehicle;
      maintenance, structuralChanges, ownerNotes := [], [], [];
      noteForm, editingNoteId, showNoteForm, loading := BlankNote(today), None, false, true;
    }

    predicate Privileged()
    {
      IsOwner(user, vehicle) || IsWorkshop(user)
    }

    /** `fetchData`. Each query that fails leaves an empty list; the owner
        notes are queried only for the owner or a workshop. */
    method FetchData(maintenanceFails: bool, changesFails: bool, notesFails: bool)
      modifies this`maintenance, this`structuralChanges, this`ownerNotes, this`loading
      ensures maintenance == if maintenanceFails then [] else Filter(db.maintenance, (m: Maintenance) => m.vehicleId == vehicle.id)
      ensures structuralChanges == if changesFails then [] else Filter(db.structuralChanges, (c: StructuralChange) => c.vehicleId == vehicle.id)
      ensures Privileged() ==> ownerNotes == if notesFails then [] else NotesOf(db.ownerNotes, vehicle.id)
      ensures !Privileged() ==> ownerNotes == old(ownerNotes)
      ensures !loading
    {
      loading := true;
      maintenance := if maintenanceFails then [] else Filter(db.maintenance, (m: Maintenance) => m.vehicleId == vehicle.id);
      structuralChanges := if changesFails then [] else Filter(db.structuralChanges, (c: StructuralChange) => c.vehicleId == vehicle.id);
      if Privileged() {
        ownerNotes := if notesFails then [] else NotesOf(db.ownerNotes, vehicle.id);
      }
      loading := false;
    }

    /** The "add note" button. */
    method StartNewNote(today: string)
      modifies this`noteForm, this`editingNoteId, this`showNoteForm
      ensures noteForm == BlankNote(today) && editingNoteId == None && showNoteForm
    {
      noteForm, editingNoteId, showNoteForm := BlankNote(today), None, true;
    }

    /** `startEditNote`: the form takes the note's date, text and id. */
    method StartEditNote(note: OwnerNote)
      modifies this`noteForm, this`editingNoteId, this`showNoteForm
      ensures noteForm == NoteForm(note.date, note.text) && editingNoteId == Some(note.id) && showNoteForm
    {
      noteForm, editingNoteId, showNoteForm := NoteForm(note.date, note.text), Some(note.id), true;
    }

    /** `handleSaveNote`. With a note being edited, that note is updated if it
        belongs to the user; otherwise a note of the user is inserted. A
        failed write, or no signed-in user, changes nothing and returns the
        alert text. On success the form closes, is reset and the notes are
        read again. */
    method SaveNote(today: string, fails: bool) returns (alert: Option<string>)
      modifies db`ownerNotes, db`nextId, this`noteForm, this`editingNoteId, this`showNoteForm, this`ownerNotes
      ensures user.None? || fails ==> alert == Some(SAVE_FAILED) && unchanged(db) && unchanged(this)
      ensures user.Some? && !fails ==> alert == None
      ensures user.Some? && !fails && old(editingNoteId).Some? ==>
        db.ownerNotes == UpdateNote(old(db.ownerNotes), old(editingNoteId).value, user.value.id, old(noteForm))
        && db.nextId == old(db.nextId)
      ensures user.Some? && !fails && old(editingNoteId).None? ==>
        db.ownerNotes == old(db.ownerNotes) + [OwnerNote(old(db.nextId), vehicle.id, user.value.id, old(noteForm).date, old(noteForm).text)]
        && db.nextId == old(db.nextId) + 1
      ensures user.Some? && !fails ==>
        && !showNoteForm && noteForm == BlankNote(today) && editingNoteId == None
        && ownerNotes == (if Privileged() then NotesOf(db.ownerNotes, vehicle.id) else old(ownerNotes))
    {
      if user.None? || fails {
        return Some(SAVE_FAILED);
      }
      if editingNoteId.Some? {
        db.ownerNotes := UpdateNote(db.ownerNotes, editingNoteId.value, user.value.id, noteForm);
      } else {
        db.ownerNotes := db.ownerNotes + [OwnerNote(db.nextId, vehicle.id, user.value.id, noteForm.date, noteForm.text)];
        db.nextId := db.nextId + 1;
      }
      showNoteForm, noteForm, editingNoteId := false, BlankNote(today), None;
      if Privileged() {
        ownerNotes := NotesOf(db.ownerNotes, vehicle.id);
      }
      alert := None;
    }

    /** `handleDeleteNote`: after confirmation, deletes the note if it
        belongs to the user and reads the notes again. */
    method DeleteNoteRow(id: Id, confirmed: bool, fails: bool)
      modifies db`ownerNotes, this`ownerNotes
      ensures !confirmed || user.None? || fails ==> unchanged(db) && unchanged(this)
      ensures confirmed && user.Some? && !fails ==>
        && db.ownerNotes == DeleteNote(old(db.ownerNotes), id, user.value.id)
        && ownerNotes == (if Privileged() then NotesOf(db.ownerNotes, vehicle.id) else old(ownerNotes))
    {
      if !confirmed || user.None? || fails {
        return;
      }
      db.ownerNotes := DeleteNote(db.ownerNotes, id, user.value.id);
      if Privileged() {
        ownerNotes := NotesOf(db.ownerNotes, vehicle.id);
      }
    }
  }

  // ---------------------------------------------------------------------------
  // Visibility

  /** The plate and the notes are shown exactly to the owner and to
      workshops; the note controls exactly to the owner. */
  lemma AccessSpec(user: Option<User>, v: Vehicle)
    ensures AccessFor(user, v).plate <==> IsOwner(user, v) || IsWorkshop(user)
    ensures AccessFor(user, v).notesTab == AccessFor(user, v).plate
    ensures AccessFor(user, v).addNote <==> IsOwner(user, v)
    ensures AccessFor(user, v).noteControls <==> IsOwner(user, v)
  {
  }

  /** Nobody signed in is never the owner, even of a vehicle without one,
      and sees neither the plate nor the notes. */
  lemma SignedOutIsNotOwner(v: Vehicle)
    ensures !IsOwner(None, v)
    ensures AccessFor(None, v) == Access(false, false, false, false)
  {
  }

  /** A workshop that does not own the vehicle reads the notes but cannot
      change them. */
  lemma WorkshopReadsOnly(workshop: User, v: Vehicle)
    requires workshop.role == WORKSHOP_ROLE && v.owner != Some(workshop.id)
    ensures AccessFor(Some(workshop), v) == Access(true, true, false, false)
  {
  }

  // ---------------------------------------------------------------------------
  // Note writes

  /** An edit changes only the user's note with that id, and only its date
      and text. */
  lemma UpdateNoteScoped(notes: seq<OwnerNote>, id: Id, owner: Id, form: NoteForm)
    ensures var r := UpdateNote(notes, id, owner, form);
      && (forall i :: 0 <= i < |notes| && (notes[i].id != id || notes[i].ownerId != owner) ==> r[i] == notes[i])
      && (forall i :: 0 <= i < |notes| && notes[i].id == id && notes[i].ownerId == owner ==>
            r[i] == OwnerNote(id, notes[i].vehicleId, owner, form.date, form.text))
  {
  }

  /** A delete removes exactly the user's notes with that id and keeps every
      other note, in order. */
  lemma DeleteNoteScoped(notes: seq<OwnerNote>, id: Id, owner: Id)
    ensures forall n :: n in DeleteNote(notes, id, owner) <==> n in notes && !(n.id == id && n.ownerId == owner)
    ensures IsSubsequence(DeleteNote(notes, id, owner), notes)
  {
    var p := (n: OwnerNote) => !(n.id == id && n.ownerId == owner);
    FilterMembers(notes, p);
    FilterIsSubsequence(notes, p);
  }

  /** Another owner's notes survive a delete with any id. */
  lemma DeleteKeepsOthersNotes(notes: seq<OwnerNote>, id: Id, owner: Id, n: OwnerNote)
    requires n in notes && n.ownerId != owner
    ensures n in DeleteNote(notes, id, owner)
  {
    FilterMembers(notes, (m: OwnerNote) => !(m.id == id && m.ownerId == owner));
  }

  /** The refreshed list shows exactly this vehicle's notes. */
  lemma NotesOfSpec(notes: seq<OwnerNote>, vehicleId: Id)
    ensures forall n :: n in NotesOf(notes, vehicleId) <==> n in notes && n.vehicleId == vehicleId
  {
    FilterMembers(notes, (n: OwnerNote) => n.vehicleId == vehicleId);
  }
}
