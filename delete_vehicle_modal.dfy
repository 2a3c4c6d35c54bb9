/** The soft-delete confirmation dialog
    (src/components/shared/DeleteVehicleModal.jsx): the user must type the
    plate; the input is upper-cased as it is typed and must then equal the
    stored plate exactly. */
module DeleteVehicleModal {
  import opened Common
  import opened Normalization
  import opened Store

  /** `confirmPlate === vehicle.plate`. */
  predicate IsConfirmed(typed: string, plate: string)
  {
    typed == plate
  }

  class DeleteDialog {
    var isOpen: bool
    var vehicle: Option<Vehicle>
    var confirmPlate: string
    var isDeleting: bool

    constructor (isOpen: bool, vehicle: Option<Vehicle>)
      ensures this.isOpen == isOpen && this.vehicle == vehicle
      ensures confirmPlate == "" && !isDeleting
    {
      this.isOpen, this.vehicle := isOpen, vehicle;
      confirmPlate, isDeleting := "", false;
    }

    /** The dialog renders nothing when it is closed or has no vehicle. */
    predicate Renders()
      reads this
    {
      isOpen && vehicle.Some?
    }

    /** The input's change handler. */
    method TypePlate(typed: string)
      modifies this`confirmPlate
      ensures confirmPlate == Upper(typed)
    {
      confirmPlate := Upper(typed);
    }

    /** `handleConfirm`; `ran` says whether the delete callback was called.
        Afterwards the input is cleared and the dialog is idle again. */
    method HandleConfirm() returns (ran: bool)
      requires Renders()
      modifies this`confirmPlate, this`isDeleting
      ensures ran <==> IsConfirmed(old(confirmPlate), vehicle.value.plate)
      ensures !ran ==> unchanged(this)
      ensures ran ==> confirmPlate == "" && !isDeleting
    {
      if !IsConfirmed(confirmPlate, vehicle.value.plate) {
        return false;
      }
      isDeleting := true;
      ran := true;
      isDeleting := false;
      confirmPlate := "";
    }
  }

  /** What the input can hold: the upper-cased typing. A plate with a
      lower-case letter, as an edit can store, can never be confirmed. */
  lemma LowerCasePlateNeverConfirmed(plate: string, typed: string, k: nat)
    requires k < |plate| && IsLower(plate[k])
    ensures !IsConfirmed(Upper(typed), plate)
  {
    UpperHasNoLower(typed);
  }

  /** A plate stored by registration is normalised, so typing it, in any
      case, confirms. */
  lemma RegisteredPlateConfirmable(entered: string)
    ensures IsConfirmed(Upper(NormalizePlate(entered)), NormalizePlate(entered))
    ensures IsConfirmed(Upper(Lower(NormalizePlate(entered))), NormalizePlate(entered))
  {
    var p := NormalizePlate(entered);
    PlateShape(entered);
    UpperOfNoLower(p);
    UpperOfLower(p);
  }

  /** Typing the registered plate with any mix of upper- and lower-case
      letters confirms: `t` spells the plate up to case. */
  lemma RegisteredPlateAnyCase(entered: string, t: string)
    requires Lower(t) == Lower(NormalizePlate(entered))
    ensures IsConfirmed(Upper(t), NormalizePlate(entered))
  {
    var p := NormalizePlate(entered);
    PlateShape(entered);
    UpperOfNoLower(p);
    UpperOfLower(p);
    UpperOfLower(t);
  }
}
