/** The vehicle card (src/components/shared/VehicleCard.jsx), as what it
    shows for a vehicle and a viewer. Owners see the identity in full and the
    actions; everyone else sees masked identifiers and no actions. */
module VehicleCard {
  import opened Common

  /** The fields of the vehicle object the card reads. Missing text is "". */
  datatype CardVehicle = CardVehicle(
    plate: string, vin: string, engine: string,
    photoUrl: string, marketplacePhotoUrl: string,
    traction: string, fuelType: string, location: string, city: string, country: string,
    odoNotWorking: bool, isCertified: bool,
    structuralChangesCount: nat, hasEngineChange: bool, ownerNotesCount: nat)

  datatype Action = EditAction | QrAction | TransferAction | SellAction | DeleteAction

  const OWNER_ACTIONS := [EditAction, QrAction, TransferAction, SellAction, DeleteAction]

  /** What is on the card. An absent part is `None` or false. */
  datatype View = View(
    photo: Option<string>,
    certifiedBadge: bool,
    plate: Option<string>,
    vin: string,
    engine: string,
    extras: bool,
    location: Option<string>,
    structuralSummary: bool,
    engineNote: bool,
    notesSummary: bool,
    actions: seq<Action>)

  /** `slice(-4)`: the last four characters, or the whole string if shorter. */
  function LastFour(s: string): string
  {
    if |s| <= 4 then s else s[|s| - 4..]
  }

  /** `****${v?.slice(-4) || '****'}`. */
  function Mask(v: string): string
  {
    "****" + (if LastFour(v) != "" then LastFour(v) else "****")
  }

  /** JS `||` on two strings. */
  function Or(a: string, b: string): string { if a != "" then a else b }

  function LocationText(v: CardVehicle): Option<string>
  {
    if v.location != "" || (v.city != "" && v.country != "") then
      Some(if v.city != "" && v.country != "" then v.city + ", " + v.country else v.location)
    else None
  }

  function Render(v: CardVehicle, isOwner: bool): View
  {
    var photo := Or(v.photoUrl, v.marketplacePhotoUrl);
    View(
      if photo != "" then Some(photo) else None,
      v.isCertified,
      if isOwner then Some(v.plate) else None,
      if isOwner then v.vin else Mask(v.vin),
      if isOwner then v.engine else Mask(v.engine),
      v.traction != "" || v.fuelType != "" || v.location != "" || (v.city != "" && v.country != ""),
      LocationText(v),
      v.structuralChangesCount > 0,
      v.structuralChangesCount > 0 && v.hasEngineChange,
      v.ownerNotesCount > 0,
      if isOwner then OWNER_ACTIONS else [])
  }

  // ---------------------------------------------------------------------------

  /** A masked identifier is four asterisks followed by at most the last four
      characters of the value; an empty value shows eight asterisks. */
  lemma MaskSpec(v: string)
    ensures |Mask(v)| <= 8 && Mask(v)[..4] == "****"
    ensures v == "" ==> Mask(v) == "********"
    ensures v != "" ==> Mask(v)[4..] == v[|v| - |Mask(v)[4..]|..]
    ensures v != "" ==> |Mask(v)| == 4 + (if |v| < 4 then |v| else 4)
  {
  }

  /** The mask depends only on the last four characters: values that share
      them are indistinguishable on a card that is not the owner's. */
  lemma MaskHidesPrefix(a: string, b: string, tail: string)
    requires |tail| >= 4
    ensures Mask(a + tail) == Mask(b + tail)
  {
    assert (a + tail)[|a + tail| - 4..] == tail[|tail| - 4..];
    assert (b + tail)[|b + tail| - 4..] == tail[|tail| - 4..];
  }

  /** The owner sees the plate, the full identifiers and all five actions. */
  lemma OwnerView(v: CardVehicle)
    ensures Render(v, true).plate == Some(v.plate)
    ensures Render(v, true).vin == v.vin && Render(v, true).engine == v.engine
    ensures |Render(v, true).actions| == 5
    ensures forall a: Action :: a in Render(v, true).actions
  {
    forall a: Action ensures a in OWNER_ACTIONS {
      var i := match a
        case EditAction => 0 case QrAction => 1 case TransferAction => 2
        case SellAction => 3 case DeleteAction => 4;
      assert OWNER_ACTIONS[i] == a;
    }
  }

  /** Anyone else sees no plate, masked identifiers and no action; the rest
      of the card is the same for both. */
  lemma OtherView(v: CardVehicle)
    ensures Render(v, false).plate == None && Render(v, false).actions == []
    ensures Render(v, false).vin == Mask(v.vin) && Render(v, false).engine == Mask(v.engine)
    ensures Render(v, false).(plate := None, vin := "", engine := "", actions := [])
         == Render(v, true).(plate := None, vin := "", engine := "", actions := [])
  {
  }

  /** The card's own photo wins over the listing's; no photo shows the
      placeholder. */
  lemma PhotoSpec(v: CardVehicle)
    ensures Render(v, false).photo.None? <==> v.photoUrl == "" && v.marketplacePhotoUrl == ""
    ensures v.photoUrl != "" ==> Render(v, false).photo == Some(v.photoUrl)
  {
  }

  /** The location line is shown exactly when there is a location or both a
      city and a country, and then prefers "city, country". */
  lemma LocationSpec(v: CardVehicle)
    ensures LocationText(v).Some? <==> v.location != "" || (v.city != "" && v.country != "")
    ensures v.city != "" && v.country != "" ==> LocationText(v) == Some(v.city + ", " + v.country)
    ensures LocationText(v).Some? ==> Render(v, false).extras
  {
  }

  /** The engine note appears only inside the structural summary. */
  lemma EngineNoteNeedsSummary(v: CardVehicle, isOwner: bool)
    ensures Render(v, isOwner).engineNote ==> Render(v, isOwner).structuralSummary
    ensures Render(v, isOwner).engineNote <==> v.structuralChangesCount > 0 && v.hasEngineChange
  {
  }
}
