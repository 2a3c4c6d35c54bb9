/** The public marketplace (src/components/marketplace/Marketplace.jsx):
    the listings query, the flags derived for each listing, and the
    client-side filter. */
module Marketplace {
  import opened Common
  import opened Store

  /** A vehicle row as the listings query joins it: its structural changes,
      the owner-note and maintenance counts, and its certifications. An
      absent relation is `None`. */
  datatype JoinedVehicle = JoinedVehicle(
    brand: string,
    photoUrl: string,
    isDeleted: bool,
    structuralChanges: Option<seq<StructuralChange>>,
    ownerNotesCount: Option<nat>,
    maintenanceCount: Option<nat>,
    certifications: Option<seq<Certificate>>)

  /** A marketplace row with its vehicle. */
  datatype JoinedListing = JoinedListing(
    id: Id, status: string, price: int, photoUrl: string,
    location: string, country: string, city: string, vehicle: JoinedVehicle)

  /** What a listing card shows, after the derivation. */
  datatype Card = Card(
    id: Id, price: int, brand: string, location: string, country: string, city: string,
    structuralChangesCount: nat, hasEngineChange: bool, ownerNotesCount: nat,
    maintenanceCount: nat, isCertified: bool, marketplacePhotoUrl: string)

  /** The filter panel. A price bound is `None` when its field is empty. */
  datatype Filters = Filters(
    brand: string, minPrice: Option<int>, maxPrice: Option<int>,
    certifiedOnly: bool, country: string, city: string)

  const NO_FILTERS := Filters("", None, None, false, "", "")

  function OrEmpty<T>(o: Option<seq<T>>): seq<T> { if o.Some? then o.value else [] }

  function OrZero(o: Option<nat>): nat { if o.Some? then o.value else 0 }

  predicate IsEngineChange(c: StructuralChange) { c.changeType == Some("motor") }

  /** The per-listing derivation of `fetchListings`. */
  function Derive(item: JoinedListing): Card
  {
    var v := item.vehicle;
    var changes := OrEmpty(v.structuralChanges);
    var maintenance := OrZero(v.maintenanceCount);
    Card(item.id, item.price, v.brand, item.location, item.country, item.city,
      |changes|, exists c :: c in changes && IsEngineChange(c), OrZero(v.ownerNotesCount),
      maintenance, |OrEmpty(v.certifications)| > 0 && maintenance > 0,
      if item.photoUrl != "" then item.photoUrl else v.photoUrl)
  }

  /** The query's own filter: available listings of vehicles not deleted. */
  predicate Listed(item: JoinedListing)
  {
    item.status == "available" && !item.vehicle.isDeleted
  }

  function DeriveAll(items: seq<JoinedListing>): (r: seq<Card>)
    ensures |r| == |items|
  {
    seq(|items|, i requires 0 <= i < |items| => Derive(items[i]))
  }

  /** `needle` occurs in `hay`, case-insensitively (`toLowerCase().includes`). */
  predicate IncludesFolded(hay: string, needle: string)
  {
    Contains(Lower(hay), Lower(needle))
  }

  /** The `filteredListings` predicate. An empty text filter and an absent
      price bound let everything through. */
  predicate Passes(c: Card, f: Filters)
  {
    && (f.brand != "" ==> IncludesFolded(c.brand, f.brand))
    && (f.minPrice.Some? ==> c.price >= f.minPrice.value)
    && (f.maxPrice.Some? ==> c.price <= f.maxPrice.value)
    && (f.certifiedOnly ==> c.isCertified)
    && (f.country != "" ==>
         (c.country != "" && Lower(c.country) == Lower(f.country)) ||
         (c.location != "" && IncludesFolded(c.location, f.country)))
    && (f.city != "" ==>
         var searchCity := Lower(Trim(f.city));
         (c.city != "" && Contains(Lower(c.city), searchCity)) ||
         (c.location != "" && Contains(Lower(c.location), searchCity)))
  }

  function FilteredListings(cards: seq<Card>, f: Filters): seq<Card>
  {
    Filter(cards, (c: Card) => Passes(c, f))
  }

  class MarketplacePage {
    var listings: seq<Card>
    var filters: Filters

    constructor ()
      ensures listings == [] && filters == NO_FILTERS
    {
      listings, filters := [], NO_FILTERS;
    }

    /** `fetchListings`: `rows` is the marketplace table with its joins; on
        success the derived cards of the listed rows replace the list, on
        failure the list is kept. */
    method FetchListings(rows: seq<JoinedListing>, fails: bool)
      modifies this`listings
      ensures listings == if fails then old(listings) else DeriveAll(Filter(rows, Listed))
    {
      if !fails {
        listings := DeriveAll(Filter(rows, Listed));
      }
    }

    method SetFilters(f: Filters)
      modifies this`filters
      ensures filters == f
    {
      filters := f;
    }

    /** The cards on screen. */
    function Visible(): seq<Card>
      reads this
    {
      FilteredListings(listings, filters)
    }
  }

  // ---------------------------------------------------------------------------
  // Derivation

  /** A listing is certified exactly when its vehicle has at least one
      certification and at least one verified maintenance. */
  lemma CertifiedIff(item: JoinedListing)
    ensures Derive(item).isCertified <==>
      item.vehicle.certifications.Some? && |item.vehicle.certifications.value| > 0 &&
      item.vehicle.maintenanceCount.Some? && item.vehicle.maintenanceCount.value > 0
  {
  }

  /** Absent relations count as zero, and the marketplace photo falls back to
      the vehicle's photo only when the listing has none. */
  lemma DeriveDefaults(item: JoinedListing)
    ensures item.vehicle.structuralChanges.None? ==> Derive(item).structuralChangesCount == 0 && !Derive(item).hasEngineChange
    ensures item.vehicle.ownerNotesCount.None? ==> Derive(item).ownerNotesCount == 0
    ensures Derive(item).marketplacePhotoUrl == (if item.photoUrl != "" then item.photoUrl else item.vehicle.photoUrl)
  {
  }

  /** The engine flag reads `change_type`, which the structural change form
      never writes: a vehicle whose changes all came from that form is never
      flagged, even when one of them is an engine swap. */
  lemma EngineChangeNeverFlagged(item: JoinedListing)
    requires item.vehicle.structuralChanges.Some?
    requires forall c :: c in item.vehicle.structuralChanges.value ==> c.changeType == None
    ensures !Derive(item).hasEngineChange
  {
  }

  /** A card with the engine flag also counts at least one structural change. */
  lemma EngineFlagNeedsChanges(item: JoinedListing)
    ensures Derive(item).hasEngineChange ==> Derive(item).structuralChangesCount > 0
  {
    var changes := OrEmpty(item.vehicle.structuralChanges);
    if Derive(item).hasEngineChange {
      var c :| c in changes && IsEngineChange(c);
      assert |changes| > 0;
    }
  }

  /** The fetched cards are exactly the derivations of the listed rows: each
      card comes from an available listing of a vehicle not deleted, and each
      such listing yields its card. */
  lemma FetchedCardsSpec(rows: seq<JoinedListing>)
    ensures forall c :: c in DeriveAll(Filter(rows, Listed)) ==> exists r :: r in rows && Listed(r) && c == Derive(r)
    ensures forall r :: r in rows && Listed(r) ==> Derive(r) in DeriveAll(Filter(rows, Listed))
  {
    var listed := Filter(rows, Listed);
    var cards := DeriveAll(listed);
    FilterMembers(rows, Listed);
    forall c | c in cards ensures exists r :: r in rows && Listed(r) && c == Derive(r) {
      var i :| 0 <= i < |cards| && cards[i] == c;
      assert listed[i] in listed;
    }
    forall r | r in rows && Listed(r) ensures Derive(r) in cards {
      var i :| 0 <= i < |listed| && listed[i] == r;
      assert cards[i] == Derive(r);
    }
  }

  // ---------------------------------------------------------------------------
  // Filtering

  /** With every filter empty, every listing is shown. */
  lemma NoFiltersKeepAll(cards: seq<Card>)
    ensures FilteredListings(cards, NO_FILTERS) == cards
  {
    FilterAllPass(cards, (c: Card) => Passes(c, NO_FILTERS));
  }

  /** The shown cards are exactly the passing ones, in listing order, and
      they respect the price bounds and the certified-only switch. */
  lemma FilteredSpec(cards: seq<Card>, f: Filters)
    ensures IsSubsequence(FilteredListings(cards, f), cards)
    ensures forall c :: c in FilteredListings(cards, f) <==> c in cards && Passes(c, f)
    ensures forall c :: c in FilteredListings(cards, f) ==>
      && (f.minPrice.Some? ==> c.price >= f.minPrice.value)
      && (f.maxPrice.Some? ==> c.price <= f.maxPrice.value)
      && (f.certifiedOnly ==> c.isCertified)
  {
    var p := (c: Card) => Passes(c, f);
    FilterIsSubsequence(cards, p);
    FilterMembers(cards, p);
  }

  /** The brand filter ignores the case of what is typed. */
  lemma BrandFilterIgnoresCase(c: Card, typed: string)
    ensures IncludesFolded(c.brand, Upper(typed)) == IncludesFolded(c.brand, typed)
  {
    LowerOfUpper(typed);
  }

  /** The brand filter also ignores the case of the stored brand. */
  lemma BrandFilterIgnoresStoredCase(brand: string, typed: string)
    ensures IncludesFolded(Upper(brand), typed) == IncludesFolded(brand, typed)
  {
    LowerOfUpper(brand);
  }

  /** The country filter ignores the case of what is typed. */
  lemma CountryFilterIgnoresCase(c: Card, f: Filters)
    ensures Passes(c, f.(country := Upper(f.country))) == Passes(c, f)
  {
    LowerOfUpper(f.country);
  }

  /** The city filter ignores whitespace typed around the city. */
  lemma CityFilterIgnoresSurroundingSpace(c: Card, f: Filters, city: string, sp: char)
    requires IsSpace(sp) && city != "" && !HasEdgeSpace(city)
    ensures Passes(c, f.(city := [sp] + city + [sp])) == Passes(c, f.(city := city))
  {
    TrimAround(city, sp);
    TrimOfUntrimmed(city);
  }
}
