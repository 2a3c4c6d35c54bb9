# autorah — a verified model of the vehicle-history core

autorah is a single-page web app that keeps a shared history of every
vehicle: who owns it, which workshops serviced it, which structural changes
(an engine swap, a chassis repair) were made, and which certificates it
holds. Drivers register their vehicles, transfer them to another user or
to the digital deposit, and list them on the marketplace. Workshops look a
vehicle up, record verified maintenance and structural changes, and issue
certificates. Any signed-in user can claim a vehicle waiting in the
deposit.

This project models the identity normalisers, the session, and the event
handlers of the driver and workshop dashboards, the deposit and the
marketplace. It also models the dialogs that write data or decide what a
viewer may see, and it proves what these promise. The hosted table store
is modelled as `Store.Database`, a class with one sequence of rows per
table and a counter for server-assigned ids. Each component is a class
whose fields are the component's state. Each handler is a method whose
`modifies` clause names the tables and fields it writes. Its `ensures`
clause gives the new state as a function of the old one.

Conventions used throughout:

- Remote failures are `bool` parameters: a failed query, a failed upload,
  a declined confirmation dialog.
- The clock (`now`, `today`, the current year) and the page origin are
  parameters.
- A `.single()` or `.maybeSingle()` lookup succeeds only when exactly one
  row matches (`Store.Single`).
- A text field that is null, undefined or empty is the empty string,
  because the source only tests such fields for truthiness.
- JavaScript's `\s` and `trim` are the exact set of whitespace and
  line-terminator code points. Case mapping is ASCII.
- Columns an insert does not write take the table's defaults, and the
  model writes those defaults out. A vehicle inserted by registration is
  `Active` and not deleted, which is why it shows on the dashboard, whose
  query keeps only non-deleted rows. A notification inserted by a transfer
  to the deposit, a deposit claim or a maintenance record is unread and
  created at `now`.

## Behaviour kept as written

The model keeps these behaviours of the code, and lemmas exhibit each one:

- **Deleted rows block registration.** The duplicate lookup of
  registration has no deleted-flag filter, so a soft-deleted vehicle
  still blocks a new one with the same plate
  (`DriverDashboard.DeletedRowStillBlocks`). A duplicate check limited to
  non-deleted vehicles is not what the code does; the model follows the
  code.
- **Editing skips normalisation.** Editing stores the typed plate, VIN and
  engine number verbatim, with no duplicate check
  (`DriverDashboard.EditStoresRawPlate`,
  `DriverDashboard.EditCanDuplicatePlate`).
- **The engine flag reads the wrong column.** The marketplace's
  engine-change flag reads the `change_type` column, but the structural
  change form writes the kind to `type`. A vehicle whose changes all came
  from the form is therefore never flagged
  (`Marketplace.EngineChangeNeverFlagged`, `StructuralChangeModal.ChangeRecordSpec`).
- **"Disputed" is never written.** The claim dialog tells the user that
  the vehicle is now "En Disputa", but no handler writes a disputed status
  (`ClaimModal.ClaimDialog.HandleSubmit` leaves the vehicles table
  untouched).
- **Uploads come before the sign-in check.** The claim dialog uploads both
  photos first and only then reads the signed-in user. Authentication is
  not checked up front; the model follows the code's order, so a
  signed-out claimant still causes both uploads.
- **Maintenance notices are signed "Taller".** The owner's notification
  is signed with the workshop's `user_metadata.full_name`, or "Taller"
  when that is absent. The session holds a users-table row, which has no
  `user_metadata`, so every notice is signed "Taller"
  (`WorkshopDashboard.Dashboard.AddMaintenance` with `metadataFullName`
  set to "").
- **Lookups on raw input.** The workshop search compares the raw term with
  the stored plate and VIN (`WorkshopDashboard.LowerCaseTermFindsNothing`).
  The certification search runs every query through the plate normaliser,
  even when it is a VIN or engine number
  (`CertifyVehicleModal.SeparatedIdentityNotFound`).
- **The deposit lists deleted rows.** The deposit lists every row with the
  deposit status, deleted or not. A claim never checks the vehicle's
  status (`Deposit.ClaimIgnoresStatus`).
- **Mismatched names.**
  - The session is kept under the local-storage key `autorah_user_id`, but
    `src/components/workshop/StructuralChangeModal.jsx` reads the signed-in
    workshop from the key `user`. The model passes what is read as the
    parameter `storedUser` of `StructuralChangeModal.StructuralForm.Submit`.
    With the key as written nothing is stored there, so every submission
    ends in the save error.
  - The claim dialog takes the claimant from the hosted auth service
    (`supabase.auth.getUser()`), but the app's session is a users-table row
    and never signs in to that service. A claim therefore normally ends in
    the generic error. When a service user is present, the claim records
    that service's id, not a users-table id. The model passes the service's
    user as the parameter `authUser` of `ClaimModal.ClaimDialog.HandleSubmit`.
  - The marketplace joins `vehicle_certifications`, while the certification
    dialog writes `vehicle_certificates`. The model takes the joined rows
    as given, and so does not tie these names together.

## Model

| member | source | states |
|---|---|---|
| Normalization.PlateShape | src/lib/normalization.js:5-10 | a normalised plate has no whitespace, no hyphen and no lower-case letter, and is no longer than the input |
| Normalization.EmptyNormalizesToEmpty | src/lib/normalization.js:6 | empty input gives the empty string in all three normalisers |
| Normalization.PlateIdempotent | src/lib/normalization.js:5-10 | normalising a normalised plate changes nothing |
| Normalization.StripIsClean | src/lib/normalization.js:9 | removing `[\s-]` leaves no whitespace and no hyphen |
| Normalization.StripKeepsNoLower | src/lib/normalization.js:9 | removing separators keeps an upper-case string upper-case |
| Normalization.StripOfClean | src/lib/normalization.js:9 | a string without separators is unchanged by their removal |
| Normalization.StripAppend | src/lib/normalization.js:9 | separator removal works piecewise on a concatenation |
| Normalization.PlateOfClean | src/lib/normalization.js:5-10 | an upper-case plate without separators is its own normal form |
| Normalization.PlateWithSeparator | src/lib/normalization.js:5-10 | two clean parts around one separator normalise to the parts joined |
| Normalization.PlateOfUpper | src/lib/normalization.js:9 | upper-casing first does not change the normal form |
| Normalization.PlateOfUpperClean | src/lib/normalization.js:9 | a plate whose upper-case form is clean normalises to that form |
| Normalization.PlateIgnoresSeparator | src/lib/normalization.js:8-9 | inserting a whitespace character or hyphen anywhere does not change the normal form |
| Normalization.PlateVariantLowerCase | src/lib/normalization.js:8 | the lower-case example plate normalises to the upper-case one |
| Normalization.VinShape | src/lib/normalization.js:12-16 | a normalised VIN has no lower-case letter and no edge whitespace |
| Normalization.VinTrimOnly | src/lib/normalization.js:15 | without edge whitespace every character stays in place, upper-cased, and inner spaces and hyphens survive |
| Normalization.VinDropsSurroundingSpace | src/lib/normalization.js:15 | surrounding whitespace is dropped and the core upper-cased |
| Normalization.VinKeepsInnerSeparator | src/lib/normalization.js:9-15 | an inner separator is kept by the VIN normaliser and dropped by the plate normaliser |
| Normalization.VinOfUpperUntrimmed | src/lib/normalization.js:12-16 | an upper-case VIN with no edge whitespace is its own normal form |
| Normalization.VinIdempotent | src/lib/normalization.js:12-16 | normalising a normalised VIN changes nothing |
| Normalization.EngineIsVin | src/lib/normalization.js:18-22 | the engine normaliser agrees with the VIN normaliser and is idempotent |
| Common.UpperHasNoLower | src/lib/normalization.js:9 | `toUpperCase` leaves no lower-case letter |
| Common.UpperOfNoLower | src/lib/normalization.js:15 | `toUpperCase` of a string with no lower-case letter is the identity |
| Common.LowerOfUpper | src/components/marketplace/Marketplace.jsx:152 | lower-casing after upper-casing equals lower-casing |
| Common.TrimHasNoEdgeSpace | src/lib/normalization.js:15 | `trim` leaves no whitespace at either end |
| Common.TrimIsSlice | src/lib/normalization.js:15 | `trim` returns a contiguous slice of its input |
| Common.TrimCutsOnlySpace | src/lib/normalization.js:15 | everything `trim` removes is whitespace |
| Common.TrimOfUntrimmed | src/lib/normalization.js:15 | a string without edge whitespace is its own trim |
| Common.TrimAround | src/components/marketplace/Marketplace.jsx:166 | trimming one whitespace character on each side of a clean string gives that string |
| Common.TrimIdempotent | src/lib/normalization.js:15 | trimming twice equals trimming once |
| Common.FilterMembers | src/components/shared/Notifications.jsx:47 | `filter` keeps exactly the elements that pass |
| Common.FilterIsSubsequence | src/components/marketplace/Marketplace.jsx:151 | `filter` keeps its input's order |
| Common.FilterEmptyIff | src/components/driver/DriverDashboard.jsx:138 | a filter returns nothing exactly when no element passes |
| Common.FilterHeadIsFirst | src/components/driver/DriverDashboard.jsx:140 | the first element kept is the first element that passes |
| Common.NewestFirstSpec | src/components/shared/Notifications.jsx:42-43 | `.order(desc).limit(n)` returns at most n passing rows, sorted, none newer left out, all when fewer |
| Common.SortDescSorted | src/components/shared/Notifications.jsx:42 | the descending sort is sorted |
| Common.SortDescPermutes | src/components/shared/Notifications.jsx:42 | the descending sort is a permutation of its input |
| Store.Single | src/lib/AuthContext.jsx:25 | `.single()` yields a row exactly when one row matched, and then that row |
| Store.ImageHost.Upload | src/components/shared/ClaimModal.jsx:28-29 | an upload is logged and returns the host's URL for the file, or fails |
| Store.UpdateKeepsIds | src/components/driver/DriverDashboard.jsx:210-217 | an `update().eq('id')` that keeps ids keeps them unique |
| AuthContext.Session.constructor | src/lib/AuthContext.jsx:7-8 | the session starts signed out and loading, with the stored id |
| AuthContext.Session.Restore | src/lib/AuthContext.jsx:10-39 | a stored id becomes the user when exactly one row has it, and is removed otherwise |
| AuthContext.Session.Login | src/lib/AuthContext.jsx:41-58 | exactly one row matching e-mail and password signs in and stores its id; otherwise "Credenciales incorrectas" with no change |
| AuthContext.Session.Register | src/lib/AuthContext.jsx:60-85 | a found e-mail rejects with no write; otherwise one row is inserted and signed in; unique e-mails are preserved |
| AuthContext.Session.SignOut | src/lib/AuthContext.jsx:87-90 | no user and no stored id |
| AuthContext.AtMostOneMatch | src/lib/AuthContext.jsx:46-48 | under unique e-mails a lookup by e-mail matches at most one row |
| AuthContext.EmailCheckIff | src/lib/AuthContext.jsx:63-69 | the existence check finds a row exactly when the e-mail is taken |
| AuthContext.LoginIff | src/lib/AuthContext.jsx:41-54 | login succeeds exactly when some row matches both fields, returning that row |
| AuthContext.RegisterKeepsUnique | src/lib/AuthContext.jsx:69-75 | a row whose e-mail passes the check keeps e-mails unique |
| AuthContext.RegisterThenLogin | src/lib/AuthContext.jsx:41-85 | a registered user logs in with the same credentials and gets the registered row |
| DriverDashboard.Dashboard.constructor | src/components/driver/DriverDashboard.jsx:55-64 | empty list, blank form for the current year, all dialogs closed |
| DriverDashboard.Dashboard.FetchVehicles | src/components/driver/DriverDashboard.jsx:70-80 | the list becomes the user's non-deleted vehicles; a failure keeps it |
| DriverDashboard.Dashboard.AddVehicle | src/components/driver/DriverDashboard.jsx:122-178 | a duplicate on any normalised field reports the first match and writes nothing; otherwise one normalised row is appended, the list refreshed and the form reset |
| DriverDashboard.Dashboard.EditVehicle | src/components/driver/DriverDashboard.jsx:281-306 | the edited rows take the typed fields verbatim; nothing else in the table changes |
| DriverDashboard.Dashboard.Transfer | src/components/driver/DriverDashboard.jsx:353-405 | by e-mail to the one user with that address, or to the deposit with no owner; one transfer recorded, the sender notified on a deposit, nothing written without a recipient |
| DriverDashboard.Dashboard.DeleteVehicle | src/components/driver/DriverDashboard.jsx:207-234 | the vehicle is marked deleted by the user at the given time and its listings removed |
| DriverDashboard.RejectedIff | src/components/driver/DriverDashboard.jsx:131-138 | registration is rejected exactly when some row, deleted or not, shares a normalised identity field |
| DriverDashboard.FirstDuplicateIsFirstMatch | src/components/driver/DriverDashboard.jsx:140 | the reported conflict is the first matching row in table order |
| DriverDashboard.AddKeepsDistinct | src/components/driver/DriverDashboard.jsx:131-159 | a registration that passes the lookup keeps all identity fields distinct across the table |
| DriverDashboard.DeletedRowStillBlocks | src/components/driver/DriverDashboard.jsx:131-134 | a soft-deleted row with the same plate still blocks registration |
| DriverDashboard.EditStoresRawPlate | src/components/driver/DriverDashboard.jsx:281-306 | an edited plate with a space is stored with it, unlike its normal form |
| DriverDashboard.EditCanDuplicatePlate | src/components/driver/DriverDashboard.jsx:281-306 | an edit can give two rows the same plate |
| DriverDashboard.DeletedLeavesDashboard | src/components/driver/DriverDashboard.jsx:75-76 | a soft-deleted vehicle is on no dashboard |
| DriverDashboard.DepositLeavesNoOwner | src/components/driver/DriverDashboard.jsx:353-405 | a deposit transfer leaves the vehicle with no owner and the deposit status |
| Deposit.DepositPage.constructor | src/components/deposit/Deposit.jsx:16 | the page starts with an empty list |
| Deposit.DepositPage.FetchDepositVehicles | src/components/deposit/Deposit.jsx:16-30 | the list becomes the rows with the deposit status; a failure keeps it |
| Deposit.DepositPage.HandleClaim | src/components/deposit/Deposit.jsx:32-71 | signed in and confirmed: the claimant owns the now active vehicle, one transfer and one notification are recorded; otherwise nothing is written |
| Deposit.InDepositIff | src/components/deposit/Deposit.jsx:18-21 | the deposit lists exactly the rows with the deposit status |
| Deposit.DepositThenClaim | src/components/deposit/Deposit.jsx:43-49 | a deposited vehicle is listed; once claimed it is not, and is owned and active |
| Deposit.ClaimIgnoresStatus | src/components/deposit/Deposit.jsx:43-49 | a claim makes even a stolen vehicle's row active and owned |
| ClaimModal.ClaimDialog.constructor | src/components/shared/ClaimModal.jsx:7-12 | not submitting, no error, no success, no files |
| ClaimModal.ClaimDialog.HandleSubmit | src/components/shared/ClaimModal.jsx:16-54 | both files required; uploads then user then insert, the first failure stopping with the generic error; only a full run records the pending claim and sets success; the vehicles table never changes |
| Marketplace.MarketplacePage.constructor | src/components/marketplace/Marketplace.jsx:9-18 | no listings and every filter empty |
| Marketplace.MarketplacePage.FetchListings | src/components/marketplace/Marketplace.jsx:89-149 | the list becomes the derived cards of available listings whose vehicle is not deleted; a failure keeps it |
| Marketplace.MarketplacePage.SetFilters | src/components/marketplace/Marketplace.jsx:11-18 | the filters become the given ones |
| Marketplace.CertifiedIff | src/components/marketplace/Marketplace.jsx:115-119 | certified exactly when the vehicle has a certification and a verified maintenance |
| Marketplace.DeriveDefaults | src/components/marketplace/Marketplace.jsx:111-128 | absent relations count as zero; the listing's photo wins over the vehicle's |
| Marketplace.EngineChangeNeverFlagged | src/components/marketplace/Marketplace.jsx:113 | with `change_type` never written, no vehicle is flagged for an engine change |
| Marketplace.EngineFlagNeedsChanges | src/components/marketplace/Marketplace.jsx:111-113 | a card flagged for an engine change counts at least one structural change |
| Marketplace.FetchedCardsSpec | src/components/marketplace/Marketplace.jsx:103-142 | the fetched cards are exactly the derivations of available listings of non-deleted vehicles |
| Marketplace.NoFiltersKeepAll | src/components/marketplace/Marketplace.jsx:151-173 | with every filter empty all listings are shown |
| Marketplace.FilteredSpec | src/components/marketplace/Marketplace.jsx:151-173 | the shown cards are exactly the passing ones, in order, within the price bounds and certified when asked |
| Marketplace.BrandFilterIgnoresCase | src/components/marketplace/Marketplace.jsx:152 | the typed brand's case does not matter |
| Marketplace.BrandFilterIgnoresStoredCase | src/components/marketplace/Marketplace.jsx:152 | the stored brand's case does not matter |
| Marketplace.CountryFilterIgnoresCase | src/components/marketplace/Marketplace.jsx:158-162 | the typed country's case does not matter |
| Marketplace.CityFilterIgnoresSurroundingSpace | src/components/marketplace/Marketplace.jsx:165-170 | whitespace typed around the city does not matter |
| VehicleCard.MaskSpec | src/components/shared/VehicleCard.jsx:52-58 | a masked identifier is four asterisks then at most its last four characters; an empty one shows eight asterisks |
| VehicleCard.MaskHidesPrefix | src/components/shared/VehicleCard.jsx:52-58 | identifiers sharing their last four characters look the same to a non-owner |
| VehicleCard.OwnerView | src/components/shared/VehicleCard.jsx:44-58 | the owner sees the plate, the full identifiers and all five actions |
| VehicleCard.OtherView | src/components/shared/VehicleCard.jsx:44-58 | others see no plate, masked identifiers and no actions; the rest is shared |
| VehicleCard.PhotoSpec | src/components/shared/VehicleCard.jsx:5 | the card's photo wins over the listing's; neither shows the placeholder |
| VehicleCard.LocationSpec | src/components/shared/VehicleCard.jsx:64-79 | a location line exactly with a location or city and country, preferring "city, country" |
| VehicleCard.EngineNoteNeedsSummary | src/components/shared/VehicleCard.jsx:91-96 | the engine note appears exactly inside a structural summary with an engine change |
| NotificationsPanel.Panel.constructor | src/components/shared/Notifications.jsx:36-53 | empty list, zero count, loading, invariant holds |
| NotificationsPanel.Panel.Fetch | src/components/shared/Notifications.jsx:36-53 | the list becomes the latest 20 of the user's notifications and the count their unread ones, whatever the state before; a failure keeps both |
| NotificationsPanel.Panel.Incoming | src/components/shared/Notifications.jsx:24-27 | the new row goes first and the count goes up by one; the count stays right for an unread fresh row |
| NotificationsPanel.Panel.MarkAsRead | src/components/shared/Notifications.jsx:55-71 | the row and the entry are marked read and the count drops, never below zero |
| NotificationsPanel.Panel.Click | src/components/shared/Notifications.jsx:131 | only an unread entry is marked read, in the table and in the list, so the count stays equal to the unread entries |
| NotificationsPanel.Panel.MarkAllAsRead | src/components/shared/Notifications.jsx:73-88 | the user's unread rows and every entry are marked read and the count is zero |
| NotificationsPanel.LatestSpec | src/components/shared/Notifications.jsx:38-43 | at most 20 of the user's notifications, newest first, no newer one left out, all when fewer |
| NotificationsPanel.LatestUnique | src/components/shared/Notifications.jsx:38-43 | the fetched list shows each notification once |
| NotificationsPanel.MarkReadCount | src/components/shared/Notifications.jsx:64-67 | marking an unread entry read lowers the unread count by exactly one |
| NotificationsPanel.MarkReadAbsent | src/components/shared/Notifications.jsx:64-66 | marking an absent id changes nothing |
| NotificationsPanel.MarkReadKeepsIds | src/components/shared/Notifications.jsx:64-66 | marking read keeps every id in place |
| NotificationsPanel.MarkAllReadCount | src/components/shared/Notifications.jsx:83-84 | after marking all read no entry is unread |
| NotificationsPanel.UserReadIsAllRead | src/components/shared/Notifications.jsx:75-79 | no unread row of the user remains |
| NotificationsPanel.UserReadLeavesOthers | src/components/shared/Notifications.jsx:78 | other users' rows are unchanged |
| VehicleDetailModal.DetailDialog.constructor | src/components/shared/VehicleDetailModal.jsx:20-21 | empty lists, today's blank note, nothing under edit |
| VehicleDetailModal.DetailDialog.FetchData | src/components/shared/VehicleDetailModal.jsx:30-65 | the vehicle's maintenance and changes, and its notes only for the owner or a workshop; a failed query gives an empty list |
| VehicleDetailModal.DetailDialog.StartNewNote | src/components/shared/VehicleDetailModal.jsx:316-319 | blank form for today, nothing under edit, form shown |
| VehicleDetailModal.DetailDialog.StartEditNote | src/components/shared/VehicleDetailModal.jsx:127-131 | the form takes the note's date, text and id |
| VehicleDetailModal.DetailDialog.SaveNote | src/components/shared/VehicleDetailModal.jsx:77-110 | an edit updates only the user's note with that id; otherwise a note is inserted; a failure alerts and changes nothing |
| VehicleDetailModal.DetailDialog.DeleteNoteRow | src/components/shared/VehicleDetailModal.jsx:112-125 | once confirmed, only the user's note with that id is deleted |
| VehicleDetailModal.AccessSpec | src/components/shared/VehicleDetailModal.jsx:23-24 | plate and notes exactly for the owner or a signed-in workshop, note controls exactly for the owner |
| VehicleDetailModal.SignedOutIsNotOwner | src/components/shared/VehicleDetailModal.jsx:23 | nobody signed in owns any vehicle, even one without an owner, or sees its plate or notes |
| VehicleDetailModal.WorkshopReadsOnly | src/components/shared/VehicleDetailModal.jsx:23-24 | a workshop that is not the owner reads notes but cannot change them |
| VehicleDetailModal.UpdateNoteScoped | src/components/shared/VehicleDetailModal.jsx:80-88 | only the user's note with that id changes, and only its date and text |
| VehicleDetailModal.DeleteNoteScoped | src/components/shared/VehicleDetailModal.jsx:115-119 | exactly the user's notes with that id are removed, the rest kept in order |
| VehicleDetailModal.DeleteKeepsOthersNotes | src/components/shared/VehicleDetailModal.jsx:119 | another owner's note survives any delete |
| VehicleDetailModal.NotesOfSpec | src/components/shared/VehicleDetailModal.jsx:53-57 | the notes shown are exactly this vehicle's |
| DeleteVehicleModal.DeleteDialog.constructor | src/components/shared/DeleteVehicleModal.jsx:5-6 | empty typed plate, not deleting |
| DeleteVehicleModal.DeleteDialog.TypePlate | src/components/shared/DeleteVehicleModal.jsx:51 | what is typed is stored upper-cased |
| DeleteVehicleModal.DeleteDialog.HandleConfirm | src/components/shared/DeleteVehicleModal.jsx:12-18 | the delete runs exactly when the typed plate equals the vehicle's; afterwards the field is cleared |
| DeleteVehicleModal.LowerCasePlateNeverConfirmed | src/components/shared/DeleteVehicleModal.jsx:10-51 | a stored plate with a lower-case letter can never be confirmed |
| DeleteVehicleModal.RegisteredPlateConfirmable | src/components/shared/DeleteVehicleModal.jsx:10-51 | a plate stored by registration is confirmed when typed as stored or all in lower case |
| DeleteVehicleModal.RegisteredPlateAnyCase | src/components/shared/DeleteVehicleModal.jsx:10-51 | typing the registered plate in any mix of cases confirms |
| WorkshopDashboard.Dashboard.constructor | src/components/workshop/WorkshopDashboard.jsx:95-101 | no vehicle, blank service form, dialog closed, empty list |
| WorkshopDashboard.Dashboard.FetchRecentServices | src/components/workshop/WorkshopDashboard.jsx:35-44 | the list becomes this workshop's five newest records; a failure keeps it |
| WorkshopDashboard.Dashboard.Search | src/components/workshop/WorkshopDashboard.jsx:46-69 | the one row whose plate or VIN equals the raw term, else no result |
| WorkshopDashboard.Dashboard.AddMaintenance | src/components/workshop/WorkshopDashboard.jsx:71-106 | one record appended, the owner notified when there is one, the form reset and the list refreshed; a failure writes nothing |
| WorkshopDashboard.RecentServicesSpec | src/components/workshop/WorkshopDashboard.jsx:36-41 | at most five of this workshop's records, newest first, none newer left out, all when fewer |
| WorkshopDashboard.LowerCaseTermFindsNothing | src/components/workshop/WorkshopDashboard.jsx:55 | against normalised rows a term with a lower-case letter finds nothing |
| CertifyVehicleModal.CertifyDialog.constructor | src/components/workshop/CertifyVehicleModal.jsx:10-25 | step 1, empty query, basic type, every checklist item checked |
| CertifyVehicleModal.CertifyDialog.TypeQuery | src/components/workshop/CertifyVehicleModal.jsx:157 | the query is stored upper-cased |
| CertifyVehicleModal.CertifyDialog.Search | src/components/workshop/CertifyVehicleModal.jsx:29-65 | a blank query does nothing; no match or a failure gives the search error, a stolen vehicle the theft alert, any other vehicle moves to step 2 |
| CertifyVehicleModal.CertifyDialog.Certify | src/components/workshop/CertifyVehicleModal.jsx:67-117 | on success one certificate valid for a year is recorded and the dialog moves to step 3; a failure stays at step 2 with the error |
| CertifyVehicleModal.CertifyDialog.Cancel | src/components/workshop/CertifyVehicleModal.jsx:235 | back to step 1 |
| CertifyVehicleModal.CertifyDialog.Reset | src/components/workshop/CertifyVehicleModal.jsx:119-126 | step 1 with no query, vehicle, error or observations |
| CertifyVehicleModal.FirstMatchSpec | src/components/workshop/CertifyVehicleModal.jsx:37-45 | a vehicle is found exactly when some row matches the normalised query, and it is the first such row |
| CertifyVehicleModal.SeparatedIdentityNotFound | src/components/workshop/CertifyVehicleModal.jsx:37 | a VIN or engine number stored with a space or hyphen can never be found |
| StructuralChangeModal.StructuralForm.constructor | src/components/workshop/StructuralChangeModal.jsx:9-16 | an engine swap dated today, one empty photo entry |
| StructuralChangeModal.StructuralForm.PhotoChange | src/components/workshop/StructuralChangeModal.jsx:28-32 | the entry at the index takes the value |
| StructuralChangeModal.StructuralForm.AddPhotoField | src/components/workshop/StructuralChangeModal.jsx:34-38 | an empty entry is added only below six |
| StructuralChangeModal.StructuralForm.RemovePhotoField | src/components/workshop/StructuralChangeModal.jsx:40-42 | the entry at the index is removed |
| StructuralChangeModal.StructuralForm.Submit | src/components/workshop/StructuralChangeModal.jsx:45-90 | no non-blank photo, or no km without a broken odometer, is rejected; otherwise one record with the non-blank photos is inserted |
| StructuralChangeModal.ValidPhotosSpec | src/components/workshop/StructuralChangeModal.jsx:51 | the saved photos are exactly the non-blank entries, in order |
| StructuralChangeModal.NoValidPhotosIff | src/components/workshop/StructuralChangeModal.jsx:51-56 | the photo check rejects exactly when every entry is blank after trimming |
| StructuralChangeModal.ChangeRecordSpec | src/components/workshop/StructuralChangeModal.jsx:67-78 | no km exactly with a broken odometer; the kind goes to `type`, `change_type` stays empty |
| StructuralChangeModal.FreshFormRejected | src/components/workshop/StructuralChangeModal.jsx:15-56 | an untouched form is always rejected |

## Left out

- The store's query builder, joins and wire format are not modelled: each query is replaced by the filter it computes over in-memory rows, and joined rows are given as input.
- Races, realtime channel wiring, loading spinners between awaits, and partial failure (a transfer or notification insert whose error the source ignores is modelled as succeeding) are not modelled.
- Image and PDF uploads are an abstract host; PDF generation (src/lib/pdfGenerator.js) and the QR dialog are not part of this model.
- Row order of queries without `.order` is table order. The detail dialog's `.order('date')` on text dates is not modelled (the lists keep table order).
- Number parsing of the price filters is not modelled: a price bound is already an integer or absent.
- Unicode case mapping is not modelled; only ASCII letters change case.
- `handleSell`, `handleDeleteAccount`, `handleNearMe`, the landing, login and register pages and the routing are not part of this model.
- DriverDashboard.Dashboard.Transfer: the "user not found" alert branch after a failed `.single()` is merged with no recipient; the unreachable second alert is not modelled.
- WorkshopDashboard.Dashboard.Search: the alert texts are not modelled; "not found" and "error" both leave no result.
- WorkshopDashboard.Dashboard.AddMaintenance: the record's date is the server's default, passed in as `now`.
- VehicleDetailModal.DetailDialog.SaveNote: an edit is keyed by `Option<Id>`, so an id of 0 (falsy in JavaScript) is not modelled; the refresh after a save re-reads only the notes, the other two lists being unaffected by the write.
- DeleteVehicleModal.DeleteDialog.HandleConfirm: the deleting flag's value while the delete is awaited is not modelled, only the state before and after.
- AuthContext.Session.Restore: the exception path (which removes the stored id without clearing the user) is merged with the error path, and the user is cleared there too.
- CertifyVehicleModal.CertifyDialog.Certify: the certificate id and the current time are parameters, since the source takes them from `Date.now()`.
- The `data || []` defaults for a successful query that returns null are not modelled: a successful query returns rows.
