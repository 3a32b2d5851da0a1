# GoodCity stock and offer rules in Dafny

This project models the rule-bearing core of the GoodCity API. GoodCity is a
Rails back end that takes donation offers, receives the donated goods as
inventory packages, and mirrors inventorized packages to the external
Stockit stock system. The models cover:

- the package record: its three-state machine, the hooks that clear
  locations and publishing, the Stockit bookkeeping, the set-item relinking
  rule, the assigned-quantity total, the containment query and the
  validations (`Packages`, as a class whose methods update its fields);
- the requests sent to Stockit: when each may be sent, the item parameters,
  the "X" inventory-number prefix and the location choice
  (`StockitItemSync`);
- the package controller's guards and normalisers: prefix removal, the
  barcode count bound, the destroy refusal, the inventorize precondition,
  the storage-type whitelist, the quantity fallbacks and the parameter
  whitelist (`PackagesController`);
- the offer state machine with its timestamp hooks, the pseudo-state
  expansion of `in_states` and the derived state lists (`Offers`),
  together with the offer filter, its "priority" rule and the last-6pm
  time arithmetic (`OfferFiltering`);
- the record rules:
  - user deletion, with its eligibility check, the version redaction rules
    and the erasure steps (`UserSafeDelete`, a class over the tables);
  - the SMS-reminder candidate rule and the stamping pass
    (`SubscriptionsReminder`);
  - the version classification helpers (`Versions`).

Shared Ruby semantics live in `Ruby`: `blank?`, `present?`, `String#to_i`
(leading white space, a sign, an optional `0d` radix prefix, then decimal
digits with single underscores between them read over), `Integer#to_s` and `Array#uniq`. `Wrappers` holds `Option`; `None` stands
for Ruby's `nil` or SQL NULL.

External effects become parameters:

- the Stockit reply (`reply`, a `Response`);
- the clock (`now`, `today`; times are integer seconds);
- `STOCKIT_ENABLED`;
- the current user and the Stockit user;
- `MAX_BARCODE_PRINT` (`maxPrint`);
- the reminder cutoff that `SUBSCRIPTION_REMINDER_TIME_DELTA.ago` stands for (`cutoff`);
- the results of database queries, passed as sequences of rows.

## Model

| member | source | states |
|---|---|---|
| StockitItemSync.AddStockitPrefix | app/services/stockit/item_sync.rb:109-112 | "X" is put in front exactly when the number starts with a digit; any other number, and nil, is returned unchanged |
| StockitItemSync.AddStockitPrefixIdempotent | app/services/stockit/item_sync.rb:109-112 | prefixing twice gives the same as prefixing once |
| StockitItemSync.StockitLocationPriority | app/services/stockit/item_sync.rb:152-160 | the dispatch location when the package was sent or has a dispatched orders_package; else the "multiple" location for more than one package location; else the first location, falling back to the location of `location_id` |
| StockitItemSync.UndispatchedSingleLocationIsReal | app/services/stockit/item_sync.rb:152-160 | an undispatched package in at most one place is reported at a location it is really recorded at |
| StockitItemSync.ItemParamsOf | app/services/stockit/item_sync.rb:121-138 | the quantity is the received quantity; a blank case number becomes nil; the inventory number carries the Stockit prefix; the location is the chosen one |
| StockitItemSync.Create | app/services/stockit/item_sync.rb:63-68 | a POST to /api/v1/items is sent exactly when the inventory number is present |
| StockitItemSync.Update | app/services/stockit/item_sync.rb:70-75 | a PUT to /api/v1/items/update is sent exactly when the inventory number is present |
| StockitItemSync.Move | app/services/stockit/item_sync.rb:77-82 | sent exactly when the inventory number is present and the package is a singleton |
| StockitItemSync.Dispatch | app/services/stockit/item_sync.rb:93-98 | sent exactly when the inventory number is present and the package is a singleton |
| StockitItemSync.Undispatch | app/services/stockit/item_sync.rb:100-105 | sent exactly when the inventory number is present and the package is a singleton |
| StockitItemSync.Delete | app/services/stockit/item_sync.rb:84-91 | sent exactly when the number is present and a package with it exists; it sends that package's Stockit id |
| StockitItemSync.DispatchReportsDispatchLocation | app/services/stockit/item_sync.rb:93-98 | a dispatch of a package already sent reports the dispatch location |
| StockitItemSync.SentItemParams | app/services/stockit/item_sync.rb:114-138 | every request with item parameters carries the received quantity, the prefixed number and the chosen location |
| StockitItemSync.SingletonRequestsFollowUpdate | app/services/stockit/item_sync.rb:63-105 | move, dispatch and undispatch are sent exactly when update is sent for a singleton; create and update have the same guard |
| Packages.Answer | app/models/package.rb:231 | no response when no request was sent |
| Packages.ErrorsOf | app/models/package.rb:326-330 | a response yields errors exactly when its "errors" entry is present |
| Packages.AssignedQuantityZero | app/models/package.rb:348-356 | the total is 0 when no orders_package is designated or dispatched |
| Packages.AssignedQuantityAppend | app/models/package.rb:348-356 | the total over two lists of orders_packages is the sum of their totals |
| Packages.AssignedQuantityNonNegative | app/models/package.rb:348-356 | the total of non-negative quantities is non-negative |
| Packages.StockitOrderId | app/models/package.rb:393-397 | the Stockit id of the first assigned orders_package's order (see `StockitOrderIdOfFirstAssigned`) |
| Packages.StockitOrderIdOfFirstAssigned | app/models/package.rb:393-397 | nil when no orders_package is designated or dispatched; otherwise the Stockit order id of the first one that is |
| Packages.GroupedNetIsNetPacked | app/models/package.rb:160-172 | the `group by` of the query has exactly one sum per package with pack/unpack rows from this container, and that sum is the package's net delta |
| Packages.NetPackedWithoutRows | app/models/package.rb:160-172 | a package without pack/unpack rows from the container has net delta 0 |
| Packages.AssociatedPackages | app/models/package.rb:160-172 | a stored package is returned exactly when it has pack/unpack rows from this container and their deltas sum to less than 0 |
| Packages.PackThenUnpackEmptiesBox | app/models/package.rb:160-172 | packing two units into a box makes the package associated; unpacking them again removes it |
| Packages.UpdateSetItemId | app/models/package.rb:332-341 | the row count is kept and only `set_item_id` changes; without an item nothing changes |
| Packages.InventorySetSizeOne | app/models/package.rb:358-360 | a set of size one has a single member |
| Packages.InventorySetSizeTwo | app/models/package.rb:358-360 | two distinct members make the size at least two |
| Packages.InventorySetSizePositive | app/models/package.rb:358-360 | a set with a member has size at least one |
| Packages.InventorySetSizeSameMembers | app/models/package.rb:358-360 | the size depends only on which rows are members |
| Packages.SetMembersAfterUpdate | app/models/package.rb:332-341 | for a set of size one its member's `set_item_id` is cleared; otherwise every member without one gets the item's id and the others keep theirs; every row outside the inventory set is left exactly as it was |
| Packages.UpdateSetItemIdIdempotent | app/models/package.rb:332-341 | relinking a second time changes nothing |
| Packages.StockitActorHooksExclusive | app/models/package.rb:182-204 | at most one of the two Stockit-actor hooks runs, and only for requests from Stockit |
| Packages.Package.constructor | app/models/package.rb:104-106 | a new package starts in `expecting`, with no inventory number, Stockit id, set, locations or errors |
| Packages.Package.ValidationErrors | app/models/package.rb:62-69 | each counter fails exactly when it is negative, the received quantity exactly when it is not positive, and the type exactly when it is missing; weight and pieces fail exactly when given and not positive, each dimension exactly when given and negative; there are no errors exactly when every rule holds |
| Packages.Package.AddErrors | app/models/package.rb:326-330 | the response's errors are appended to the package's errors |
| Packages.Package.AddToStockit | app/models/package.rb:228-237 | nothing is sent for boxes, pallets or an invalid detail; otherwise create is sent; errors are added, else a reported item id becomes the Stockit id |
| Packages.Package.RemoveFromStockit | app/models/package.rb:239-250 | nothing happens for a blank number; errors are added and the number kept; otherwise the number, Stockit id and set item id are cleared |
| Packages.Package.MarkReceivedEvent | app/models/package.rb:108-126 | from every state the package ends `received` with `received_at` set; create is sent only when Stockit is enabled; the item's set is relinked |
| Packages.Package.MarkMissingEvent | app/models/package.rb:108-134 | from every state the package ends `missing` with no locations, no `received_at`, no location and not published; it is removed from Stockit; the set is relinked |
| Packages.Package.AssignStockitDesignatedBy | app/models/package.rb:137-143 | the Stockit user when designated to an order, else nobody |
| Packages.Package.AssignStockitSentByAndDesignatedBy | app/models/package.rb:145-154 | the sent-by and designated-by users, following the three branches |
| Packages.Package.DispatchStockitItem | app/models/package.rb:293-301 | `stockit_sent_on` becomes today; the box and pallet are cleared; the dispatch request carries the package as it was but sent today, and reports the dispatch location; its errors are added |
| Packages.Package.UndispatchStockitItem | app/models/package.rb:303-310 | `stockit_sent_on` and `stockit_sent_by` are cleared, so are the box and pallet; the undispatch request carries the package as it was but not sent; its errors are added |
| Packages.Package.DesignateToStockitOrder | app/models/package.rb:267-274 | the order is set only if it exists; the designation date and user are set; the donor condition defaults to 3; the update request carries the package designated today; its errors are added |
| Packages.Package.UndesignateFromStockitOrder | app/models/package.rb:276-282 | the order and the designation are cleared; the update request carries the package without a designation date; its errors are added |
| Packages.Package.UpdateSetRelation | app/models/package.rb:284-289 | only a dispatched set member leaves its set, and the rest of the set is relinked; for a package without an item the call raises, with the attribute cleared and nothing relinked |
| Packages.Package.RemoveFromSet | app/models/package.rb:343-346 | the package leaves its set and the rest of the set is relinked; for a package without an item the relinking raises after the package has left its set |
| Packages.Package.SetPublished | app/models/package.rb:216-222 | publish and unpublish set the web-publish flag |
| Packages.Package.SetDefaultValues | app/models/package.rb:417-422 | an existing donor condition is kept, else the item's is used; the grade defaults to "B"; saleable is the offer's, else false |
| Packages.Package.TotalAssignedQuantity | app/models/package.rb:348-356 | the loop's sum is the total of the designated and dispatched quantities, and 0 when there are none |
| PackagesController.StripInsideLine | app/controllers/api/v1/packages_controller.rb:390 | inside a line the regular expression removes nothing |
| PackagesController.StripSingleLine | app/controllers/api/v1/packages_controller.rb:390 | on one line only a leading x or X is removed |
| PackagesController.RemoveStockitPrefix | app/controllers/api/v1/packages_controller.rb:389-391 | nil for a blank number; otherwise a string no longer than the input |
| PackagesController.RemoveStockitPrefixOfLine | app/controllers/api/v1/packages_controller.rb:389-391 | on a number without newlines exactly one leading x or X is removed |
| PackagesController.PrefixRoundTrip | app/controllers/api/v1/packages_controller.rb:389-391 | removing the prefix that `add_stockit_prefix` adds (item_sync.rb 109-112) gives back the number |
| PackagesController.StockitNumberRoundTrip | app/controllers/api/v1/packages_controller.rb:389-391 | a Stockit number with either case of x loses it, and prefixing again gives Stockit's own spelling |
| PackagesController.RemoveStockitPrefixOfGcNumber | app/controllers/api/v1/packages_controller.rb:389-391 | an all-digit GoodCity number passes through unchanged |
| PackagesController.PrintBarcode | app/controllers/api/v1/packages_controller.rb:180-218 | a label count outside 1..max is refused before any lookup; a missing package or printer is reported; a package without a number gets the next code; the label job gets the package, the printer and the count |
| PackagesController.Destroy | app/controllers/api/v1/packages_controller.rb:161-167 | the error is raised exactly when the package has an inventory row, and then nothing is deleted; otherwise exactly that package is gone |
| PackagesController.TryInventorize | app/controllers/api/v1/packages_controller.rb:470-475 | inventorization runs only for a present number on an uninventorized package; it raises for `location_id` when the package has none |
| PackagesController.AssignStorageType | app/controllers/api/v1/packages_controller.rb:513-518 | the requested type, "Package" when none is given; a name outside Box/Pallet/Package gives none |
| PackagesController.ReceivedQuantity | app/controllers/api/v1/packages_controller.rb:493-495 | `received_quantity`, else `quantity`, as an integer, 0 for neither |
| PackagesController.AddRemoveItem | app/controllers/api/v1/packages_controller.rb:310-311 | a zero quantity answers "no content" and packs nothing; any other quantity is packed or unpacked |
| PackagesController.Permit | app/controllers/api/v1/packages_controller.rb:393-409 | exactly the keys permitted as scalars survive, with their values; a scalar under `offer_ids`, `packages_locations_attributes` or `detail_attributes` is dropped |
| PackagesController.QuantityNotPermitted | app/controllers/api/v1/packages_controller.rb:393-409 | "quantity" is never among the permitted parameters |
| PackagesController.UpdateReceivedQuantityAsWritten | app/controllers/api/v1/packages_controller.rb:128 | line 128 as written: the `quantity` read from the permitted parameters, when positive, becomes the received quantity (`UpdateQuantityRuleIsDead` shows it never is) |
| PackagesController.UpdateQuantityRuleIsDead | app/controllers/api/v1/packages_controller.rb:128 | the quantity rule as written never changes the received quantity |
| PackagesController.UpdateReceivedQuantity | app/controllers/api/v1/packages_controller.rb:128 | a positive `quantity` becomes the received quantity; any other value leaves it alone |
| PackagesController.UpdateReceivedQuantityKeepsPositive | app/controllers/api/v1/packages_controller.rb:128 | the rule keeps a valid received quantity valid |
| PackagesController.WithoutQuantityIfAllAssigned | app/controllers/api/v1/packages_controller.rb:524-528 | "quantity" is removed exactly when it equals the total assigned quantity |
| PackagesController.DeleteQuantityOnPermittedIsNoOp | app/controllers/api/v1/packages_controller.rb:477-481 | applied to the permitted parameters, the removal never changes anything |
| PackagesController.ParamsHash.DeleteQuantityIfAllAssigned | app/controllers/api/v1/packages_controller.rb:524-528 | the hash is edited in place by that rule |
| Offers.StateName | app/models/offer.rb:59-63 | every state has a non-empty stored name |
| Offers.StateNameInjective | app/models/offer.rb:59-63 | distinct states have distinct names |
| Offers.NextIsTable | app/models/offer.rb:65-99 | a transition exists exactly when it is a row of the table, or a cancel that `can_cancel?` allows |
| Offers.FinalStatesOnlyCancel | app/models/offer.rb:69-99 | no event but cancel leaves a closed, received or cancelled offer |
| Offers.Minus | app/models/offer.rb:141-152 | `a - b` keeps exactly the elements of `a` not in `b` |
| Offers.DerivedStateLists | app/models/offer.rb:7 | active states are the valid ones except received, closed and cancelled (the inactive ones); non-draft states exclude draft; donor-valid states exclude cancelled |
| Offers.NoStateIsPseudo | app/models/offer.rb:40-46 | no state is named like a pseudo-state |
| Offers.Compact | app/models/offer.rb:41 | `compact` keeps exactly the non-nil names |
| Offers.Delete | app/models/offer.rb:42-45 | `delete` removes every occurrence |
| Offers.Expand | app/models/offer.rb:42-45 | a pseudo-state that was present is replaced by its expansion |
| Offers.InStatesSelects | app/models/offer.rb:40-47 | a state is selected exactly when it is named, or a pseudo-state whose expansion contains it is named |
| Offers.InStatesHasNoPseudo | app/models/offer.rb:40-47 | no pseudo-state is left and no name is listed twice |
| Offers.ExpandState | app/models/offer.rb:42-45 | one expansion step, seen from a real state |
| Offers.ExpandPseudo | app/models/offer.rb:42-45 | one expansion step only ever removes a pseudo-state |
| Offers.CancelMessage | app/models/offer.rb:228-232 | the English text, "<br/>", then the Chinese text |
| Offers.Offer.constructor | app/models/offer.rb:55-57 | a new offer starts in `draft` with no timestamps |
| Offers.Offer.Fire | app/models/offer.rb:65-123 | an event fires exactly when the table allows it; a fired event moves the state and sets only its own timestamps and `closed_by`; a refused event changes nothing |
| Offers.Offer.SetLanguage | app/models/offer.rb:235-237 | an existing language is kept, else the locale is used |
| OfferFiltering.Last6pmBounds | app/models/concerns/offer_filtering.rb:44-49 | the result is not after now, less than 24 hours before it, and at 18:00 local time |
| OfferFiltering.Last6pmIsLatest | app/models/concerns/offer_filtering.rb:44-49 | no later local 18:00 is at or before now |
| OfferFiltering.SixPmSpacing | app/models/concerns/offer_filtering.rb:44-49 | two 18:00 instants lie whole days apart |
| OfferFiltering.Where | app/models/concerns/offer_filtering.rb:14-18 | `where` keeps exactly the rows that satisfy the condition |
| OfferFiltering.FilterSelects | app/models/concerns/offer_filtering.rb:12-41 | a row is kept exactly when it satisfies each condition whose option is given: the state list when non-empty, priority, own reviews, and inclusive due bounds |
| OfferFiltering.FilterDistinct | app/models/concerns/offer_filtering.rb:19 | the result lists no joined row twice |
| Versions.ToS | app/models/version.rb:87-89 | the string starts with "id:" and ends with a space and the event |
| Versions.ToSShowsId | app/models/version.rb:87-89 | `to_i` after the "id:" label reads back the id |
| Versions.IsItemOrCallLog | app/models/version.rb:114-117 | a version of an Item or Package, or a call event (see `OfferOf`, whose result is nil exactly outside these) |
| Versions.RelatedIdOrItemId | app/models/version.rb:91-93 | `related_id` when it is non-nil, else `item_id` |
| Versions.OfferOf | app/models/version.rb:108-117 | nil unless the version is an item or call log; for an offer item, the item only for call events; for any other item or call log, the related offer when `related_type` is "Offer" and nil otherwise |
| UserSafeDelete.CanDelete | lib/goodcity/user_safe_delete.rb:43-58 | the result is true exactly when there are no active offers, orders or roles; each reason is reported exactly when it is the first obstacle in that order |
| UserSafeDelete.DeleteOutcomeAsWritten | lib/goodcity/user_safe_delete.rb:60-72 | as written, `can_delete`'s hash never stops the deletion: a missing user is reported, and an existing one is deleted exactly when the image is found |
| UserSafeDelete.AsWrittenIgnoresCheck | lib/goodcity/user_safe_delete.rb:63 | a user with an active offer is refused by `can_delete` and yet deleted |
| UserSafeDelete.AsWrittenNeedsImage | lib/goodcity/user_safe_delete.rb:84-86 | a user that may be deleted but has no image is never deleted |
| UserSafeDelete.IntendedDeleteOutcome | lib/goodcity/user_safe_delete.rb:60-72 | deletion happens exactly when the user exists and `can_delete` allows it; a refusal carries its reason |
| UserSafeDelete.RedactEntries | lib/goodcity/user_safe_delete.rb:100 | `map!` keeps the length of the array |
| UserSafeDelete.ApplyScrubsOnce | lib/goodcity/user_safe_delete.rb:96-110 | each rule leaves only blanks and its replacement text, and applying it again changes nothing |
| UserSafeDelete.UpdateKey | lib/goodcity/user_safe_delete.rb:96-110 | only the named key of the hash is rewritten; a hash without it, or no hash, is unchanged |
| UserSafeDelete.UpdateKeyScrubsOnce | lib/goodcity/user_safe_delete.rb:96-110 | the rewritten key is scrubbed, and a second rewrite changes nothing |
| UserSafeDelete.Redact | lib/goodcity/user_safe_delete.rb:95-112 | the rewrite of a message or contact version touches only `object` and `object_changes` |
| UserSafeDelete.RedactScrubsOnce | lib/goodcity/user_safe_delete.rb:95-156 | after the rewrite no message body, lookup or contact name text survives; rewriting again changes nothing |
| UserSafeDelete.RedactVersionsKeepsKeys | lib/goodcity/user_safe_delete.rb:95-112 | rewriting versions never changes which record, offer or author a version refers to |
| UserSafeDelete.RedactVersionsCompose | lib/goodcity/user_safe_delete.rb:93-156 | rewriting for one group of records, then another, is rewriting for both, whatever order the rows come in |
| UserSafeDelete.DeletedUser | lib/goodcity/user_safe_delete.rb:76-87 | the profile has no title, contact details or image; its names are "Deleted User"; it is disabled and unverified |
| UserSafeDelete.PublicMessageIdsMembers | lib/goodcity/user_safe_delete.rb:93 | exactly the ids of the user's non-private messages |
| UserSafeDelete.UserOfferImagesMembers | lib/goodcity/user_safe_delete.rb:124-132 | exactly the images with a version by the user that is related to one of their offers |
| UserSafeDelete.UserOfferImagesByKeys | lib/goodcity/user_safe_delete.rb:124-132 | which images go depends only on the versions' identity columns |
| UserSafeDelete.UserContactIdsMembers | lib/goodcity/user_safe_delete.rb:142-143 | exactly the existing contacts of deliveries on the user's offers |
| UserSafeDelete.RenameContactsCompose | lib/goodcity/user_safe_delete.rb:144 | renaming contacts twice is renaming them once |
| UserSafeDelete.Without | lib/goodcity/user_safe_delete.rb:165-168 | `destroy_all` removes exactly the user's rows |
| UserSafeDelete.ErasedForgetsUser | lib/goodcity/user_safe_delete.rb:60-169 | after the erasure the user's profile holds no personal data and other users are untouched; their public messages and those messages' versions hold no text; their memberships are expired; tokens, printers, favourites and roles are gone; offers, orders and deliveries stay |
| UserSafeDelete.Store.DeleteUserData | lib/goodcity/user_safe_delete.rb:76-87 | the profile is overwritten and the image destroyed |
| UserSafeDelete.Store.RedactVersionRows | lib/goodcity/user_safe_delete.rb:95-112 | the loop rewrites exactly the versions of one record |
| UserSafeDelete.Store.DeleteMessage | lib/goodcity/user_safe_delete.rb:94-112 | the message's body becomes "<message deleted>" and exactly its versions are rewritten |
| UserSafeDelete.Store.DeleteMessages | lib/goodcity/user_safe_delete.rb:89-114 | the user's public messages lose their body and exactly their versions are rewritten |
| UserSafeDelete.Store.DeleteOrganisationsUsers | lib/goodcity/user_safe_delete.rb:116-122 | the user's memberships become expired with no position or preferred number |
| UserSafeDelete.Store.DeleteImages | lib/goodcity/user_safe_delete.rb:124-132 | the images the user put on their own offers are destroyed |
| UserSafeDelete.Store.DeleteContact | lib/goodcity/user_safe_delete.rb:144-156 | the contact becomes "Deleted contact" with no mobile, and exactly its versions are rewritten |
| UserSafeDelete.Store.DeleteContacts | lib/goodcity/user_safe_delete.rb:134-158 | the contacts of the user's deliveries become "Deleted contact" with no mobile, and exactly their versions are rewritten |
| UserSafeDelete.Store.DeleteAssociations | lib/goodcity/user_safe_delete.rb:160-169 | the user's auth tokens, printer links, favourites and roles are removed |
| UserSafeDelete.Store.DeleteProfileAndMessages | lib/goodcity/user_safe_delete.rb:64-67 | the first four steps in order |
| UserSafeDelete.Store.DeleteUserDataAndMessages | lib/goodcity/user_safe_delete.rb:64-65 | the first two steps change the profile, its image, and the public messages with their versions, and nothing else |
| UserSafeDelete.Store.DeleteMembershipsAndImages | lib/goodcity/user_safe_delete.rb:66-67 | the third and fourth steps change the memberships and the offer images, and nothing else; the images are found through the versions as they are after the message step |
| UserSafeDelete.Store.DeleteContactsAndAssociations | lib/goodcity/user_safe_delete.rb:68-69 | the last two steps change the delivery contacts with their versions and the four association tables, and nothing else |
| UserSafeDelete.Store.Erase | lib/goodcity/user_safe_delete.rb:64-69 | the six steps in order give the erasure `Erased` describes |
| UserSafeDelete.Store.DeleteBang | lib/goodcity/user_safe_delete.rb:60-72 | as written: a missing user or a missing image leaves everything as it was; otherwise the user is erased whatever `can_delete` says |
| UserSafeDelete.Store.SafeDelete | lib/goodcity/user_safe_delete.rb:60-72 | as intended: the user is erased exactly when they exist and `can_delete` allows it; otherwise nothing changes |
| SubscriptionsReminder.CandidateIdsMembers | app/services/subscriptions_reminder.rb:22-33 | exactly the ids of users meeting every condition |
| SubscriptionsReminder.CandidatesAreMatchingUsers | app/services/subscriptions_reminder.rb:22-35 | a user is a candidate exactly when they have an offer in an active state, were last reminded before the cutoff, and have an unread message newer than that reminder; the message is about an offer or item, on an offer they created, from somebody else, and not about an order; each candidate is listed once |
| SubscriptionsReminder.StampAppend | app/services/subscriptions_reminder.rb:4-5 | stamping one more user extends the stamped list |
| SubscriptionsReminder.StampsExactlyCandidates | app/services/subscriptions_reminder.rb:3-8 | every candidate is stamped with the time, and no one else changes |
| SubscriptionsReminder.NoSecondReminder | app/services/subscriptions_reminder.rb:3-35 | after a pass, a second pass with the same cutoff reminds nobody |
| SubscriptionsReminder.Reminders.Generate | app/services/subscriptions_reminder.rb:3-8 | the candidates, chosen once, are stamped in turn and returned as the users sent an SMS |
| Ruby.DigitChar | app/models/version.rb:88 | a digit's character has that value |
| Ruby.SkipSpacesSkips | app/controllers/api/v1/packages_controller.rb:494 | `to_i` skips exactly the leading white space |
| Ruby.LeadingDigitsIsLongest | app/controllers/api/v1/packages_controller.rb:494 | the numeral `to_i` reads (after the sign and any `0d` prefix, see `ToIDecimalPrefixExamples`) is the longest one at the front: digits with single underscores between them; its digits are taken, and reading stops where the rest cannot continue it |
| Ruby.ToIExamples | app/controllers/api/v1/packages_controller.rb:494 | `"1_000".to_i` is 1000 and `" -1_0x".to_i` is -10, while a doubled, trailing or leading underscore ends the number |
| Ruby.ToIDecimalPrefixExamples | app/controllers/api/v1/packages_controller.rb:494 | `"0d12".to_i` is 12 and `"-0D7".to_i` is -7; a `0d` before a non-digit reads as 0 |
| Ruby.NatToString | app/models/version.rb:88 | decimal digits, at least one |
| Ruby.NatToStringValue | app/models/version.rb:88 | the digits read back as the number |
| Ruby.ToIOfIntToString | app/models/version.rb:88 | `to_i` of an interpolated integer is the integer when the text after it cannot continue the numeral and, after a 0, does not make a `0d` prefix |
| Ruby.Uniq | app/models/offer.rb:46 | `uniq` leaves no element twice, keeps every element and adds none |
| Ruby.UniqMembers | app/models/offer.rb:46 | `uniq` keeps the same elements |
| Ruby.UniqOfDistinct | app/models/concerns/offer_filtering.rb:19 | `uniq` of a list without repeats is the list |

## Left out

- The quantity and ledger engine: `Package::Operations`, `PackagesInventory::Computer`, the location, designation and stock operations, and `PackageSplitter`. They are called, not defined. Their answers are parameters, such as `uninventorized` and `totalAssigned`.
- Stockit HTTP transport and the background jobs (Stockit update/delete jobs, `PrintLabelJob`). A request is a value, and the reply is a parameter.
- Rendering, I18n and notifications. The effects after an offer transition (offer.rb 125-137) are not modelled: thank-you and alert messages, gogovan order cancellation. So is the SMS that `send_sms_reminder` sends. `cancel_message` takes the two translated texts as parameters.
- Persistence: `save` and `update` are assumed to succeed. Validation on save does not clear `errors`.
- PaperTrail history of the deletion: the `update` calls in user_safe_delete.rb (lines 85, 94, 144) write new version rows in the source, and the message and contact ones are then caught by the version loops (95, 145). The model's `versions` table never grows; only the existing rows are rewritten.
- How `StateMachineScope` defines `in_states` is not part of this model. `[states].flatten` is modelled for a flat list of optional names only.
- `options[:state_names]` being nil (which raises in `filter`) is not modelled. Each `present?` option is a flag or an optional time.
- OfferFiltering.FilterDistinct: `distinct` is taken over whole joined rows, which carry the schedule's time. It equals SQL's `distinct` over offers only while each offer has at most one schedule.
- Time zones: time is integer seconds, and the zone is a fixed offset. Daylight saving is not modelled in `last_6pm`.
- SubscriptionsReminder.Reminders.Generate: every user is stamped with one `now`. The source reads the clock on each iteration, so its stamps differ by the time the loop takes.
- Versions.OfferOf: it gives the id of the offer row that `item` or `related` would load. Whether that row still exists is not modelled.
- The SQL scopes of `Version` are not modelled. Note that two of them (lines 40 and 60) spell the event 'call_Accepted', while `item_or_call_log?` (line 116) uses 'call_accepted'.
- The comment above `user_candidates_for_reminder` (subscriptions_reminder.rb line 17) says private messages are excluded. The query never tests `is_private`, and the model follows the query.
- Request parameters are scalars (`ParamValue`). Arrays and nested hashes, and so the nested attributes `package_params` permits, are not modelled.
- The header comment of user_safe_delete.rb (lines 15-17) says addresses and the version records of deleted rows go too. The code deletes neither, and the model follows the code.
- The text value of `OrganisationsUser::Status::EXPIRED` is not in the files. It is the constructor `Expired`.
- Soft deletion: `Image.unscoped` and `really_destroy!` are modelled on one set of image ids. The default scope that `Image.find` applies is not modelled.
- Package detail validity (`detail.valid?`) is an input (`detailValid`). Package types and the donor condition mapping appear only as ids.
- `update_all` on an item's packages is modelled as a function returning the new rows, not as an update of other records.
- The mass assignment in the controller's `create` and `update` (`assign_attributes`, detail building) is not modelled. Only their quantity rules are.

## Findings

| source | as written | input that shows it | evidently intended | confidence | as-written member | corrected member |
|---|---|---|---|---|---|---|
| app/controllers/api/v1/packages_controller.rb:128 | reads `package_params[:quantity]`, but `package_params` (393-409) does not permit `quantity`, so the rule never fires | an update with `package: {quantity: 5}` on a package received as 1 leaves the received quantity at 1 | a positive `quantity` parameter becomes the received quantity | not executed | PackagesController.UpdateReceivedQuantityAsWritten | PackagesController.UpdateReceivedQuantity |
| lib/goodcity/user_safe_delete.rb:63 | `if can_delete` tests a hash, which is always truthy, so the eligibility result is ignored | a user with a submitted offer: `can_delete` answers `{result: false, ...}` and the user is deleted all the same | `if can_delete[:result]` | not executed | UserSafeDelete.AsWrittenIgnoresCheck | UserSafeDelete.IntendedDeleteOutcome |
| lib/goodcity/user_safe_delete.rb:86 | `Image.find(image_id)` raises for a nil id, so the `&.` never helps and the transaction rolls back | a user with no image and no offers, orders or roles is never deleted | `Image.find_by(id: image_id)&.really_destroy!` | not executed | UserSafeDelete.AsWrittenNeedsImage | UserSafeDelete.Store.SafeDelete |
