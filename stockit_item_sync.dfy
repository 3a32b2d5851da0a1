/**
 * The requests the package mirror sends to the Stockit inventory system:
 * when each request may be sent, the item parameters it carries, the
 * "X" inventory-number prefix and the Stockit location chosen for a
 * package. HTTP transport is not modelled: a request is a value, and
 * `None` stands for the `nil` a guarded call returns without sending.
 */
module StockitItemSync {
  import opened Wrappers
  import Ruby

  /** A GoodCity location and the id Stockit knows it by. */
  datatype LocationRef = LocationRef(id: int, stockitId: Option<int>)

  /** `Location.dispatch_location` and `Location.multiple_location`. */
  datatype SpecialLocations = SpecialLocations(dispatch: LocationRef, multiple: Option<LocationRef>)

  /** What the mirror reads of a package. */
  datatype SyncPackage = SyncPackage(
    inventoryNumber: Option<string>,
    receivedQuantity: int,
    codeId: Option<int>,                   // package_type.try(:stockit_id)
    caseNumber: Option<string>,
    condition: Option<string>,             // the donor condition as Stockit names it
    grade: Option<string>,
    notes: Option<string>,
    stockitId: Option<int>,
    pieces: Option<int>,
    designationId: Option<int>,            // stockit_order_id
    designatedOn: Option<int>,
    stockitSentOn: Option<int>,
    ordersPackageStates: seq<string>,      // states of the package's orders_packages
    locations: seq<LocationRef>,           // the package's locations, one per packages_location
    locationIdLocation: Option<LocationRef>, // Location.find_by(id: package.location_id)
    length: Option<int>,
    width: Option<int>,
    height: Option<int>,
    weight: Option<int>)

  /** The package row `Package.find_by(inventory_number: ...)` returns. */
  datatype StoredPackage = StoredPackage(stockitId: Option<int>)

  datatype ItemParams = ItemParams(
    quantity: int,
    codeId: Option<int>,
    inventoryNumber: Option<string>,
    caseNumber: Option<string>,
    condition: Option<string>,
    grade: Option<string>,
    description: Option<string>,
    locationId: Option<int>,
    id: Option<int>,
    pieces: Option<int>,
    designationId: Option<int>,
    designatedOn: Option<int>)

  datatype PackageParams = PackageParams(
    length: Option<int>,
    width: Option<int>,
    height: Option<int>,
    weight: Option<int>,
    description: Option<string>)

  datatype Payload =
    | StockitParams(item: ItemParams, package: PackageParams)
    | DestroyParams(id: Option<int>)

  datatype Verb = Post | Put

  datatype Request = Request(verb: Verb, path: string, payload: Payload)

  /** `singleton_package?`: a package of exactly one unit. */
  predicate Singleton(p: SyncPackage) {
    p.receivedQuantity == 1
  }

  /** The prefix Stockit puts before numeric inventory numbers. */
  const StockitPrefix: string := "X"

  /** `add_stockit_prefix`: "X" before a number that starts with a digit. */
  function AddStockitPrefix(n: Option<string>): (r: Option<string>)
    ensures n.None? ==> r.None?
    ensures n.Some? && |n.value| > 0 && Ruby.IsDigit(n.value[0]) ==> r == Some(StockitPrefix + n.value)
    ensures n.Some? && !(|n.value| > 0 && Ruby.IsDigit(n.value[0])) ==> r == n
  {
    match n
    case None => None
    case Some(s) => if |s| > 0 && Ruby.IsDigit(s[0]) then Some(StockitPrefix + s) else n
  }

  /** Prefixing twice is prefixing once: "X" is not a digit. */
  lemma AddStockitPrefixIdempotent(n: Option<string>)
    ensures AddStockitPrefix(AddStockitPrefix(n)) == AddStockitPrefix(n)
  {
    if n.Some? && |n.value| > 0 && Ruby.IsDigit(n.value[0]) {
      assert (StockitPrefix + n.value)[0] == 'X';
    }
  }

  /** Whether the package is reported at Stockit's "Dispatched" location. */
  predicate ReportedDispatched(p: SyncPackage) {
    p.stockitSentOn.Some? || exists i :: 0 <= i < |p.ordersPackageStates| && p.ordersPackageStates[i] == "dispatched"
  }

  /**
   * `stockit_location_id`: the dispatch location for a sent package or one
   * with a dispatched orders_package; else the "multiple" location when the
   * package is in more than one place; else the first location, falling
   * back to the location of `location_id`.
   */
  function StockitLocationId(p: SyncPackage, special: SpecialLocations): Option<int> {
    if ReportedDispatched(p) then special.dispatch.stockitId
    else if |p.locations| > 1 then
      (if special.multiple.Some? then special.multiple.value.stockitId else None)
    else if |p.locations| > 0 && p.locations[0].stockitId.Some? then p.locations[0].stockitId
    else if p.locationIdLocation.Some? then p.locationIdLocation.value.stockitId
    else None
  }

  /** The location choice, clause by clause in its priority order. */
  lemma StockitLocationPriority(p: SyncPackage, special: SpecialLocations)
    ensures ReportedDispatched(p) ==> StockitLocationId(p, special) == special.dispatch.stockitId
    ensures !ReportedDispatched(p) && |p.locations| > 1 ==>
      StockitLocationId(p, special) == (if special.multiple.Some? then special.multiple.value.stockitId else None)
    ensures !ReportedDispatched(p) && |p.locations| <= 1 ==>
      StockitLocationId(p, special) ==
        (if |p.locations| == 1 && p.locations[0].stockitId.Some? then p.locations[0].stockitId
         else if p.locationIdLocation.Some? then p.locationIdLocation.value.stockitId
         else None)
  {
  }

  /**
   * A package that is not dispatched and is in at most one place is
   * reported at a location it is actually recorded at, never at one of
   * the two pseudo-locations.
   */
  lemma {:induction false} UndispatchedSingleLocationIsReal(p: SyncPackage, special: SpecialLocations)
    requires !ReportedDispatched(p) && |p.locations| <= 1
    requires StockitLocationId(p, special).Some?
    ensures exists l :: (l in p.locations || Some(l) == p.locationIdLocation) && l.stockitId == StockitLocationId(p, special)
  {
    if |p.locations| == 1 && p.locations[0].stockitId.Some? {
      assert p.locations[0] in p.locations;
    } else {
      assert p.locationIdLocation.Some?;
      var l := p.locationIdLocation.value;
      assert Some(l) == p.locationIdLocation && l.stockitId == StockitLocationId(p, special);
    }
  }

  /** `item_params`. */
  function ItemParamsOf(p: SyncPackage, special: SpecialLocations): (r: ItemParams)
    ensures r.quantity == p.receivedQuantity
    ensures r.caseNumber == (if Ruby.IsPresent(p.caseNumber) then p.caseNumber else None)
    ensures r.inventoryNumber == AddStockitPrefix(p.inventoryNumber)
    ensures r.locationId == StockitLocationId(p, special)
    ensures r.id == p.stockitId && r.description == p.notes
  {
    ItemParams(
      p.receivedQuantity, p.codeId, AddStockitPrefix(p.inventoryNumber),
      if p.caseNumber.None? || Ruby.IsBlank(p.caseNumber.value) then None else p.caseNumber,
      p.condition, p.grade, p.notes, StockitLocationId(p, special), p.stockitId, p.pieces,
      p.designationId, p.designatedOn)
  }

  /** `package_params`. */
  function PackageParamsOf(p: SyncPackage): PackageParams {
    PackageParams(p.length, p.width, p.height, p.weight, p.notes)
  }

  /** `stockit_params`. */
  function StockitParamsOf(p: SyncPackage, special: SpecialLocations): Payload {
    StockitParams(ItemParamsOf(p, special), PackageParamsOf(p))
  }

  /** `create`: sent only for a package with an inventory number. */
  function Create(p: SyncPackage, special: SpecialLocations): (r: Option<Request>)
    ensures r.Some? <==> Ruby.IsPresent(p.inventoryNumber)
    ensures r.Some? ==> r.value.verb == Post && r.value.path == "/api/v1/items"
    ensures r.Some? ==> r.value.payload.StockitParams? && r.value.payload.item.quantity == p.receivedQuantity
  {
    if Ruby.IsPresent(p.inventoryNumber) then Some(Request(Post, "/api/v1/items", StockitParamsOf(p, special)))
    else None
  }

  /** `update`: sent only for a package with an inventory number. */
  function Update(p: SyncPackage, special: SpecialLocations): (r: Option<Request>)
    ensures r.Some? <==> Ruby.IsPresent(p.inventoryNumber)
    ensures r.Some? ==> r.value.verb == Put && r.value.path == "/api/v1/items/update"
  {
    if Ruby.IsPresent(p.inventoryNumber) then Some(Request(Put, "/api/v1/items/update", StockitParamsOf(p, special)))
    else None
  }

  /** `move`: also requires a singleton package. */
  function Move(p: SyncPackage, special: SpecialLocations): (r: Option<Request>)
    ensures r.Some? <==> Ruby.IsPresent(p.inventoryNumber) && Singleton(p)
    ensures r.Some? ==> r.value.verb == Put && r.value.path == "/api/v1/items/move"
  {
    if Ruby.IsPresent(p.inventoryNumber) && Singleton(p) then
      Some(Request(Put, "/api/v1/items/move", StockitParamsOf(p, special)))
    else None
  }

  /** `dispatch`: also requires a singleton package. */
  function Dispatch(p: SyncPackage, special: SpecialLocations): (r: Option<Request>)
    ensures r.Some? <==> Ruby.IsPresent(p.inventoryNumber) && Singleton(p)
    ensures r.Some? ==> r.value.verb == Put && r.value.path == "/api/v1/items/dispatch"
  {
    if Ruby.IsPresent(p.inventoryNumber) && Singleton(p) then
      Some(Request(Put, "/api/v1/items/dispatch", StockitParamsOf(p, special)))
    else None
  }

  /** `undispatch`: also requires a singleton package. */
  function Undispatch(p: SyncPackage, special: SpecialLocations): (r: Option<Request>)
    ensures r.Some? <==> Ruby.IsPresent(p.inventoryNumber) && Singleton(p)
    ensures r.Some? ==> r.value.verb == Put && r.value.path == "/api/v1/items/undispatch"
  {
    if Ruby.IsPresent(p.inventoryNumber) && Singleton(p) then
      Some(Request(Put, "/api/v1/items/undispatch", StockitParamsOf(p, special)))
    else None
  }

  /**
   * `delete`: given an inventory number, not a package; `existing` is what
   * `Package.find_by(inventory_number: ...)` returns. It sends the stored
   * package's Stockit id.
   */
  function Delete(inventoryNumber: Option<string>, existing: Option<StoredPackage>): (r: Option<Request>)
    ensures r.Some? <==> Ruby.IsPresent(inventoryNumber) && existing.Some?
    ensures r.Some? ==> r.value == Request(Put, "/api/v1/items/destroy", DestroyParams(existing.value.stockitId))
  {
    if Ruby.IsPresent(inventoryNumber) && existing.Some? then
      Some(Request(Put, "/api/v1/items/destroy", DestroyParams(existing.value.stockitId)))
    else None
  }

  /** A package already sent is reported at the dispatch location. */
  lemma DispatchReportsDispatchLocation(p: SyncPackage, special: SpecialLocations)
    requires p.stockitSentOn.Some?
    ensures Dispatch(p, special).Some? ==> Dispatch(p, special).value.payload.item.locationId == special.dispatch.stockitId
  {
  }

  /**
   * Every request that carries item parameters reports the package's
   * received quantity and its inventory number with the Stockit prefix.
   */
  lemma SentItemParams(p: SyncPackage, special: SpecialLocations, r: Request)
    requires Some(r) in {Create(p, special), Update(p, special), Move(p, special), Dispatch(p, special), Undispatch(p, special)}
    ensures r.payload.StockitParams?
    ensures r.payload.item.quantity == p.receivedQuantity
    ensures r.payload.item.inventoryNumber == AddStockitPrefix(p.inventoryNumber)
    ensures r.payload.item.locationId == StockitLocationId(p, special)
  {
  }

  /** The three singleton-only requests are sent exactly when `update` is sent for a singleton. */
  lemma SingletonRequestsFollowUpdate(p: SyncPackage, special: SpecialLocations)
    ensures Move(p, special).Some? <==> Update(p, special).Some? && Singleton(p)
    ensures Dispatch(p, special).Some? <==> Move(p, special).Some?
    ensures Undispatch(p, special).Some? <==> Move(p, special).Some?
    ensures Update(p, special).Some? <==> Create(p, special).Some?
  {
  }
}
