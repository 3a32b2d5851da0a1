/**
 * The package record: its expecting/missing/received state machine and
 * the hooks that run on each transition, the Stockit mirror bookkeeping
 * (a Stockit reply is passed in as a value), dispatch and designation
 * bookkeeping, the set-item relinking rule over the item's package rows,
 * the containment query over the packages_inventories ledger, the
 * assigned-quantity total and the record's validity rules.
 *
 * The quantity engine that computes the four counters is not part of
 * this model; the counters are fields that only it changes.
 */
module Packages {
  import opened Wrappers
  import Ruby
  import Sync = StockitItemSync

  datatype PackageState = Expecting | Missing | Received

  /** A reply of the Stockit service: its "errors" hash and its "item_id". */
  datatype StockitReply = StockitReply(errors: seq<(string, string)>, itemId: Option<int>)

  /** What an `ItemSync` call returns: `nil` when nothing was sent. */
  type Response = Option<StockitReply>

  /** The response to `request`, given what Stockit would reply to it. */
  function Answer(request: Option<Sync.Request>, reply: Response): (r: Response)
    ensures request.None? ==> r.None?
  {
    if request.Some? then reply else None
  }

  /** `response && response["errors"].present?` */
  predicate HasErrors(r: Response) {
    r.Some? && |r.value.errors| > 0
  }

  /** The (attribute, message) pairs `add_errors` records from a response. */
  function ErrorsOf(r: Response): (es: seq<(string, string)>)
    ensures HasErrors(r) <==> |es| > 0
  {
    if HasErrors(r) then r.value.errors else []
  }

  /** The Stockit item id a successful create reports, if any. */
  function CreatedItemId(r: Response): Option<int> {
    if r.Some? && !HasErrors(r) then r.value.itemId else None
  }

  datatype PackagesLocation = PackagesLocation(location: Sync.LocationRef, quantity: int)

  datatype OrdersPackage = OrdersPackage(orderId: int, orderStockitId: Option<int>, state: string, quantity: int)

  /** An orders_package that `get_designated_and_dispatched_packages` returns. */
  predicate IsAssigned(op: OrdersPackage) {
    op.state == "designated" || op.state == "dispatched"
  }

  /** The sum of the quantities of the designated and dispatched orders_packages. */
  function AssignedQuantity(ops: seq<OrdersPackage>): int {
    if |ops| == 0 then 0
    else AssignedQuantity(ops[..|ops| - 1]) + (if IsAssigned(ops[|ops| - 1]) then ops[|ops| - 1].quantity else 0)
  }

  lemma {:induction false} AssignedQuantityZero(ops: seq<OrdersPackage>)
    requires forall i :: 0 <= i < |ops| ==> !IsAssigned(ops[i])
    ensures AssignedQuantity(ops) == 0
  {
    if |ops| > 0 {
      AssignedQuantityZero(ops[..|ops| - 1]);
    }
  }

  lemma {:induction false} AssignedQuantityAppend(a: seq<OrdersPackage>, b: seq<OrdersPackage>)
    ensures AssignedQuantity(a + b) == AssignedQuantity(a) + AssignedQuantity(b)
  {
    if |b| > 0 {
      var init := b[..|b| - 1];
      assert (a + b)[..|a + b| - 1] == a + init;
      assert (a + b)[|a + b| - 1] == b[|b| - 1];
      AssignedQuantityAppend(a, init);
    } else {
      assert a + b == a;
    }
  }

  lemma {:induction false} AssignedQuantityNonNegative(ops: seq<OrdersPackage>)
    requires forall i :: 0 <= i < |ops| ==> ops[i].quantity >= 0
    ensures AssignedQuantity(ops) >= 0
  {
    if |ops| > 0 {
      AssignedQuantityNonNegative(ops[..|ops| - 1]);
    }
  }

  /** `stockit_order_id`: the Stockit id of the first assigned orders_package's order. */
  function StockitOrderId(ops: seq<OrdersPackage>): Option<int> {
    if |ops| == 0 then None
    else if IsAssigned(ops[0]) then ops[0].orderStockitId
    else StockitOrderId(ops[1..])
  }

  /**
   * The Stockit order id is that of the first designated or dispatched
   * orders_package, and nil when there is none.
   */
  lemma {:induction false} StockitOrderIdOfFirstAssigned(ops: seq<OrdersPackage>)
    ensures (forall i :: 0 <= i < |ops| ==> !IsAssigned(ops[i])) ==> StockitOrderId(ops).None?
    ensures forall k :: 0 <= k < |ops| && IsAssigned(ops[k]) && (forall j :: 0 <= j < k ==> !IsAssigned(ops[j])) ==>
      StockitOrderId(ops) == ops[k].orderStockitId
  {
    if |ops| > 0 {
      var rest := ops[1..];
      StockitOrderIdOfFirstAssigned(rest);
      assert forall i :: 0 <= i < |rest| ==> rest[i] == ops[i + 1];
      if !IsAssigned(ops[0]) {
        forall k | 0 <= k < |ops| && IsAssigned(ops[k]) && (forall j :: 0 <= j < k ==> !IsAssigned(ops[j]))
          ensures StockitOrderId(ops) == ops[k].orderStockitId
        {
          assert k > 0 && rest[k - 1] == ops[k];
          assert forall j :: 0 <= j < k - 1 ==> !IsAssigned(rest[j]);
        }
      }
    }
  }

  // ---------------------------------------------------------------------
  // The packages_inventories ledger and the containment query
  // ---------------------------------------------------------------------

  /** One packages_inventories row. */
  datatype LedgerEntry = LedgerEntry(
    packageId: int, sourceType: Option<string>, sourceId: Option<int>, action: string, quantity: int)

  /** A pack or unpack row whose source is the package `container`. */
  predicate IsPackingOf(e: LedgerEntry, container: int) {
    e.sourceType == Some("Package") && e.sourceId == Some(container) && (e.action == "pack" || e.action == "unpack")
  }

  /** The rows of `pkg` packed into or unpacked from `container`. */
  predicate HasPackingRow(ledger: seq<LedgerEntry>, container: int, pkg: int) {
    exists i :: 0 <= i < |ledger| && IsPackingOf(ledger[i], container) && ledger[i].packageId == pkg
  }

  /** The sum of the pack/unpack deltas of `pkg` with `container` as source. */
  function NetPacked(ledger: seq<LedgerEntry>, container: int, pkg: int): int {
    if |ledger| == 0 then 0
    else
      var e := ledger[|ledger| - 1];
      NetPacked(ledger[..|ledger| - 1], container, pkg)
      + (if IsPackingOf(e, container) && e.packageId == pkg then e.quantity else 0)
  }

  /** The `group by package_id` of the query: one running sum per package. */
  function GroupedNet(ledger: seq<LedgerEntry>, container: int): map<int, int> {
    if |ledger| == 0 then map[]
    else
      var m := GroupedNet(ledger[..|ledger| - 1], container);
      var e := ledger[|ledger| - 1];
      if IsPackingOf(e, container) then
        m[e.packageId := (if e.packageId in m then m[e.packageId] else 0) + e.quantity]
      else m
  }

  /** The grouped sums are exactly the per-package pack/unpack totals. */
  lemma {:induction false} GroupedNetIsNetPacked(ledger: seq<LedgerEntry>, container: int)
    ensures forall p :: p in GroupedNet(ledger, container) <==> HasPackingRow(ledger, container, p)
    ensures forall p :: p in GroupedNet(ledger, container) ==> GroupedNet(ledger, container)[p] == NetPacked(ledger, container, p)
  {
    if |ledger| > 0 {
      var init := ledger[..|ledger| - 1];
      GroupedNetIsNetPacked(init, container);
      forall p ensures HasPackingRow(ledger, container, p) <==>
        (HasPackingRow(init, container, p) || (IsPackingOf(ledger[|ledger| - 1], container) && ledger[|ledger| - 1].packageId == p))
      {
        if HasPackingRow(init, container, p) {
          var i :| 0 <= i < |init| && IsPackingOf(init[i], container) && init[i].packageId == p;
          assert ledger[i] == init[i];
        }
        if HasPackingRow(ledger, container, p) {
          var i :| 0 <= i < |ledger| && IsPackingOf(ledger[i], container) && ledger[i].packageId == p;
          if i < |init| {
            assert init[i] == ledger[i];
          }
        }
      }
      forall p | !HasPackingRow(init, container, p) ensures NetPacked(init, container, p) == 0 {
        NetPackedWithoutRows(init, container, p);
      }
    }
  }

  lemma {:induction false} NetPackedWithoutRows(ledger: seq<LedgerEntry>, container: int, pkg: int)
    requires forall i :: 0 <= i < |ledger| ==> !(IsPackingOf(ledger[i], container) && ledger[i].packageId == pkg)
    ensures NetPacked(ledger, container, pkg) == 0
  {
    if |ledger| > 0 {
      var init := ledger[..|ledger| - 1];
      assert forall i :: 0 <= i < |init| ==> init[i] == ledger[i];
      NetPackedWithoutRows(init, container, pkg);
    }
  }

  /**
   * `associated_packages`: the existing packages whose pack/unpack rows
   * with `container` as source sum to a negative quantity, i.e. the
   * packages currently inside the container.
   */
  function AssociatedPackages(ledger: seq<LedgerEntry>, container: int, existing: set<int>): (r: set<int>)
    ensures forall p :: p in r <==>
      p in existing && HasPackingRow(ledger, container, p) && NetPacked(ledger, container, p) < 0
  {
    GroupedNetIsNetPacked(ledger, container);
    var sums := GroupedNet(ledger, container);
    set p | p in sums && sums[p] < 0 && p in existing
  }

  /** Packing two units of a package into a box and unpacking them again leaves the box empty. */
  lemma PackThenUnpackEmptiesBox(box: int, pkg: int)
    ensures
      var pack := LedgerEntry(pkg, Some("Package"), Some(box), "pack", -2);
      var unpack := LedgerEntry(pkg, Some("Package"), Some(box), "unpack", 2);
      AssociatedPackages([pack], box, {pkg}) == {pkg} && AssociatedPackages([pack, unpack], box, {pkg}) == {}
  {
    var pack := LedgerEntry(pkg, Some("Package"), Some(box), "pack", -2);
    var unpack := LedgerEntry(pkg, Some("Package"), Some(box), "unpack", 2);
    assert [pack, unpack][..1] == [pack];
    assert [pack][..0] == [];
    assert NetPacked([pack], box, pkg) == -2;
    assert NetPacked([pack, unpack], box, pkg) == 0;
    assert HasPackingRow([pack], box, pkg) by { assert [pack][0] == pack; }
  }

  // ---------------------------------------------------------------------
  // The set-item rule
  // ---------------------------------------------------------------------

  /** What `update_set_item_id` reads and writes of one of the item's packages. */
  datatype SetMember = SetMember(id: int, inventoryNumber: Option<string>, stockitSentOn: Option<int>, setItemId: Option<int>)

  /** In `inventory_package_set` (inventorized, undispatched), optionally `except_package(id)`. */
  predicate InInventorySet(m: SetMember, except: Option<int>) {
    m.inventoryNumber.Some? && m.stockitSentOn.None? && (except.None? || m.id != except.value)
  }

  function InventorySetSize(rows: seq<SetMember>, except: Option<int>): nat {
    if |rows| == 0 then 0
    else InventorySetSize(rows[..|rows| - 1], except) + (if InInventorySet(rows[|rows| - 1], except) then 1 else 0)
  }

  /** The new `set_item_id` of one row. */
  function RelinkedSetItemId(itemId: int, m: SetMember, inSet: bool, setSize: nat): Option<int> {
    if !inSet then m.setItemId
    else if setSize == 1 then None
    else if m.setItemId.None? then Some(itemId)
    else m.setItemId
  }

  /**
   * `update_set_item_id` over the rows of the item's packages: a set of
   * one package is no set, so its member's `set_item_id` is cleared;
   * otherwise every member not yet in a set joins the item's set. Without
   * an item nothing changes; rows outside the set are not touched.
   */
  function UpdateSetItemId(itemId: Option<int>, rows: seq<SetMember>, except: Option<int>): (r: seq<SetMember>)
    ensures |r| == |rows|
    ensures forall i :: 0 <= i < |r| ==> r[i] == rows[i].(setItemId := r[i].setItemId)
    ensures itemId.None? ==> r == rows
  {
    if itemId.None? then rows
    else
      var n := InventorySetSize(rows, except);
      seq(|rows|, i requires 0 <= i < |rows| =>
        rows[i].(setItemId := RelinkedSetItemId(itemId.value, rows[i], InInventorySet(rows[i], except), n)))
  }

  lemma {:induction false} InventorySetSizeOne(rows: seq<SetMember>, except: Option<int>, i: int, j: int)
    requires InventorySetSize(rows, except) == 1
    requires 0 <= i < |rows| && 0 <= j < |rows|
    requires InInventorySet(rows[i], except) && InInventorySet(rows[j], except)
    ensures i == j
  {
    if i != j {
      InventorySetSizeTwo(rows, except, i, j);
    }
  }

  lemma {:induction false} InventorySetSizeTwo(rows: seq<SetMember>, except: Option<int>, i: int, j: int)
    requires 0 <= i < |rows| && 0 <= j < |rows| && i != j
    requires InInventorySet(rows[i], except) && InInventorySet(rows[j], except)
    ensures InventorySetSize(rows, except) >= 2
  {
    var last := |rows| - 1;
    var init := rows[..last];
    if i == last || j == last {
      var k := if i == last then j else i;
      assert init[k] == rows[k];
      InventorySetSizePositive(init, except, k);
    } else {
      assert init[i] == rows[i] && init[j] == rows[j];
      InventorySetSizeTwo(init, except, i, j);
    }
  }

  lemma {:induction false} InventorySetSizePositive(rows: seq<SetMember>, except: Option<int>, k: int)
    requires 0 <= k < |rows| && InInventorySet(rows[k], except)
    ensures InventorySetSize(rows, except) >= 1
  {
    var last := |rows| - 1;
    if k != last {
      assert rows[..last][k] == rows[k];
      InventorySetSizePositive(rows[..last], except, k);
    }
  }

  lemma {:induction false} InventorySetSizeSameMembers(a: seq<SetMember>, b: seq<SetMember>, except: Option<int>)
    requires |a| == |b|
    requires forall i :: 0 <= i < |a| ==> (InInventorySet(a[i], except) <==> InInventorySet(b[i], except))
    ensures InventorySetSize(a, except) == InventorySetSize(b, except)
  {
    if |a| > 0 {
      InventorySetSizeSameMembers(a[..|a| - 1], b[..|b| - 1], except);
    }
  }

  /**
   * After relinking an item's packages: when two or more of them are in
   * the inventory set, each of them belongs to a set (the item's, unless
   * it already had one); when exactly one is, it belongs to none. Rows
   * outside the inventory set keep their `set_item_id`.
   */
  lemma SetMembersAfterUpdate(itemId: int, rows: seq<SetMember>, except: Option<int>)
    ensures var r := UpdateSetItemId(Some(itemId), rows, except);
      forall i :: 0 <= i < |rows| && InInventorySet(rows[i], except) ==>
        (InventorySetSize(rows, except) >= 2 ==> r[i].setItemId == Some(rows[i].setItemId.GetOr(itemId)))
        && (InventorySetSize(rows, except) == 1 ==> r[i].setItemId.None?)
    ensures var r := UpdateSetItemId(Some(itemId), rows, except);
      forall i :: 0 <= i < |rows| && !InInventorySet(rows[i], except) ==> r[i] == rows[i]
  {
  }

  /** A second relinking changes nothing: the rule is idempotent. */
  lemma UpdateSetItemIdIdempotent(itemId: Option<int>, rows: seq<SetMember>, except: Option<int>)
    ensures UpdateSetItemId(itemId, UpdateSetItemId(itemId, rows, except), except) == UpdateSetItemId(itemId, rows, except)
  {
    var r := UpdateSetItemId(itemId, rows, except);
    if itemId.Some? {
      InventorySetSizeSameMembers(rows, r, except);
    }
  }

  /** `gc_inventory_number`: a GoodCity number is all digits (no newlines, so `^`/`$` anchor the whole string). */
  predicate GcInventoryNumber(n: Option<string>) {
    n.Some? && |n.value| > 0 && Ruby.AllDigits(n.value)
  }

  /** What a save knows of the change being saved, and of who requested it. */
  datatype SaveContext = SaveContext(
    stockitSentOnChanged: bool, orderIdChanged: bool, stateChanged: bool, requestFromStockit: bool)

  /** `dispatch_from_stockit?`: the condition of `assign_stockit_sent_by_and_designated_by`. */
  predicate DispatchFromStockit(c: SaveContext) {
    c.stockitSentOnChanged && c.requestFromStockit
  }

  /** The condition of `assign_stockit_designated_by`. */
  predicate DesignationFromStockit(c: SaveContext) {
    !c.stockitSentOnChanged && c.orderIdChanged && c.requestFromStockit
  }

  /** At most one of the two Stockit-actor hooks runs on a save, and only for requests from Stockit. */
  lemma StockitActorHooksExclusive(c: SaveContext)
    ensures !(DispatchFromStockit(c) && DesignationFromStockit(c))
    ensures DispatchFromStockit(c) || DesignationFromStockit(c) ==> c.requestFromStockit
  {
  }

  /** The validated attributes of a package. */
  datatype Attribute =
    | PackageTypeId | OnHandQuantity | AvailableQuantity | DesignatedQuantity | DispatchedQuantity
    | ReceivedQuantity | Weight | Pieces | Width | Height | Length

  const AllAttributes: set<Attribute> :=
    {PackageTypeId, OnHandQuantity, AvailableQuantity, DesignatedQuantity, DispatchedQuantity,
     ReceivedQuantity, Weight, Pieces, Width, Height, Length}

  /**
   * What the Stockit mirror needs beyond the package's own fields. The
   * caller passes as `condition` Stockit's name for the package's donor
   * condition as it stands when the request is built: for
   * `designate_to_stockit_order`, the condition after its default of 3.
   */
  datatype SyncContext = SyncContext(
    special: Sync.SpecialLocations,
    condition: Option<string>,                 // the donor condition in Stockit's terms
    locationsById: map<int, Sync.LocationRef>) // the locations table, for `location_id`

  function LocationsOf(pls: seq<PackagesLocation>): (r: seq<Sync.LocationRef>)
    ensures |r| == |pls| && forall i :: 0 <= i < |pls| ==> r[i] == pls[i].location
  {
    seq(|pls|, i requires 0 <= i < |pls| => pls[i].location)
  }

  function StatesOf(ops: seq<OrdersPackage>): (r: seq<string>)
    ensures |r| == |ops| && forall i :: 0 <= i < |ops| ==> r[i] == ops[i].state
  {
    seq(|ops|, i requires 0 <= i < |ops| => ops[i].state)
  }

  class Package {
    const id: int
    var itemId: Option<int>
    var state: PackageState
    var receivedAt: Option<int>
    var locationId: Option<int>
    var allowWebPublish: bool
    var inventoryNumber: Option<string>
    var stockitId: Option<int>
    var setItemId: Option<int>
    var boxId: Option<int>
    var palletId: Option<int>
    var orderId: Option<int>
    var stockitSentOn: Option<int>
    var stockitSentBy: Option<int>
    var stockitDesignatedOn: Option<int>
    var stockitDesignatedBy: Option<int>
    var donorConditionId: Option<int>
    var grade: Option<string>
    var saleable: bool
    var skipSetRelationUpdate: bool
    var packageTypeId: Option<int>
    var packageTypeStockitId: Option<int>
    var storageTypeName: Option<string>
    var detailValid: Option<bool>    // None: no detail; Some(v): whether the detail is valid
    var caseNumber: Option<string>
    var notes: Option<string>
    var receivedQuantity: int
    var onHandQuantity: int
    var availableQuantity: int
    var designatedQuantity: int
    var dispatchedQuantity: int
    var weight: Option<int>
    var pieces: Option<int>
    var width: Option<int>
    var height: Option<int>
    var length: Option<int>
    var packagesLocations: seq<PackagesLocation>
    var ordersPackages: seq<OrdersPackage>
    var errors: seq<(string, string)>

    /** A new package record: `after_initialize` puts it in `expecting`. */
    constructor (id: int, itemId: Option<int>, packageTypeId: Option<int>, receivedQuantity: int, storageTypeName: Option<string>)
      ensures this.id == id && this.itemId == itemId && this.packageTypeId == packageTypeId
      ensures this.receivedQuantity == receivedQuantity && this.storageTypeName == storageTypeName
      ensures state == Expecting && errors == [] && packagesLocations == [] && ordersPackages == []
      ensures inventoryNumber.None? && stockitId.None? && setItemId.None? && receivedAt.None?
    {
      this.id := id;
      this.itemId := itemId;
      this.packageTypeId := packageTypeId;
      this.receivedQuantity := receivedQuantity;
      this.storageTypeName := storageTypeName;
      state := Expecting;
      receivedAt, locationId, allowWebPublish := None, None, false;
      inventoryNumber, stockitId, setItemId := None, None, None;
      boxId, palletId, orderId := None, None, None;
      stockitSentOn, stockitSentBy, stockitDesignatedOn, stockitDesignatedBy := None, None, None, None;
      donorConditionId, grade, saleable, skipSetRelationUpdate := None, None, false, false;
      packageTypeStockitId, detailValid, caseNumber, notes := None, None, None, None;
      onHandQuantity, availableQuantity, designatedQuantity, dispatchedQuantity := 0, 0, 0, 0;
      weight, pieces, width, height, length := None, None, None, None, None;
      packagesLocations, ordersPackages, errors := [], [], [];
    }

    /** `singleton_package?` */
    predicate Singleton()
      reads this
    {
      receivedQuantity == 1
    }

    /** `box?` */
    predicate IsBox()
      reads this
    {
      storageTypeName == Some("Box")
    }

    /** `box_or_pallet?` */
    predicate BoxOrPallet()
      reads this
    {
      storageTypeName == Some("Box") || storageTypeName == Some("Pallet")
    }

    /** `published?` */
    predicate Published()
      reads this
    {
      allowWebPublish
    }

    /** `updated_received_package?`: a received package changed other than by a transition and not by Stockit. */
    predicate UpdatedReceivedPackage(c: SaveContext)
      reads this`state
    {
      !c.stateChanged && state == Received && !c.requestFromStockit
    }

    /** The record as the mirror sees it. */
    function SyncView(ctx: SyncContext): (v: Sync.SyncPackage)
      reads this`inventoryNumber, this`receivedQuantity, this`packageTypeStockitId, this`caseNumber
      reads this`grade, this`notes, this`stockitId, this`pieces, this`ordersPackages, this`stockitDesignatedOn
      reads this`stockitSentOn, this`packagesLocations, this`locationId
      reads this`length, this`width, this`height, this`weight
      ensures v.inventoryNumber == inventoryNumber && v.receivedQuantity == receivedQuantity
      ensures v.stockitSentOn == stockitSentOn && v.stockitId == stockitId
    {
      Sync.SyncPackage(
        inventoryNumber, receivedQuantity, packageTypeStockitId, caseNumber, ctx.condition, grade, notes,
        stockitId, pieces, StockitOrderId(ordersPackages), stockitDesignatedOn, stockitSentOn,
        StatesOf(ordersPackages), LocationsOf(packagesLocations),
        if locationId.Some? && locationId.value in ctx.locationsById then Some(ctx.locationsById[locationId.value]) else None,
        length, width, height, weight)
    }

    /** The package's own row among its item's packages. */
    function OwnRow(): SetMember
      reads this
    {
      SetMember(id, inventoryNumber, stockitSentOn, setItemId)
    }

    /**
     * Whether validation fails on `a`: a package type is required, the
     * four counters must not be negative, the received quantity must be
     * positive, weight and pieces positive and the dimensions non-negative
     * when given (`allow_blank`).
     */
    predicate Fails(a: Attribute)
      reads this
    {
      match a
      case PackageTypeId => packageTypeId.None?
      case OnHandQuantity => onHandQuantity < 0
      case AvailableQuantity => availableQuantity < 0
      case DesignatedQuantity => designatedQuantity < 0
      case DispatchedQuantity => dispatchedQuantity < 0
      case ReceivedQuantity => receivedQuantity <= 0
      case Weight => weight.Some? && weight.value <= 0
      case Pieces => pieces.Some? && pieces.value <= 0
      case Width => width.Some? && width.value < 0
      case Height => height.Some? && height.value < 0
      case Length => length.Some? && length.value < 0
    }

    /** The attributes whose validation fails; none for a valid record. */
    function ValidationErrors(): (r: set<Attribute>)
      reads this
      ensures OnHandQuantity in r <==> onHandQuantity < 0
      ensures AvailableQuantity in r <==> availableQuantity < 0
      ensures DesignatedQuantity in r <==> designatedQuantity < 0
      ensures DispatchedQuantity in r <==> dispatchedQuantity < 0
      ensures ReceivedQuantity in r <==> receivedQuantity <= 0
      ensures PackageTypeId in r <==> packageTypeId.None?
      ensures Weight in r <==> weight.Some? && weight.value <= 0
      ensures Pieces in r <==> pieces.Some? && pieces.value <= 0
      ensures Width in r <==> width.Some? && width.value < 0
      ensures Height in r <==> height.Some? && height.value < 0
      ensures Length in r <==> length.Some? && length.value < 0
      ensures r == {} <==>
        (onHandQuantity >= 0 && availableQuantity >= 0 && designatedQuantity >= 0
         && dispatchedQuantity >= 0 && receivedQuantity > 0 && packageTypeId.Some?
         && (weight.Some? ==> weight.value > 0) && (pieces.Some? ==> pieces.value > 0)
         && (width.Some? ==> width.value >= 0) && (height.Some? ==> height.value >= 0)
         && (length.Some? ==> length.value >= 0))
    {
      set a | a in AllAttributes && Fails(a)
    }

    /** `add_errors`: every error of the response is added to the package. */
    method AddErrors(response: Response)
      modifies this`errors
      ensures errors == old(errors) + ErrorsOf(response)
    {
      if HasErrors(response) {
        errors := errors + response.value.errors;
      }
    }

    /**
     * `add_to_stockit`: nothing for a box or pallet or a package with an
     * invalid detail; otherwise the create request, whose errors are added
     * to the package, or whose item id becomes the package's Stockit id.
     */
    method AddToStockit(ctx: SyncContext, reply: Response) returns (request: Option<Sync.Request>)
      modifies this`errors, this`stockitId
      ensures request == (if old(BoxOrPallet()) || old(detailValid) == Some(false) then None
                          else Sync.Create(old(SyncView(ctx)), ctx.special))
      ensures errors == old(errors) + ErrorsOf(Answer(request, reply))
      ensures stockitId == CreatedItemId(Answer(request, reply)).Or(old(stockitId))
    {
      if BoxOrPallet() || detailValid == Some(false) {
        return None;
      }
      request := Sync.Create(SyncView(ctx), ctx.special);
      var response := Answer(request, reply);
      if HasErrors(response) {
        errors := errors + response.value.errors;
      } else if response.Some? && response.value.itemId.Some? {
        stockitId := response.value.itemId;
      }
    }

    /**
     * `remove_from_stockit`: for a package with an inventory number, the
     * delete request; its errors are added and the number kept, or else the
     * inventory number, Stockit id and set item id are all cleared.
     * `existing` is the row found under the inventory number.
     */
    method RemoveFromStockit(existing: Option<Sync.StoredPackage>, reply: Response) returns (request: Option<Sync.Request>)
      modifies this`errors, this`inventoryNumber, this`stockitId, this`setItemId
      ensures !Ruby.IsPresent(old(inventoryNumber)) ==>
        request.None? && errors == old(errors) && inventoryNumber == old(inventoryNumber)
        && stockitId == old(stockitId) && setItemId == old(setItemId)
      ensures Ruby.IsPresent(old(inventoryNumber)) ==> request == Sync.Delete(old(inventoryNumber), existing)
      ensures Ruby.IsPresent(old(inventoryNumber)) && HasErrors(Answer(request, reply)) ==>
        errors == old(errors) + ErrorsOf(Answer(request, reply)) && inventoryNumber == old(inventoryNumber)
        && stockitId == old(stockitId) && setItemId == old(setItemId)
      ensures Ruby.IsPresent(old(inventoryNumber)) && !HasErrors(Answer(request, reply)) ==>
        errors == old(errors) && inventoryNumber.None? && stockitId.None? && setItemId.None?
    {
      request := None;
      if Ruby.IsPresent(inventoryNumber) {
        request := Sync.Delete(inventoryNumber, existing);
        var response := Answer(request, reply);
        if HasErrors(response) {
          errors := errors + response.value.errors;
        } else {
          inventoryNumber := None;
          stockitId := None;
          setItemId := None;
        }
      }
    }

    /**
     * The `mark_received` event, allowed from every state: `received_at`
     * becomes `now` and, when the mirror is enabled, the package is added
     * to Stockit; the state becomes `received`. Afterwards the item's
     * package rows `others` (saved, without this one) are relinked.
     */
    method MarkReceivedEvent(now: int, stockitEnabled: bool, ctx: SyncContext, reply: Response, others: seq<SetMember>)
      returns (request: Option<Sync.Request>, rows: seq<SetMember>)
      modifies this`state, this`receivedAt, this`errors, this`stockitId
      ensures state == Received && receivedAt == Some(now)
      ensures !stockitEnabled ==> request.None? && errors == old(errors) && stockitId == old(stockitId)
      ensures stockitEnabled ==>
        request == (if old(BoxOrPallet()) || old(detailValid) == Some(false) then None
                    else Sync.Create(old(SyncView(ctx)), ctx.special))
      ensures errors == old(errors) + ErrorsOf(Answer(request, reply))
      ensures stockitId == CreatedItemId(Answer(request, reply)).Or(old(stockitId))
      ensures rows == UpdateSetItemId(itemId, others + [OwnRow()], None)
    {
      receivedAt := Some(now);
      request := None;
      if stockitEnabled {
        request := AddToStockit(ctx, reply);
      }
      state := Received;
      rows := UpdateSetItemId(itemId, others + [OwnRow()], None);
    }

    /**
     * The `mark_missing` event, allowed from every state: the package's
     * locations are destroyed, `received_at` and `location_id` cleared, the
     * package unpublished and removed from Stockit; the state becomes
     * `missing`. Afterwards the item's package rows are relinked.
     */
    method MarkMissingEvent(existing: Option<Sync.StoredPackage>, reply: Response, others: seq<SetMember>)
      returns (request: Option<Sync.Request>, rows: seq<SetMember>)
      modifies this`state, this`packagesLocations, this`receivedAt, this`locationId, this`allowWebPublish
      modifies this`errors, this`inventoryNumber, this`stockitId, this`setItemId
      ensures state == Missing && packagesLocations == [] && receivedAt.None? && locationId.None? && !allowWebPublish
      ensures !Ruby.IsPresent(old(inventoryNumber)) ==>
        request.None? && errors == old(errors) && inventoryNumber == old(inventoryNumber)
        && stockitId == old(stockitId) && setItemId == old(setItemId)
      ensures Ruby.IsPresent(old(inventoryNumber)) ==> request == Sync.Delete(old(inventoryNumber), existing)
      ensures Ruby.IsPresent(old(inventoryNumber)) && HasErrors(Answer(request, reply)) ==>
        errors == old(errors) + ErrorsOf(Answer(request, reply)) && inventoryNumber == old(inventoryNumber)
        && stockitId == old(stockitId) && setItemId == old(setItemId)
      ensures Ruby.IsPresent(old(inventoryNumber)) && !HasErrors(Answer(request, reply)) ==>
        errors == old(errors) && inventoryNumber.None? && stockitId.None? && setItemId.None?
      ensures rows == UpdateSetItemId(itemId, others + [OwnRow()], None)
    {
      packagesLocations := [];
      receivedAt := None;
      locationId := None;
      allowWebPublish := false;
      request := RemoveFromStockit(existing, reply);
      state := Missing;
      rows := UpdateSetItemId(itemId, others + [OwnRow()], None);
    }

    /** `assign_stockit_designated_by`: the Stockit user when designated to an order, else nobody. */
    method AssignStockitDesignatedBy(stockitUser: Option<int>)
      modifies this`stockitDesignatedBy
      ensures stockitDesignatedBy == (if stockitDesignatedOn.Some? && orderId.Some? then stockitUser else None)
    {
      if stockitDesignatedOn.Some? && orderId.Some? {
        stockitDesignatedBy := stockitUser;
      } else {
        stockitDesignatedBy := None;
      }
    }

    /**
     * `assign_stockit_sent_by_and_designated_by`: a package sent by Stockit
     * was sent (and, when designated, designated) by the Stockit user.
     */
    method AssignStockitSentByAndDesignatedBy(stockitUser: Option<int>)
      modifies this`stockitSentBy, this`stockitDesignatedBy
      ensures stockitSentBy == (if stockitSentOn.Some? then stockitUser else None)
      ensures stockitDesignatedBy == (if stockitSentOn.Some? && stockitDesignatedOn.Some? then stockitUser
                                      else old(stockitDesignatedBy))
    {
      if stockitSentOn.Some? && stockitDesignatedOn.Some? {
        stockitSentBy := stockitUser;
        stockitDesignatedBy := stockitUser;
      } else if stockitSentOn.Some? {
        stockitSentBy := stockitUser;
      } else {
        stockitSentBy := None;
      }
    }

    /**
     * `dispatch_stockit_item`: sent today by the current user, out of its
     * box and pallet, then the dispatch request; its errors are added.
     */
    method DispatchStockitItem(today: int, currentUser: Option<int>, skip: bool, ctx: SyncContext, reply: Response)
      returns (request: Option<Sync.Request>)
      modifies this`skipSetRelationUpdate, this`stockitSentOn, this`stockitSentBy, this`boxId, this`palletId, this`errors
      ensures skipSetRelationUpdate == skip
      ensures stockitSentOn == Some(today) && stockitSentBy == currentUser && boxId.None? && palletId.None?
      ensures request == Sync.Dispatch(old(SyncView(ctx)).(stockitSentOn := Some(today)), ctx.special)
      ensures request.Some? ==> request.value.payload.item.locationId == ctx.special.dispatch.stockitId
      ensures errors == old(errors) + ErrorsOf(Answer(request, reply))
    {
      var view := SyncView(ctx).(stockitSentOn := Some(today));
      skipSetRelationUpdate := skip;
      stockitSentOn := Some(today);
      stockitSentBy := currentUser;
      boxId := None;
      palletId := None;
      request := Sync.Dispatch(view, ctx.special);
      Sync.DispatchReportsDispatchLocation(view, ctx.special);
      AddErrors(Answer(request, reply));
    }

    /**
     * `undispatch_stockit_item`: no longer sent, out of its box and pallet,
     * then the undispatch request; its errors are added.
     */
    method UndispatchStockitItem(ctx: SyncContext, reply: Response) returns (request: Option<Sync.Request>)
      modifies this`stockitSentOn, this`stockitSentBy, this`boxId, this`palletId, this`errors
      ensures stockitSentOn.None? && stockitSentBy.None? && boxId.None? && palletId.None?
      ensures request == Sync.Undispatch(old(SyncView(ctx)).(stockitSentOn := None), ctx.special)
      ensures errors == old(errors) + ErrorsOf(Answer(request, reply))
    {
      var view := SyncView(ctx).(stockitSentOn := None);
      stockitSentOn := None;
      stockitSentBy := None;
      palletId := None;
      boxId := None;
      request := Sync.Undispatch(view, ctx.special);
      AddErrors(Answer(request, reply));
    }

    /**
     * `designate_to_stockit_order`: the order is taken only when it exists;
     * designated today by the current user, with donor condition 3 when it
     * had none; then the update request, whose errors are added.
     */
    method DesignateToStockitOrder(order: int, orderExists: bool, today: int, currentUser: Option<int>,
                                   ctx: SyncContext, reply: Response)
      returns (request: Option<Sync.Request>)
      modifies this`orderId, this`stockitDesignatedOn, this`stockitDesignatedBy, this`donorConditionId, this`errors
      ensures orderId == (if orderExists then Some(order) else old(orderId))
      ensures stockitDesignatedOn == Some(today) && stockitDesignatedBy == currentUser
      ensures donorConditionId == Some(old(donorConditionId).GetOr(3))
      ensures request == Sync.Update(old(SyncView(ctx)).(designatedOn := Some(today)), ctx.special)
      ensures errors == old(errors) + ErrorsOf(Answer(request, reply))
    {
      var view := SyncView(ctx).(designatedOn := Some(today));
      if orderExists {
        orderId := Some(order);
      }
      stockitDesignatedOn := Some(today);
      stockitDesignatedBy := currentUser;
      donorConditionId := Some(donorConditionId.GetOr(3));
      request := Sync.Update(view, ctx.special);
      AddErrors(Answer(request, reply));
    }

    /** `undesignate_from_stockit_order`: no order, designation cleared, then the update request. */
    method UndesignateFromStockitOrder(ctx: SyncContext, reply: Response) returns (request: Option<Sync.Request>)
      modifies this`orderId, this`stockitDesignatedOn, this`stockitDesignatedBy, this`errors
      ensures orderId.None? && stockitDesignatedOn.None? && stockitDesignatedBy.None?
      ensures request == Sync.Update(old(SyncView(ctx)).(designatedOn := None), ctx.special)
      ensures errors == old(errors) + ErrorsOf(Answer(request, reply))
    {
      var view := SyncView(ctx).(designatedOn := None);
      orderId := None;
      stockitDesignatedOn := None;
      stockitDesignatedBy := None;
      request := Sync.Update(view, ctx.special);
      AddErrors(Answer(request, reply));
    }

    /**
     * `update_set_relation` (before a save that changes `stockit_sent_on`):
     * a dispatched member of a set leaves it, and the rest of the item's
     * inventory set is relinked without it. Building that set calls
     * `item.packages`, so for a package without an item it raises
     * (`raised`), after `set_item_id` was cleared in memory and before any relinking;
     * the raise aborts the save.
     */
    method UpdateSetRelation(itemPackages: seq<SetMember>) returns (rows: seq<SetMember>, raised: bool)
      modifies this`setItemId
      ensures old(setItemId).Some? && stockitSentOn.Some? && !skipSetRelationUpdate ==>
        setItemId.None? && (raised <==> itemId.None?)
        && rows == (if raised then itemPackages else UpdateSetItemId(itemId, itemPackages, Some(id)))
      ensures !(old(setItemId).Some? && stockitSentOn.Some? && !skipSetRelationUpdate) ==>
        setItemId == old(setItemId) && rows == itemPackages && !raised
    {
      rows, raised := itemPackages, false;
      if setItemId.Some? && stockitSentOn.Some? && !skipSetRelationUpdate {
        setItemId := None;
        if itemId.None? {
          raised := true;
        } else {
          rows := UpdateSetItemId(itemId, itemPackages, Some(id));
        }
      }
    }

    /**
     * `remove_from_set`: the package leaves its set (saved at once) and the
     * rest of the set is relinked. For a package without an item the
     * relinking raises (`raised`) after the package has left its set.
     */
    method RemoveFromSet(itemPackages: seq<SetMember>) returns (rows: seq<SetMember>, raised: bool)
      modifies this`setItemId
      ensures setItemId.None? && (raised <==> itemId.None?)
      ensures rows == (if raised then itemPackages else UpdateSetItemId(itemId, itemPackages, Some(id)))
    {
      setItemId := None;
      if itemId.None? {
        rows, raised := itemPackages, true;
      } else {
        rows, raised := UpdateSetItemId(itemId, itemPackages, Some(id)), false;
      }
    }

    /** `unpublish` and `publish`. */
    method SetPublished(publish: bool)
      modifies this`allowWebPublish
      ensures allowWebPublish == publish
    {
      allowWebPublish := publish;
    }

    /**
     * `set_default_values` (before create): the item's donor condition when
     * the package has none, grade "B" when it has none, saleable as the
     * offer is.
     */
    method SetDefaultValues(itemDonorCondition: Option<int>, offerSaleable: Option<bool>)
      modifies this`donorConditionId, this`grade, this`saleable
      ensures donorConditionId == (if old(donorConditionId).Some? then old(donorConditionId) else itemDonorCondition)
      ensures grade == Some(old(grade).GetOr("B"))
      ensures saleable == offerSaleable.GetOr(false)
    {
      if donorConditionId.None? {
        donorConditionId := itemDonorCondition;
      }
      grade := Some(grade.GetOr("B"));
      saleable := offerSaleable.GetOr(false);
    }

    /**
     * `total_assigned_quantity`: the quantities of the package's designated
     * and dispatched orders_packages, added up one by one.
     */
    method TotalAssignedQuantity() returns (total: int)
      ensures total == AssignedQuantity(ordersPackages)
      ensures (forall i :: 0 <= i < |ordersPackages| ==> !IsAssigned(ordersPackages[i])) ==> total == 0
    {
      total := 0;
      var i := 0;
      while i < |ordersPackages|
        invariant 0 <= i <= |ordersPackages|
        invariant total == AssignedQuantity(ordersPackages[..i])
      {
        var op := ordersPackages[i];
        assert ordersPackages[..i + 1][..i] == ordersPackages[..i];
        if IsAssigned(op) {
          total := total + op.quantity;
        }
        i := i + 1;
      }
      assert ordersPackages[..i] == ordersPackages;
      if forall k :: 0 <= k < |ordersPackages| ==> !IsAssigned(ordersPackages[k]) {
        AssignedQuantityZero(ordersPackages);
      }
    }
  }
}
