/**
 * The small decisions and string normalisers of the packages API
 * controller: the Stockit-prefix removal, the barcode print-count bound,
 * the refusal to destroy an inventorized package, the inventorize
 * precondition, the storage-type whitelist, the quantity fallbacks, the
 * parameter whitelist and the two quantity rules that depend on it.
 * Rendering, lookups and the quantity engine are not modelled: what they
 * return is passed in.
 */
module PackagesController {
  import opened Wrappers
  import Ruby
  import Sync = StockitItemSync
  import Packages

  /** A request parameter: JSON gives integers or strings; `nil` is `None`. */
  datatype ParamValue = IntParam(i: int) | StrParam(s: string)

  /** `v.to_i` on a parameter, with `nil.to_i == 0`. */
  function ToIParam(v: Option<ParamValue>): int {
    match v
    case None => 0
    case Some(IntParam(i)) => i
    case Some(StrParam(s)) => Ruby.ToI(s)
  }

  /** `hash[key]`: the value, or `nil`. */
  function Lookup(m: map<string, ParamValue>, key: string): (r: Option<ParamValue>)
    ensures r.Some? <==> key in m
    ensures r.Some? ==> r.value == m[key]
  {
    if key in m then Some(m[key]) else None
  }

  // ---------------------------------------------------------------------
  // remove_stockit_prefix
  // ---------------------------------------------------------------------

  predicate IsX(c: char) {
    c == 'x' || c == 'X'
  }

  predicate NoNewlines(s: string) {
    forall i :: 0 <= i < |s| ==> s[i] != '\n'
  }

  /**
   * `gsub(/^x/i, "")`: every x or X that starts a line is dropped; `^`
   * matches at the start of the string and after each newline.
   */
  function StripLineLeadingX(s: string, atLineStart: bool): (r: string)
    ensures |r| <= |s|
  {
    if |s| == 0 then []
    else (if atLineStart && IsX(s[0]) then [] else [s[0]]) + StripLineLeadingX(s[1..], s[0] == '\n')
  }

  lemma {:induction false} StripInsideLine(s: string)
    requires NoNewlines(s)
    ensures StripLineLeadingX(s, false) == s
  {
    if |s| > 0 {
      assert NoNewlines(s[1..]);
      StripInsideLine(s[1..]);
      assert [s[0]] + s[1..] == s;
    }
  }

  /** On a single line only the first character can be dropped. */
  lemma StripSingleLine(s: string)
    requires NoNewlines(s) && |s| > 0
    ensures StripLineLeadingX(s, true) == if IsX(s[0]) then s[1..] else s
  {
    StripInsideLine(s[1..]);
    assert [s[0]] + s[1..] == s;
  }

  /** `remove_stockit_prefix`: `nil` for a blank number, else the number with line-leading x/X removed. */
  function RemoveStockitPrefix(n: Option<string>): (r: Option<string>)
    ensures !Ruby.IsPresent(n) ==> r.None?
    ensures Ruby.IsPresent(n) ==> r.Some? && |r.value| <= |n.value|
  {
    if !Ruby.IsPresent(n) then None else Some(StripLineLeadingX(n.value, true))
  }

  /** On a number without newlines exactly one leading x or X is removed, and nothing else changes. */
  lemma RemoveStockitPrefixOfLine(n: string)
    requires Ruby.IsPresent(Some(n)) && NoNewlines(n)
    ensures |n| > 0
    ensures RemoveStockitPrefix(Some(n)) == Some(if IsX(n[0]) then n[1..] else n)
  {
    StripSingleLine(n);
  }

  /** Removing the prefix Stockit adds gives back the GoodCity number. */
  lemma {:induction false} PrefixRoundTrip(n: string)
    requires |n| > 0 && Ruby.IsDigit(n[0]) && NoNewlines(n)
    ensures RemoveStockitPrefix(Sync.AddStockitPrefix(Some(n))) == Some(n)
  {
    var x := Sync.StockitPrefix + n;
    assert x[0] == 'X' && x[1..] == n;
    assert !Ruby.IsSpace(x[0]);
    RemoveStockitPrefixOfLine(x);
  }

  /**
   * Adding the prefix back to a number received from Stockit, written with
   * either case of x, gives Stockit's own spelling of it.
   */
  lemma {:induction false} StockitNumberRoundTrip(c: char, d: string)
    requires IsX(c) && |d| > 0 && Ruby.IsDigit(d[0]) && NoNewlines(d)
    ensures RemoveStockitPrefix(Some([c] + d)) == Some(d)
    ensures Sync.AddStockitPrefix(RemoveStockitPrefix(Some([c] + d))) == Some(Sync.StockitPrefix + d)
  {
    var x := [c] + d;
    assert x[0] == c && x[1..] == d;
    assert !Ruby.IsSpace(x[0]);
    RemoveStockitPrefixOfLine(x);
  }

  /** A GoodCity number (all digits) passes through unchanged. */
  lemma {:induction false} RemoveStockitPrefixOfGcNumber(n: string)
    requires Packages.GcInventoryNumber(Some(n))
    ensures RemoveStockitPrefix(Some(n)) == Some(n)
  {
    assert Ruby.IsDigit(n[0]);
    assert !Ruby.IsSpace(n[0]) && !IsX(n[0]);
    assert NoNewlines(n) by {
      forall i | 0 <= i < |n| ensures n[i] != '\n' {
        assert Ruby.IsDigit(n[i]);
      }
    }
    RemoveStockitPrefixOfLine(n);
  }

  // ---------------------------------------------------------------------
  // print_barcode
  // ---------------------------------------------------------------------

  /** What `Package.find(params[:package_id])` gives: the package's id and inventory number. */
  datatype BarcodeTarget = BarcodeTarget(id: int, inventoryNumber: Option<string>)

  datatype PrintOutcome =
    | MaxPrintError(maxBarcodeQty: int)            // 400, "max_print_error"
    | PackageNotFound                              // 400
    | PrinterNotFound                              // 400, "printer_not_found"
    | PrintLabel(packageId: int, printerId: int, printCount: int) // the print job, 204

  /** The outcome, and the inventory number assigned to the package on the way (if any). */
  datatype PrintResult = PrintResult(outcome: PrintOutcome, assignedInventoryNumber: Option<string>)

  /**
   * `print_barcode`: the label count is checked against 1..`maxPrint`
   * before the package and the printer are looked up; a package without
   * an inventory number gets `nextCode` before the printer is looked up.
   */
  function PrintBarcode(labels: Option<ParamValue>, maxPrint: int, found: Option<BarcodeTarget>,
                        nextCode: string, printer: Option<int>): (r: PrintResult)
    ensures !(1 <= ToIParam(labels) <= maxPrint) ==> r == PrintResult(MaxPrintError(maxPrint), None)
    ensures 1 <= ToIParam(labels) <= maxPrint && found.None? ==> r == PrintResult(PackageNotFound, None)
    ensures r.assignedInventoryNumber.Some? <==>
      1 <= ToIParam(labels) <= maxPrint && found.Some? && !Ruby.IsPresent(found.value.inventoryNumber)
    ensures r.assignedInventoryNumber.Some? ==> r.assignedInventoryNumber == Some(nextCode)
    ensures r.outcome.PrintLabel? <==> 1 <= ToIParam(labels) <= maxPrint && found.Some? && printer.Some?
    ensures r.outcome.PrintLabel? ==>
      r.outcome == PrintLabel(found.value.id, printer.value, ToIParam(labels)) && 1 <= r.outcome.printCount <= maxPrint
  {
    var count := ToIParam(labels);
    if !(1 <= count && count <= maxPrint) then PrintResult(MaxPrintError(maxPrint), None)
    else if found.None? then PrintResult(PackageNotFound, None)
    else
      var number := if !Ruby.IsPresent(found.value.inventoryNumber) then Some(nextCode) else None;
      if printer.None? then PrintResult(PrinterNotFound, number)
      else PrintResult(PrintLabel(found.value.id, printer.value, count), number)
  }

  // ---------------------------------------------------------------------
  // destroy
  // ---------------------------------------------------------------------

  datatype DestroyOutcome = InventorizedPackageError | Destroyed

  /** Whether `PackagesInventory.where(package: ...)` has any row. */
  predicate IsInventorized(ledger: seq<Packages.LedgerEntry>, pkg: int) {
    exists i :: 0 <= i < |ledger| && ledger[i].packageId == pkg
  }

  /**
   * `destroy`: raises for a package with any inventory row, deleting
   * nothing; otherwise the package is gone. `packages` are the ids of the
   * stored packages before and after.
   */
  function Destroy(packages: set<int>, ledger: seq<Packages.LedgerEntry>, pkg: int): (r: (DestroyOutcome, set<int>))
    ensures r.0 == InventorizedPackageError <==> IsInventorized(ledger, pkg)
    ensures r.0 == InventorizedPackageError ==> r.1 == packages
    ensures r.0 == Destroyed ==> r.1 == packages - {pkg} && pkg !in r.1
    ensures forall p :: p in r.1 <==> p in packages && (p != pkg || IsInventorized(ledger, pkg))
  {
    if IsInventorized(ledger, pkg) then (InventorizedPackageError, packages)
    else (Destroyed, packages - {pkg})
  }

  // ---------------------------------------------------------------------
  // try_inventorize_package
  // ---------------------------------------------------------------------

  datatype InventorizeOutcome =
    | NotInventorized
    | Inventorize(locationId: Option<ParamValue>)   // `Package::Operations.inventorize(pkg, location_id)`
    | BadOrMissingField(field: string)

  /**
   * `try_inventorize_package`: only a package with an inventory number and
   * no inventory rows yet is inventorized, and it must have a location.
   * `uninventorized` is what `PackagesInventory.uninventorized?` answers.
   */
  function TryInventorize(inventoryNumber: Option<string>, uninventorized: bool, packageLocationId: Option<int>,
                          locationParam: Option<ParamValue>): (r: InventorizeOutcome)
    ensures r.NotInventorized? <==> !(Ruby.IsPresent(inventoryNumber) && uninventorized)
    ensures r.BadOrMissingField? <==>
      Ruby.IsPresent(inventoryNumber) && uninventorized && packageLocationId.None?
    ensures r.BadOrMissingField? ==> r.field == "location_id"
    ensures r.Inventorize? ==> r.locationId == locationParam && packageLocationId.Some?
  {
    if Ruby.IsPresent(inventoryNumber) && uninventorized then
      if packageLocationId.None? then BadOrMissingField("location_id")
      else Inventorize(locationParam)
    else NotInventorized
  }

  // ---------------------------------------------------------------------
  // assign_storage_type, received_quantity, add_remove_item
  // ---------------------------------------------------------------------

  const StorageTypeNames: set<string> := {"Box", "Pallet", "Package"}

  /**
   * `assign_storage_type`: the requested storage type, "Package" when none
   * is given; a name outside Box/Pallet/Package gives none. `storageTypes`
   * maps the names of the storage_types rows to their ids.
   */
  function AssignStorageType(requested: Option<string>, storageTypes: map<string, int>): (r: Option<int>)
    ensures requested.None? ==> r == (if "Package" in storageTypes then Some(storageTypes["Package"]) else None)
    ensures requested.Some? && requested.value !in StorageTypeNames ==> r.None?
    ensures r.Some? ==> exists name :: name in StorageTypeNames && name in storageTypes && storageTypes[name] == r.value
    ensures r.Some? ==> requested.GetOr("Package") in storageTypes && r.value == storageTypes[requested.GetOr("Package")]
  {
    var name := requested.GetOr("Package");
    if name !in StorageTypeNames then None
    else if name in storageTypes then Some(storageTypes[name])
    else None
  }

  /** `received_quantity`: `received_quantity`, else `quantity`, as an integer (0 for neither). */
  function ReceivedQuantity(package: map<string, ParamValue>): (r: int)
    ensures "received_quantity" in package ==> r == ToIParam(Some(package["received_quantity"]))
    ensures "received_quantity" !in package && "quantity" in package ==> r == ToIParam(Some(package["quantity"]))
    ensures "received_quantity" !in package && "quantity" !in package ==> r == 0
  {
    ToIParam(Lookup(package, "received_quantity").Or(Lookup(package, "quantity")))
  }

  datatype PackOutcome = NoContent | PackOrUnpack(quantity: int)

  /** `add_remove_item`: a zero quantity answers 204 without packing or unpacking. */
  function AddRemoveItem(quantity: Option<ParamValue>): (r: PackOutcome)
    ensures r.NoContent? <==> ToIParam(quantity) == 0
    ensures r.PackOrUnpack? ==> r.quantity == ToIParam(quantity) && r.quantity != 0
  {
    var q := ToIParam(quantity);
    if q == 0 then NoContent else PackOrUnpack(q)
  }

  // ---------------------------------------------------------------------
  // package_params and the quantity rules
  // ---------------------------------------------------------------------

  /**
   * The scalar keys `package_params` permits. `offer_ids` (an array) and
   * `packages_locations_attributes` and `detail_attributes` (hashes) are
   * left out: `permit` drops a scalar under a key declared that way, and
   * a `ParamValue` is always a scalar.
   */
  const PermittedKeys: set<string> := {
    "allow_web_publish", "box_id", "case_number", "designation_name",
    "detail_id", "detail_type", "donor_condition_id", "grade", "height",
    "inventory_number", "item_id", "length", "location_id", "notes",
    "notes_zh_tw", "order_id", "package_type_id", "pallet_id", "pieces",
    "received_at", "saleable", "received_quantity", "rejected_at",
    "state", "state_event", "stockit_designated_on", "max_order_quantity",
    "stockit_sent_on", "weight", "width", "favourite_image_id", "restriction_id",
    "comment", "expiry_date", "value_hk_dollar", "package_set_id"}

  /** `params.require(:package).permit(attributes)` on the package hash. */
  function Permit(package: map<string, ParamValue>): (r: map<string, ParamValue>)
    ensures forall k :: k in r <==> k in package && k in PermittedKeys
    ensures forall k :: k in r ==> r[k] == package[k]
  {
    map k | k in package && k in PermittedKeys :: package[k]
  }

  /** "quantity" is not among the permitted keys. */
  lemma QuantityNotPermitted(package: map<string, ParamValue>)
    ensures "quantity" !in Permit(package)
  {
    assert "quantity" !in PermittedKeys;
  }

  /**
   * The quantity rule of `update` as written: it reads `quantity` from the
   * permitted parameters.
   */
  function UpdateReceivedQuantityAsWritten(current: int, package: map<string, ParamValue>): int {
    var q := Lookup(Permit(package), "quantity");
    if ToIParam(q) > 0 then ToIParam(q) else current
  }

  /** As written the rule never fires: the received quantity stays what it was. */
  lemma {:induction false} UpdateQuantityRuleIsDead(current: int, package: map<string, ParamValue>)
    ensures UpdateReceivedQuantityAsWritten(current, package) == current
  {
    QuantityNotPermitted(package);
  }

  /**
   * The rule as intended: a positive `quantity` parameter becomes the
   * received quantity, anything else leaves it alone.
   */
  function UpdateReceivedQuantity(current: int, package: map<string, ParamValue>): (r: int)
    ensures ToIParam(Lookup(package, "quantity")) > 0 ==> r == ToIParam(Lookup(package, "quantity"))
    ensures ToIParam(Lookup(package, "quantity")) <= 0 ==> r == current
  {
    var q := Lookup(package, "quantity");
    if ToIParam(q) > 0 then ToIParam(q) else current
  }

  /** The intended rule keeps a valid received quantity valid (`received_quantity > 0`). */
  lemma UpdateReceivedQuantityKeepsPositive(current: int, package: map<string, ParamValue>)
    requires current > 0
    ensures UpdateReceivedQuantity(current, package) > 0
  {
  }

  /** The hash without "quantity" when its quantity equals the total assigned quantity. */
  function WithoutQuantityIfAllAssigned(package: map<string, ParamValue>, totalAssigned: int): (r: map<string, ParamValue>)
    ensures ToIParam(Lookup(package, "quantity")) == totalAssigned ==> r == package - {"quantity"}
    ensures ToIParam(Lookup(package, "quantity")) != totalAssigned ==> r == package
  {
    if ToIParam(Lookup(package, "quantity")) == totalAssigned then package - {"quantity"} else package
  }

  /**
   * On the permitted parameters, which never hold "quantity", removing
   * it is a no-op, whatever the total.
   */
  lemma {:induction false} DeleteQuantityOnPermittedIsNoOp(package: map<string, ParamValue>, totalAssigned: int)
    ensures WithoutQuantityIfAllAssigned(Permit(package), totalAssigned) == Permit(package)
  {
    QuantityNotPermitted(package);
    assert Permit(package) - {"quantity"} == Permit(package);
  }

  /** The parameters hash that `assign_values_to_existing_or_new_package` edits. */
  class ParamsHash {
    var entries: map<string, ParamValue>

    constructor (entries: map<string, ParamValue>)
      ensures this.entries == entries
    {
      this.entries := entries;
    }

    /** `delete_params_quantity_if_all_quantity_designated`, in place. */
    method DeleteQuantityIfAllAssigned(totalAssigned: int)
      modifies this`entries
      ensures entries == WithoutQuantityIfAllAssigned(old(entries), totalAssigned)
      ensures "quantity" in entries ==> entries == old(entries)
    {
      if ToIParam(Lookup(entries, "quantity")) == totalAssigned {
        entries := entries - {"quantity"};
      }
    }
  }
}
