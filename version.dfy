/**
 * The audit-log record (a PaperTrail version) and its small classification
 * helpers: the display string, the related-or-item id, whether it is an
 * item or call log, and the offer it belongs to.
 */
module Versions {
  import opened Wrappers
  import Ruby

  /** The columns of a version the helpers read; `None` is nil. */
  datatype Version = Version(
    id: int,
    itemType: Option<string>,
    itemId: Option<int>,
    event: string,
    relatedType: Option<string>,
    relatedId: Option<int>)

  /** The string an interpolated nil becomes. */
  function Interpolate(s: Option<string>): string {
    s.GetOr("")
  }

  function InterpolateId(n: Option<int>): string {
    if n.Some? then Ruby.IntToString(n.value) else ""
  }

  /** `to_s`: "id:<id> <item_type>#<item_id> <event>". */
  function ToS(v: Version): (r: string)
    ensures |r| >= 7 + |v.event|
    ensures r[..3] == "id:"
    ensures r[|r| - |v.event| - 1..] == [' '] + v.event
  {
    "id:" + Ruby.IntToString(v.id) + " " + Interpolate(v.itemType) + "#" + InterpolateId(v.itemId) + " " + v.event
  }

  /** The id is read back from the display string by `to_i` after the "id:" label. */
  lemma ToSShowsId(v: Version)
    ensures Ruby.ToI(ToS(v)[3..]) == v.id
  {
    var rest := " " + Interpolate(v.itemType) + "#" + InterpolateId(v.itemId) + " " + v.event;
    assert ToS(v)[3..] == Ruby.IntToString(v.id) + rest;
    Ruby.ToIOfIntToString(v.id, rest);
  }

  /** `related_id_or_item_id` */
  function RelatedIdOrItemId(v: Version): (r: Option<int>)
    ensures v.relatedId.Some? ==> r == v.relatedId
    ensures v.relatedId.None? ==> r == v.itemId
  {
    v.relatedId.Or(v.itemId)
  }

  const ItemTypes: set<string> := {"Item", "Package"}
  const CallEvents: set<string> := {"call_accepted", "donor_called", "admin_called"}

  /** `item_or_call_log?` */
  predicate IsItemOrCallLog(v: Version) {
    (v.itemType.Some? && v.itemType.value in ItemTypes) || v.event in CallEvents
  }

  /**
   * `offer`: the id of the offer record the version belongs to, looked up
   * through `item` or `related`; `None` where the source returns nil.
   */
  function OfferOf(v: Version): (r: Option<int>)
    ensures r.Some? ==> IsItemOrCallLog(v)
    ensures !IsItemOrCallLog(v) ==> r.None?
    ensures v.itemType == Some("Offer") ==> r == (if v.event in CallEvents then v.itemId else None)
    ensures IsItemOrCallLog(v) && v.itemType != Some("Offer") ==>
      r == (if v.relatedType == Some("Offer") then v.relatedId else None)
  {
    if !IsItemOrCallLog(v) then None
    else if v.itemType == Some("Offer") then v.itemId
    else if v.relatedType == Some("Offer") then v.relatedId
    else None
  }
}
