/**
 * Deleting a user at their request: the eligibility decision, the
 * redaction rules applied to message and contact audit versions, and the
 * sequence of erasure steps run in one transaction.
 */
module UserSafeDelete {
  import opened Wrappers
  import Ruby

  const MessageDeleted: string := "<message deleted>"
  const ContactDeleted: string := "Deleted contact"
  const LookupDeleted: string := "{}"

  // ---------------------------------------------------------------------
  // Eligibility
  // ---------------------------------------------------------------------

  datatype OfferRec = OfferRec(id: int, createdById: Option<int>, state: string)

  /** The offer states that do not count as activity in progress. */
  const SettledStates: set<string> := {"draft", "cancelled", "closed", "inactive"}

  /** The hash `can_delete` returns. */
  datatype DeleteCheck = DeleteCheck(result: bool, reason: string)

  const ActiveOffersReason: string := "User has active offers"
  const OrdersReason: string := "User has orders"
  const RolesReason: string := "User has roles"
  const OkReason: string := "OK"

  predicate HasActiveOffers(offers: seq<OfferRec>, userId: int) {
    exists i :: 0 <= i < |offers| && offers[i].createdById == Some(userId) && offers[i].state !in SettledStates
  }

  predicate HasOrders(orderCreators: seq<Option<int>>, userId: int) {
    Some(userId) in orderCreators
  }

  predicate HasRoles(userRoles: seq<int>, userId: int) {
    userId in userRoles
  }

  /**
   * `can_delete`: the first obstacle found, in the order active offers,
   * orders, roles; "OK" with a true result when there is none.
   */
  function CanDelete(offers: seq<OfferRec>, orderCreators: seq<Option<int>>, userRoles: seq<int>, userId: int): (r: DeleteCheck)
    ensures r.result <==> !HasActiveOffers(offers, userId) && !HasOrders(orderCreators, userId) && !HasRoles(userRoles, userId)
    ensures r.result <==> r.reason == OkReason
    ensures r.reason == ActiveOffersReason <==> HasActiveOffers(offers, userId)
    ensures r.reason == OrdersReason <==> !HasActiveOffers(offers, userId) && HasOrders(orderCreators, userId)
    ensures r.reason == RolesReason <==>
      !HasActiveOffers(offers, userId) && !HasOrders(orderCreators, userId) && HasRoles(userRoles, userId)
  {
    if HasActiveOffers(offers, userId) then DeleteCheck(false, ActiveOffersReason)
    else if HasOrders(orderCreators, userId) then DeleteCheck(false, OrdersReason)
    else if HasRoles(userRoles, userId) then DeleteCheck(false, RolesReason)
    else DeleteCheck(true, OkReason)
  }

  // ---------------------------------------------------------------------
  // Outcome of `delete!`
  // ---------------------------------------------------------------------

  /** How a call of `delete!` ends; every outcome but `Deleted` leaves the data as it was. */
  datatype DeleteOutcome = UserMissing | NotAllowed(reason: string) | ImageNotFound | Deleted

  /** A Ruby hash is truthy whatever it holds. */
  predicate Truthy(h: DeleteCheck) {
    true
  }

  /**
   * `delete!` as written: it branches on the hash `can_delete` returns,
   * and `Image.find` raises (rolling the transaction back) when the user
   * has no image or it is gone.
   */
  function DeleteOutcomeAsWritten(userExists: bool, check: DeleteCheck, imageFound: bool): (r: DeleteOutcome)
    ensures !r.NotAllowed?
    ensures r == UserMissing <==> !userExists
    ensures userExists && imageFound ==> r == Deleted
    ensures userExists && !imageFound ==> r == ImageNotFound
  {
    if !userExists then UserMissing
    else if !Truthy(check) then NotAllowed(check.reason)
    else if !imageFound then ImageNotFound
    else Deleted
  }

  /** As written, a user with an active offer is deleted all the same. */
  lemma AsWrittenIgnoresCheck()
    ensures var check := CanDelete([OfferRec(1, Some(7), "submitted")], [], [], 7);
      !check.result && DeleteOutcomeAsWritten(true, check, true) == Deleted
  {
    var offers := [OfferRec(1, Some(7), "submitted")];
    assert offers[0].createdById == Some(7) && offers[0].state !in SettledStates;
    assert HasActiveOffers(offers, 7);
  }

  /** As written, a user that may be deleted but has no image never is. */
  lemma AsWrittenNeedsImage()
    ensures var check := CanDelete([], [], [], 7);
      check.result && DeleteOutcomeAsWritten(true, check, false) == ImageNotFound
  {
  }

  /** The intended outcome: deletion happens exactly when the user exists and `can_delete` allows it. */
  function IntendedDeleteOutcome(userExists: bool, check: DeleteCheck): (r: DeleteOutcome)
    ensures r == Deleted <==> userExists && check.result
    ensures r.NotAllowed? ==> userExists && r.reason == check.reason
    ensures r == UserMissing <==> !userExists
  {
    if !userExists then UserMissing
    else if !check.result then NotAllowed(check.reason)
    else Deleted
  }

  // ---------------------------------------------------------------------
  // Version redaction
  // ---------------------------------------------------------------------

  /** A decoded JSON value of a version's `object` or `object_changes`. */
  datatype Json = JNull | JBool(b: bool) | JNum(n: int) | JStr(s: string) | JArr(elems: seq<Json>) | JObj(fields: map<string, Json>)

  /** `blank?` on a decoded JSON value. */
  predicate JsonBlank(x: Json) {
    match x
    case JNull => true
    case JBool(b) => !b
    case JNum(_) => false
    case JStr(s) => Ruby.IsBlank(s)
    case JArr(xs) => |xs| == 0
    case JObj(m) => |m| == 0
  }

  /** The `map!` block: nil for a blank entry, the replacement text otherwise. */
  function RedactEntries(xs: seq<Json>, replacement: string): (r: seq<Json>)
    ensures |r| == |xs|
  {
    seq(|xs|, i requires 0 <= i < |xs| => if JsonBlank(xs[i]) then JNull else JStr(replacement))
  }

  /** The three rewrites applied to one key of a version hash. */
  datatype Rule = Text(replacement: string) | Lookup | Changes(replacement: string)

  function Apply(rule: Rule, x: Json): Json {
    match rule
    case Text(rep) =>
      (match x
       case JStr(s) => if !Ruby.IsBlank(s) then JStr(rep) else x
       case JArr(xs) => if |xs| > 0 then JArr(RedactEntries(xs, rep)) else x
       case _ => x)
    case Lookup =>
      (match x
       case JStr(s) => if !Ruby.IsBlank(s) then JStr(LookupDeleted) else x
       case JArr(xs) => if |xs| > 0 then JArr([JStr(LookupDeleted), JObj(map[])]) else x
       case _ => x)
    case Changes(rep) =>
      (match x
       case JArr(xs) => JArr(RedactEntries(xs, rep))
       case _ => x)
  }

  /** What the rule leaves behind: no text other than blanks and the replacement. */
  predicate Scrubbed(rule: Rule, x: Json) {
    match rule
    case Text(rep) =>
      (match x
       case JStr(s) => Ruby.IsBlank(s) || s == rep
       case JArr(xs) => forall i :: 0 <= i < |xs| ==> xs[i] == JNull || xs[i] == JStr(rep)
       case _ => true)
    case Lookup =>
      (match x
       case JStr(s) => Ruby.IsBlank(s) || s == LookupDeleted
       case JArr(xs) => xs == [] || xs == [JStr(LookupDeleted), JObj(map[])]
       case _ => true)
    case Changes(rep) =>
      (match x
       case JArr(xs) => forall i :: 0 <= i < |xs| ==> xs[i] == JNull || xs[i] == JStr(rep)
       case _ => true)
  }

  predicate NonBlankRule(rule: Rule) {
    match rule
    case Text(rep) => !Ruby.IsBlank(rep)
    case Lookup => true
    case Changes(rep) => !Ruby.IsBlank(rep)
  }

  /** Every rule scrubs its value, and applying it a second time changes nothing. */
  lemma ApplyScrubsOnce(rule: Rule, x: Json)
    requires NonBlankRule(rule)
    ensures Scrubbed(rule, Apply(rule, x))
    ensures Apply(rule, Apply(rule, x)) == Apply(rule, x)
  {
    match rule
    case Text(rep) =>
      if x.JArr? && |x.elems| > 0 {
        var ys := RedactEntries(x.elems, rep);
        assert !JsonBlank(JStr(rep));
        assert RedactEntries(ys, rep) == ys;
      }
    case Lookup =>
      assert !Ruby.IsBlank(LookupDeleted) by { assert !Ruby.IsSpace(LookupDeleted[0]); }
    case Changes(rep) =>
      if x.JArr? {
        var ys := RedactEntries(x.elems, rep);
        assert !JsonBlank(JStr(rep));
        assert RedactEntries(ys, rep) == ys;
      }
  }

  /** `h[key]` rewritten by the rule, when the hash exists and holds the key. */
  function UpdateKey(h: Option<map<string, Json>>, key: string, rule: Rule): (r: Option<map<string, Json>>)
    ensures r.Some? <==> h.Some?
    ensures h.Some? ==> r.value.Keys == h.value.Keys
    ensures h.Some? ==> forall k :: k in h.value && k != key ==> r.value[k] == h.value[k]
    ensures h.Some? && key in h.value ==> r.value[key] == Apply(rule, h.value[key])
  {
    if h.Some? && key in h.value then Some(h.value[key := Apply(rule, h.value[key])]) else h
  }

  /** A scrubbed key of a hash that may be missing. */
  predicate KeyScrubbed(h: Option<map<string, Json>>, key: string, rule: Rule) {
    h.Some? && key in h.value ==> Scrubbed(rule, h.value[key])
  }

  lemma UpdateKeyScrubsOnce(h: Option<map<string, Json>>, key: string, rule: Rule)
    requires NonBlankRule(rule)
    ensures KeyScrubbed(UpdateKey(h, key, rule), key, rule)
    ensures UpdateKey(UpdateKey(h, key, rule), key, rule) == UpdateKey(h, key, rule)
  {
    if h.Some? && key in h.value {
      ApplyScrubsOnce(rule, h.value[key]);
      var m := h.value[key := Apply(rule, h.value[key])];
      assert m[key := Apply(rule, m[key])] == m;
    }
  }

  /** A version row; `whodunnit` is the acting user's id. */
  datatype VersionRow = VersionRow(
    itemType: string,
    itemId: int,
    relatedType: Option<string>,
    relatedId: Option<int>,
    whodunnit: Option<int>,
    obj: Option<map<string, Json>>,
    objectChanges: Option<map<string, Json>>)

  /** The two kinds of version the deletion rewrites. */
  datatype VersionKind = MessageVersion | ContactVersion

  function KindType(kind: VersionKind): string {
    match kind
    case MessageVersion => "Message"
    case ContactVersion => "Contact"
  }

  /**
   * The rewrite of one version: for a message the body (text rule) and the
   * lookup in `object` and the body in `object_changes`; for a contact the
   * name in both.
   */
  function Redact(kind: VersionKind, v: VersionRow): (r: VersionRow)
    ensures r.(obj := v.obj, objectChanges := v.objectChanges) == v
  {
    match kind
    case MessageVersion =>
      v.(obj := UpdateKey(UpdateKey(v.obj, "body", Text(MessageDeleted)), "lookup", Lookup),
         objectChanges := UpdateKey(v.objectChanges, "body", Changes(MessageDeleted)))
    case ContactVersion =>
      v.(obj := UpdateKey(v.obj, "name", Text(ContactDeleted)),
         objectChanges := UpdateKey(v.objectChanges, "name", Changes(ContactDeleted)))
  }

  /** After the rewrite no personal text is left in the keys it covers. */
  predicate RedactedVersion(kind: VersionKind, v: VersionRow) {
    match kind
    case MessageVersion =>
      KeyScrubbed(v.obj, "body", Text(MessageDeleted)) && KeyScrubbed(v.obj, "lookup", Lookup)
      && KeyScrubbed(v.objectChanges, "body", Changes(MessageDeleted))
    case ContactVersion =>
      KeyScrubbed(v.obj, "name", Text(ContactDeleted)) && KeyScrubbed(v.objectChanges, "name", Changes(ContactDeleted))
  }

  lemma ReplacementsNotBlank()
    ensures !Ruby.IsBlank(MessageDeleted) && !Ruby.IsBlank(ContactDeleted)
  {
    assert !Ruby.IsSpace(MessageDeleted[0]);
    assert !Ruby.IsSpace(ContactDeleted[0]);
  }

  /** The rewrite scrubs what it covers and is idempotent. */
  lemma RedactScrubsOnce(kind: VersionKind, v: VersionRow)
    ensures RedactedVersion(kind, Redact(kind, v))
    ensures Redact(kind, Redact(kind, v)) == Redact(kind, v)
  {
    ReplacementsNotBlank();
    match kind
    case MessageVersion =>
      var o1 := UpdateKey(v.obj, "body", Text(MessageDeleted));
      UpdateKeyScrubsOnce(v.obj, "body", Text(MessageDeleted));
      UpdateKeyScrubsOnce(o1, "lookup", Lookup);
      UpdateKeyScrubsOnce(v.objectChanges, "body", Changes(MessageDeleted));
      var o2 := UpdateKey(o1, "lookup", Lookup);
      assert KeyScrubbed(o2, "body", Text(MessageDeleted));
      var o3 := UpdateKey(o2, "body", Text(MessageDeleted));
      assert o3 == o2 by {
        if o2.Some? && "body" in o2.value {
          ApplyScrubsOnce(Text(MessageDeleted), o1.value["body"]);
          assert o2.value["body"] == o1.value["body"];
          assert o2.value["body" := Apply(Text(MessageDeleted), o2.value["body"])] == o2.value;
        }
      }
      assert UpdateKey(o3, "lookup", Lookup) == o2;
    case ContactVersion =>
      UpdateKeyScrubsOnce(v.obj, "name", Text(ContactDeleted));
      UpdateKeyScrubsOnce(v.objectChanges, "name", Changes(ContactDeleted));
  }

  /** The versions of the given kind whose item is in `ids`, rewritten; all others kept. */
  function RedactVersionsOf(vs: seq<VersionRow>, kind: VersionKind, ids: set<int>): (r: seq<VersionRow>)
    ensures |r| == |vs|
  {
    seq(|vs|, k requires 0 <= k < |vs| =>
      if vs[k].itemType == KindType(kind) && vs[k].itemId in ids then Redact(kind, vs[k]) else vs[k])
  }

  /** Rewriting for one set of items and then another is rewriting for their union. */
  lemma RedactVersionsCompose(vs: seq<VersionRow>, kind: VersionKind, a: set<int>, b: set<int>)
    ensures RedactVersionsOf(RedactVersionsOf(vs, kind, a), kind, b) == RedactVersionsOf(vs, kind, a + b)
  {
    var once := RedactVersionsOf(vs, kind, a);
    forall k | 0 <= k < |vs|
      ensures RedactVersionsOf(once, kind, b)[k] == RedactVersionsOf(vs, kind, a + b)[k]
    {
      RedactScrubsOnce(kind, vs[k]);
    }
  }

  /** The version identity columns, which no rewrite touches. */
  function Key(v: VersionRow): (string, int, Option<string>, Option<int>, Option<int>) {
    (v.itemType, v.itemId, v.relatedType, v.relatedId, v.whodunnit)
  }

  lemma RedactVersionsKeepsKeys(vs: seq<VersionRow>, kind: VersionKind, ids: set<int>)
    ensures forall k :: 0 <= k < |vs| ==> Key(RedactVersionsOf(vs, kind, ids)[k]) == Key(vs[k])
  {
  }

  // ---------------------------------------------------------------------
  // The records the deletion touches
  // ---------------------------------------------------------------------

  datatype User = User(
    title: Option<string>,
    firstName: Option<string>,
    lastName: Option<string>,
    mobile: Option<string>,
    otherPhone: Option<string>,
    email: Option<string>,
    disabled: bool,
    isMobileVerified: bool,
    isEmailVerified: bool,
    receiveEmail: bool,
    imageId: Option<int>)

  datatype MessageRec = MessageRec(id: int, senderId: Option<int>, isPrivate: bool, body: string)

  /** `OrganisationsUser::Status::EXPIRED`, or any other status. */
  datatype MembershipStatus = Expired | OtherStatus(name: string)

  datatype OrganisationsUser = OrganisationsUser(
    userId: int,
    status: MembershipStatus,
    preferredContactNumber: Option<string>,
    position: Option<string>)

  datatype Delivery = Delivery(offerId: Option<int>, contactId: Option<int>)

  datatype Contact = Contact(id: int, name: Option<string>, mobile: Option<string>)

  /** The tables as values. */
  datatype Db = Db(
    users: map<int, User>,
    images: set<int>,
    offers: seq<OfferRec>,
    orderCreators: seq<Option<int>>,
    messages: seq<MessageRec>,
    versions: seq<VersionRow>,
    organisationsUsers: seq<OrganisationsUser>,
    deliveries: seq<Delivery>,
    contacts: seq<Contact>,
    authTokens: seq<int>,
    printersUsers: seq<int>,
    userFavourites: seq<int>,
    userRoles: seq<int>)

  /** The attributes `delete_user_data` writes. */
  function DeletedUser(u: User): (r: User)
    ensures PersonalDataErased(r)
    ensures r.isMobileVerified == r.isEmailVerified == r.receiveEmail == false
  {
    u.(title := None, firstName := Some("Deleted"), lastName := Some("User"),
       mobile := None, otherPhone := None, email := None,
       disabled := true, isMobileVerified := false, isEmailVerified := false, receiveEmail := false,
       imageId := None)
  }

  /** Nothing that identifies or reaches the person is left, and the account is disabled. */
  predicate PersonalDataErased(u: User) {
    u.title.None? && u.firstName == Some("Deleted") && u.lastName == Some("User")
    && u.mobile.None? && u.otherPhone.None? && u.email.None? && u.imageId.None? && u.disabled
  }

  function ImageOf(u: User): set<int> {
    if u.imageId.Some? then {u.imageId.value} else {}
  }

  predicate SentPublicly(m: MessageRec, userId: int) {
    m.senderId == Some(userId) && !m.isPrivate
  }

  /** The messages after `delete_messages`: the user's public ones lose their body. */
  function RedactMessages(ms: seq<MessageRec>, userId: int): (r: seq<MessageRec>)
    ensures |r| == |ms|
  {
    seq(|ms|, k requires 0 <= k < |ms| => if SentPublicly(ms[k], userId) then ms[k].(body := MessageDeleted) else ms[k])
  }

  /** The ids of the user's public messages among the first `n`. */
  function PublicMessageIds(ms: seq<MessageRec>, userId: int, n: nat): (r: set<int>)
    requires n <= |ms|
  {
    if n == 0 then {}
    else PublicMessageIds(ms, userId, n - 1) + (if SentPublicly(ms[n - 1], userId) then {ms[n - 1].id} else {})
  }

  /** The user's public messages are exactly the ones counted. */
  lemma {:induction false} PublicMessageIdsMembers(ms: seq<MessageRec>, userId: int, n: nat, x: int)
    requires n <= |ms|
    ensures x in PublicMessageIds(ms, userId, n) <==> exists k :: 0 <= k < n && ms[k].id == x && SentPublicly(ms[k], userId)
  {
    if n > 0 {
      PublicMessageIdsMembers(ms, userId, n - 1, x);
    }
  }

  /** The memberships after `delete_organisations_users`. */
  function ExpireMemberships(ous: seq<OrganisationsUser>, userId: int): (r: seq<OrganisationsUser>)
    ensures |r| == |ous|
  {
    seq(|ous|, k requires 0 <= k < |ous| =>
      if ous[k].userId == userId
      then ous[k].(status := Expired, preferredContactNumber := None, position := None)
      else ous[k])
  }

  /** `@user.offers.pluck(:id)` */
  function UserOfferIds(offers: seq<OfferRec>, userId: int): set<int> {
    set k | 0 <= k < |offers| && offers[k].createdById == Some(userId) :: offers[k].id
  }

  /** A version that records the user uploading an image to one of their offers. */
  predicate UserOfferImage(v: VersionRow, offerIds: set<int>, userId: int) {
    v.itemType == "Image" && v.relatedType == Some("Offer") && v.relatedId.Some?
    && v.relatedId.value in offerIds && v.whodunnit == Some(userId)
  }

  /** The images `delete_images` destroys, found through the first `n` versions. */
  function UserOfferImages(vs: seq<VersionRow>, offerIds: set<int>, userId: int, n: nat): (r: set<int>)
    requires n <= |vs|
  {
    if n == 0 then {}
    else UserOfferImages(vs, offerIds, userId, n - 1) + (if UserOfferImage(vs[n - 1], offerIds, userId) then {vs[n - 1].itemId} else {})
  }

  /** An image goes exactly when one of the first `n` versions shows the user adding it to one of their offers. */
  lemma {:induction false} UserOfferImagesMembers(vs: seq<VersionRow>, offerIds: set<int>, userId: int, n: nat, x: int)
    requires n <= |vs|
    ensures x in UserOfferImages(vs, offerIds, userId, n) <==> exists k :: 0 <= k < n && vs[k].itemId == x && UserOfferImage(vs[k], offerIds, userId)
  {
    if n > 0 {
      UserOfferImagesMembers(vs, offerIds, userId, n - 1, x);
    }
  }

  /** Which images go depends only on the identity columns of the versions. */
  lemma {:induction false} UserOfferImagesByKeys(a: seq<VersionRow>, b: seq<VersionRow>, offerIds: set<int>, userId: int, n: nat)
    requires n <= |a| == |b|
    requires forall k :: 0 <= k < |a| ==> Key(a[k]) == Key(b[k])
    ensures UserOfferImages(a, offerIds, userId, n) == UserOfferImages(b, offerIds, userId, n)
  {
    if n > 0 {
      UserOfferImagesByKeys(a, b, offerIds, userId, n - 1);
      assert Key(a[n - 1]) == Key(b[n - 1]);
    }
  }

  predicate ContactExists(cs: seq<Contact>, id: int) {
    exists i :: 0 <= i < |cs| && cs[i].id == id
  }

  /** A delivery on one of the user's offers that joins an existing contact. */
  predicate JoinsContact(d: Delivery, cs: seq<Contact>, offerIds: set<int>) {
    d.offerId.Some? && d.offerId.value in offerIds && d.contactId.Some? && ContactExists(cs, d.contactId.value)
  }

  /** The contacts reached through the first `n` deliveries. */
  function UserContactIds(ds: seq<Delivery>, cs: seq<Contact>, offerIds: set<int>, n: nat): (r: set<int>)
    requires n <= |ds|
  {
    if n == 0 then {}
    else UserContactIds(ds, cs, offerIds, n - 1) + (if JoinsContact(ds[n - 1], cs, offerIds) then {ds[n - 1].contactId.value} else {})
  }

  /** A contact is renamed exactly when one of the first `n` deliveries joins it. */
  lemma {:induction false} UserContactIdsMembers(ds: seq<Delivery>, cs: seq<Contact>, offerIds: set<int>, n: nat, x: int)
    requires n <= |ds|
    ensures x in UserContactIds(ds, cs, offerIds, n) <==> exists k :: 0 <= k < n && ds[k].contactId == Some(x) && JoinsContact(ds[k], cs, offerIds)
  {
    if n > 0 {
      UserContactIdsMembers(ds, cs, offerIds, n - 1, x);
    }
  }

  /** The contacts whose id is in `ids` renamed and their mobile removed. */
  function RenameContacts(cs: seq<Contact>, ids: set<int>): (r: seq<Contact>)
    ensures |r| == |cs|
  {
    seq(|cs|, k requires 0 <= k < |cs| =>
      if cs[k].id in ids then cs[k].(name := Some(ContactDeleted), mobile := None) else cs[k])
  }

  lemma RenameContactsCompose(cs: seq<Contact>, a: set<int>, b: set<int>)
    ensures RenameContacts(RenameContacts(cs, a), b) == RenameContacts(cs, a + b)
  {
    assert forall k :: 0 <= k < |cs| ==> RenameContacts(RenameContacts(cs, a), b)[k] == RenameContacts(cs, a + b)[k];
  }

  /** `destroy_all` on the rows that belong to the user. */
  function Without(owners: seq<int>, userId: int): (r: seq<int>)
    ensures forall x :: x in r <==> x in owners && x != userId
    ensures |r| <= |owners|
  {
    if |owners| == 0 then []
    else Without(owners[..|owners| - 1], userId) + (if owners[|owners| - 1] == userId then [] else [owners[|owners| - 1]])
  }

  /**
   * The whole erasure `delete!` performs once it proceeds, in the order of
   * its steps (with the missing image tolerated).
   */
  function Erased(db: Db, userId: int): Db
    requires userId in db.users
  {
    ContactsAndAssociationsErased(ProfileAndMessagesErased(db, userId), userId)
  }

  /** The first four steps: profile, public messages and their versions, memberships, offer images. */
  function ProfileAndMessagesErased(db: Db, userId: int): Db
    requires userId in db.users
  {
    MembershipsAndImagesErased(UserDataAndMessagesErased(db, userId), userId)
  }

  /** The first two steps: the profile and its image, then the public messages and their versions. */
  function UserDataAndMessagesErased(db: Db, userId: int): (r: Db)
    requires userId in db.users
    ensures userId in r.users
  {
    var messageIds := PublicMessageIds(db.messages, userId, |db.messages|);
    db.(
      users := db.users[userId := DeletedUser(db.users[userId])],
      images := db.images - ImageOf(db.users[userId]),
      messages := RedactMessages(db.messages, userId),
      versions := RedactVersionsOf(db.versions, MessageVersion, messageIds))
  }

  /** The third and fourth steps: the memberships, then the images on the user's offers. */
  function MembershipsAndImagesErased(db: Db, userId: int): Db {
    db.(
      organisationsUsers := ExpireMemberships(db.organisationsUsers, userId),
      images := db.images - UserOfferImages(db.versions, UserOfferIds(db.offers, userId), userId, |db.versions|))
  }

  /** The last two steps: the contacts of the user's deliveries and their versions, then the associations. */
  function ContactsAndAssociationsErased(db: Db, userId: int): Db {
    var contactIds := UserContactIds(db.deliveries, db.contacts, UserOfferIds(db.offers, userId), |db.deliveries|);
    db.(
      versions := RedactVersionsOf(db.versions, ContactVersion, contactIds),
      contacts := RenameContacts(db.contacts, contactIds),
      authTokens := Without(db.authTokens, userId),
      printersUsers := Without(db.printersUsers, userId),
      userFavourites := Without(db.userFavourites, userId),
      userRoles := Without(db.userRoles, userId))
  }

  /**
   * What the erasure guarantees: the user's profile is wiped and nobody
   * else's is touched, their public messages and those messages' versions
   * hold no text, their memberships are expired, their tokens, printers,
   * favourites and roles are gone, and offers, orders and deliveries stay.
   */
  lemma ErasedForgetsUser(db: Db, userId: int)
    requires userId in db.users
    ensures var r := Erased(db, userId);
      && r.users.Keys == db.users.Keys
      && PersonalDataErased(r.users[userId])
      && (forall u :: u in db.users && u != userId ==> r.users[u] == db.users[u])
      && (forall k :: 0 <= k < |r.messages| && SentPublicly(db.messages[k], userId) ==> r.messages[k].body == MessageDeleted)
      && (forall k :: (0 <= k < |r.versions| && db.versions[k].itemType == "Message"
            && db.versions[k].itemId in PublicMessageIds(db.messages, userId, |db.messages|)) ==>
            RedactedVersion(MessageVersion, r.versions[k]))
      && (forall k :: 0 <= k < |r.organisationsUsers| && db.organisationsUsers[k].userId == userId ==>
            r.organisationsUsers[k].status == Expired && r.organisationsUsers[k].position.None?)
      && userId !in r.authTokens && userId !in r.printersUsers
      && userId !in r.userFavourites && userId !in r.userRoles
      && r.offers == db.offers && r.orderCreators == db.orderCreators && r.deliveries == db.deliveries
  {
    var r := Erased(db, userId);
    var messageIds := PublicMessageIds(db.messages, userId, |db.messages|);
    var once := ProfileAndMessagesErased(db, userId).versions;
    forall k | 0 <= k < |r.versions| && db.versions[k].itemType == "Message" && db.versions[k].itemId in messageIds
      ensures RedactedVersion(MessageVersion, r.versions[k])
    {
      RedactScrubsOnce(MessageVersion, db.versions[k]);
      assert once[k] == Redact(MessageVersion, db.versions[k]);
      assert once[k].itemType == "Message";
      assert r.versions[k] == once[k];
    }
  }

  // ---------------------------------------------------------------------
  // The deletion, step by step
  // ---------------------------------------------------------------------

  class Store {
    var users: map<int, User>
    var images: set<int>
    var offers: seq<OfferRec>
    var orderCreators: seq<Option<int>>
    var messages: seq<MessageRec>
    var versions: seq<VersionRow>
    var organisationsUsers: seq<OrganisationsUser>
    var deliveries: seq<Delivery>
    var contacts: seq<Contact>
    var authTokens: seq<int>
    var printersUsers: seq<int>
    var userFavourites: seq<int>
    var userRoles: seq<int>

    constructor(db: Db)
      ensures Snapshot() == db
    {
      users, images, offers, orderCreators := db.users, db.images, db.offers, db.orderCreators;
      messages, versions, organisationsUsers := db.messages, db.versions, db.organisationsUsers;
      deliveries, contacts := db.deliveries, db.contacts;
      authTokens, printersUsers, userFavourites, userRoles := db.authTokens, db.printersUsers, db.userFavourites, db.userRoles;
    }

    function Snapshot(): Db
      reads this
    {
      Db(users, images, offers, orderCreators, messages, versions, organisationsUsers,
         deliveries, contacts, authTokens, printersUsers, userFavourites, userRoles)
    }

    /** `Image.find(image_id)` succeeds: the user has an image and it is there. */
    predicate ImageFound(userId: int)
      reads this`users, this`images
    {
      userId in users && users[userId].imageId.Some? && users[userId].imageId.value in images
    }

    /** `delete_user_data`, with the image destroyed when there is one. */
    method DeleteUserData(userId: int)
      requires userId in users
      modifies this`users, this`images
      ensures users == old(users)[userId := DeletedUser(old(users)[userId])]
      ensures images == old(images) - ImageOf(old(users)[userId])
    {
      var imageId := users[userId].imageId;
      users := users[userId := DeletedUser(users[userId])];
      if imageId.Some? {
        images := images - {imageId.value};
      }
    }

    /** Rewrite every version of the given kind whose item is `id`, one version at a time. */
    method RedactVersionRows(kind: VersionKind, id: int)
      modifies this`versions
      ensures versions == RedactVersionsOf(old(versions), kind, {id})
    {
      var j := 0;
      while j < |versions|
        invariant 0 <= j <= |versions| == |old(versions)|
        invariant forall k :: 0 <= k < |versions| ==> (versions[k] ==
          if k < j && old(versions)[k].itemType == KindType(kind) && old(versions)[k].itemId == id
          then Redact(kind, old(versions)[k]) else old(versions)[k])
      {
        var v := versions[j];
        if v.itemType == KindType(kind) && v.itemId == id {
          versions := versions[j := Redact(kind, v)];
        }
        j := j + 1;
      }
      assert versions == RedactVersionsOf(old(versions), kind, {id});
    }

    /** One message of `delete_messages`: its body replaced, then its versions rewritten. */
    method DeleteMessage(i: int)
      requires 0 <= i < |messages|
      modifies this`messages, this`versions
      ensures messages == old(messages)[i := old(messages)[i].(body := MessageDeleted)]
      ensures versions == RedactVersionsOf(old(versions), MessageVersion, {old(messages)[i].id})
    {
      var m := messages[i];
      messages := messages[i := m.(body := MessageDeleted)];
      RedactVersionRows(MessageVersion, m.id);
    }

    /** `delete_messages`: each public message of the user, then its versions. */
    method DeleteMessages(userId: int)
      modifies this`messages, this`versions
      ensures messages == RedactMessages(old(messages), userId)
      ensures versions == RedactVersionsOf(old(versions), MessageVersion, PublicMessageIds(old(messages), userId, |old(messages)|))
    {
      ghost var ms0 := messages;
      ghost var vs0 := versions;
      var i := 0;
      while i < |messages|
        invariant 0 <= i <= |messages| == |ms0|
        invariant forall k :: 0 <= k < |messages| ==> (messages[k] ==
          if k < i && SentPublicly(ms0[k], userId) then ms0[k].(body := MessageDeleted) else ms0[k])
        invariant versions == RedactVersionsOf(vs0, MessageVersion, PublicMessageIds(ms0, userId, i))
      {
        ghost var done := PublicMessageIds(ms0, userId, i);
        if SentPublicly(messages[i], userId) {
          assert PublicMessageIds(ms0, userId, i + 1) == done + {ms0[i].id};
          DeleteMessage(i);
          RedactVersionsCompose(vs0, MessageVersion, done, {ms0[i].id});
        } else {
          assert PublicMessageIds(ms0, userId, i + 1) == done;
        }
        i := i + 1;
      }
      assert messages == RedactMessages(ms0, userId);
    }

    /** `delete_organisations_users` */
    method DeleteOrganisationsUsers(userId: int)
      modifies this`organisationsUsers
      ensures organisationsUsers == ExpireMemberships(old(organisationsUsers), userId)
    {
      var i := 0;
      while i < |organisationsUsers|
        invariant 0 <= i <= |organisationsUsers| == |old(organisationsUsers)|
        invariant forall k :: 0 <= k < |organisationsUsers| ==> (organisationsUsers[k] ==
          if k < i && old(organisationsUsers)[k].userId == userId
          then old(organisationsUsers)[k].(status := Expired, preferredContactNumber := None, position := None)
          else old(organisationsUsers)[k])
      {
        var ou := organisationsUsers[i];
        if ou.userId == userId {
          organisationsUsers := organisationsUsers[i := ou.(status := Expired, preferredContactNumber := None, position := None)];
        }
        i := i + 1;
      }
      assert organisationsUsers == ExpireMemberships(old(organisationsUsers), userId);
    }

    /** `delete_images`: the images the user put on their own offers. */
    method DeleteImages(userId: int)
      modifies this`images
      ensures images == old(images) - UserOfferImages(versions, UserOfferIds(offers, userId), userId, |versions|)
    {
      var offerIds := UserOfferIds(offers, userId);
      var j := 0;
      while j < |versions|
        invariant 0 <= j <= |versions|
        invariant images == old(images) - UserOfferImages(versions, offerIds, userId, j)
      {
        if UserOfferImage(versions[j], offerIds, userId) {
          images := images - {versions[j].itemId};
        }
        j := j + 1;
      }
    }

    /** One contact of `delete_contacts`: renamed, its mobile removed, then its versions rewritten. */
    method DeleteContact(c: int)
      modifies this`contacts, this`versions
      ensures contacts == RenameContacts(old(contacts), {c})
      ensures versions == RedactVersionsOf(old(versions), ContactVersion, {c})
    {
      contacts := RenameContacts(contacts, {c});
      RedactVersionRows(ContactVersion, c);
    }

    /** `delete_contacts`: each contact joined through a delivery on the user's offers, then its versions. */
    method DeleteContacts(userId: int)
      modifies this`contacts, this`versions
      ensures contacts == RenameContacts(old(contacts), UserContactIds(deliveries, old(contacts), UserOfferIds(offers, userId), |deliveries|))
      ensures versions == RedactVersionsOf(old(versions), ContactVersion,
        UserContactIds(deliveries, old(contacts), UserOfferIds(offers, userId), |deliveries|))
    {
      var offerIds := UserOfferIds(offers, userId);
      var cs0 := contacts;
      ghost var vs0 := versions;
      var j := 0;
      while j < |deliveries|
        invariant 0 <= j <= |deliveries|
        invariant contacts == RenameContacts(cs0, UserContactIds(deliveries, cs0, offerIds, j))
        invariant versions == RedactVersionsOf(vs0, ContactVersion, UserContactIds(deliveries, cs0, offerIds, j))
      {
        ghost var done := UserContactIds(deliveries, cs0, offerIds, j);
        var d := deliveries[j];
        if JoinsContact(d, cs0, offerIds) {
          var c := d.contactId.value;
          assert UserContactIds(deliveries, cs0, offerIds, j + 1) == done + {c};
          DeleteContact(c);
          RenameContactsCompose(cs0, done, {c});
          RedactVersionsCompose(vs0, ContactVersion, done, {c});
        } else {
          assert UserContactIds(deliveries, cs0, offerIds, j + 1) == done;
        }
        j := j + 1;
      }
    }

    /** `delete_associations` */
    method DeleteAssociations(userId: int)
      modifies this`authTokens, this`printersUsers, this`userFavourites, this`userRoles
      ensures authTokens == Without(old(authTokens), userId)
      ensures printersUsers == Without(old(printersUsers), userId)
      ensures userFavourites == Without(old(userFavourites), userId)
      ensures userRoles == Without(old(userRoles), userId)
    {
      authTokens := Without(authTokens, userId);
      printersUsers := Without(printersUsers, userId);
      userFavourites := Without(userFavourites, userId);
      userRoles := Without(userRoles, userId);
    }

    /** The first four steps of `delete!`: profile, messages, memberships, images. */
    method DeleteProfileAndMessages(userId: int)
      requires userId in users
      modifies this`users, this`images, this`messages, this`versions, this`organisationsUsers
      ensures Snapshot() == ProfileAndMessagesErased(old(Snapshot()), userId)
    {
      DeleteUserDataAndMessages(userId);
      DeleteMembershipsAndImages(userId);
    }

    /** The first two steps of `delete!`: profile, then messages. */
    method DeleteUserDataAndMessages(userId: int)
      requires userId in users
      modifies this`users, this`images, this`messages, this`versions
      ensures Snapshot() == UserDataAndMessagesErased(old(Snapshot()), userId)
    {
      ghost var db := Snapshot();
      DeleteUserData(userId);
      DeleteMessages(userId);
      ghost var e := UserDataAndMessagesErased(db, userId);
      assert users == e.users && images == e.images && messages == e.messages && versions == e.versions;
    }

    /** The third and fourth steps of `delete!`: memberships, then images. */
    method DeleteMembershipsAndImages(userId: int)
      modifies this`organisationsUsers, this`images
      ensures Snapshot() == MembershipsAndImagesErased(old(Snapshot()), userId)
    {
      ghost var db := Snapshot();
      DeleteOrganisationsUsers(userId);
      DeleteImages(userId);
      ghost var e := MembershipsAndImagesErased(db, userId);
      assert organisationsUsers == e.organisationsUsers && images == e.images;
    }

    /** The last two steps of `delete!`: contacts, then associations. */
    method DeleteContactsAndAssociations(userId: int)
      modifies this`contacts, this`versions, this`authTokens, this`printersUsers, this`userFavourites, this`userRoles
      ensures Snapshot() == ContactsAndAssociationsErased(old(Snapshot()), userId)
    {
      ghost var db := Snapshot();
      DeleteContacts(userId);
      DeleteAssociations(userId);
      ghost var e := ContactsAndAssociationsErased(db, userId);
      assert contacts == e.contacts && versions == e.versions;
      assert authTokens == e.authTokens && printersUsers == e.printersUsers;
      assert userFavourites == e.userFavourites && userRoles == e.userRoles;
    }

    /** The six steps of `delete!` in order. */
    method Erase(userId: int)
      requires userId in users
      modifies this`users, this`images, this`messages, this`versions, this`organisationsUsers, this`contacts
      modifies this`authTokens, this`printersUsers, this`userFavourites, this`userRoles
      ensures Snapshot() == Erased(old(Snapshot()), userId)
    {
      DeleteProfileAndMessages(userId);
      DeleteContactsAndAssociations(userId);
    }

    /**
     * `delete!` as written: the user must exist, the hash from `can_delete`
     * is only tested for truthiness, and a missing image raises inside the
     * transaction, which undoes the profile update made before it.
     */
    method DeleteBang(userId: int) returns (outcome: DeleteOutcome)
      modifies this`users, this`images, this`messages, this`versions, this`organisationsUsers, this`contacts
      modifies this`authTokens, this`printersUsers, this`userFavourites, this`userRoles
      ensures outcome == DeleteOutcomeAsWritten(userId in old(users),
        CanDelete(old(offers), old(orderCreators), old(userRoles), userId), old(ImageFound(userId)))
      ensures outcome == Deleted ==> userId in old(users) && Snapshot() == Erased(old(Snapshot()), userId)
      ensures outcome != Deleted ==> Snapshot() == old(Snapshot())
    {
      if userId !in users {
        return UserMissing;
      }
      var check := CanDelete(offers, orderCreators, userRoles, userId);
      if Truthy(check) {
        if !ImageFound(userId) {
          return ImageNotFound;
        }
        Erase(userId);
        return Deleted;
      }
      outcome := NotAllowed(check.reason);
    }

    /** `delete!` as intended: the check's result decides, and a user without an image is deleted too. */
    method SafeDelete(userId: int) returns (outcome: DeleteOutcome)
      modifies this`users, this`images, this`messages, this`versions, this`organisationsUsers, this`contacts
      modifies this`authTokens, this`printersUsers, this`userFavourites, this`userRoles
      ensures outcome == IntendedDeleteOutcome(userId in old(users), CanDelete(old(offers), old(orderCreators), old(userRoles), userId))
      ensures outcome == Deleted ==> userId in old(users) && Snapshot() == Erased(old(Snapshot()), userId)
      ensures outcome != Deleted ==> Snapshot() == old(Snapshot())
    {
      if userId !in users {
        return UserMissing;
      }
      var check := CanDelete(offers, orderCreators, userRoles, userId);
      if !check.result {
        return NotAllowed(check.reason);
      }
      Erase(userId);
      outcome := Deleted;
    }
  }
}
