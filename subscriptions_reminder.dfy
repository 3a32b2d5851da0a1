/**
 * The SMS reminder for unread messages: which donors are due a reminder,
 * and the pass that stamps each of them with the time of the reminder.
 * Times are integer seconds; `None` is SQL NULL.
 */
module SubscriptionsReminder {
  import opened Wrappers
  import Ruby

  datatype UserRow = UserRow(id: int, createdAt: int, smsReminderSentAt: Option<int>)
  datatype OfferRow = OfferRow(id: int, state: string, createdById: Option<int>)
  datatype MessageRow = MessageRow(
    id: int,
    createdAt: int,
    offerId: Option<int>,
    itemId: Option<int>,
    orderId: Option<int>,
    senderId: Option<int>)
  datatype SubscriptionRow = SubscriptionRow(userId: int, messageId: int, offerId: int, state: string)

  /** The offer states of a donor who is still active (not draft, closed or cancelled). */
  const ReminderStates: set<string> :=
    {"submitted", "under_review", "reviewed", "scheduled", "received", "receiving", "inactive"}

  /** `COALESCE(users.sms_reminder_sent_at, users.created_at)` */
  function LastReminded(u: UserRow): int {
    u.smsReminderSentAt.GetOr(u.createdAt)
  }

  /** The user created an offer in one of the reminder states. */
  predicate HasActiveOffer(u: UserRow, offers: seq<OfferRow>) {
    exists k :: 0 <= k < |offers| && offers[k].state in ReminderStates && offers[k].createdById == Some(u.id)
  }

  /**
   * One row of the join of a user's subscription with its message and its
   * offer that passes every message condition: unread, newer than the last
   * reminder, about an offer or item and not an order, on an offer the user
   * created, and sent by somebody else (a NULL sender never qualifies).
   */
  predicate UnreadFromOthers(u: UserRow, s: SubscriptionRow, m: MessageRow, o: OfferRow) {
    s.userId == u.id && s.messageId == m.id && s.offerId == o.id
    && s.state == "unread"
    && m.createdAt > LastReminded(u)
    && (m.offerId.Some? || m.itemId.Some?) && m.orderId.None?
    && o.createdById == Some(u.id)
    && m.senderId.Some? && m.senderId.value != u.id
  }

  predicate HasUnreadFromOthers(u: UserRow, offers: seq<OfferRow>, messages: seq<MessageRow>, subscriptions: seq<SubscriptionRow>) {
    exists i, j, k :: 0 <= i < |subscriptions| && 0 <= j < |messages| && 0 <= k < |offers|
      && UnreadFromOthers(u, subscriptions[i], messages[j], offers[k])
  }

  /** A user that `user_candidates_for_reminder` returns. */
  predicate IsCandidate(u: UserRow, offers: seq<OfferRow>, messages: seq<MessageRow>, subscriptions: seq<SubscriptionRow>, cutoff: int) {
    HasActiveOffer(u, offers) && LastReminded(u) < cutoff && HasUnreadFromOthers(u, offers, messages, subscriptions)
  }

  /** The ids of the candidate users among `users`, in order, duplicates kept. */
  function CandidateIds(users: seq<UserRow>, offers: seq<OfferRow>, messages: seq<MessageRow>,
                        subscriptions: seq<SubscriptionRow>, cutoff: int): seq<int>
  {
    if |users| == 0 then []
    else
      var front := CandidateIds(users[..|users| - 1], offers, messages, subscriptions, cutoff);
      front + (if IsCandidate(users[|users| - 1], offers, messages, subscriptions, cutoff) then [users[|users| - 1].id] else [])
  }

  /** An id is listed exactly when some user with that id meets every condition. */
  lemma {:induction false} CandidateIdsMembers(users: seq<UserRow>, offers: seq<OfferRow>, messages: seq<MessageRow>,
                                              subscriptions: seq<SubscriptionRow>, cutoff: int, x: int)
    ensures x in CandidateIds(users, offers, messages, subscriptions, cutoff) <==>
      exists k :: 0 <= k < |users| && users[k].id == x && IsCandidate(users[k], offers, messages, subscriptions, cutoff)
  {
    if |users| > 0 {
      var front := users[..|users| - 1];
      CandidateIdsMembers(front, offers, messages, subscriptions, cutoff, x);
      assert forall k :: 0 <= k < |users| - 1 ==> front[k] == users[k];
      if x in CandidateIds(users, offers, messages, subscriptions, cutoff) && x !in CandidateIds(front, offers, messages, subscriptions, cutoff) {
        assert users[|users| - 1].id == x && IsCandidate(users[|users| - 1], offers, messages, subscriptions, cutoff);
      }
    }
  }

  /** `user_candidates_for_reminder`, with `.distinct`. */
  function Candidates(users: seq<UserRow>, offers: seq<OfferRow>, messages: seq<MessageRow>,
                      subscriptions: seq<SubscriptionRow>, cutoff: int): seq<int> {
    Ruby.Uniq(CandidateIds(users, offers, messages, subscriptions, cutoff))
  }

  /** The candidates are exactly the users that meet every condition, each listed once. */
  lemma CandidatesAreMatchingUsers(users: seq<UserRow>, offers: seq<OfferRow>, messages: seq<MessageRow>,
                                  subscriptions: seq<SubscriptionRow>, cutoff: int, x: int)
    ensures x in Candidates(users, offers, messages, subscriptions, cutoff) <==>
      exists k :: 0 <= k < |users| && users[k].id == x && IsCandidate(users[k], offers, messages, subscriptions, cutoff)
    ensures Ruby.Distinct(Candidates(users, offers, messages, subscriptions, cutoff))
  {
    CandidateIdsMembers(users, offers, messages, subscriptions, cutoff, x);
    Ruby.UniqMembers(CandidateIds(users, offers, messages, subscriptions, cutoff), x);
  }

  /** Every user whose id is in `ids` stamped as reminded at `now`. */
  function Stamp(users: seq<UserRow>, ids: seq<int>, now: int): (r: seq<UserRow>)
    ensures |r| == |users|
  {
    seq(|users|, k requires 0 <= k < |users| =>
      if users[k].id in ids then users[k].(smsReminderSentAt := Some(now)) else users[k])
  }

  lemma StampAppend(users: seq<UserRow>, ids: seq<int>, x: int, now: int)
    ensures Stamp(Stamp(users, ids, now), [x], now) == Stamp(users, ids + [x], now)
  {
    assert forall k :: 0 <= k < |users| ==> Stamp(Stamp(users, ids, now), [x], now)[k] == Stamp(users, ids + [x], now)[k];
  }

  /** With unique user ids, the stamp lands on every candidate and on no other user. */
  lemma StampsExactlyCandidates(users: seq<UserRow>, offers: seq<OfferRow>, messages: seq<MessageRow>,
                                subscriptions: seq<SubscriptionRow>, cutoff: int, now: int, k: int)
    requires forall a, b :: 0 <= a < |users| && 0 <= b < |users| && users[a].id == users[b].id ==> a == b
    requires 0 <= k < |users|
    ensures var after := Stamp(users, Candidates(users, offers, messages, subscriptions, cutoff), now);
      if IsCandidate(users[k], offers, messages, subscriptions, cutoff)
      then after[k] == users[k].(smsReminderSentAt := Some(now))
      else after[k] == users[k]
  {
    CandidatesAreMatchingUsers(users, offers, messages, subscriptions, cutoff, users[k].id);
  }

  /**
   * Once the reminded users are stamped at a time not before the cutoff,
   * a second pass with the same cutoff reminds nobody.
   */
  lemma NoSecondReminder(users: seq<UserRow>, offers: seq<OfferRow>, messages: seq<MessageRow>,
                         subscriptions: seq<SubscriptionRow>, cutoff: int, now: int)
    requires now >= cutoff
    ensures Candidates(Stamp(users, Candidates(users, offers, messages, subscriptions, cutoff), now),
                       offers, messages, subscriptions, cutoff) == []
  {
    var first := Candidates(users, offers, messages, subscriptions, cutoff);
    var after := Stamp(users, first, now);
    forall k | 0 <= k < |after|
      ensures !IsCandidate(after[k], offers, messages, subscriptions, cutoff)
    {
      if users[k].id !in first {
        CandidatesAreMatchingUsers(users, offers, messages, subscriptions, cutoff, users[k].id);
      }
    }
    var second := Candidates(after, offers, messages, subscriptions, cutoff);
    if |second| > 0 {
      CandidatesAreMatchingUsers(after, offers, messages, subscriptions, cutoff, second[0]);
    }
  }

  /** The users table and the tables the candidate query reads. */
  class Reminders {
    var users: seq<UserRow>
    const offers: seq<OfferRow>
    const messages: seq<MessageRow>
    const subscriptions: seq<SubscriptionRow>

    constructor(users: seq<UserRow>, offers: seq<OfferRow>, messages: seq<MessageRow>, subscriptions: seq<SubscriptionRow>)
      ensures this.users == users && this.offers == offers
      ensures this.messages == messages && this.subscriptions == subscriptions
    {
      this.users := users;
      this.offers := offers;
      this.messages := messages;
      this.subscriptions := subscriptions;
    }

    /**
     * `generate`: the candidates are chosen once, then each is stamped with
     * `now` in turn; the result lists the users sent an SMS, in order.
     * `cutoff` is the time `delta` stands for.
     */
    method Generate(cutoff: int, now: int) returns (reminded: seq<int>)
      modifies this`users
      ensures reminded == Candidates(old(users), offers, messages, subscriptions, cutoff)
      ensures users == Stamp(old(users), reminded, now)
    {
      var candidates := Candidates(users, offers, messages, subscriptions, cutoff);
      var i := 0;
      while i < |candidates|
        invariant 0 <= i <= |candidates|
        invariant users == Stamp(old(users), candidates[..i], now)
      {
        StampAppend(old(users), candidates[..i], candidates[i], now);
        assert candidates[..i + 1] == candidates[..i] + [candidates[i]];
        users := Stamp(users, [candidates[i]], now);
        i := i + 1;
      }
      assert candidates[..i] == candidates;
      reminded := candidates;
    }
  }
}
