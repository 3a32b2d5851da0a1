/**
 * The offer workflow: the eight offer states and the nine events that move
 * between them, the timestamp and `closed_by` hooks that run before each
 * transition, the derived state lists, the pseudo-state expansion of the
 * `in_states` scope, the default language and the two-language
 * cancellation message.
 *
 * The notifications, messages and van-order cancellation that run after
 * a transition are not modelled.
 */
module Offers {
  import opened Wrappers
  import Ruby

  datatype OfferState =
    | Draft | Submitted | UnderReview | Reviewed | Scheduled | Closed | Received | Cancelled

  datatype OfferEvent =
    | Cancel | Submit | StartReview | FinishReview | Schedule | CancelSchedule | Close | Receive | ReReview

  /** The state as it is stored. */
  function StateName(s: OfferState): (r: string)
    ensures |r| > 0
  {
    match s
    case Draft => "draft"
    case Submitted => "submitted"
    case UnderReview => "under_review"
    case Reviewed => "reviewed"
    case Scheduled => "scheduled"
    case Closed => "closed"
    case Received => "received"
    case Cancelled => "cancelled"
  }

  lemma StateNameInjective(s: OfferState, t: OfferState)
    ensures StateName(s) == StateName(t) ==> s == t
  {
    if s != t {
      assert StateName(s)[0] != StateName(t)[0] || |StateName(s)| != |StateName(t)|
        || StateName(s)[1] != StateName(t)[1] || StateName(s)[2] != StateName(t)[2];
    }
  }

  /**
   * The state reached by firing `e` in state `s`, or `None` when the
   * event is not allowed there. `cancel` is allowed from every state when
   * `canCancel` holds.
   */
  function Next(e: OfferEvent, s: OfferState, canCancel: bool): Option<OfferState> {
    match e
    case Cancel => if canCancel then Some(Cancelled) else None
    case Submit => if s == Draft then Some(Submitted) else None
    case StartReview => if s == Submitted then Some(UnderReview) else None
    case FinishReview => if s == UnderReview then Some(Reviewed) else None
    case Schedule => if s == Reviewed then Some(Scheduled) else None
    case CancelSchedule => if s == Scheduled then Some(Reviewed) else None
    case Close => if s in {UnderReview, Reviewed, Scheduled} then Some(Closed) else None
    case Receive => if s in {UnderReview, Reviewed, Scheduled} then Some(Received) else None
    case ReReview => if s in {Scheduled, Reviewed} then Some(UnderReview) else None
  }

  /** The transition table of every event but `cancel`, one (event, from, to) row per transition. */
  const Table: set<(OfferEvent, OfferState, OfferState)> := {
    (Submit, Draft, Submitted),
    (StartReview, Submitted, UnderReview),
    (FinishReview, UnderReview, Reviewed),
    (Schedule, Reviewed, Scheduled),
    (CancelSchedule, Scheduled, Reviewed),
    (Close, UnderReview, Closed), (Close, Reviewed, Closed), (Close, Scheduled, Closed),
    (Receive, UnderReview, Received), (Receive, Reviewed, Received), (Receive, Scheduled, Received),
    (ReReview, Scheduled, UnderReview), (ReReview, Reviewed, UnderReview)
  }

  /** `Next` is exactly the table, plus `cancel` from every state when it can be cancelled. */
  lemma NextIsTable(e: OfferEvent, s: OfferState, t: OfferState, canCancel: bool)
    ensures Next(e, s, canCancel) == Some(t) <==>
      (e != Cancel && (e, s, t) in Table) || (e == Cancel && canCancel && t == Cancelled)
  {
  }

  /** The only event that leaves a closed, received or cancelled offer is `cancel`. */
  lemma FinalStatesOnlyCancel(e: OfferEvent, s: OfferState, canCancel: bool)
    requires s in {Closed, Received, Cancelled} && e != Cancel
    ensures Next(e, s, canCancel).None?
  {
  }

  /** `valid_states`: the initial state, then the declared ones. */
  const ValidStates: seq<OfferState> := [Draft, Submitted, UnderReview, Reviewed, Scheduled, Closed, Received, Cancelled]

  /** `INACTIVE_STATES` */
  const InactiveStates: seq<OfferState> := [Received, Closed, Cancelled]

  /** `a - b` on arrays: the elements of `a` not in `b`, in order. */
  function Minus(a: seq<OfferState>, b: seq<OfferState>): (r: seq<OfferState>)
    ensures forall x :: x in r <==> x in a && x !in b
    ensures |r| <= |a|
  {
    if |a| == 0 then []
    else (if a[0] in b then [] else [a[0]]) + Minus(a[1..], b)
  }

  function ActiveStates(): seq<OfferState> {
    Minus(ValidStates, InactiveStates)
  }

  function NondraftStates(): seq<OfferState> {
    Minus(ValidStates, [Draft])
  }

  function DonorValidStates(): seq<OfferState> {
    Minus(ValidStates, [Cancelled])
  }

  /** What each derived list holds, state by state; active and inactive split the states. */
  lemma DerivedStateLists(s: OfferState)
    ensures s in ValidStates
    ensures s in ActiveStates() <==> s !in {Received, Closed, Cancelled}
    ensures s in ActiveStates() <==> s !in InactiveStates
    ensures s in NondraftStates() <==> s != Draft
    ensures s in DonorValidStates() <==> s != Cancelled
  {
    assert s in ValidStates by {
      match s
      case Draft => assert ValidStates[0] == s;
      case Submitted => assert ValidStates[1] == s;
      case UnderReview => assert ValidStates[2] == s;
      case Reviewed => assert ValidStates[3] == s;
      case Scheduled => assert ValidStates[4] == s;
      case Closed => assert ValidStates[5] == s;
      case Received => assert ValidStates[6] == s;
      case Cancelled => assert ValidStates[7] == s;
    }
    assert s in InactiveStates <==> s in {Received, Closed, Cancelled};
  }

  /** The names of a list of states. */
  function Names(ss: seq<OfferState>): (r: seq<string>)
    ensures |r| == |ss| && forall i :: 0 <= i < |ss| ==> r[i] == StateName(ss[i])
  {
    seq(|ss|, i requires 0 <= i < |ss| => StateName(ss[i]))
  }

  const PseudoStates: set<string> := {"inactive", "nondraft", "active", "for_donor"}

  lemma NoStateIsPseudo(s: OfferState)
    ensures StateName(s) !in PseudoStates
  {
  }

  /** `compact`: the non-nil entries. */
  function Compact(xs: seq<Option<string>>): (r: seq<string>)
    ensures forall x :: x in r <==> Some(x) in xs
  {
    if |xs| == 0 then []
    else (if xs[0].Some? then [xs[0].value] else []) + Compact(xs[1..])
  }

  /** `delete(x)`: every occurrence of `x` removed. */
  function Delete(xs: seq<string>, x: string): (r: seq<string>)
    ensures forall y :: y in r <==> y in xs && y != x
  {
    if |xs| == 0 then []
    else (if xs[0] == x then [] else [xs[0]]) + Delete(xs[1..], x)
  }

  /** `states.push(*expansion) if states.delete(name)` */
  function Expand(xs: seq<string>, name: string, expansion: seq<OfferState>): (r: seq<string>)
    ensures forall y :: y in r <==> (y in xs && y != name) || (name in xs && y in Names(expansion))
  {
    if name in xs then Delete(xs, name) + Names(expansion) else xs
  }

  /**
   * `in_states`: the given states with nils dropped, each pseudo-state
   * replaced by the states it stands for, duplicates removed.
   */
  function InStates(states: seq<Option<string>>): seq<string> {
    var s1 := Expand(Compact(states), "inactive", InactiveStates);
    var s2 := Expand(s1, "nondraft", NondraftStates());
    var s3 := Expand(s2, "active", ActiveStates());
    var s4 := Expand(s3, "for_donor", DonorValidStates());
    Ruby.Uniq(s4)
  }

  /**
   * A state is selected exactly when it is named, or a pseudo-state that
   * stands for it is named; no pseudo-state survives and nothing is
   * listed twice.
   */
  lemma {:induction false} InStatesSelects(states: seq<Option<string>>, s: OfferState)
    ensures StateName(s) in InStates(states) <==>
      Some(StateName(s)) in states
      || (Some("inactive") in states && s in InactiveStates)
      || (Some("nondraft") in states && s != Draft)
      || (Some("active") in states && s in ActiveStates())
      || (Some("for_donor") in states && s != Cancelled)
  {
    SelectsAny(states, s, InactiveStates, NondraftStates(), ActiveStates(), DonorValidStates());
    DerivedStateLists(s);
  }

  /** The nils dropped and the four expansions applied, for any expansions. */
  lemma SelectsAny(states: seq<Option<string>>, s: OfferState,
                   e1: seq<OfferState>, e2: seq<OfferState>, e3: seq<OfferState>, e4: seq<OfferState>)
    ensures StateName(s) in Ruby.Uniq(Expand(Expand(Expand(Expand(Compact(states), "inactive", e1), "nondraft", e2), "active", e3), "for_donor", e4)) <==>
      Some(StateName(s)) in states
      || (Some("inactive") in states && s in e1)
      || (Some("nondraft") in states && s in e2)
      || (Some("active") in states && s in e3)
      || (Some("for_donor") in states && s in e4)
  {
    var c := Compact(states);
    ExpandAll(c, s, e1, e2, e3, e4);
    assert StateName(s) in c <==> Some(StateName(s)) in states;
    assert "inactive" in c <==> Some("inactive") in states;
    assert "nondraft" in c <==> Some("nondraft") in states;
    assert "active" in c <==> Some("active") in states;
    assert "for_donor" in c <==> Some("for_donor") in states;
  }

  /** The four expansion steps of `in_states`, seen from a real state, for any expansions. */
  lemma {:induction false} ExpandAll(c: seq<string>, s: OfferState,
                                     e1: seq<OfferState>, e2: seq<OfferState>, e3: seq<OfferState>, e4: seq<OfferState>)
    ensures StateName(s) in Ruby.Uniq(Expand(Expand(Expand(Expand(c, "inactive", e1), "nondraft", e2), "active", e3), "for_donor", e4)) <==>
      StateName(s) in c
      || ("inactive" in c && s in e1)
      || ("nondraft" in c && s in e2)
      || ("active" in c && s in e3)
      || ("for_donor" in c && s in e4)
  {
    var s1 := Expand(c, "inactive", e1);
    var s2 := Expand(s1, "nondraft", e2);
    var s3 := Expand(s2, "active", e3);
    var s4 := Expand(s3, "for_donor", e4);
    ExpandState(c, "inactive", e1, s);
    ExpandState(s1, "nondraft", e2, s);
    ExpandState(s2, "active", e3, s);
    ExpandState(s3, "for_donor", e4, s);
    assert "nondraft" in s1 <==> "nondraft" in c by { ExpandPseudo(c, "inactive", e1, "nondraft"); }
    assert "active" in s2 <==> "active" in c by {
      ExpandPseudo(c, "inactive", e1, "active");
      ExpandPseudo(s1, "nondraft", e2, "active");
    }
    assert "for_donor" in s3 <==> "for_donor" in c by {
      ExpandPseudo(c, "inactive", e1, "for_donor");
      ExpandPseudo(s1, "nondraft", e2, "for_donor");
      ExpandPseudo(s2, "active", e3, "for_donor");
    }
    Ruby.UniqMembers(s4, StateName(s));
  }

  /** No pseudo-state survives the expansion, and nothing is listed twice. */
  lemma {:induction false} InStatesHasNoPseudo(states: seq<Option<string>>, p: string)
    requires p in PseudoStates
    ensures p !in InStates(states)
    ensures Ruby.Distinct(InStates(states))
  {
    var c := Compact(states);
    var s1 := Expand(c, "inactive", InactiveStates);
    var s2 := Expand(s1, "nondraft", NondraftStates());
    var s3 := Expand(s2, "active", ActiveStates());
    var s4 := Expand(s3, "for_donor", DonorValidStates());
    ExpandPseudo(c, "inactive", InactiveStates, p);
    ExpandPseudo(s1, "nondraft", NondraftStates(), p);
    ExpandPseudo(s2, "active", ActiveStates(), p);
    ExpandPseudo(s3, "for_donor", DonorValidStates(), p);
    Ruby.UniqMembers(s4, p);
  }

  /** One expansion step, seen from a real state. */
  lemma ExpandState(xs: seq<string>, name: string, expansion: seq<OfferState>, s: OfferState)
    requires name in PseudoStates
    ensures StateName(s) in Expand(xs, name, expansion) <==> StateName(s) in xs || (name in xs && s in expansion)
  {
    NoStateIsPseudo(s);
    NamesMember(expansion, s);
  }

  /** One expansion step, seen from a pseudo-state: it only ever removes one. */
  lemma ExpandPseudo(xs: seq<string>, name: string, expansion: seq<OfferState>, p: string)
    requires p in PseudoStates
    ensures p in Expand(xs, name, expansion) <==> p in xs && p != name
  {
    NamesHaveNoPseudo(expansion, p);
  }

  lemma NamesMember(ss: seq<OfferState>, s: OfferState)
    ensures StateName(s) in Names(ss) <==> s in ss
  {
    if StateName(s) in Names(ss) {
      var i :| 0 <= i < |ss| && Names(ss)[i] == StateName(s);
      StateNameInjective(ss[i], s);
    }
    if s in ss {
      var i :| 0 <= i < |ss| && ss[i] == s;
      assert Names(ss)[i] == StateName(s);
    }
  }

  lemma NamesHaveNoPseudo(ss: seq<OfferState>, p: string)
    requires p in PseudoStates
    ensures p !in Names(ss)
  {
    forall i | 0 <= i < |ss| ensures Names(ss)[i] != p {
      NoStateIsPseudo(ss[i]);
    }
  }

  /** The two-language van-cancellation text: English, a line break, Traditional Chinese. */
  function CancelMessage(english: string, chinese: string): (r: string)
    ensures |r| == |english| + 5 + |chinese|
    ensures r[..|english|] == english && r[|english|..|english| + 5] == "<br/>" && r[|english| + 5..] == chinese
  {
    english + "<br/>" + chinese
  }

  class Offer {
    var state: OfferState
    var submittedAt: Option<int>
    var reviewedAt: Option<int>
    var reviewCompletedAt: Option<int>
    var closedById: Option<int>
    var receivedAt: Option<int>
    var cancelledAt: Option<int>
    var language: Option<string>
    var gogovanCanCancel: Option<bool>   // None: no van order; Some(b): the van order's `can_cancel?`

    /** A loaded or new offer: `set_initial_state` gives a new one `draft`. */
    constructor (loaded: Option<OfferState>, gogovanCanCancel: Option<bool>)
      ensures state == loaded.GetOr(Draft) && this.gogovanCanCancel == gogovanCanCancel
      ensures submittedAt.None? && reviewedAt.None? && reviewCompletedAt.None?
      ensures closedById.None? && receivedAt.None? && cancelledAt.None? && language.None?
    {
      state := loaded.GetOr(Draft);
      this.gogovanCanCancel := gogovanCanCancel;
      submittedAt, reviewedAt, reviewCompletedAt := None, None, None;
      closedById, receivedAt, cancelledAt, language := None, None, None, None;
    }

    /** `can_cancel?`: without a van order an offer can always be cancelled. */
    predicate CanCancel()
      reads this`gogovanCanCancel
    {
      gogovanCanCancel.GetOr(true)
    }

    /**
     * Firing `e` at time `now` by `currentUser`: when `e` is allowed, the
     * hooks set their own timestamps (and `closed_by`) and the state moves
     * on; otherwise nothing changes and the event answers false.
     */
    method Fire(e: OfferEvent, now: int, currentUser: Option<int>) returns (ok: bool)
      modifies this`state, this`submittedAt, this`reviewedAt, this`reviewCompletedAt
      modifies this`closedById, this`receivedAt, this`cancelledAt
      ensures ok <==> Next(e, old(state), old(CanCancel())).Some?
      ensures state == (if ok then Next(e, old(state), old(CanCancel())).value else old(state))
      ensures submittedAt == (if ok && e == Submit then Some(now) else old(submittedAt))
      ensures reviewedAt == (if ok && e == StartReview then Some(now) else old(reviewedAt))
      ensures reviewCompletedAt == (if ok && e in {FinishReview, Close} then Some(now) else old(reviewCompletedAt))
      ensures closedById == (if ok && e in {Close, Cancel, Receive} then currentUser else old(closedById))
      ensures receivedAt == (if ok && e == Receive then Some(now) else old(receivedAt))
      ensures cancelledAt == (if ok && e == Cancel then Some(now) else old(cancelledAt))
    {
      var next := Next(e, state, CanCancel());
      if next.None? {
        return false;
      }
      if e == Submit {
        submittedAt := Some(now);
      }
      if e == StartReview {
        reviewedAt := Some(now);
      }
      if e == FinishReview || e == Close {
        reviewCompletedAt := Some(now);
      }
      if e == Close || e == Cancel || e == Receive {
        closedById := currentUser;
      }
      if e == Receive {
        receivedAt := Some(now);
      }
      if e == Cancel {
        cancelledAt := Some(now);
      }
      state := next.value;
      ok := true;
    }

    /** `set_language` (before create): an existing language is kept, else the current locale. */
    method SetLanguage(locale: string)
      modifies this`language
      ensures language == (if Ruby.IsPresent(old(language)) then old(language) else Some(locale))
    {
      if !Ruby.IsPresent(language) {
        language := Some(locale);
      }
    }
  }
}
