/**
 * The offer filter: a conjunction of optional conditions (state, priority,
 * own reviews, due window) applied to offer rows, and the "priority" and
 * "last 6pm" time rules. Times are integer seconds; `utcOffset` is the
 * application time zone's offset in seconds (no daylight saving).
 */
module OfferFiltering {
  import opened Wrappers
  import Ruby

  /** The columns of an offer row (joined with its schedule) the filter reads; `None` is SQL NULL. */
  datatype OfferRow = OfferRow(
    id: int,
    state: string,
    scheduledAt: Option<int>,
    reviewCompletedAt: Option<int>,
    reviewedAt: Option<int>,
    startReceivingAt: Option<int>,
    reviewedById: Option<int>)

  /** The options of `filter`; a flag is `true` when the option is present. */
  datatype FilterOptions = FilterOptions(
    stateNames: seq<string>,
    priority: bool,
    selfReviewer: bool,
    after: Option<int>,
    before: Option<int>)

  const Hour: int := 3600
  const Day: int := 86400
  const SixPm: int := 64800

  /**
   * `last_6pm`: today's 18:00 in the application time zone, or yesterday's
   * when it is not yet 18:00.
   */
  function Last6pm(now: int, utcOffset: int): int {
    var local := now + utcOffset;
    var today6pm := local - local % Day + SixPm - utcOffset;
    if now < today6pm then today6pm - Day else today6pm
  }

  /** The result is an 18:00 (local) not after `now` and less than a day before it. */
  lemma Last6pmBounds(now: int, utcOffset: int)
    ensures Last6pm(now, utcOffset) <= now
    ensures now - Last6pm(now, utcOffset) < Day
    ensures (Last6pm(now, utcOffset) + utcOffset) % Day == SixPm
  {
    var local := now + utcOffset;
    var start := local - local % Day;
    assert start == (local / Day) * Day;
    if now < start + SixPm - utcOffset {
      assert Last6pm(now, utcOffset) + utcOffset == (local / Day - 1) * Day + SixPm;
    } else {
      assert Last6pm(now, utcOffset) + utcOffset == (local / Day) * Day + SixPm;
    }
  }

  /** No later 18:00 (local) is at or before `now`: the result is the most recent one. */
  lemma Last6pmIsLatest(now: int, utcOffset: int, u: int)
    requires (u + utcOffset) % Day == SixPm && u <= now
    ensures u <= Last6pm(now, utcOffset)
  {
    var t := Last6pm(now, utcOffset);
    Last6pmBounds(now, utcOffset);
    SixPmSpacing(u + utcOffset, t + utcOffset);
  }

  /** Two instants at 18:00 differ by whole days. */
  lemma SixPmSpacing(a: int, b: int)
    requires a % Day == SixPm && b % Day == SixPm
    ensures (a - b) % Day == 0
  {
    assert a == (a / Day) * Day + SixPm;
    assert b == (b / Day) * Day + SixPm;
    assert a - b == (a / Day - b / Day) * Day;
  }

  /** `priority`: overdue in the state the offer is in; a NULL time never qualifies. */
  predicate Priority(o: OfferRow, now: int, utcOffset: int) {
    (o.state == "scheduled" && o.scheduledAt.Some? && o.scheduledAt.value < now)
    || (o.state == "reviewed" && o.reviewCompletedAt.Some? && o.reviewCompletedAt.value < now - 48 * Hour)
    || (o.state == "under_review" && o.reviewedAt.Some? && o.reviewedAt.value < now - 24 * Hour)
    || (o.state == "receiving" && o.startReceivingAt.Some? && o.startReceivingAt.value < Last6pm(now, utcOffset))
  }

  /** `self_reviewer` */
  predicate SelfReviewer(o: OfferRow, currentUserId: int) {
    o.reviewedById == Some(currentUserId)
  }

  /** `due_after`: scheduled at or after `time`. */
  predicate DueAfter(o: OfferRow, time: int) {
    o.scheduledAt.Some? && o.scheduledAt.value >= time
  }

  /** `due_before`: scheduled at or before `time`. */
  predicate DueBefore(o: OfferRow, time: int) {
    o.scheduledAt.Some? && o.scheduledAt.value <= time
  }

  /** `where`: the rows that satisfy `p`, in order. */
  function Where(rows: seq<OfferRow>, p: OfferRow -> bool): (r: seq<OfferRow>)
    ensures forall o :: o in r <==> o in rows && p(o)
  {
    if |rows| == 0 then []
    else (if p(rows[0]) then [rows[0]] else []) + Where(rows[1..], p)
  }

  /** One optional `where`: applied only when its option is present. */
  function Narrow(rows: seq<OfferRow>, present: bool, p: OfferRow -> bool): seq<OfferRow> {
    if present then Where(rows, p) else rows
  }

  lemma NarrowMembers(rows: seq<OfferRow>, present: bool, p: OfferRow -> bool, o: OfferRow)
    ensures o in Narrow(rows, present, p) <==> o in rows && (present ==> p(o))
  {
  }

  /** `filter`: each present option narrows the rows; duplicates are removed. */
  function Filter(rows: seq<OfferRow>, opts: FilterOptions, now: int, utcOffset: int, currentUserId: int): seq<OfferRow> {
    var r1 := Narrow(rows, |opts.stateNames| != 0, (o: OfferRow) => o.state in opts.stateNames);
    var r2 := Narrow(r1, opts.priority, (o: OfferRow) => Priority(o, now, utcOffset));
    var r3 := Narrow(r2, opts.selfReviewer, (o: OfferRow) => SelfReviewer(o, currentUserId));
    var r4 := Narrow(r3, opts.after.Some?, (o: OfferRow) => opts.after.Some? && DueAfter(o, opts.after.value));
    var r5 := Narrow(r4, opts.before.Some?, (o: OfferRow) => opts.before.Some? && DueBefore(o, opts.before.value));
    Ruby.Uniq(r5)
  }

  /** The conjunction the filter stands for: an absent option imposes nothing. */
  predicate Selected(o: OfferRow, opts: FilterOptions, now: int, utcOffset: int, currentUserId: int) {
    (|opts.stateNames| == 0 || o.state in opts.stateNames)
    && (opts.priority ==> Priority(o, now, utcOffset))
    && (opts.selfReviewer ==> SelfReviewer(o, currentUserId))
    && (opts.after.Some? ==> DueAfter(o, opts.after.value))
    && (opts.before.Some? ==> DueBefore(o, opts.before.value))
  }

  /** Five optional narrowings keep exactly the rows that pass each present one. */
  lemma NarrowFive(rows: seq<OfferRow>, c1: bool, p1: OfferRow -> bool, c2: bool, p2: OfferRow -> bool,
                   c3: bool, p3: OfferRow -> bool, c4: bool, p4: OfferRow -> bool, c5: bool, p5: OfferRow -> bool, o: OfferRow)
    ensures o in Narrow(Narrow(Narrow(Narrow(Narrow(rows, c1, p1), c2, p2), c3, p3), c4, p4), c5, p5) <==>
      o in rows && (c1 ==> p1(o)) && (c2 ==> p2(o)) && (c3 ==> p3(o)) && (c4 ==> p4(o)) && (c5 ==> p5(o))
  {
    var r1 := Narrow(rows, c1, p1);
    var r2 := Narrow(r1, c2, p2);
    var r3 := Narrow(r2, c3, p3);
    var r4 := Narrow(r3, c4, p4);
    NarrowMembers(rows, c1, p1, o);
    NarrowMembers(r1, c2, p2, o);
    NarrowMembers(r2, c3, p3, o);
    NarrowMembers(r3, c4, p4, o);
    NarrowMembers(r4, c5, p5, o);
  }

  /** The filter keeps exactly the selected rows. */
  lemma FilterSelects(rows: seq<OfferRow>, opts: FilterOptions, now: int, utcOffset: int, currentUserId: int, o: OfferRow)
    ensures o in Filter(rows, opts, now, utcOffset, currentUserId) <==>
      o in rows && Selected(o, opts, now, utcOffset, currentUserId)
  {
    var p1 := (o: OfferRow) => o.state in opts.stateNames;
    var p2 := (o: OfferRow) => Priority(o, now, utcOffset);
    var p3 := (o: OfferRow) => SelfReviewer(o, currentUserId);
    var p4 := (o: OfferRow) => opts.after.Some? && DueAfter(o, opts.after.value);
    var p5 := (o: OfferRow) => opts.before.Some? && DueBefore(o, opts.before.value);
    var r5 := Narrow(Narrow(Narrow(Narrow(Narrow(rows, |opts.stateNames| != 0, p1), opts.priority, p2),
      opts.selfReviewer, p3), opts.after.Some?, p4), opts.before.Some?, p5);
    NarrowFive(rows, |opts.stateNames| != 0, p1, opts.priority, p2, opts.selfReviewer, p3,
      opts.after.Some?, p4, opts.before.Some?, p5, o);
    Ruby.UniqMembers(r5, o);
  }

  /**
   * The filter lists no row twice. A row carries the columns of its joined
   * schedule, so this is SQL's `distinct` over offers only while each offer
   * has at most one schedule.
   */
  lemma FilterDistinct(rows: seq<OfferRow>, opts: FilterOptions, now: int, utcOffset: int, currentUserId: int)
    ensures Ruby.Distinct(Filter(rows, opts, now, utcOffset, currentUserId))
  {
  }
}
