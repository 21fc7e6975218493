// The countdown banner shown to Basic members
// (src/components/shared/BasicMemberBanner.tsx): the number of days left in
// the seven days that follow the regional approval, refreshed every hour, and
// the expired and urgent classifications the banner is coloured by. Instants
// are whole milliseconds since the epoch; the parsing of the approval date
// string is not modelled, the caller passing the parsed instant, or nothing
// when the approval date is null, undefined or empty.

module MemberBanner {
  import opened Wrappers

  const DayMs: int := 24 * 60 * 60 * 1000
  const GraceDays: int := 7

  /** `calculateDaysRemaining(approvedAt)` at instant `now`: the days to the deadline seven
      days after the approval, rounded up as `Math.ceil` does; nothing without a date. */
  function DaysRemaining(approvedAt: Option<int>, now: int): (days: Option<int>)
    ensures days.None? <==> approvedAt.None?
    ensures days.Some? ==>
              var diff := approvedAt.value + GraceDays * DayMs - now;
              (days.value - 1) * DayMs < diff <= days.value * DayMs
  {
    if approvedAt.None? then None
    else
      var diff := approvedAt.value + GraceDays * DayMs - now;
      Some(-((-diff) / DayMs))
  }

  /** `isExpired` */
  predicate IsExpired(days: Option<int>)
  {
    days.Some? && days.value <= 0
  }

  /** `isUrgent` */
  predicate IsUrgent(days: Option<int>)
  {
    days.Some? && 0 < days.value <= 2
  }

  /** At the instant of approval seven days remain. */
  lemma SevenDaysAtApproval(approvedAt: int)
    ensures DaysRemaining(Some(approvedAt), approvedAt) == Some(GraceDays)
  {
  }

  /** The banner shows the deadline as passed exactly from seven days after the approval on. */
  lemma {:induction false} ExpiredIffDeadlinePassed(approvedAt: int, now: int)
    ensures IsExpired(DaysRemaining(Some(approvedAt), now)) <==> now >= approvedAt + GraceDays * DayMs
  {
    var d := DaysRemaining(Some(approvedAt), now).value;
    var diff := approvedAt + GraceDays * DayMs - now;
    if d <= 0 {
      assert d * DayMs <= 0;
    } else {
      assert (d - 1) * DayMs >= 0;
    }
  }

  /** The banner is urgent exactly in the last two days before the deadline. */
  lemma {:induction false} UrgentIffLastTwoDays(approvedAt: int, now: int)
    ensures IsUrgent(DaysRemaining(Some(approvedAt), now)) <==>
              approvedAt + (GraceDays - 2) * DayMs <= now < approvedAt + GraceDays * DayMs
  {
    var d := DaysRemaining(Some(approvedAt), now).value;
    var diff := approvedAt + GraceDays * DayMs - now;
    if d <= 0 {
      assert d * DayMs <= 0;
    } else if d <= 2 {
      assert (d - 1) * DayMs >= 0;
      assert d * DayMs <= 2 * DayMs;
    } else {
      assert (d - 1) * DayMs >= 2 * DayMs;
    }
  }

  /** The count never goes up as time passes. */
  lemma {:induction false} DaysNonIncreasing(approvedAt: int, earlier: int, later: int)
    requires earlier <= later
    ensures DaysRemaining(Some(approvedAt), later).value <= DaysRemaining(Some(approvedAt), earlier).value
  {
    var d1 := DaysRemaining(Some(approvedAt), earlier).value;
    var d2 := DaysRemaining(Some(approvedAt), later).value;
    if d2 > d1 {
      assert false;
    }
  }

  /** The banner is never both expired and urgent, and without an approval date it is
      neither. */
  lemma ClassesExclusive(days: Option<int>)
    ensures !(IsExpired(days) && IsUrgent(days))
    ensures days.None? ==> !IsExpired(days) && !IsUrgent(days)
  {
  }

  /** The banner's state: the approval instant it was given and the count shown. */
  class Banner {
    const approvedAt: Option<int>
    var daysRemaining: Option<int>

    /** The effect's first run, at instant `now`. */
    constructor(approvedAt: Option<int>, now: int)
      ensures this.approvedAt == approvedAt && daysRemaining == DaysRemaining(approvedAt, now)
    {
      this.approvedAt := approvedAt;
      daysRemaining := DaysRemaining(approvedAt, now);
    }

    /** One run of the hourly interval, at instant `now`. */
    method Refresh(now: int)
      modifies this
      ensures daysRemaining == DaysRemaining(approvedAt, now)
    {
      daysRemaining := DaysRemaining(approvedAt, now);
    }
  }
}
