/** A savings goal: its completion status and the monthly contribution that
    still reaches its target by the deadline. */
module Goals {
  import opened Wrappers
  import opened Numerics
  import opened JavaInts
  import opened Ids

  datatype GoalStatus = Active | Completed

  /** The goal categories; their constants are not part of this model. */
  datatype GoalType = GoalType(name: string)

  /** The approximate month of `getMonthlyRateRequired`: thirty days. */
  const MillisPerMonth: int := 30 * MillisPerDay

  /** The status after progress `progress` is recorded against `target`:
      completed once progress reaches the target, and a completed goal stays
      completed. */
  function StatusAfterProgress(status: GoalStatus, progress: real, target: real): (s: GoalStatus)
    ensures s == Completed <==> status == Completed || progress >= target
  {
    if progress >= target then Completed else status
  }

  /** The whole months of `getMonthlyRateRequired`: the long difference
      between deadline and now divided by thirty days, then cast to int. */
  function MonthsRemaining(diff: int): (months: int)
    requires diff > 0
    ensures -0x8000_0000 <= months < 0x8000_0000
  {
    ToInt32(diff / MillisPerMonth)
  }

  /** `getMonthlyRateRequired` given the current time `now`:
      - no deadline, or a deadline not after now: 0;
      - less than a month left: the whole remaining amount, unrounded;
      - otherwise the remaining amount per month, rounded up to cents.
      A missing target or progress on the last two paths is a
      NullPointerException. */
  function RateRequired(target: Option<real>, progress: Option<real>, deadline: Option<Millis>, now: Millis): (r: Result<real, Exception>)
    ensures deadline.None? ==> r == Ok(0.0)
    ensures deadline.Some? && ToInt64(deadline.value - now) <= 0 ==> r == Ok(0.0)
    ensures r.Err? <==> deadline.Some? && ToInt64(deadline.value - now) > 0 && (target.None? || progress.None?)
    ensures r.Err? ==> r.error == NullPointer
    ensures && deadline.Some? && ToInt64(deadline.value - now) > 0
            && MonthsRemaining(ToInt64(deadline.value - now)) == 0 && r.Ok?
            ==> r.value == target.value - progress.value
  {
    if deadline.None? then Ok(0.0)
    else
      var diff := ToInt64(deadline.value - now);
      if diff <= 0 then Ok(0.0)
      else if target.None? || progress.None? then Err(NullPointer)
      else
        var months := MonthsRemaining(diff);
        var remaining := target.value - progress.value;
        if months == 0 then Ok(remaining)
        else Ok(RoundCentsUp(remaining / months as real))
  }

  /** For a deadline less than 2^31 thirty-day months away the int cast does
      not wrap: the month count is the plain quotient. */
  lemma MonthsWithoutWrap(deadline: Millis, now: Millis)
    requires 0 < deadline - now < 0x8000_0000 * MillisPerMonth
    ensures ToInt64(deadline - now) == deadline - now
    ensures MonthsRemaining(deadline - now) == (deadline - now) / MillisPerMonth
  {
  }

  /** With a deadline at least one month away (and the cast not wrapping),
      paying the rate every month covers the remaining amount, and overpays
      by less than a cent a month. */
  lemma RateCoversRemaining(target: real, progress: real, deadline: Millis, now: Millis)
    requires MillisPerMonth <= deadline - now < 0x8000_0000 * MillisPerMonth
    ensures var r := RateRequired(Some(target), Some(progress), Some(deadline), now);
            var months := ((deadline - now) / MillisPerMonth) as real;
            && months >= 1.0 && r.Ok?
            && target - progress <= r.value * months < target - progress + 0.01 * months
  {
    MonthsWithoutWrap(deadline, now);
    var months := (deadline - now) / MillisPerMonth;
    var m := months as real;
    var x := (target - progress) / m;
    RoundCentsUpBounds(x);
    CoverBounds(target - progress, m, x, RoundCentsUp(x));
  }

  /** Arithmetic step of `RateCoversRemaining`: `q` is the exact rate
      `remaining / m`. */
  lemma CoverBounds(remaining: real, m: real, q: real, rate: real)
    requires m >= 1.0 && q == remaining / m
    requires q <= rate < q + 0.01
    ensures remaining <= rate * m
    ensures rate * m < remaining + 0.01 * m
  {
    assert q * m == remaining;
    MulMonotonic(q, rate, m);
    MulStrictMonotonic(rate, q + 0.01, m);
    assert (q + 0.01) * m == q * m + 0.01 * m;
  }

  lemma MulStrictMonotonic(a: real, b: real, p: real)
    requires a < b && p > 0.0
    ensures a * p < b * p
  {
    assert b * p - a * p == (b - a) * p;
  }

  /** Less than a month before the deadline the whole remaining amount is
      due at once. */
  lemma LastMonthDueAtOnce(target: real, progress: real, deadline: Millis, now: Millis)
    requires 0 < deadline - now < MillisPerMonth
    ensures RateRequired(Some(target), Some(progress), Some(deadline), now) == Ok(target - progress)
  {
  }

  /** A goal reached already needs nothing more per month as long as at
      least one month is left. */
  lemma ReachedGoalNeedsNothing(target: real, progress: real, deadline: Millis, now: Millis)
    requires progress >= target
    requires MillisPerMonth <= deadline - now < 0x8000_0000 * MillisPerMonth
    ensures RateRequired(Some(target), Some(progress), Some(deadline), now).value <= 0.0
  {
    MonthsWithoutWrap(deadline, now);
    var m := ((deadline - now) / MillisPerMonth) as real;
    DivMonotonic(target - progress, 0.0, m);
    RoundCentsUpNonPositive((target - progress) / m);
  }

  lemma RoundCentsUpNonPositive(x: real)
    requires x <= 0.0
    ensures RoundCentsUp(x) <= 0.0
  {
    RoundCentsUpBounds(x);
    RoundCentsIsCents(x);
    FloorBounds(-(x * 100.0));
  }

  class Goal {
    var id: Uuid
    var userId: Option<Uuid>
    var name: Option<string>
    var goalType: Option<GoalType>
    var targetAmount: Option<real>
    var deadline: Option<Millis>
    var progress: Option<real>
    var autoDeductFromIncome: bool
    var monthlyContribution: Option<real>
    var status: GoalStatus

    /** `Goal()`: a fresh random id (passed in as `id`), active, no progress. */
    constructor Empty(id: Uuid)
      ensures this.id == id && status == Active && progress == Some(0.0)
      ensures userId.None? && name.None? && goalType.None? && targetAmount.None? && deadline.None?
      ensures !autoDeductFromIncome && monthlyContribution.None?
    {
      this.id := id;
      userId, name, goalType, targetAmount, deadline := None, None, None, None, None;
      progress := Some(0.0);
      autoDeductFromIncome := false;
      monthlyContribution := None;
      status := Active;
    }

    /** The full constructor: a fresh random id (passed in as `id`), the
        given fields, active, no progress. */
    constructor (id: Uuid, userId: Option<Uuid>, name: Option<string>, goalType: Option<GoalType>,
                 targetAmount: Option<real>, deadline: Option<Millis>, autoDeductFromIncome: bool,
                 monthlyContribution: Option<real>)
      ensures this.id == id && status == Active && progress == Some(0.0)
      ensures this.userId == userId && this.name == name && this.goalType == goalType
      ensures this.targetAmount == targetAmount && this.deadline == deadline
      ensures this.autoDeductFromIncome == autoDeductFromIncome && this.monthlyContribution == monthlyContribution
    {
      this.id := id;
      this.userId := userId;
      this.name := name;
      this.goalType := goalType;
      this.targetAmount := targetAmount;
      this.deadline := deadline;
      this.progress := Some(0.0);
      this.autoDeductFromIncome := autoDeductFromIncome;
      this.monthlyContribution := monthlyContribution;
      this.status := Active;
    }

    /** `setProgress`: the progress is stored first; comparing a missing
        progress or target then throws NullPointerException with the status
        unchanged; otherwise the status follows `StatusAfterProgress`. */
    method SetProgress(progress: Option<real>) returns (r: Outcome<Exception>)
      modifies this`progress, this`status
      ensures this.progress == progress
      ensures r.Fail? <==> progress.None? || targetAmount.None?
      ensures r.Fail? ==> r.error == NullPointer && status == old(status)
      ensures r.Pass? ==> status == StatusAfterProgress(old(status), progress.value, targetAmount.value)
    {
      this.progress := progress;
      if progress.None? || targetAmount.None? {
        return Fail(NullPointer);
      }
      if progress.value >= targetAmount.value {
        status := Completed;
      }
      return Pass;
    }

    /** `getMonthlyRateRequired`, the clock's reading passed in as `now`. */
    function MonthlyRateRequired(now: Millis): (r: Result<real, Exception>)
      reads this
      ensures r == RateRequired(targetAmount, progress, deadline, now)
      ensures deadline.None? ==> r == Ok(0.0)
      ensures deadline.Some? && deadline.value <= now && now - deadline.value < 0x8000_0000_0000_0000 ==> r == Ok(0.0)
      ensures r.Err? <==> deadline.Some? && ToInt64(deadline.value - now) > 0 && (targetAmount.None? || progress.None?)
    {
      RateRequired(targetAmount, progress, deadline, now)
    }
  }
}
