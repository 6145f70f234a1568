/** Night-shift detection: the hourly sampling loop, and how far its answer can be from the truth. */
module NightShift {
  import opened Domain

  const MS_PER_HOUR := 3_600_000

  // The UTC hour of an instant; instants before 1970 included.
  function HourOf(t: int): int {
    (t / MS_PER_HOUR) % 24
  }

  predicate Night(t: int) {
    HourOf(t) >= 22 || HourOf(t) < 6
  }

  // What the sampling amounts to: the shift starts at night, or it still runs one whole number of hours later, when the
  // sampled hour first reads 22.
  predicate SamplesNight(start: int, end: int) {
    start < end && (Night(start) || start + (22 - HourOf(start)) * MS_PER_HOUR < end)
  }

  // The reference: some instant of the shift is at night.
  ghost predicate MeetsNight(start: int, end: int) {
    exists t :: start <= t < end && Night(t)
  }

  // How many milliseconds of the shift are at night.
  function NightMs(start: int, end: int): nat
    decreases end - start
  {
    if end <= start then 0 else (if Night(start) then 1 else 0) + NightMs(start + 1, end)
  }

  method IsNightShift(start: int, end: int) returns (night: bool)
    ensures night <==> SamplesNight(start, end)
  {
    var cursor := start;
    ghost var k := 0;
    while cursor < end
      invariant cursor == start + k * MS_PER_HOUR
      invariant 0 <= k
      invariant k == 0 || (!Night(start) && HourOf(start) + k <= 22)
      invariant k == 0 || cursor - MS_PER_HOUR < end
      decreases end - cursor
    {
      HourAfter(start, k);
      var hour := HourOf(cursor);
      if hour >= 22 || hour < 6 {
        return true;
      }
      cursor := cursor + MS_PER_HOUR;
      k := k + 1;
    }
    return false;
  }

  lemma HourAfter(t: int, k: int)
    ensures HourOf(t + k * MS_PER_HOUR) == (HourOf(t) + k) % 24
  {
    assert (t + k * MS_PER_HOUR) / MS_PER_HOUR == t / MS_PER_HOUR + k;
  }

  // The last 22:00 boundary a daytime start can be short of: everything before it is day.
  function Dusk(start: int): int {
    start - start % MS_PER_HOUR + (22 - HourOf(start)) * MS_PER_HOUR
  }

  lemma DayUntilDusk(start: int, t: int)
    requires !Night(start) && start <= t
    ensures t < Dusk(start) ==> !Night(t)
    ensures start < Dusk(start) && Night(Dusk(start))
  {
    var h := start / MS_PER_HOUR;
    HourAfter(start - start % MS_PER_HOUR, 22 - HourOf(start));
    assert (start - start % MS_PER_HOUR) / MS_PER_HOUR == h;
    if t < Dusk(start) {
      var d := t / MS_PER_HOUR - h;
      assert 0 <= d < 22 - HourOf(start);
      assert HourOf(t) == HourOf(start) + d;
    }
  }

  lemma DuskBounds(start: int)
    ensures Dusk(start) <= start + (22 - HourOf(start)) * MS_PER_HOUR < Dusk(start) + MS_PER_HOUR
  {
  }

  lemma MeetsNightExactly(start: int, end: int)
    ensures MeetsNight(start, end) <==> start < end && (Night(start) || Dusk(start) < end)
  {
    if start < end && Night(start) {
      assert MeetsNight(start, end);
    } else if start < end {
      DayUntilDusk(start, start);
      if MeetsNight(start, end) {
        var t :| start <= t < end && Night(t);
        DayUntilDusk(start, t);
      }
    }
  }

  /** A positive answer is always right, and the answer is exact for a shift that starts on the hour. */
  lemma AnswerIsSound(start: int, end: int)
    ensures SamplesNight(start, end) ==> MeetsNight(start, end)
    ensures start % MS_PER_HOUR == 0 ==> (SamplesNight(start, end) <==> MeetsNight(start, end))
  {
    MeetsNightExactly(start, end);
    DuskBounds(start);
  }

  /** Exactly which shifts meet the night without being told so: those that start by day, off the hour, and end after
  dusk but no later than the start's minutes past it. */
  lemma MissedExactly(start: int, end: int)
    ensures MeetsNight(start, end) && !SamplesNight(start, end) <==>
            !Night(start) && Dusk(start) < end <= Dusk(start) + start % MS_PER_HOUR
  {
    MeetsNightExactly(start, end);
    if !Night(start) {
      DayUntilDusk(start, start);
    }
  }

  lemma {:induction false} NightAfter(start: int, b: int, end: int)
    requires start <= b <= end
    requires forall t :: start <= t < b ==> !Night(t)
    ensures NightMs(start, end) <= end - b
    decreases end - start
  {
    if start < b {
      assert !Night(start);
      NightAfter(start + 1, b, end);
    } else if start < end {
      NightAfter(start + 1, start + 1, end);
    }
  }

  /** A negative answer means less than an hour of the shift is at night. */
  lemma MissIsShort(start: int, end: int)
    requires !SamplesNight(start, end)
    ensures NightMs(start, end) < MS_PER_HOUR
  {
    if start < end {
      var b := if Dusk(start) < end then Dusk(start) else end;
      forall t | start <= t < b ensures !Night(t) {
        DayUntilDusk(start, t);
      }
      DayUntilDusk(start, start);
      DuskBounds(start);
      NightAfter(start, b, end);
    }
  }

  /** A shift longer than sixteen hours is a night shift; sixteen hours exactly can still be all day. */
  lemma LongShiftsAreNight(start: int, end: int)
    ensures end - start > 16 * MS_PER_HOUR ==> SamplesNight(start, end)
    ensures !SamplesNight(6 * MS_PER_HOUR, 22 * MS_PER_HOUR)
  {
  }
}
