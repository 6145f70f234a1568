/** Billable and payable hours, surcharges and the revenue split, in exact arithmetic. */
module Durations {
  import opened Domain
  import opened NightShift

  datatype BillingModel = BookedBlock | BillActualTime | BillMinimumGuaranteed

  datatype PayModel = PayActualTime | PayMinimumGuaranteed

  function Max(a: real, b: real): real {
    if a < b then b else a
  }

  function Min(a: real, b: real): real {
    if a < b then a else b
  }

  function HoursBetween(start: int, end: int): real {
    Max(0.0, (end - start) as real / 3_600_000.0)
  }

  /** A booked window, or the window somebody was on site. */
  datatype Window = Window(from: int, to: int) {
    function Hours(): real {
      HoursBetween(from, to)
    }
  }

  // The hours of a window, none if it ends before it starts.
  function HoursIn(window: Window): real {
    if window.to <= window.from then 0.0 else (window.to - window.from) as real / 3_600_000.0
  }

  function LesserHours(a: Window, b: Window): real {
    if HoursIn(a) < HoursIn(b) then HoursIn(a) else HoursIn(b)
  }

  function BillableHours(model: BillingModel, minimum: real, scheduled: Window, actual: Window): real {
    var capped := Min(scheduled.Hours(), actual.Hours());
    match model
    case BookedBlock => scheduled.Hours()
    case BillActualTime => capped
    case BillMinimumGuaranteed => Max(minimum, capped)
  }

  function EffectiveBillingModel(model: BillingModel, earlyReleaseApproved: bool, proration: bool): BillingModel {
    if earlyReleaseApproved && proration && model.BookedBlock? then BillActualTime else model
  }

  function EffectivePayModel(model: PayModel, earlyReleaseApproved: bool, applyOnEarlyRelease: bool): PayModel {
    if earlyReleaseApproved && !applyOnEarlyRelease then PayActualTime else model
  }

  function PayableHours(
    model: PayModel, minimum: real, scheduled: Window, actual: Window,
    earlyReleaseApproved: bool, applyOnEarlyRelease: bool): real
  {
    var capped := Min(scheduled.Hours(), actual.Hours());
    match EffectivePayModel(model, earlyReleaseApproved, applyOnEarlyRelease)
    case PayActualTime => capped
    case PayMinimumGuaranteed => Max(minimum, capped)
  }

  /** Billable hours never exceed the larger of the minimum and the booked hours, and never fall below the hours worked
  within the booking. */
  lemma BillableBounds(model: BillingModel, minimum: real, scheduled: Window, actual: Window)
    ensures BillableHours(model, minimum, scheduled, actual) <= Max(minimum, scheduled.Hours())
    ensures Min(scheduled.Hours(), actual.Hours()) <= BillableHours(model, minimum, scheduled, actual)
  {
  }

  lemma HoursMonotone(from: int, to: int, from': int, to': int)
    requires from' <= from && to <= to'
    ensures HoursBetween(from, to) <= HoursBetween(from', to')
  {
  }

  /** A longer stay on site is never billed less. */
  lemma BillableMonotone(model: BillingModel, minimum: real, scheduled: Window, actual: Window, longer: Window)
    requires longer.from <= actual.from && actual.to <= longer.to
    ensures BillableHours(model, minimum, scheduled, actual) <= BillableHours(model, minimum, scheduled, longer)
  {
    HoursMonotone(actual.from, actual.to, longer.from, longer.to);
  }

  /** Prorating an early release never raises the bill; and it lowers it exactly when it is approved, switched on, the
  booking was billed as a block, and the guardian worked less than the block. */
  lemma ProrationNeverRaises(
    model: BillingModel, minimum: real, scheduled: Window, actual: Window, approved: bool, proration: bool)
    ensures BillableHours(EffectiveBillingModel(model, approved, proration), minimum, scheduled, actual) <=
            BillableHours(model, minimum, scheduled, actual)
    ensures BillableHours(EffectiveBillingModel(model, approved, proration), minimum, scheduled, actual) <
            BillableHours(model, minimum, scheduled, actual) <==>
            approved && proration && model.BookedBlock? && actual.Hours() < scheduled.Hours()
  {
  }

  // The two models that bill and pay the same way.
  predicate SameModel(bill: BillingModel, pay: PayModel) {
    (bill.BillActualTime? && pay.PayActualTime?) || (bill.BillMinimumGuaranteed? && pay.PayMinimumGuaranteed?)
  }

  /** With the same effective model and the same minimum, what is paid is what is billed; and waiving the minimum on an
  early release never pays more. */
  lemma PayMatchesBill(
    bill: BillingModel, pay: PayModel, minimum: real, scheduled: Window, actual: Window,
    approved: bool, proration: bool, applyOnEarlyRelease: bool)
    ensures SameModel(EffectiveBillingModel(bill, approved, proration),
                      EffectivePayModel(pay, approved, applyOnEarlyRelease)) ==>
              BillableHours(EffectiveBillingModel(bill, approved, proration), minimum, scheduled, actual) ==
              PayableHours(pay, minimum, scheduled, actual, approved, applyOnEarlyRelease)
    ensures PayableHours(pay, minimum, scheduled, actual, approved, false) <=
            PayableHours(pay, minimum, scheduled, actual, approved, true)
  {
  }

  // ---------- several officers ----------

  function TotalHours(windows: seq<Window>): real {
    if windows == [] then 0.0 else TotalHours(windows[..|windows| - 1]) + windows[|windows| - 1].Hours()
  }

  /** Unbroken coverage: each officer starts at the instant the one before stops, and nobody stops before starting. */
  ghost predicate Unbroken(windows: seq<Window>) {
    && (forall k :: 0 <= k < |windows| ==> windows[k].from <= windows[k].to)
    && (forall k :: 1 <= k < |windows| ==> windows[k].from == windows[k - 1].to)
  }

  /** For unbroken coverage the hours from the first arrival to the last completion are the officers' hours added up. */
  lemma {:induction false} UnbrokenHoursAddUp(windows: seq<Window>)
    requires Unbroken(windows) && windows != []
    ensures windows[0].from <= windows[|windows| - 1].to
    ensures HoursBetween(windows[0].from, windows[|windows| - 1].to) == TotalHours(windows)
  {
    var last := |windows| - 1;
    var front := windows[..last];
    if front == [] {
      assert TotalHours(front) == 0.0;
    } else {
      UnbrokenHoursAddUp(front);
      assert windows[last].from == front[last - 1].to;
    }
  }

  /** What one officer's pay is computed from. */
  datatype PayTerms = PayTerms(model: PayModel, minimum: real, earlyReleaseApproved: bool, applyOnEarlyRelease: bool)

  function TotalPayable(terms: seq<PayTerms>, scheduled: Window, windows: seq<Window>): real
    requires |terms| == |windows|
  {
    if windows == [] then 0.0
    else
      var last := |windows| - 1;
      var t := terms[last];
      TotalPayable(terms[..last], scheduled, windows[..last]) +
      PayableHours(t.model, t.minimum, scheduled, windows[last], t.earlyReleaseApproved, t.applyOnEarlyRelease)
  }

  /** Capping each officer at the booked hours loses no more than capping them all together, whatever the pay terms. */
  lemma {:induction false} PayCoversCappedTotal(terms: seq<PayTerms>, scheduled: Window, windows: seq<Window>)
    requires |terms| == |windows|
    ensures Min(scheduled.Hours(), TotalHours(windows)) <= TotalPayable(terms, scheduled, windows)
    ensures 0.0 <= TotalHours(windows)
  {
    if windows != [] {
      var last := |windows| - 1;
      PayCoversCappedTotal(terms[..last], scheduled, windows[..last]);
    }
  }

  // ---------- surcharges and shares ----------

  method SurchargeMultiplier(start: int, end: int, nightPct: real, holidayPct: real, publicHoliday: bool)
    returns (multiplier: real, reasons: seq<string>)
    ensures multiplier == 1.0 + (if SamplesNight(start, end) then nightPct else 0.0) +
                          (if publicHoliday then holidayPct else 0.0)
    ensures "night_shift" in reasons <==> SamplesNight(start, end)
    ensures "public_holiday" in reasons <==> publicHoliday
    ensures |reasons| == (if SamplesNight(start, end) then 1 else 0) + (if publicHoliday then 1 else 0)
  {
    reasons := [];
    var additive := 0.0;
    var night := IsNightShift(start, end);
    if night {
      additive := additive + nightPct;
      reasons := reasons + ["night_shift"];
    }
    if publicHoliday {
      additive := additive + holidayPct;
      reasons := reasons + ["public_holiday"];
    }
    multiplier := 1.0 + additive;
  }

  datatype Shares = Shares(guardian: real, platform: real, gateway: real, reserve: real)

  function RevenueSplit(gross: real, pct: Shares): Shares {
    Shares(gross * pct.guardian, gross * pct.platform, gross * pct.gateway, gross * pct.reserve)
  }

  /** The split hands out the whole amount exactly when there is nothing to hand out or the shares add up to one. */
  lemma SplitConservesExactly(gross: real, pct: Shares)
    ensures var s := RevenueSplit(gross, pct);
            s.guardian + s.platform + s.gateway + s.reserve == gross <==>
            gross == 0.0 || pct.guardian + pct.platform + pct.gateway + pct.reserve == 1.0
  {
    var total := pct.guardian + pct.platform + pct.gateway + pct.reserve;
    var s := RevenueSplit(gross, pct);
    assert s.guardian + s.platform + s.gateway + s.reserve == gross * total;
    if gross != 0.0 && gross * total == gross {
      assert gross * (total - 1.0) == 0.0;
    }
  }
}
