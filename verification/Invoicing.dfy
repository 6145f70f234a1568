/** The amounts of an invoice: its subtotal, and the lines that explain it. */
module Invoicing {
  import opened Domain
  import opened Durations

  datatype Price = Hourly(rate: Option<real>) | Flat(fee: Option<real>)

  datatype Code =
    | ScheduledWindow
    | ActualOnSite
    | BillingBasis
    | EarlyReleaseLine
    | HandoffLine
    | BillableLine
    | Service
    | Surcharge
    | SplitGuardian
    | SplitPlatform
    | SplitGateway
    | SplitReserve

  datatype Line = Line(code: Code, amount: Option<real>)

  datatype Bill = Bill(
    scheduled: Window,
    onSite: Window,
    model: BillingModel,
    minimum: real,
    earlyReleaseApproved: bool,
    proration: bool,
    handoff: bool,
    guardians: nat,
    price: Price,
    surcharge: real,
    surchargeReasons: seq<string>,
    shares: Option<Shares>)

  datatype Amounts = Amounts(billableHours: real, subtotal: real, lines: seq<Line>)

  function HoursOf(b: Bill): real {
    BillableHours(EffectiveBillingModel(b.model, b.earlyReleaseApproved, b.proration), b.minimum, b.scheduled, b.onSite)
  }

  // The hours booked, unless they are billed by actual time, an approved early release prorated included; then the lesser
  // of the hours booked and on site, or the minimum if that is guaranteed and more.
  function HoursBilled(b: Bill): real {
    var lesser := LesserHours(b.scheduled, b.onSite);
    if b.model.BookedBlock? && !(b.earlyReleaseApproved && b.proration) then HoursIn(b.scheduled)
    else if b.model.BillMinimumGuaranteed? && lesser < b.minimum then b.minimum
    else lesser
  }

  lemma HoursAreBilled(b: Bill)
    ensures HoursOf(b) == HoursBilled(b)
  {
  }

  predicate HasRate(price: Price) {
    (price.Hourly? && price.rate.Some?) || (price.Flat? && price.fee.Some?)
  }

  function Gross(rate: real, hours: real, guardians: nat): real {
    rate * hours * guardians as real
  }

  function SubtotalFor(b: Bill, hours: real): real
    requires HasRate(b.price)
  {
    match b.price
    case Hourly(rate) => Gross(rate.value * b.surcharge, hours, b.guardians)
    case Flat(fee) => fee.value * b.guardians as real
  }

  function Subtotal(b: Bill): real
    requires HasRate(b.price)
  {
    SubtotalFor(b, HoursOf(b))
  }

  // ---------- lines ----------

  predicate Has(lines: seq<Line>, code: Code) {
    lines != [] && (lines[|lines| - 1].code == code || Has(lines[..|lines| - 1], code))
  }

  // The amounts of the lines with this code, added up.
  function AmountOf(lines: seq<Line>, code: Code): real {
    if lines == [] then 0.0
    else
      var last := lines[|lines| - 1];
      AmountOf(lines[..|lines| - 1], code) +
      (if last.code == code && last.amount.Some? then last.amount.value else 0.0)
  }

  function Push(lines: seq<Line>, code: Code, amount: Option<real>): (r: seq<Line>)
    ensures forall c :: Has(r, c) <==> Has(lines, c) || c == code
    ensures forall c :: AmountOf(r, c) ==
                        AmountOf(lines, c) + (if c == code && amount.Some? then amount.value else 0.0)
  {
    var r := lines + [Line(code, amount)];
    assert r[..|lines|] == lines;
    r
  }

  // The lines every invoice has, and those that say why its hours are what they are; none has an amount.
  method HoursLines(b: Bill) returns (lines: seq<Line>)
    ensures forall c :: AmountOf(lines, c) == 0.0
    ensures forall c :: Has(lines, c) <==>
              || c.ScheduledWindow? || c.ActualOnSite? || c.BillingBasis? || c.BillableLine?
              || (c.EarlyReleaseLine? && b.earlyReleaseApproved && b.proration)
              || (c.HandoffLine? && b.handoff)
  {
    lines := Push(Push(Push([], ScheduledWindow, None), ActualOnSite, None), BillingBasis, None);
    if b.earlyReleaseApproved && b.proration {
      lines := Push(lines, EarlyReleaseLine, None);
    }
    if b.handoff {
      lines := Push(lines, HandoffLine, None);
    }
    lines := Push(lines, BillableLine, None);
  }

  predicate IsSplit(c: Code) {
    c.SplitGuardian? || c.SplitPlatform? || c.SplitGateway? || c.SplitReserve?
  }

  // The lines that share an amount out.
  method SplitLines(before: seq<Line>, split: Shares) returns (lines: seq<Line>)
    requires forall c :: IsSplit(c) ==> AmountOf(before, c) == 0.0
    ensures forall c :: Has(lines, c) <==> Has(before, c) || IsSplit(c)
    ensures forall c :: !IsSplit(c) ==> AmountOf(lines, c) == AmountOf(before, c)
    ensures split == SharedOut(lines)
  {
    lines := Push(before, SplitGuardian, Some(split.guardian));
    lines := Push(lines, SplitPlatform, Some(split.platform));
    lines := Push(lines, SplitGateway, Some(split.gateway));
    lines := Push(lines, SplitReserve, Some(split.reserve));
  }

  function SharedOut(lines: seq<Line>): Shares {
    Shares(AmountOf(lines, SplitGuardian), AmountOf(lines, SplitPlatform), AmountOf(lines, SplitGateway),
           AmountOf(lines, SplitReserve))
  }

  // The lines of an hourly invoice.
  method HourlyLines(b: Bill, gross: real, split: Option<Shares>) returns (lines: seq<Line>)
    ensures Has(lines, Service) && AmountOf(lines, Service) == gross
    ensures Has(lines, EarlyReleaseLine) <==> b.earlyReleaseApproved && b.proration
    ensures Has(lines, HandoffLine) <==> b.handoff
    ensures Has(lines, Surcharge) <==> b.surchargeReasons != []
    ensures Has(lines, SplitGuardian) <==> split.Some?
    ensures split.Some? ==> SharedOut(lines) == split.value
  {
    lines := HoursLines(b);
    lines := Push(lines, Service, Some(gross));
    if |b.surchargeReasons| > 0 {
      lines := Push(lines, Surcharge, None);
    }
    if split.Some? {
      lines := SplitLines(lines, split.value);
    }
  }

  method ComputeBillableDuration(b: Bill) returns (hours: real)
    ensures hours == HoursOf(b) == HoursBilled(b)
  {
    HoursAreBilled(b);
    var model := EffectiveBillingModel(b.model, b.earlyReleaseApproved, b.proration);
    hours := BillableHours(model, b.minimum, b.scheduled, b.onSite);
  }

  // Each line of the revenue split is its share of the amount.
  predicate SharesOut(lines: seq<Line>, amount: real, shares: Shares) {
    && AmountOf(lines, SplitGuardian) == amount * shares.guardian
    && AmountOf(lines, SplitPlatform) == amount * shares.platform
    && AmountOf(lines, SplitGateway) == amount * shares.gateway
    && AmountOf(lines, SplitReserve) == amount * shares.reserve
  }

  // The lines of an hourly invoice, its revenue shared out.
  method HourlyAmounts(b: Bill, hours: real, gross: real) returns (r: Amounts)
    ensures r.billableHours == hours && r.subtotal == gross
    ensures Has(r.lines, Service) && AmountOf(r.lines, Service) == gross
    ensures Has(r.lines, EarlyReleaseLine) <==> b.earlyReleaseApproved && b.proration
    ensures Has(r.lines, HandoffLine) <==> b.handoff
    ensures Has(r.lines, Surcharge) <==> b.surchargeReasons != []
    ensures Has(r.lines, SplitGuardian) <==> b.shares.Some?
    ensures b.shares.Some? ==> SharesOut(r.lines, gross, b.shares.value)
  {
    var split := if b.shares.Some? then Some(RevenueSplit(gross, b.shares.value)) else None;
    var lines := HourlyLines(b, gross, split);
    return Amounts(hours, gross, lines);
  }

  /** An hourly invoice comes to the rate, with its surcharge, for the billable hours of as many guardians as were asked
  for, a flat one to the fee for each of them; without a rate there is no invoice. The service line has the subtotal, the
  other lines appear exactly when they should, and each line of the revenue split is its share of the subtotal. */
  method ComputeInvoiceAmounts(b: Bill) returns (r: Option<Amounts>)
    ensures r.Some? <==> HasRate(b.price)
    ensures r.Some? ==> r.value.billableHours == HoursBilled(b)
    ensures r.Some? && b.price.Hourly? ==>
              r.value.subtotal == b.price.rate.value * b.surcharge * r.value.billableHours * b.guardians as real
    ensures r.Some? && b.price.Flat? ==> r.value.subtotal == b.price.fee.value * b.guardians as real
    ensures r.Some? ==> Has(r.value.lines, Service) && AmountOf(r.value.lines, Service) == r.value.subtotal
    ensures r.Some? ==>
              && (Has(r.value.lines, EarlyReleaseLine) <==> b.earlyReleaseApproved && b.proration)
              && (Has(r.value.lines, HandoffLine) <==> b.handoff)
              && (Has(r.value.lines, Surcharge) <==> b.price.Hourly? && b.surchargeReasons != [])
              && (Has(r.value.lines, SplitGuardian) <==> b.price.Hourly? && b.shares.Some?)
    ensures r.Some? && b.price.Hourly? && b.shares.Some? ==>
              SharesOut(r.value.lines, r.value.subtotal, b.shares.value)
  {
    var hours := ComputeBillableDuration(b);
    if b.price.Hourly? && b.price.rate.Some? {
      var gross := b.price.rate.value * b.surcharge * hours * b.guardians as real;
      var amounts := HourlyAmounts(b, hours, gross);
      return Some(amounts);
    }
    if b.price.Flat? && b.price.fee.Some? {
      var flat := b.price.fee.value * b.guardians as real;
      var lines := HoursLines(b);
      return Some(Amounts(hours, flat, Push(lines, Service, Some(flat))));
    }
    return None;
  }

  // The same amount as a function of the bill.
  lemma SubtotalExactly(b: Bill)
    requires HasRate(b.price)
    ensures b.price.Hourly? ==>
              Subtotal(b) == b.price.rate.value * b.surcharge * HoursBilled(b) * b.guardians as real
    ensures b.price.Flat? ==> Subtotal(b) == b.price.fee.value * b.guardians as real
  {
    HoursAreBilled(b);
  }

  // ---------- what moves a subtotal ----------

  lemma ScaleMonotone(factor: real, x: real, y: real)
    requires 0.0 <= factor && x <= y
    ensures factor * x <= factor * y
  {
  }

  lemma GrossMonotone(rate: real, x: real, y: real, guardians: nat)
    requires 0.0 <= rate && x <= y
    ensures Gross(rate, x, guardians) <= Gross(rate, y, guardians)
  {
    ScaleMonotone(rate, x, y);
    ScaleMonotone(guardians as real, rate * x, rate * y);
  }

  lemma HoursMoveSubtotal(b: Bill, x: real, y: real)
    requires HasRate(b.price) && (b.price.Hourly? ==> 0.0 <= b.price.rate.value * b.surcharge)
    requires x <= y
    ensures SubtotalFor(b, x) <= SubtotalFor(b, y)
  {
    if b.price.Hourly? {
      GrossMonotone(b.price.rate.value * b.surcharge, x, y, b.guardians);
    }
  }

  /** A longer stay never makes the invoice smaller. */
  lemma LongerStayCostsNoLess(b: Bill, longer: Window)
    requires HasRate(b.price) && (b.price.Hourly? ==> 0.0 <= b.price.rate.value * b.surcharge)
    requires longer.from <= b.onSite.from && b.onSite.to <= longer.to
    ensures Subtotal(b) <= Subtotal(b.(onSite := longer))
  {
    var model := EffectiveBillingModel(b.model, b.earlyReleaseApproved, b.proration);
    BillableMonotone(model, b.minimum, b.scheduled, b.onSite, longer);
    HoursMoveSubtotal(b, HoursOf(b), HoursOf(b.(onSite := longer)));
  }

  /** Switching the proration of early releases on never makes the invoice larger. */
  lemma ProrationCostsNoMore(b: Bill)
    requires HasRate(b.price) && (b.price.Hourly? ==> 0.0 <= b.price.rate.value * b.surcharge)
    ensures Subtotal(b.(proration := true)) <= Subtotal(b.(proration := false))
  {
    ProrationNeverRaises(b.model, b.minimum, b.scheduled, b.onSite, b.earlyReleaseApproved, true);
    HoursMoveSubtotal(b, HoursOf(b.(proration := true)), HoursOf(b.(proration := false)));
  }
}
