/**
  Price previews (src/services/pricing.service.ts) over exact reals: the loop that
  adds and subtracts percentage amounts one rule at a time, against the closed form
  base price x party size x product of the rules' factors.
 */
module Pricing {
  import opened Wrappers
  import opened Tables
  import opened Ledger
  import opened Scaling

  // ---------- rule configurations (src/schemas/responses/pricing.responses.ts) ----------

  datatype Json = JNum(number: real) | JStr(text: string) | JArr(items: seq<Json>)
      | JObj(fields: map<string, Json>) | JOther

  datatype RuleType = GROUP_SIZE | ADVANCE_BOOKING | SEASONAL

  datatype Rule = Rule(ruleType: RuleType, config: Json)

  datatype GroupSizeConfig = GroupSizeConfig(minPartySize: int, discountPercent: real)
  datatype AdvanceBookingConfig = AdvanceBookingConfig(daysInAdvance: int, discountPercent: real)
  datatype SeasonalConfig = SeasonalConfig(season: string, months: seq<int>, surchargePercent: real)

  const MAX_SAFE_INTEGER := 9007199254740991

  function Field(config: Json, name: string): Json {
    if config.JObj? && name in config.fields then config.fields[name] else JOther
  }

  predicate IsInt(j: Json) {
    j.JNum? && j.number == j.number.Floor as real && -MAX_SAFE_INTEGER <= j.number.Floor <= MAX_SAFE_INTEGER
  }

  predicate IsPercentage(j: Json) {
    j.JNum? && 0.0 <= j.number <= 100.0
  }

  function ParseGroupSize(config: Json): Option<GroupSizeConfig> {
    var size, discount := Field(config, "minPartySize"), Field(config, "discountPercent");
    if IsInt(size) && size.number.Floor >= 1 && IsPercentage(discount)
    then Some(GroupSizeConfig(size.number.Floor, discount.number)) else None
  }

  function ParseAdvanceBooking(config: Json): Option<AdvanceBookingConfig> {
    var days, discount := Field(config, "daysInAdvance"), Field(config, "discountPercent");
    if IsInt(days) && days.number.Floor >= 0 && IsPercentage(discount)
    then Some(AdvanceBookingConfig(days.number.Floor, discount.number)) else None
  }

  function ParseSeasonal(config: Json): Option<SeasonalConfig> {
    var season, months, surcharge := Field(config, "season"), Field(config, "months"),
        Field(config, "surchargePercent");
    if season.JStr? && season.text != ""
       && months.JArr? && months.items != []
       && (forall k :: 0 <= k < |months.items| ==> IsInt(months.items[k]) && 1 <= months.items[k].number.Floor <= 12)
       && surcharge.JNum? && surcharge.number >= 0.0
    then
      Some(SeasonalConfig(
        season.text,
        seq(|months.items|, k requires 0 <= k < |months.items| => months.items[k].number.Floor),
        surcharge.number))
    else None
  }

  // ---------- the reference price ----------

  /** What is being priced, and the one clock reading used for it. */
  datatype Quote = Quote(partySize: int, startsAt: Option<Instant>, now: int)

  const MS_PER_DAY := 86400000

  /** Whole days until the slot; division floors, also for slots in the past. */
  function DaysUntil(startsAt: Instant, now: int): int {
    (startsAt.ms - now) / MS_PER_DAY
  }

  /** The signed percentage a rule adds, if its configuration parses and its condition holds. */
  function Percent(rule: Rule, q: Quote): Option<real> {
    match rule.ruleType
    case GROUP_SIZE =>
      (match ParseGroupSize(rule.config)
       case Some(c) => if q.partySize >= c.minPartySize then Some(-c.discountPercent) else None
       case None => None)
    case ADVANCE_BOOKING =>
      (match (ParseAdvanceBooking(rule.config), q.startsAt)
       case (Some(c), Some(at)) => if DaysUntil(at, q.now) >= c.daysInAdvance then Some(-c.discountPercent) else None
       case _ => None)
    case SEASONAL =>
      (match (ParseSeasonal(rule.config), q.startsAt)
       case (Some(c), Some(at)) => if at.utcMonth in c.months then Some(c.surchargePercent) else None
       case _ => None)
  }

  function Factor(rule: Rule, q: Quote): real {
    match Percent(rule, q)
    case None => 1.0
    case Some(p) => 1.0 + p / 100.0
  }

  function FactorFor(q: Quote): Rule -> real {
    (rule: Rule) => Factor(rule, q)
  }

  function StepFor(q: Quote): (real, Rule) -> real {
    Times(FactorFor(q))
  }

  function Subtotal(basePrice: real, q: Quote): real {
    basePrice * q.partySize as real
  }

  /** Base price times party size times every rule's factor. */
  function Total(basePrice: real, rules: seq<Rule>, q: Quote): real {
    Running(StepFor(q), Subtotal(basePrice, q), rules)
  }

  // ---------- rounding ----------

  /** toFixed(2) on an exact value, in cents: nearest, ties away from zero. */
  function ToCents(amount: real): int {
    if amount < 0.0 then -(-amount * 100.0 + 0.5).Floor else (amount * 100.0 + 0.5).Floor
  }

  lemma ToCentsIsNearest(amount: real)
    ensures -0.5 <= ToCents(amount) as real - amount * 100.0 <= 0.5
  {
  }

  lemma ToCentsExact(cents: int)
    ensures ToCents(cents as real / 100.0) == cents
  {
    var x := cents as real / 100.0;
    assert x * 100.0 == cents as real;
    if cents >= 0 {
      assert (cents as real + 0.5).Floor == cents;
    } else {
      assert -x * 100.0 == (-cents) as real;
      assert ((-cents) as real + 0.5).Floor == -cents;
    }
  }

  lemma ToCentsMonotone(x: real, y: real)
    requires x <= y
    ensures ToCents(x) <= ToCents(y)
  {
  }

  // ---------- the preview ----------

  datatype Adjustment = Adjustment(ruleType: RuleType, percent: real, amount: int)

  /** All money in whole cents, as shown. */
  datatype Preview = Preview(
    partySize: int, basePricePerPerson: int, subtotal: int, adjustments: seq<Adjustment>, totalPrice: int)

  function Magnitude(x: real): real {
    if x < 0.0 then -x else x
  }

  function Share(total: real, percent: real): real {
    total * (percent / 100.0)
  }

  /** The line a rule adds, if it applies: its share of the total before it. */
  function AdjustmentOf(rule: Rule, q: Quote, before: real): seq<Adjustment> {
    match Percent(rule, q)
    case None => []
    case Some(p) => [Adjustment(rule.ruleType, Magnitude(p), ToCents(Share(before, p)))]
  }

  function LineFor(q: Quote): (Rule, real) -> seq<Adjustment> {
    (rule: Rule, before: real) => AdjustmentOf(rule, q, before)
  }

  /** In rule order. */
  function Adjustments(basePrice: real, rules: seq<Rule>, q: Quote): seq<Adjustment> {
    Lines(StepFor(q), LineFor(q), Subtotal(basePrice, q), rules)
  }

  function PreviewOf(basePrice: real, rules: seq<Rule>, q: Quote): Preview {
    Preview(q.partySize, ToCents(basePrice), ToCents(Subtotal(basePrice, q)),
            Adjustments(basePrice, rules, q), ToCents(Total(basePrice, rules, q)))
  }

  // ---------- the loop ----------

  lemma TakeDiscount(total: real, percent: real)
    ensures total - total * (percent / 100.0) == total * (1.0 + (-percent) / 100.0)
    ensures -(total * (percent / 100.0)) == Share(total, -percent)
  {
    assert (-percent) / 100.0 == -(percent / 100.0);
  }

  lemma AddSurcharge(total: real, percent: real)
    ensures total + total * (percent / 100.0) == total * (1.0 + percent / 100.0)
    ensures total * (percent / 100.0) == Share(total, percent)
  {
  }

  /** One turn of the loop: the rule's amount is taken off or added, and its line written down. */
  method ApplyRule(rule: Rule, partySize: int, slotStartsAt: Option<Instant>, now: int, runningTotal: real)
    returns (after: real, line: seq<Adjustment>)
    ensures var q := Quote(partySize, slotStartsAt, now);
            after == StepFor(q)(runningTotal, rule) && line == LineFor(q)(rule, runningTotal)
  {
    after, line := runningTotal, [];
    match rule.ruleType {
      case GROUP_SIZE =>
        var parsed := ParseGroupSize(rule.config);
        if parsed.Some? && partySize >= parsed.value.minPartySize {
          var percent := parsed.value.discountPercent;
          var amount := runningTotal * (percent / 100.0);
          TakeDiscount(runningTotal, percent);
          after := runningTotal - amount;
          line := [Adjustment(rule.ruleType, percent, ToCents(-amount))];
        }
      case ADVANCE_BOOKING =>
        var parsed := ParseAdvanceBooking(rule.config);
        if parsed.Some? && slotStartsAt.Some? {
          var daysUntilSlot := (slotStartsAt.value.ms - now) / MS_PER_DAY;
          if daysUntilSlot >= parsed.value.daysInAdvance {
            var percent := parsed.value.discountPercent;
            var amount := runningTotal * (percent / 100.0);
            TakeDiscount(runningTotal, percent);
            after := runningTotal - amount;
            line := [Adjustment(rule.ruleType, percent, ToCents(-amount))];
          }
        }
      case SEASONAL =>
        var parsed := ParseSeasonal(rule.config);
        if parsed.Some? && slotStartsAt.Some? && slotStartsAt.value.utcMonth in parsed.value.months {
          var percent := parsed.value.surchargePercent;
          var amount := runningTotal * (percent / 100.0);
          AddSurcharge(runningTotal, percent);
          after := runningTotal + amount;
          line := [Adjustment(rule.ruleType, percent, ToCents(amount))];
        }
    }
  }

  method CalculatePricingPreview(basePrice: real, partySize: int, rules: seq<Rule>,
      slotStartsAt: Option<Instant>, now: int)
    returns (preview: Preview)
    ensures preview == PreviewOf(basePrice, rules, Quote(partySize, slotStartsAt, now))
  {
    ghost var q := Quote(partySize, slotStartsAt, now);
    ghost var step, line := StepFor(q), LineFor(q);
    var runningTotal := basePrice * partySize as real;
    var subtotal := runningTotal;
    assert subtotal == Subtotal(basePrice, q);
    var adjustments: seq<Adjustment> := [];

    for i := 0 to |rules|
      invariant runningTotal == Running(step, subtotal, rules[..i])
      invariant adjustments == Lines(step, line, subtotal, rules[..i])
    {
      LedgerStep(step, line, subtotal, rules, i);
      var after, added := ApplyRule(rules[i], partySize, slotStartsAt, now, runningTotal);
      runningTotal, adjustments := after, adjustments + added;
    }
    assert rules[..|rules|] == rules;
    PreviewComplete(basePrice, rules, q, subtotal, runningTotal, adjustments);
    return Preview(partySize, ToCents(basePrice), ToCents(subtotal), adjustments, ToCents(runningTotal));
  }

  lemma PreviewComplete(basePrice: real, rules: seq<Rule>, q: Quote, subtotal: real, total: real,
      lines: seq<Adjustment>)
    requires subtotal == Subtotal(basePrice, q)
    requires total == Running(StepFor(q), subtotal, rules)
    requires lines == Lines(StepFor(q), LineFor(q), subtotal, rules)
    ensures Preview(q.partySize, ToCents(basePrice), ToCents(subtotal), lines, ToCents(total))
         == PreviewOf(basePrice, rules, q)
  {
  }

  // ---------- order independence ----------

  /** The rules are fetched in no particular order: the exact total, and with it the shown total, does not
      depend on it. */
  lemma TotalIgnoresRuleOrder(basePrice: real, rules: seq<Rule>, other: seq<Rule>, q: Quote)
    requires multiset(rules) == multiset(other)
    ensures Total(basePrice, rules, q) == Total(basePrice, other, q)
    ensures PreviewOf(basePrice, rules, q).totalPrice == PreviewOf(basePrice, other, q).totalPrice
  {
    TimesCommutes(FactorFor(q));
    RunningPermute(StepFor(q), Subtotal(basePrice, q), rules, other);
  }

  function Applies(q: Quote): Rule -> bool {
    (rule: Rule) => Percent(rule, q).Some?
  }

  /** Rules that do not parse or do not apply change neither the total nor the list of adjustments. */
  lemma OnlyApplyingRulesCount(basePrice: real, rules: seq<Rule>, q: Quote)
    ensures Total(basePrice, rules, q) == Total(basePrice, Keep(Applies(q), rules), q)
    ensures Adjustments(basePrice, rules, q) == Adjustments(basePrice, Keep(Applies(q), rules), q)
  {
    KeepOnly(StepFor(q), LineFor(q), Applies(q), Subtotal(basePrice, q), rules);
  }

  // ---------- monotonicity ----------

  /** The schema bounds keep every factor non-negative. */
  lemma FactorNonNegative(rule: Rule, q: Quote)
    ensures Factor(rule, q) >= 0.0
  {
  }

  /** The total is never negative and grows with the base price. */
  lemma TotalGrowsWithBasePrice(low: real, high: real, rules: seq<Rule>, q: Quote)
    requires 0.0 <= low <= high && q.partySize >= 1
    ensures 0.0 <= Total(low, rules, q) <= Total(high, rules, q)
  {
    forall rule ensures 0.0 <= FactorFor(q)(rule) {
      FactorNonNegative(rule, q);
    }
    ProductMonotone(low, high, q.partySize as real, q.partySize as real);
    TimesMonotone(FactorFor(q), FactorFor(q), Subtotal(low, q), Subtotal(high, q), rules);
  }

  /** Group discounts only get more with size. */
  lemma FactorFallsWithSize(rule: Rule, p: Quote, q: Quote)
    requires p.partySize <= q.partySize && p.startsAt == q.startsAt && p.now == q.now
    ensures 0.0 <= Factor(rule, q) <= Factor(rule, p)
  {
    FactorNonNegative(rule, q);
  }

  /** A larger group never pays more per person. */
  lemma PerPersonPriceFalls(basePrice: real, rules: seq<Rule>, p: Quote, q: Quote)
    requires basePrice >= 0.0 && 1 <= p.partySize <= q.partySize
    requires p.startsAt == q.startsAt && p.now == q.now
    ensures NoMoreEach(Total(basePrice, rules, q), q.partySize as real, Total(basePrice, rules, p), p.partySize as real)
  {
    forall rule ensures 0.0 <= FactorFor(q)(rule) <= FactorFor(p)(rule) {
      FactorFallsWithSize(rule, p, q);
    }
    Swap(basePrice, q.partySize as real, p.partySize as real);
    ProductMonotone(basePrice, basePrice, 0.0, p.partySize as real);
    SmallerFactorsNoMoreEach(FactorFor(p), FactorFor(q), p.partySize as real, q.partySize as real,
                             Subtotal(basePrice, p), Subtotal(basePrice, q), rules);
  }

  /** Advance-booking discounts only get lost as time passes; division floors, so this holds past the start too. */
  lemma FactorRisesWithTime(rule: Rule, q: Quote, later: int)
    requires q.now <= later
    ensures 0.0 <= Factor(rule, q) <= Factor(rule, q.(now := later))
  {
    FactorNonNegative(rule, q);
    if q.startsAt.Some? {
      assert DaysUntil(q.startsAt.value, later) <= DaysUntil(q.startsAt.value, q.now);
    }
  }

  /** For a fixed slot the total, exact or shown, never falls as the clock advances. */
  lemma PriceRisesWithTime(basePrice: real, rules: seq<Rule>, q: Quote, later: int)
    requires basePrice >= 0.0 && q.partySize >= 1 && q.now <= later
    ensures Total(basePrice, rules, q) <= Total(basePrice, rules, q.(now := later))
    ensures PreviewOf(basePrice, rules, q).totalPrice <= PreviewOf(basePrice, rules, q.(now := later)).totalPrice
  {
    var q' := q.(now := later);
    forall rule ensures 0.0 <= FactorFor(q)(rule) <= FactorFor(q')(rule) {
      FactorRisesWithTime(rule, q, later);
    }
    ProductMonotone(basePrice, basePrice, q.partySize as real, q.partySize as real);
    TimesMonotone(FactorFor(q), FactorFor(q'), Subtotal(basePrice, q), Subtotal(basePrice, q'), rules);
    ToCentsMonotone(Total(basePrice, rules, q), Total(basePrice, rules, q'));
  }

  // ---------- rounding bound ----------

  function Amount(): Adjustment -> int {
    (a: Adjustment) => a.amount
  }

  /** A shown line rounds what its rule changes the total by. */
  lemma LineRoundsChange(rule: Rule, q: Quote, total: real)
    ensures RoundsChange(Amount(), AdjustmentOf(rule, q, total), StepFor(q)(total, rule) - total)
  {
    if Percent(rule, q).Some? {
      var p := Percent(rule, q).value;
      AddSurcharge(total, p);
      ToCentsIsNearest(Share(total, p));
    }
  }

  /** A whole-cent base price makes the subtotal exact. */
  lemma SubtotalExact(baseCents: int, q: Quote)
    ensures var subtotal := Subtotal(baseCents as real / 100.0, q);
            subtotal * 100.0 == ToCents(subtotal) as real
  {
    var cents := baseCents * q.partySize;
    CentsTimes(baseCents, q.partySize);
    ToCentsExact(cents);
    assert Subtotal(baseCents as real / 100.0, q) == cents as real / 100.0;
  }

  lemma CentsTimes(cents: int, n: int)
    ensures (cents as real / 100.0) * n as real == (cents * n) as real / 100.0
  {
    assert cents as real * n as real == (cents * n) as real;
  }

  lemma AdjustmentsDrift(basePrice: real, rules: seq<Rule>, q: Quote)
    ensures DriftWithin(Amount(), Adjustments(basePrice, rules, q), Total(basePrice, rules, q) - Subtotal(basePrice, q))
  {
    forall rule, before ensures RoundsChange(Amount(), LineFor(q)(rule, before), StepFor(q)(before, rule) - before) {
      LineRoundsChange(rule, q, before);
    }
    LinesDrift(StepFor(q), LineFor(q), Amount(), Subtotal(basePrice, q), rules);
  }

  /** With the base price in whole cents and k applied adjustments, shown subtotal plus shown adjustments is
      within (k + 1) / 2 cents of the shown total. */
  lemma RoundingBound(baseCents: int, rules: seq<Rule>, q: Quote)
    ensures var preview := PreviewOf(baseCents as real / 100.0, rules, q);
            var drift := preview.subtotal + SumOf(Amount(), preview.adjustments) - preview.totalPrice;
            -(|preview.adjustments| + 1) <= 2 * drift <= |preview.adjustments| + 1
  {
    var base := baseCents as real / 100.0;
    var start, total, lines := Subtotal(base, q), Total(base, rules, q), Adjustments(base, rules, q);
    AdjustmentsDrift(base, rules, q);
    SubtotalExact(baseCents, q);
    ToCentsIsNearest(total);
    DriftOfTotals(ToCents(start), SumOf(Amount(), lines), ToCents(total), |lines|, start, total);
  }

  lemma DriftOfTotals(subtotal: int, lines: int, shown: int, k: nat, start: real, total: real)
    requires start * 100.0 == subtotal as real
    requires -(k as real) <= 2.0 * (lines as real - 100.0 * (total - start)) <= k as real
    requires -0.5 <= shown as real - total * 100.0 <= 0.5
    ensures -(k + 1) <= 2 * (subtotal + lines - shown) <= k + 1
  {
    assert -(k as real) - 1.0 <= 2.0 * (subtotal + lines - shown) as real <= k as real + 1.0;
  }
}
