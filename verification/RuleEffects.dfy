/**
  What each kind of pricing rule does to a price, in terms of its configuration's own
  fields (src/services/pricing.service.ts, src/schemas/responses/pricing.responses.ts).
 */
module RuleEffects {
  import opened Wrappers
  import opened Tables
  import opened Ledger
  import opened Scaling
  import opened Pricing

  predicate HasNumber(config: Json, name: string, x: real) {
    config.JObj? && name in config.fields && config.fields[name] == JNum(x)
  }

  // ---------- configurations ----------

  predicate IsGroupSize(config: Json, minPartySize: int, discount: real) {
    && HasNumber(config, "minPartySize", minPartySize as real) && 1 <= minPartySize <= 9007199254740991
    && HasNumber(config, "discountPercent", discount) && 0.0 <= discount <= 100.0
  }

  predicate IsAdvanceBooking(config: Json, daysInAdvance: int, discount: real) {
    && HasNumber(config, "daysInAdvance", daysInAdvance as real) && 0 <= daysInAdvance <= 9007199254740991
    && HasNumber(config, "discountPercent", discount) && 0.0 <= discount <= 100.0
  }

  predicate IsSeasonal(config: Json, season: string, months: seq<int>, surcharge: real) {
    && config.JObj?
    && "season" in config.fields && config.fields["season"] == JStr(season) && season != ""
    && "months" in config.fields && config.fields["months"].JArr?
    && |months| == |config.fields["months"].items| > 0
    && (forall k :: 0 <= k < |months| ==>
          config.fields["months"].items[k] == JNum(months[k] as real) && 1 <= months[k] <= 12)
    && HasNumber(config, "surchargePercent", surcharge) && 0.0 <= surcharge
  }

  // ---------- no rule, one rule more ----------

  lemma NoRules(basePrice: real, q: Quote)
    ensures Total(basePrice, [], q) == basePrice * q.partySize as real && Adjustments(basePrice, [], q) == []
  {
  }

  lemma OneRuleMore(basePrice: real, rules: seq<Rule>, rule: Rule, q: Quote)
    ensures Total(basePrice, rules + [rule], q) == StepFor(q)(Total(basePrice, rules, q), rule)
    ensures Adjustments(basePrice, rules + [rule], q)
         == Adjustments(basePrice, rules, q) + AdjustmentOf(rule, q, Total(basePrice, rules, q))
  {
    RunningAppend(StepFor(q), Subtotal(basePrice, q), rules, rule);
    LinesAppend(StepFor(q), LineFor(q), Subtotal(basePrice, q), rules, rule);
  }

  /** The rule leaves no trace on the price. */
  predicate Ignored(basePrice: real, rules: seq<Rule>, rule: Rule, q: Quote) {
    && Total(basePrice, rules + [rule], q) == Total(basePrice, rules, q)
    && Adjustments(basePrice, rules + [rule], q) == Adjustments(basePrice, rules, q)
  }

  /** The rule adds `amount` to the total before it, and says so in a line of its own. */
  predicate Adds(basePrice: real, rules: seq<Rule>, rule: Rule, q: Quote, shownPercent: real, amount: real) {
    && Total(basePrice, rules + [rule], q) == Total(basePrice, rules, q) + amount
    && Adjustments(basePrice, rules + [rule], q)
       == Adjustments(basePrice, rules, q) + [Adjustment(rule.ruleType, shownPercent, ToCents(amount))]
  }

  lemma StepApplied(rule: Rule, q: Quote, before: real, percent: real, amount: real)
    requires Percent(rule, q) == Some(percent) && amount == Share(before, percent)
    ensures StepFor(q)(before, rule) == before + amount
    ensures AdjustmentOf(rule, q, before) == [Adjustment(rule.ruleType, Magnitude(percent), ToCents(amount))]
  {
    AddSurcharge(before, percent);
  }

  lemma AppliedRule(basePrice: real, rules: seq<Rule>, rule: Rule, q: Quote, percent: real, amount: real)
    requires Percent(rule, q) == Some(percent) && amount == Share(Total(basePrice, rules, q), percent)
    ensures Adds(basePrice, rules, rule, q, Magnitude(percent), amount)
  {
    OneRuleMore(basePrice, rules, rule, q);
    StepApplied(rule, q, Total(basePrice, rules, q), percent, amount);
  }

  lemma IgnoredRule(basePrice: real, rules: seq<Rule>, rule: Rule, q: Quote)
    requires Percent(rule, q) == None
    ensures Ignored(basePrice, rules, rule, q)
  {
    OneRuleMore(basePrice, rules, rule, q);
  }

  // ---------- group size ----------

  /** Parties of at least the minimum size get the discount, smaller ones do not. */
  lemma GroupSizeEffect(basePrice: real, rules: seq<Rule>, config: Json, minPartySize: int, discount: real, q: Quote)
    requires IsGroupSize(config, minPartySize, discount)
    ensures if q.partySize >= minPartySize
            then Adds(basePrice, rules, Rule(GROUP_SIZE, config), q, discount,
                      -(Total(basePrice, rules, q) * (discount / 100.0)))
            else Ignored(basePrice, rules, Rule(GROUP_SIZE, config), q)
  {
    var rule := Rule(GROUP_SIZE, config);
    assert ParseGroupSize(config) == Some(GroupSizeConfig(minPartySize, discount));
    if q.partySize >= minPartySize {
      TakeDiscount(Total(basePrice, rules, q), discount);
      AppliedRule(basePrice, rules, rule, q, -discount, -(Total(basePrice, rules, q) * (discount / 100.0)));
    } else {
      IgnoredRule(basePrice, rules, rule, q);
    }
  }

  lemma UnreadableGroupSize(basePrice: real, rules: seq<Rule>, config: Json, q: Quote)
    requires forall size, discount :: !IsGroupSize(config, size, discount)
    ensures Ignored(basePrice, rules, Rule(GROUP_SIZE, config), q)
  {
    var parsed := ParseGroupSize(config);
    if parsed.Some? {
      assert IsGroupSize(config, parsed.value.minPartySize, parsed.value.discountPercent);
    }
    IgnoredRule(basePrice, rules, Rule(GROUP_SIZE, config), q);
  }

  // ---------- advance booking ----------

  lemma WholeDays(ms: int, days: int)
    ensures ms / 86400000 >= days <==> ms >= days * 86400000
  {
  }

  /** Slots at least that many days of 86,400,000 ms ahead get the discount; others, and prices without a slot, do
      not. */
  lemma AdvanceBookingEffect(
    basePrice: real, rules: seq<Rule>, config: Json, daysInAdvance: int, discount: real, q: Quote)
    requires IsAdvanceBooking(config, daysInAdvance, discount)
    ensures if q.startsAt.Some? && q.startsAt.value.ms - q.now >= daysInAdvance * 86400000
            then Adds(basePrice, rules, Rule(ADVANCE_BOOKING, config), q, discount,
                      -(Total(basePrice, rules, q) * (discount / 100.0)))
            else Ignored(basePrice, rules, Rule(ADVANCE_BOOKING, config), q)
  {
    var rule := Rule(ADVANCE_BOOKING, config);
    assert ParseAdvanceBooking(config) == Some(AdvanceBookingConfig(daysInAdvance, discount));
    if q.startsAt.Some? { WholeDays(q.startsAt.value.ms - q.now, daysInAdvance); }
    if q.startsAt.Some? && q.startsAt.value.ms - q.now >= daysInAdvance * 86400000 {
      TakeDiscount(Total(basePrice, rules, q), discount);
      AppliedRule(basePrice, rules, rule, q, -discount, -(Total(basePrice, rules, q) * (discount / 100.0)));
    } else {
      IgnoredRule(basePrice, rules, rule, q);
    }
  }

  lemma UnreadableAdvanceBooking(basePrice: real, rules: seq<Rule>, config: Json, q: Quote)
    requires forall days, discount :: !IsAdvanceBooking(config, days, discount)
    ensures Ignored(basePrice, rules, Rule(ADVANCE_BOOKING, config), q)
  {
    var parsed := ParseAdvanceBooking(config);
    if parsed.Some? {
      assert IsAdvanceBooking(config, parsed.value.daysInAdvance, parsed.value.discountPercent);
    }
    IgnoredRule(basePrice, rules, Rule(ADVANCE_BOOKING, config), q);
  }

  // ---------- seasons ----------

  lemma SeasonalParses(config: Json, season: string, months: seq<int>, surcharge: real)
    requires IsSeasonal(config, season, months, surcharge)
    ensures ParseSeasonal(config) == Some(SeasonalConfig(season, months, surcharge))
  {
    var items := config.fields["months"].items;
    forall k | 0 <= k < |items| ensures IsInt(items[k]) && items[k].number.Floor == months[k] {
      assert items[k] == JNum(months[k] as real);
    }
    assert ParseSeasonal(config).Some? && ParseSeasonal(config).value.months == months;
  }

  /** Slots that start in one of the listed months get the surcharge; others, and prices without a slot, do not. */
  lemma SeasonalEffect(
    basePrice: real, rules: seq<Rule>, config: Json, season: string, months: seq<int>, surcharge: real, q: Quote)
    requires IsSeasonal(config, season, months, surcharge)
    ensures if q.startsAt.Some? && exists k :: 0 <= k < |months| && months[k] == q.startsAt.value.utcMonth
            then Adds(basePrice, rules, Rule(SEASONAL, config), q, surcharge,
                      Total(basePrice, rules, q) * (surcharge / 100.0))
            else Ignored(basePrice, rules, Rule(SEASONAL, config), q)
  {
    var rule := Rule(SEASONAL, config);
    SeasonalParses(config, season, months, surcharge);
    if q.startsAt.Some? && q.startsAt.value.utcMonth in months {
      AppliedRule(basePrice, rules, rule, q, surcharge, Total(basePrice, rules, q) * (surcharge / 100.0));
    } else {
      IgnoredRule(basePrice, rules, rule, q);
    }
  }

  lemma UnreadableSeasonal(basePrice: real, rules: seq<Rule>, config: Json, q: Quote)
    requires forall season, months, surcharge :: !IsSeasonal(config, season, months, surcharge)
    ensures Ignored(basePrice, rules, Rule(SEASONAL, config), q)
  {
    var parsed := ParseSeasonal(config);
    if parsed.Some? {
      var items := config.fields["months"].items;
      forall k | 0 <= k < |items|
        ensures items[k] == JNum(parsed.value.months[k] as real) && 1 <= parsed.value.months[k] <= 12
      {
        assert IsInt(items[k]);
      }
      assert IsSeasonal(config, parsed.value.season, parsed.value.months, parsed.value.surchargePercent);
    }
    IgnoredRule(basePrice, rules, Rule(SEASONAL, config), q);
  }

  // ---------- what a preview shows ----------

  /** Exact ties are rounded away from zero. */
  lemma TiesGoAway(cents: nat)
    ensures ToCents((cents as real + 0.5) / 100.0) == cents + 1
    ensures ToCents(-(cents as real + 0.5) / 100.0) == -(cents + 1)
  {
    var x := (cents as real + 0.5) / 100.0;
    assert x * 100.0 == cents as real + 0.5;
    assert -(cents as real + 0.5) / 100.0 == -x;
    assert (cents as real + 1.0).Floor == cents + 1;
  }

  /** A whole-cent amount. */
  function Cents(c: int): real {
    c as real / 100.0
  }

  lemma SubtotalCents(baseCents: int, q: Quote)
    ensures Subtotal(Cents(baseCents), q) == Cents(baseCents * q.partySize)
  {
    CentsTimes(baseCents, q.partySize);
  }

  lemma CentsShown(c: int)
    ensures ToCents(Cents(c)) == c
  {
    ToCentsExact(c);
  }

  /** A whole-cent base price is shown as it is, with the party size and the exact subtotal; the total is rounded. */
  lemma PreviewShows(baseCents: int, rules: seq<Rule>, q: Quote)
    ensures var preview := PreviewOf(Cents(baseCents), rules, q);
            && preview.partySize == q.partySize
            && preview.basePricePerPerson == baseCents
            && preview.subtotal == baseCents * q.partySize
            && preview.totalPrice == ToCents(Total(Cents(baseCents), rules, q))
            && preview.adjustments == Adjustments(Cents(baseCents), rules, q)
  {
    CentsShown(baseCents);
    SubtotalCents(baseCents, q);
    CentsShown(baseCents * q.partySize);
  }
}
