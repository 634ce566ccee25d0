/**
 * The equity risk decision: one intent is sized, clamped and measured against twenty-one rules, all of
 * them recorded, and approved only when every one passes. Amounts are exact reals; the whole-share
 * quotient `floor(a / b)`, which the program rounds through its decimals, is an arbitrary function here.
 */
module RiskRules {
  import opened Options
  import opened Results

  datatype Rules = Rules(
    riskFrac: real, shortRiskFrac: real, maxPositionFrac: real, maxGrossFrac: real, bullChopGrossFrac: real,
    maxHeatFrac: real, minPrice: real, maxAdvFrac: real, recovery: real, halfRisk: real, suspend: real,
    dailyLossBlock: real, maxPositions: int, maxPerIndustry: int, blackout: int, clamp: bool)
  {
    /** What the configuration check accepts. */
    predicate Accepted()
    {
      && riskFrac > 0.0 && shortRiskFrac > 0.0 && maxPositionFrac > 0.0 && maxGrossFrac > 0.0
      && bullChopGrossFrac > 0.0 && maxHeatFrac > 0.0 && minPrice > 0.0 && maxAdvFrac > 0.0
      && recovery > 0.0 && halfRisk > 0.0 && suspend > 0.0 && dailyLossBlock > 0.0
      && riskFrac <= 0.05 && shortRiskFrac <= 0.05 && maxPositionFrac <= 1.0 && maxGrossFrac <= 2.0
      && bullChopGrossFrac <= 2.0 && maxHeatFrac <= 0.25 && maxAdvFrac <= 1.0
      && recovery <= 0.50 && halfRisk <= 0.50 && suspend <= 0.50 && dailyLossBlock <= 0.50
      && maxPositions > 0 && maxPerIndustry > 0 && blackout >= 0
      && recovery < halfRisk < suspend && bullChopGrossFrac <= maxGrossFrac
    }
  }

  datatype Rails = Rails(
    allowed: Option<set<string>>, maxPosition: Option<int>, maxOrders: Option<int>, maxDailyLoss: Option<real>,
    hours: bool)

  datatype Regime = BullChopier | BearProtective | UnknownRegime | OtherRegime(name: string)

  datatype Context = Context(
    equity: Option<real>, price: Option<real>, gross: Option<real>, heat: Option<real>, openPositions: Option<int>,
    industry: Option<string>, industryPositions: Option<int>, adv: Option<real>, untilEarnings: Option<int>,
    regime: Option<Regime>, macroRisk: Option<bool>, drawdown: Option<real>, previousPnl: Option<real>,
    ordersToday: Option<int>, dailyPnl: Option<real>, position: Option<int>)

  /** The text of a sizing rule, as far as it parses. A percentage is held as a fraction. */
  datatype Percent = Share(frac: real) | NotFinite | Unreadable
  datatype Count = Shares(n: nat) | NotDigits | TooLarge
  datatype QuantityRule = RiskPct(percent: Percent) | Fixed(count: Count) | NotionalPct(percent: Percent) | Unsupported

  datatype Intent = Intent(isEquity: bool, symbol: string, sell: bool, rule: QuantityRule, entry: real, stop: real)

  /** What was read beside the context; `open` is the calendar's answer, if it has one. */
  datatype State = State(commandKnown: bool, killSwitch: bool, brake: bool, suspension: bool, open: Option<bool>)

  datatype Rule =
    | RiskPerTrade | QuantityRuleOk | MaxPosition | GrossExposure | PortfolioHeat | MaxPositions | PerIndustry
    | MinPrice | AdvPct | EarningsBlackout | RegimeOk | MacroHighRiskDay | DrawdownBrake | DailyLoss
    | Allowlist | VenueMaxPosition | OrdersPerDay | VenueDailyLoss | TradingHours | DuplicateProtection
    | PersistentKillSwitch

  datatype RuleResult = RuleResult(rule: Rule, passed: bool)

  datatype Evaluation = Evaluation(results: seq<RuleResult>, approved: Option<int>)

  const HALF: real := 0.5

  type Quotient = (real, real) -> Option<int>

  // --- sizing ------------------------------------------------------------------------------

  function Abs(x: real): real
  {
    if x < 0.0 then -x else x
  }

  function Distance(intent: Intent): real
  {
    Abs(intent.entry - intent.stop)
  }

  function SideFrac(rules: Rules, intent: Intent): real
  {
    if intent.sell then rules.shortRiskFrac else rules.riskFrac
  }

  function Min(a: real, b: real): real
  {
    if b < a then b else a
  }

  function Requested(p: Percent): Option<real>
  {
    if p.Share? && p.frac > 0.0 then Some(p.frac) else None
  }

  function SizingFrac(rules: Rules, intent: Intent): real
  {
    if intent.rule.RiskPct? && Requested(intent.rule.percent).Some?
    then Min(Requested(intent.rule.percent).value, SideFrac(rules, intent))
    else SideFrac(rules, intent)
  }

  function RegimeScale(ctx: Context): real
  {
    if ctx.regime == Some(BullChopier) then HALF else 1.0
  }

  function Budget(rules: Rules, ctx: Context, intent: Intent, st: State): real
  {
    match ctx.equity
    case None => 0.0
    case Some(e) => e * SizingFrac(rules, intent) * RegimeScale(ctx) * if st.brake then HALF else 1.0
  }

  /** Whole shares of `b` in `a`; no answer on a zero divisor, or where the decimals refuse. */
  function Whole(quotient: Quotient, a: real, b: real): Result<int>
  {
    if b == 0.0 then Err
    else match quotient(a, b)
      case None => Err
      case Some(n) => Ok(n)
  }

  predicate TextRefused(rule: QuantityRule)
  {
    || (rule.RiskPct? && rule.percent.Unreadable?)
    || (rule.NotionalPct? && rule.percent.Unreadable?)
    || (rule.Fixed? && rule.count.TooLarge?)
  }

  predicate RuleAllowed(rules: Rules, intent: Intent)
  {
    match intent.rule
    case RiskPct(p) => Requested(p).Some? && Requested(p).value <= SideFrac(rules, intent)
    case Fixed(c) => c.Shares? && c.n > 0
    case NotionalPct(p) => Requested(p).Some? && Requested(p).value <= rules.maxPositionFrac
    case Unsupported => false
  }

  /** What a notional rule may spend. */
  function Notional(equity: real, requested: real, rules: Rules): real
  {
    equity * Min(requested, rules.maxPositionFrac)
  }

  /** The quantity before any clamp. */
  function Unclamped(rules: Rules, ctx: Context, intent: Intent, st: State, quotient: Quotient): Result<int>
  {
    if intent.rule.Fixed? && intent.rule.count.Shares? && intent.rule.count.n > 0 then Ok(intent.rule.count.n)
    else if intent.rule.NotionalPct? && Requested(intent.rule.percent).Some? then
      if ctx.equity.None? then Ok(0)
      else Whole(quotient, Notional(ctx.equity.value, Requested(intent.rule.percent).value, rules), intent.entry)
    else Whole(quotient, Budget(rules, ctx, intent, st), Distance(intent))
  }

  function PositionLimit(equity: real, rules: Rules): real
  {
    equity * rules.maxPositionFrac
  }

  /** The position cap's own quantity, where the clamp applies. */
  function Cap(rules: Rules, ctx: Context, intent: Intent, quotient: Quotient): Option<Result<int>>
  {
    if rules.clamp && intent.rule.RiskPct? && ctx.equity.Some?
    then Some(Whole(quotient, PositionLimit(ctx.equity.value, rules), intent.entry))
    else None
  }

  function Sized(rules: Rules, ctx: Context, intent: Intent, st: State, quotient: Quotient): Result<int>
  {
    var raw := Unclamped(rules, ctx, intent, st, quotient);
    var cap := Cap(rules, ctx, intent, quotient);
    if raw.Err? || cap.None? then raw
    else if cap.value.Err? then Err
    else if raw.value > cap.value.value then cap.value
    else raw
  }

  // --- the rules --------------------------------------------------------------------------------

  /** The sum or product of a known measure, compared with a known limit. */
  predicate Within(measured: Option<real>, limit: Option<real>)
  {
    measured.Some? && limit.Some? && measured.value <= limit.value
  }

  function Scaled(x: Option<real>, frac: real): Option<real>
  {
    if x.Some? then Some(x.value * frac) else None
  }

  function Plus(x: Option<real>, y: real): Option<real>
  {
    if x.Some? then Some(x.value + y) else None
  }

  function GrossFrac(rules: Rules, ctx: Context): real
  {
    if ctx.regime == Some(BullChopier) then rules.bullChopGrossFrac else rules.maxGrossFrac
  }

  function AbsInt(n: int): int
  {
    if n < 0 then -n else n
  }

  /** Whether one rule lets an order of `q` shares through. */
  predicate Passes(rule: Rule, rules: Rules, rails: Rails, ctx: Context, intent: Intent, st: State, q: int)
  {
    var risk, notional := q as real * Distance(intent), q as real * intent.entry;
    match rule
    case RiskPerTrade => ctx.equity.Some? && q > 0 && risk <= Budget(rules, ctx, intent, st)
    case QuantityRuleOk => RuleAllowed(rules, intent)
    case MaxPosition => Within(Some(notional), Scaled(ctx.equity, rules.maxPositionFrac))
    case GrossExposure => Within(Plus(ctx.gross, notional), Scaled(ctx.equity, GrossFrac(rules, ctx)))
    case PortfolioHeat => Within(Plus(ctx.heat, risk), Scaled(ctx.equity, rules.maxHeatFrac))
    case MaxPositions => ctx.openPositions.Some? && ctx.openPositions.value < rules.maxPositions
    case PerIndustry =>
      ctx.industry.Some? && ctx.industryPositions.Some? && ctx.industryPositions.value < rules.maxPerIndustry
    case MinPrice => ctx.price.Some? && ctx.price.value >= rules.minPrice
    case AdvPct => Within(Some(notional), Scaled(ctx.adv, rules.maxAdvFrac))
    case EarningsBlackout => ctx.untilEarnings.Some? && ctx.untilEarnings.value > rules.blackout
    case RegimeOk =>
      ctx.regime.Some? && ctx.regime.value != UnknownRegime && !(ctx.regime.value == BearProtective && !intent.sell)
    case MacroHighRiskDay => ctx.macroRisk == Some(false)
    case DrawdownBrake => ctx.drawdown.Some? && !st.suspension
    case DailyLoss => ctx.previousPnl.Some? && ctx.previousPnl.value > -rules.dailyLossBlock
    case Allowlist => rails.allowed.Some? ==> intent.symbol in rails.allowed.value
    case VenueMaxPosition =>
      rails.maxPosition.Some? ==>
        ctx.position.Some? && q > 0 && AbsInt(ctx.position.value + if intent.sell then -q else q) <= rails.maxPosition.value
    case OrdersPerDay => rails.maxOrders.Some? ==> ctx.ordersToday.Some? && ctx.ordersToday.value < rails.maxOrders.value
    case VenueDailyLoss => rails.maxDailyLoss.Some? ==> ctx.dailyPnl.Some? && ctx.dailyPnl.value > -rails.maxDailyLoss.value
    case TradingHours => rails.hours ==> st.open == Some(true)
    case DuplicateProtection => !st.commandKnown
    case PersistentKillSwitch => !st.killSwitch
  }

  /** The order in which the results are recorded: the account's rules, then the venue's. */
  const ALL_RULES: seq<Rule> := [
    RiskPerTrade, QuantityRuleOk, MaxPosition, GrossExposure, PortfolioHeat, MaxPositions, PerIndustry,
    MinPrice, AdvPct, EarningsBlackout, RegimeOk, MacroHighRiskDay, DrawdownBrake, DailyLoss,
    Allowlist, VenueMaxPosition, OrdersPerDay, VenueDailyLoss, TradingHours, DuplicateProtection, PersistentKillSwitch]

  /** When the evaluation has a quantity and every measure it needs. */
  predicate Measurable(rules: Rules, rails: Rails, ctx: Context, intent: Intent, st: State, quotient: Quotient)
  {
    && intent.isEquity && !TextRefused(intent.rule) && Sized(rules, ctx, intent, st, quotient).Ok?
    && (rails.hours ==> st.open.Some?)
  }

  function Recorded(rules: Rules, rails: Rails, ctx: Context, intent: Intent, st: State, q: int): seq<RuleResult>
  {
    seq(|ALL_RULES|, i requires 0 <= i < |ALL_RULES| =>
      RuleResult(ALL_RULES[i], Passes(ALL_RULES[i], rules, rails, ctx, intent, st, q)))
  }

  /** `evaluate`: every rule is recorded, none short-circuits, and the verdict follows from the record. */
  function Evaluate(rules: Rules, rails: Rails, ctx: Context, intent: Intent, st: State, quotient: Quotient): Result<Evaluation>
  {
    if !Measurable(rules, rails, ctx, intent, st, quotient) then Err
    else
      var q := Sized(rules, ctx, intent, st, quotient).value;
      var results := Recorded(rules, rails, ctx, intent, st, q);
      Ok(Evaluation(results, if exists r :: r in results && !r.passed then None else Some(q)))
  }

  // --- what the verdict means -----------------------------------------------------------------------

  function Place(rule: Rule): nat
  {
    match rule
    case RiskPerTrade => 0 case QuantityRuleOk => 1 case MaxPosition => 2 case GrossExposure => 3
    case PortfolioHeat => 4 case MaxPositions => 5 case PerIndustry => 6 case MinPrice => 7 case AdvPct => 8
    case EarningsBlackout => 9 case RegimeOk => 10 case MacroHighRiskDay => 11 case DrawdownBrake => 12
    case DailyLoss => 13 case Allowlist => 14 case VenueMaxPosition => 15 case OrdersPerDay => 16
    case VenueDailyLoss => 17 case TradingHours => 18 case DuplicateProtection => 19 case PersistentKillSwitch => 20
  }

  /** The listing has every rule, once. */
  lemma Listed(rule: Rule)
    ensures |ALL_RULES| == 21 && Place(rule) < 21 && ALL_RULES[Place(rule)] == rule
  {
  }

  lemma ListedOnce(i: nat)
    requires i < |ALL_RULES|
    ensures Place(ALL_RULES[i]) == i
  {
  }

  /** An order is approved exactly when it can be sized and no rule, of all there are, is against it. */
  lemma ApprovedIff(rules: Rules, rails: Rails, ctx: Context, intent: Intent, st: State, quotient: Quotient, q: int)
    ensures (Evaluate(rules, rails, ctx, intent, st, quotient).Ok?
             && Evaluate(rules, rails, ctx, intent, st, quotient).value.approved == Some(q))
      <==> (Measurable(rules, rails, ctx, intent, st, quotient) && Sized(rules, ctx, intent, st, quotient) == Ok(q)
            && forall rule: Rule :: Passes(rule, rules, rails, ctx, intent, st, q))
  {
    if Measurable(rules, rails, ctx, intent, st, quotient) && Sized(rules, ctx, intent, st, quotient) == Ok(q) {
      var results := Recorded(rules, rails, ctx, intent, st, q);
      if rule: Rule :| !Passes(rule, rules, rails, ctx, intent, st, q) {
        Listed(rule);
        assert results[Place(rule)] in results && !results[Place(rule)].passed;
      }
    }
  }

  /** Every evaluation that goes through records all twenty-one rules, each with its own answer. */
  lemma EveryRuleRecorded(rules: Rules, rails: Rails, ctx: Context, intent: Intent, st: State, quotient: Quotient, rule: Rule)
    requires Evaluate(rules, rails, ctx, intent, st, quotient).Ok?
    ensures var e := Evaluate(rules, rails, ctx, intent, st, quotient).value;
      var q := Sized(rules, ctx, intent, st, quotient);
      && |e.results| == 21 && q.Ok?
      && RuleResult(rule, Passes(rule, rules, rails, ctx, intent, st, q.value)) in e.results
      && RuleResult(rule, !Passes(rule, rules, rails, ctx, intent, st, q.value)) !in e.results
  {
    var e := Evaluate(rules, rails, ctx, intent, st, quotient).value;
    Listed(rule);
    assert e.results[Place(rule)].rule == rule;
    forall j | 0 <= j < |e.results| && e.results[j].rule == rule
      ensures j == Place(rule)
    {
      ListedOnce(j);
    }
  }

  lemma TimesMono(e: real, a: real, b: real)
    requires e >= 0.0 && a <= b
    ensures e * a <= e * b
  {
  }

  lemma TimesSign(e: real, a: real)
    requires e < 0.0 && a > 0.0
    ensures e * a < 0.0
  {
  }

  /** The most an order may risk at the side's full fraction, before any brake. */
  function FullBudget(rules: Rules, ctx: Context, intent: Intent): real
  {
    if ctx.equity.Some? then ctx.equity.value * SideFrac(rules, intent) * RegimeScale(ctx) else 0.0
  }

  lemma ScaledMono(x: real, y: real, r: real, d: real)
    requires x <= y && (r == 1.0 || r == HALF) && (d == 1.0 || d == HALF)
    ensures x * r * d <= d * (y * r)
  {
    if r == 1.0 {
      assert x * r == x && y * r == y;
    } else {
      assert x * r == x / 2.0 && y * r == y / 2.0;
    }
  }

  lemma ScaledSign(x: real, r: real, d: real)
    requires x < 0.0 && (r == 1.0 || r == HALF) && (d == 1.0 || d == HALF)
    ensures x * r * d < 0.0
  {
    if r == 1.0 {
      assert x * r == x;
    } else {
      assert x * r == x / 2.0;
    }
  }

  /** A budget that can pay for anything is at most the full budget, and at most half of it under the brake. */
  lemma BudgetBound(rules: Rules, ctx: Context, intent: Intent, st: State)
    requires rules.Accepted() && Budget(rules, ctx, intent, st) >= 0.0
    ensures Budget(rules, ctx, intent, st) <= (if st.brake then HALF else 1.0) * FullBudget(rules, ctx, intent)
  {
    if ctx.equity.Some? {
      var e, f, g := ctx.equity.value, SizingFrac(rules, intent), SideFrac(rules, intent);
      var r, d := RegimeScale(ctx), if st.brake then HALF else 1.0;
      var x, y := e * f, e * g;
      assert Budget(rules, ctx, intent, st) == x * r * d && FullBudget(rules, ctx, intent) == y * r;
      if e < 0.0 {
        TimesSign(e, f);
        ScaledSign(x, r, d);
      } else {
        TimesMono(e, f, g);
        ScaledMono(x, y, r, d);
      }
    }
  }

  lemma RiskNonNegative(q: int, d: real)
    requires q > 0 && d >= 0.0
    ensures q as real * d >= 0.0
  {
  }

  /** Whatever its sizing rule, an approved order risks at most the full budget, and half of it under the brake. */
  lemma ApprovedRisk(rules: Rules, rails: Rails, ctx: Context, intent: Intent, st: State, quotient: Quotient, q: int)
    requires rules.Accepted() && Evaluate(rules, rails, ctx, intent, st, quotient).Ok?
    requires Evaluate(rules, rails, ctx, intent, st, quotient).value.approved == Some(q)
    ensures q > 0 && q as real * Distance(intent) <= (if st.brake then HALF else 1.0) * FullBudget(rules, ctx, intent)
    ensures !st.suspension && !st.killSwitch && !st.commandKnown && ctx.drawdown.Some?
  {
    ApprovedIff(rules, rails, ctx, intent, st, quotient, q);
    assert Passes(RiskPerTrade, rules, rails, ctx, intent, st, q) && Passes(DrawdownBrake, rules, rails, ctx, intent, st, q);
    assert Passes(PersistentKillSwitch, rules, rails, ctx, intent, st, q);
    assert Passes(DuplicateProtection, rules, rails, ctx, intent, st, q);
    RiskNonNegative(q, Distance(intent));
    BudgetBound(rules, ctx, intent, st);
  }

  /** The account once `q` of the intent are in it. */
  function Filled(ctx: Context, intent: Intent, q: int): Context
  {
    ctx.(gross := Plus(ctx.gross, q as real * intent.entry), heat := Plus(ctx.heat, q as real * Distance(intent)),
         openPositions := OneMore(ctx.openPositions), industryPositions := OneMore(ctx.industryPositions),
         ordersToday := OneMore(ctx.ordersToday),
         position := if ctx.position.None? then None
                     else Some(ctx.position.value + if intent.sell then -q else q))
  }

  function OneMore(n: Option<int>): Option<int>
  {
    if n.None? then None else Some(n.value + 1)
  }

  /** Exposure and heat are known and within their shares of equity. */
  predicate WithinAmounts(rules: Rules, ctx: Context)
  {
    && ctx.equity.Some? && ctx.gross.Some? && ctx.heat.Some?
    && ctx.gross.value <= ctx.equity.value * GrossFrac(rules, ctx)
    && ctx.heat.value <= ctx.equity.value * rules.maxHeatFrac
  }

  /** So are the positions, the industry's, and what the venue counts. */
  predicate WithinCounts(rules: Rules, rails: Rails, ctx: Context)
  {
    && ctx.openPositions.Some? && ctx.openPositions.value <= rules.maxPositions
    && ctx.industryPositions.Some? && ctx.industryPositions.value <= rules.maxPerIndustry
    && (rails.maxPosition.Some? ==> ctx.position.Some? && AbsInt(ctx.position.value) <= rails.maxPosition.value)
    && (rails.maxOrders.Some? ==> ctx.ordersToday.Some? && ctx.ordersToday.value <= rails.maxOrders.value)
  }

  lemma FilledAmounts(rules: Rules, rails: Rails, ctx: Context, intent: Intent, st: State, q: int)
    requires Passes(GrossExposure, rules, rails, ctx, intent, st, q) && Passes(PortfolioHeat, rules, rails, ctx, intent, st, q)
    ensures WithinAmounts(rules, Filled(ctx, intent, q))
  {
  }

  lemma FilledCounts(rules: Rules, rails: Rails, ctx: Context, intent: Intent, st: State, q: int)
    requires Passes(MaxPositions, rules, rails, ctx, intent, st, q) && Passes(PerIndustry, rules, rails, ctx, intent, st, q)
    requires Passes(VenueMaxPosition, rules, rails, ctx, intent, st, q) && Passes(OrdersPerDay, rules, rails, ctx, intent, st, q)
    ensures WithinCounts(rules, rails, Filled(ctx, intent, q))
  {
  }

  /** The order by itself is within its shares of equity and of the volume traded. */
  predicate OrderWithin(rules: Rules, ctx: Context, intent: Intent, q: int)
  {
    && ctx.equity.Some? && q as real * intent.entry <= ctx.equity.value * rules.maxPositionFrac
    && ctx.adv.Some? && q as real * intent.entry <= ctx.adv.value * rules.maxAdvFrac
  }

  lemma OrderCaps(rules: Rules, rails: Rails, ctx: Context, intent: Intent, st: State, q: int)
    requires Passes(MaxPosition, rules, rails, ctx, intent, st, q) && Passes(AdvPct, rules, rails, ctx, intent, st, q)
    ensures OrderWithin(rules, ctx, intent, q)
  {
  }

  /** With an approved order in it the account is within every cap on it, and the order within its own. */
  lemma ApprovedStaysWithin(rules: Rules, rails: Rails, ctx: Context, intent: Intent, st: State, quotient: Quotient, q: int)
    requires Evaluate(rules, rails, ctx, intent, st, quotient).Ok?
    requires Evaluate(rules, rails, ctx, intent, st, quotient).value.approved == Some(q)
    ensures WithinAmounts(rules, Filled(ctx, intent, q)) && WithinCounts(rules, rails, Filled(ctx, intent, q))
    ensures OrderWithin(rules, ctx, intent, q)
  {
    ApprovedIff(rules, rails, ctx, intent, st, quotient, q);
    FilledAmounts(rules, rails, ctx, intent, st, q);
    FilledCounts(rules, rails, ctx, intent, st, q);
    OrderCaps(rules, rails, ctx, intent, st, q);
  }

  // --- what the sizing finds ----------------------------------------------------------------------

  /** The quotient answers with the whole number of `b` in `a`. */
  predicate IsFloor(quotient: Quotient, a: real, b: real)
  {
    b > 0.0 && quotient(a, b).Some? && quotient(a, b).value as real * b <= a < (quotient(a, b).value + 1) as real * b
  }

  /** `r` shares of an intent sized by a share of equity, or by its risk and, where the clamp applies, the position cap. */
  predicate Affordable(rules: Rules, ctx: Context, intent: Intent, st: State, r: int)
  {
    if intent.rule.NotionalPct? && Requested(intent.rule.percent).Some? then
      ctx.equity.Some? && r as real * intent.entry <= Notional(ctx.equity.value, Requested(intent.rule.percent).value, rules)
    else
      && r as real * Distance(intent) <= Budget(rules, ctx, intent, st)
      && (rules.clamp && intent.rule.RiskPct? && ctx.equity.Some? ==>
            r as real * intent.entry <= PositionLimit(ctx.equity.value, rules))
  }

  /** The quotients the sizing takes are whole numbers of shares. */
  predicate FloorsFor(rules: Rules, ctx: Context, intent: Intent, st: State, quotient: Quotient)
  {
    if intent.rule.NotionalPct? && Requested(intent.rule.percent).Some? then
      ctx.equity.Some?
      && IsFloor(quotient, Notional(ctx.equity.value, Requested(intent.rule.percent).value, rules), intent.entry)
    else
      && IsFloor(quotient, Budget(rules, ctx, intent, st), Distance(intent))
      && (rules.clamp && intent.rule.RiskPct? && ctx.equity.Some? ==>
            IsFloor(quotient, PositionLimit(ctx.equity.value, rules), intent.entry))
  }

  lemma FloorIff(quotient: Quotient, a: real, b: real, r: int)
    requires IsFloor(quotient, a, b)
    ensures r as real * b <= a <==> r <= quotient(a, b).value
  {
    var n := quotient(a, b).value;
    if r <= n {
      TimesMono(b, r as real, n as real);
    } else {
      TimesMono(b, (n + 1) as real, r as real);
    }
  }

  predicate FixedSize(intent: Intent)
  {
    intent.rule.Fixed? && intent.rule.count.Shares? && intent.rule.count.n > 0
  }

  /** The quantity is the largest the sizing rule and the clamp can pay for; a fixed one is taken as it is. */
  lemma SizedIsLargest(rules: Rules, ctx: Context, intent: Intent, st: State, quotient: Quotient, r: int)
    requires FixedSize(intent) || FloorsFor(rules, ctx, intent, st, quotient)
    ensures var q := Sized(rules, ctx, intent, st, quotient);
      && q.Ok?
      && if FixedSize(intent) then q.value == intent.rule.count.n
         else Affordable(rules, ctx, intent, st, r) <==> r <= q.value
  {
    if FixedSize(intent) {
    } else if intent.rule.NotionalPct? && Requested(intent.rule.percent).Some? {
      FloorIff(quotient, Notional(ctx.equity.value, Requested(intent.rule.percent).value, rules), intent.entry, r);
    } else {
      FloorIff(quotient, Budget(rules, ctx, intent, st), Distance(intent), r);
      if rules.clamp && intent.rule.RiskPct? && ctx.equity.Some? {
        FloorIff(quotient, PositionLimit(ctx.equity.value, rules), intent.entry, r);
      }
    }
  }
}
