/**
 * The T-trade cost calculator behind `POST /calculate`: input validation, the
 * defaulted fee rates, and the three derived quantities (total fees, the new
 * weighted-average cost of the position, and the profit or loss of the
 * intraday round trip). All arithmetic is exact over `real`.
 */
module Calculator {
  import opened Wrappers

  // ---------------------------------------------------------------------------
  // Rates
  // ---------------------------------------------------------------------------

  const DefaultCommissionRate: real := 0.0003
  const DefaultStampTaxRate: real := 0.001
  const DefaultTransferFee: real := 0.00002

  /** The message of the 400 reply to a malformed request. */
  const InvalidInputMessage: string := "Invalid input data"

  /** Commission (both legs), stamp tax (sell leg) and transfer fee (per unit traded). */
  datatype Rates = Rates(commissionRate: real, stampTaxRate: real, transferFee: real)

  const DefaultRates: Rates := Rates(DefaultCommissionRate, DefaultStampTaxRate, DefaultTransferFee)

  predicate NonNegativeRates(r: Rates) {
    r.commissionRate >= 0.0 && r.stampTaxRate >= 0.0 && r.transferFee >= 0.0
  }

  // ---------------------------------------------------------------------------
  // Trades and their derived quantities
  // ---------------------------------------------------------------------------

  /** An existing position and the two intraday legs traded against it. */
  datatype Trade = Trade(
    originalQuantity: real, originalCost: real,
    buyQuantity: real, buyPrice: real,
    sellQuantity: real, sellPrice: real)

  /** The three values the calculator returns and stores. */
  datatype Outcome = Outcome(newCost: real, profitLoss: real, totalFees: real)

  /** Quantities and prices of both intraday legs are non-negative. */
  predicate NonNegativeLegs(t: Trade) {
    t.buyQuantity >= 0.0 && t.buyPrice >= 0.0 &&
    t.sellQuantity >= 0.0 && t.sellPrice >= 0.0
  }

  function BuyNotional(t: Trade): real { t.buyQuantity * t.buyPrice }

  function SellNotional(t: Trade): real { t.sellQuantity * t.sellPrice }

  function BuyCommission(t: Trade, r: Rates): real { t.buyQuantity * t.buyPrice * r.commissionRate }

  function SellCommission(t: Trade, r: Rates): real { t.sellQuantity * t.sellPrice * r.commissionRate }

  function StampTax(t: Trade, r: Rates): real { t.sellQuantity * t.sellPrice * r.stampTaxRate }

  function TransferFeeTotal(t: Trade, r: Rates): real { (t.buyQuantity + t.sellQuantity) * r.transferFee }

  /** `total_fees`: commission on both legs, stamp tax on the sell leg, transfer fee on all units. */
  function TotalFees(t: Trade, r: Rates): (fees: real)
    ensures NonNegativeLegs(t) && NonNegativeRates(r) ==> fees >= 0.0
  {
    NonNegativeFees(t, r);
    BuyCommission(t, r) + SellCommission(t, r) + StampTax(t, r) + TransferFeeTotal(t, r)
  }

  /** Each fee component is non-negative when quantities, prices and rates are. */
  lemma NonNegativeFees(t: Trade, r: Rates)
    ensures NonNegativeLegs(t) && NonNegativeRates(r) ==>
      BuyCommission(t, r) >= 0.0 && SellCommission(t, r) >= 0.0 &&
      StampTax(t, r) >= 0.0 && TransferFeeTotal(t, r) >= 0.0
  {
  }

  /** The position left after the two legs. */
  function NewQuantity(t: Trade): real {
    t.originalQuantity + t.buyQuantity - t.sellQuantity
  }

  /** What the remaining position cost: old holding plus the buy outlay minus the sale proceeds. */
  function NetBookValue(t: Trade): real {
    t.originalQuantity * t.originalCost + BuyNotional(t) - SellNotional(t)
  }

  /**
   * `new_cost`: the weighted-average cost of the remaining position, defined
   * as 0 for a fully closed position so that nothing is divided by zero.
   */
  function NewCost(t: Trade): (c: real)
    ensures NewQuantity(t) == 0.0 ==> c == 0.0
    ensures NewQuantity(t) != 0.0 ==> c * NewQuantity(t) == NetBookValue(t)
  {
    var q := NewQuantity(t);
    if q == 0.0 then 0.0 else NetBookValue(t) / q
  }

  /** The intraday price spread earned on the units sold. */
  function GrossSpread(t: Trade): real {
    (t.sellPrice - t.buyPrice) * t.sellQuantity
  }

  /** `profit_loss`: the spread on the sold units less every fee. */
  function ProfitLoss(t: Trade, r: Rates): (pl: real)
    ensures pl + TotalFees(t, r) == GrossSpread(t)
    ensures NonNegativeLegs(t) && NonNegativeRates(r) ==> pl <= GrossSpread(t)
  {
    GrossSpread(t) - TotalFees(t, r)
  }

  /** The calculator: the three derived values of one trade under the given rates. */
  function Calculate(t: Trade, r: Rates): (o: Outcome)
    ensures o.totalFees ==
      (BuyNotional(t) * r.commissionRate + t.buyQuantity * r.transferFee) +
      (SellNotional(t) * (r.commissionRate + r.stampTaxRate) + t.sellQuantity * r.transferFee)
    ensures o.profitLoss + o.totalFees == GrossSpread(t)
    ensures NewQuantity(t) == 0.0 ==> o.newCost == 0.0
    ensures NewQuantity(t) != 0.0 ==> o.newCost * NewQuantity(t) == NetBookValue(t)
  {
    FeesByLeg(t, r);
    Outcome(NewCost(t), ProfitLoss(t, r), TotalFees(t, r))
  }

  /** The fee total regrouped by leg: what the buy leg costs and what the sell leg costs. */
  lemma FeesByLeg(t: Trade, r: Rates)
    ensures TotalFees(t, r) ==
      (BuyNotional(t) * r.commissionRate + t.buyQuantity * r.transferFee) +
      (SellNotional(t) * (r.commissionRate + r.stampTaxRate) + t.sellQuantity * r.transferFee)
  {
  }

  /** The fee total at the default rates. */
  lemma DefaultRateFees(t: Trade)
    ensures TotalFees(t, DefaultRates) ==
      0.0003 * (BuyNotional(t) + SellNotional(t)) + 0.001 * SellNotional(t) +
      0.00002 * (t.buyQuantity + t.sellQuantity)
  {
  }

  /**
   * A balanced T (as many units sold as bought) leaves the position size
   * unchanged and shifts its average cost by minus the gross spread per held
   * unit: on a long position (originalQuantity > 0) a profitable spread lowers
   * the cost and a losing one raises it.
   */
  lemma BalancedTradeShiftsCost(t: Trade)
    requires t.buyQuantity == t.sellQuantity
    requires t.originalQuantity != 0.0
    ensures NewQuantity(t) == t.originalQuantity
    ensures NewCost(t) == t.originalCost - GrossSpread(t) / t.originalQuantity
    ensures t.originalQuantity > 0.0 && GrossSpread(t) > 0.0 ==> NewCost(t) < t.originalCost
    ensures t.originalQuantity > 0.0 && GrossSpread(t) < 0.0 ==> NewCost(t) > t.originalCost
  {
  }

  /** For a balanced T the profit is the sale proceeds less the buy outlay and the fees. */
  lemma BalancedTradeProfit(t: Trade, r: Rates)
    requires t.buyQuantity == t.sellQuantity
    ensures ProfitLoss(t, r) == SellNotional(t) - BuyNotional(t) - TotalFees(t, r)
  {
  }

  /**
   * Buying onto a non-negative position without selling moves the average
   * cost to a value between the old cost and the buy price.
   */
  lemma BuyOnlyAveragesCost(t: Trade)
    requires t.sellQuantity == 0.0
    requires t.originalQuantity >= 0.0 && t.buyQuantity >= 0.0
    requires t.originalQuantity + t.buyQuantity > 0.0
    ensures Min(t.originalCost, t.buyPrice) <= NewCost(t) <= Max(t.originalCost, t.buyPrice)
  {
    var a, x, b, y := t.originalQuantity, t.originalCost, t.buyQuantity, t.buyPrice;
    var c, q := NewCost(t), NewQuantity(t);
    var lo, hi := Min(x, y), Max(x, y);
    assert q == a + b;
    assert c * q == a * x + b * y;
    ScaleBounds(a, x, lo, hi);
    ScaleBounds(b, y, lo, hi);
    assert lo * q == a * lo + b * lo;
    assert hi * q == a * hi + b * hi;
    CancelPositive(lo, c, q);
    CancelPositive(c, hi, q);
  }

  lemma CancelPositive(x: real, y: real, q: real)
    requires q > 0.0 && x * q <= y * q
    ensures x <= y
  {
  }

  lemma ScaleBounds(w: real, x: real, lo: real, hi: real)
    requires w >= 0.0 && lo <= x <= hi
    ensures w * lo <= w * x <= w * hi
  {
  }

  function Min(a: real, b: real): real { if a <= b then a else b }

  function Max(a: real, b: real): real { if a <= b then b else a }

  /** A worked example: 1000 held at 10, buy 500 at 9.5, sell 500 at 10.2, default rates. */
  lemma WorkedExample()
    ensures Calculate(Trade(1000.0, 10.0, 500.0, 9.5, 500.0, 10.2), DefaultRates)
         == Outcome(9.65, 341.925, 8.075)
  {
  }

  // ---------------------------------------------------------------------------
  // The request and its validation
  // ---------------------------------------------------------------------------

  /** A numeric JSON member as `isNaN` sees it: a number, or something that is not one. */
  datatype Numeric = Number(value: real) | NotANumber

  /** The body of a `POST /calculate` request. */
  datatype CalcRequest = CalcRequest(
    stockName: Option<string>, stockCode: Option<string>, date: Option<string>,
    originalQuantity: Numeric, originalCost: Numeric,
    buyQuantity: Numeric, buyPrice: Numeric,
    sellQuantity: Numeric, sellPrice: Numeric,
    commissionRate: Option<real>, stampTaxRate: Option<real>, transferFee: Option<real>)

  /** An accepted request: labels, the trade and the rates in force. */
  datatype Submission = Submission(
    stockName: string, stockCode: string, date: string, trade: Trade, rates: Rates)

  /** JavaScript truthiness of a text member: present and non-empty. */
  predicate Truthy(s: Option<string>) {
    s.Some? && s.value != ""
  }

  /** The acceptance rule of the calculate endpoint. */
  predicate WellFormed(req: CalcRequest) {
    Truthy(req.stockName) && Truthy(req.stockCode) && Truthy(req.date) &&
    req.originalQuantity.Number? && req.originalCost.Number? &&
    req.buyQuantity.Number? && req.buyPrice.Number? &&
    req.sellQuantity.Number? && req.sellPrice.Number?
  }

  /** The rates in force: each omitted rate falls back to its default. */
  function EffectiveRates(req: CalcRequest): Rates {
    Rates(req.commissionRate.GetOr(DefaultCommissionRate),
          req.stampTaxRate.GetOr(DefaultStampTaxRate),
          req.transferFee.GetOr(DefaultTransferFee))
  }

  /** The request that states a submission in full, every rate given explicitly. */
  function RequestOf(s: Submission): CalcRequest {
    CalcRequest(
      Some(s.stockName), Some(s.stockCode), Some(s.date),
      Number(s.trade.originalQuantity), Number(s.trade.originalCost),
      Number(s.trade.buyQuantity), Number(s.trade.buyPrice),
      Number(s.trade.sellQuantity), Number(s.trade.sellPrice),
      Some(s.rates.commissionRate), Some(s.rates.stampTaxRate), Some(s.rates.transferFee))
  }

  /** The request with its omitted rates filled in by their defaults. */
  function WithEffectiveRates(req: CalcRequest): CalcRequest {
    var r := EffectiveRates(req);
    req.(commissionRate := Some(r.commissionRate),
         stampTaxRate := Some(r.stampTaxRate),
         transferFee := Some(r.transferFee))
  }

  /**
   * Validation: a request is accepted exactly when it is well formed, and an
   * accepted request is carried over unchanged apart from its defaulted rates.
   */
  function Validate(req: CalcRequest): (r: Result<Submission>)
    ensures r.Success? <==> WellFormed(req)
    ensures r.Failure? ==> r.error == InvalidInputMessage
    ensures r.Success? ==> RequestOf(r.value) == WithEffectiveRates(req)
  {
    if !WellFormed(req) then Failure(InvalidInputMessage)
    else
      Success(Submission(
        req.stockName.value, req.stockCode.value, req.date.value,
        Trade(req.originalQuantity.value, req.originalCost.value,
              req.buyQuantity.value, req.buyPrice.value,
              req.sellQuantity.value, req.sellPrice.value),
        EffectiveRates(req)))
  }

  /** Every submission with non-empty labels is accepted back from its own request. */
  lemma ValidateRequestOf(s: Submission)
    requires s.stockName != "" && s.stockCode != "" && s.date != ""
    ensures Validate(RequestOf(s)) == Success(s)
  {
  }

  /** Omitting every rate is the same as giving the default rates. */
  lemma OmittedRatesDefault(req: CalcRequest)
    requires req.commissionRate.None? && req.stampTaxRate.None? && req.transferFee.None?
    ensures EffectiveRates(req) == DefaultRates
  {
  }
}
