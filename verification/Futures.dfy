/**
 Sizing of a futures order: leverage under the contract's margin limit, contracts rounded down to
 a valid increment, the position reduced to the available margin.
 */
module Futures {
  import opened Common
  import opened Calendar
  import Broker

  datatype ContractType = Perpetual | Dated | Unsupported

  datatype FuturesConfig =
    FuturesConfig(targetLeverage: real, maxLeverage: real, usePerpetual: bool, contractSize: real)

  /** Venue contract terms; `expiry` is a UTC day ordinal. */
  datatype FuturesContract =
    FuturesContract(contractType: ContractType, contractSize: real, marginRequirement: real, expiry: Option<int>)

  datatype Terms = Terms(contractType: ContractType, size: real, marginReq: real)

  datatype FuturesOrder =
    FuturesOrder(symbol: string, long: bool, quantity: real, multiplier: real, price: real, leverage: real,
                 notional: real, margin: real, contractType: ContractType, expiry: Option<int>)

  datatype Refusal = BadInput | BadTerms | BelowMinimumQuantity | BelowMinimumMargin | NoExpiry | BlankSymbol

  datatype Built = Order(order: FuturesOrder) | Refused(reason: Refusal)

  predicate GoodInput(price: real, notional: real, available: real, config: FuturesConfig) {
    price > 0.0 && notional > 0.0 && available > 0.0 && config.targetLeverage > 0.0 && config.maxLeverage > 0.0
  }

  /** The contract's own terms, or those of the configuration. */
  function TermsOf(config: FuturesConfig, contract: Option<FuturesContract>): Terms
    requires config.maxLeverage > 0.0
  {
    match contract
    case Some(c) => Terms(c.contractType, c.contractSize, c.marginRequirement)
    case None => Terms(if config.usePerpetual then Perpetual else Dated, config.contractSize, 1.0 / config.maxLeverage)
  }

  predicate GoodTerms(t: Terms) {
    !t.contractType.Unsupported? && t.size > 0.0 && 0.0 < t.marginReq <= 1.0
  }

  /** The value of one contract. */
  function UnitValue(price: real, size: real): real {
    price * size
  }

  function Notional(contracts: real, price: real, size: real): real {
    contracts * price * size
  }

  function Margin(notional: real, leverage: real): real
    requires leverage > 0.0
  {
    notional / leverage
  }

  /** The notional the available margin can carry. */
  function Capacity(available: real, leverage: real): real {
    available * leverage
  }

  /** Increments in one contract: ten thousandths for perpetuals, whole contracts otherwise. */
  function PerContract(ct: ContractType): real {
    if ct.Perpetual? then 10_000.0 else 1.0
  }

  /** Rounds a contract quantity down to a valid increment. */
  function RoundContracts(contracts: real, ct: ContractType): real {
    if ct.Perpetual? then (contracts * 10_000.0).Floor as real / 10_000.0 else contracts.Floor as real
  }

  /** What k increments are worth, `unit` being the value of one contract. */
  function Worth(k: int, ct: ContractType, unit: real): real {
    k as real / PerContract(ct) * unit
  }

  /** A quantity of k increments stays within the notional and the margin. */
  predicate Fits(k: int, ct: ContractType, unit: real, notional: real, leverage: real, available: real)
    requires leverage > 0.0
  {
    Worth(k, ct, unit) <= notional && Margin(Worth(k, ct, unit), leverage) <= available
  }

  // ---------------------------------------------------------------- arithmetic

  lemma MulMono(a: real, b: real, c: real)
    requires a <= b && c >= 0.0
    ensures a * c <= b * c
  {
  }

  lemma MulMonoStrict(a: real, b: real, c: real)
    requires a < b && c > 0.0
    ensures a * c < b * c
  {
  }

  lemma MulLe(q: real, c: real, b: real)
    requires b > 0.0
    ensures q <= c <==> q * b <= c * b
  {
    if q <= c { MulMono(q, c, b); } else { MulMonoStrict(c, q, b); }
  }

  /** The margin is within what is available exactly when the notional is within capacity. */
  lemma MarginWithin(value: real, leverage: real, available: real)
    requires leverage > 0.0
    ensures Margin(value, leverage) <= available <==> value <= Capacity(available, leverage)
  {
    MulLe(value / leverage, available, leverage);
    assert value / leverage * leverage == value;
  }

  lemma StepLt(a: real, b: real, n: real, unit: real)
    requires a < b && n > 0.0 && unit > 0.0
    ensures a / n * unit < b / n * unit
  {
    assert a / n == a * (1.0 / n) && b / n == b * (1.0 / n);
    MulMonoStrict(a, b, 1.0 / n);
    MulMonoStrict(a / n, b / n, unit);
  }

  /** The worth of k increments grows with k. */
  lemma WorthMono(j: int, k: int, ct: ContractType, unit: real)
    requires j <= k && unit > 0.0
    ensures Worth(j, ct, unit) <= Worth(k, ct, unit)
  {
    if j < k { StepLt(j as real, k as real, PerContract(ct), unit); }
  }

  /** The increments in a capacity, rounded down. */
  function Count(cap: real, ct: ContractType, unit: real): int
    requires unit > 0.0
  {
    (cap / unit * PerContract(ct)).Floor
  }

  lemma WorthAgainst(x: real, m: int, ct: ContractType, unit: real)
    requires unit > 0.0
    ensures x < m as real ==> x / PerContract(ct) * unit < Worth(m, ct, unit)
    ensures m as real <= x ==> Worth(m, ct, unit) <= x / PerContract(ct) * unit
  {
    if x < m as real { StepLt(x, m as real, PerContract(ct), unit); }
    if m as real < x { StepLt(m as real, x, PerContract(ct), unit); }
  }

  lemma QuotientTimes(a: real, n: real, unit: real)
    requires unit > 0.0 && n > 0.0
    ensures a / unit * n / n * unit == a
  {
    assert a / unit * n / n == a / unit;
  }

  /** Rounding a capacity down gives the last increment within it. */
  lemma CountIsLast(cap: real, ct: ContractType, unit: real)
    requires unit > 0.0
    ensures Worth(Count(cap, ct, unit), ct, unit) <= cap < Worth(Count(cap, ct, unit) + 1, ct, unit)
  {
    var n := PerContract(ct);
    var x := cap / unit * n;
    var k := Count(cap, ct, unit);
    QuotientTimes(cap, n, unit);
    WorthAgainst(x, k, ct, unit);
    WorthAgainst(x, k + 1, ct, unit);
  }

  /** Rounded contracts are whole increments, none exactly when one is worth more than the capacity. */
  lemma RoundIs(cap: real, ct: ContractType, unit: real)
    requires unit > 0.0
    ensures RoundContracts(cap / unit, ct) == Count(cap, ct, unit) as real / PerContract(ct)
    ensures RoundContracts(cap / unit, ct) <= 0.0 <==> Count(cap, ct, unit) <= 0
    ensures Count(cap, ct, unit) <= 0 <==> Worth(1, ct, unit) > cap
  {
    var k := Count(cap, ct, unit);
    CountIsLast(cap, ct, unit);
    if k <= 0 { WorthMono(k + 1, 1, ct, unit); } else { WorthMono(1, k, ct, unit); }
  }

  /** Pricing k increments gives their worth. */
  lemma NotionalIs(k: int, ct: ContractType, price: real, size: real)
    ensures Notional(k as real / PerContract(ct), price, size) == Worth(k, ct, UnitValue(price, size))
  {
  }

  // ---------------------------------------------------------------- the largest size

  /** The k-th increment is the largest that fits. */
  ghost predicate Largest(k: int, ct: ContractType, unit: real, notional: real, leverage: real, available: real)
    requires leverage > 0.0
  {
    && Fits(k, ct, unit, notional, leverage, available)
    && forall j :: j > k ==> !Fits(j, ct, unit, notional, leverage, available)
  }

  /** The contracts are the largest valid quantity within the notional and the margin. */
  ghost predicate LargestSize(contracts: real, ct: ContractType, unit: real, notional: real, leverage: real,
                              available: real)
    requires leverage > 0.0
  {
    exists k: int {:trigger Largest(k, ct, unit, notional, leverage, available)} ::
      && k >= 1 && contracts == k as real / PerContract(ct)
      && Largest(k, ct, unit, notional, leverage, available)
  }

  /** Fits, as one comparison against each capacity. */
  lemma FitsCaps(k: int, ct: ContractType, unit: real, notional: real, leverage: real, available: real)
    requires leverage > 0.0
    ensures Fits(k, ct, unit, notional, leverage, available)
            <==> Worth(k, ct, unit) <= notional && Worth(k, ct, unit) <= Capacity(available, leverage)
  {
    MarginWithin(Worth(k, ct, unit), leverage, available);
  }

  /** A count within both capacities whose successor exceeds one of them is the largest. */
  lemma SizeIsLargest(k: int, ct: ContractType, unit: real, notional: real, leverage: real, available: real)
    requires unit > 0.0 && leverage > 0.0 && k >= 1
    requires Worth(k, ct, unit) <= notional && Worth(k, ct, unit) <= Capacity(available, leverage)
    requires Worth(k + 1, ct, unit) > notional || Worth(k + 1, ct, unit) > Capacity(available, leverage)
    ensures LargestSize(k as real / PerContract(ct), ct, unit, notional, leverage, available)
  {
    FitsCaps(k, ct, unit, notional, leverage, available);
    forall j | j > k ensures !Fits(j, ct, unit, notional, leverage, available) {
      FitsCaps(j, ct, unit, notional, leverage, available);
      WorthMono(k + 1, j, ct, unit);
    }
    assert Largest(k, ct, unit, notional, leverage, available);
  }

  /** A largest size is positive. */
  lemma Positive(q: real, ct: ContractType, price: real, size: real, notional: real, leverage: real, available: real)
    requires price > 0.0 && size > 0.0 && leverage > 0.0
    requires LargestSize(q, ct, UnitValue(price, size), notional, leverage, available)
    ensures q > 0.0 && Notional(q, price, size) > 0.0 && Margin(Notional(q, price, size), leverage) > 0.0
  {
    MulMonoStrict(0.0, q, price);
    MulMonoStrict(0.0, q * price, size);
  }

  // ---------------------------------------------------------------- sizing

  datatype Sized = Sized(contracts: real, notional: real, margin: real) | TooSmall(reason: Refusal)

  /** Equal within one part in a thousand million, relative or absolute. */
  predicate Close(a: real, b: real) {
    var diff := if a >= b then a - b else b - a;
    diff <= 0.000000001 || diff <= 0.000000001 * (if a >= b then a else b)
  }

  /**
   Sizes the order. Over exact arithmetic it finds the largest valid increment within the notional
   and the margin, fails exactly when not even one increment fits, and the second margin check
   never fires.
   */
  method SizeContracts(ct: ContractType, price: real, size: real, notional: real, leverage: real, available: real)
    returns (r: Sized)
    requires UnitValue(price, size) > 0.0 && leverage > 0.0
    ensures r.Sized? <==> Fits(1, ct, UnitValue(price, size), notional, leverage, available)
    ensures r.TooSmall? ==>
              r.reason == if Worth(1, ct, UnitValue(price, size)) > notional then BelowMinimumQuantity
                  else BelowMinimumMargin
    ensures r.Sized? ==>
              && LargestSize(r.contracts, ct, UnitValue(price, size), notional, leverage, available)
              && r.notional == Notional(r.contracts, price, size)
              && r.margin == Margin(r.notional, leverage) <= available
  {
    hide Worth, Fits, Count, RoundContracts, LargestSize, UnitValue, Notional, Margin, Capacity;
    var unit := UnitValue(price, size);
    FitsCaps(1, ct, unit, notional, leverage, available);
    var contracts := RoundContracts(notional / unit, ct);
    ghost var k := Count(notional, ct, unit);
    RoundIs(notional, ct, unit);
    CountIsLast(notional, ct, unit);
    if contracts <= 0.0 {
      return TooSmall(BelowMinimumQuantity);
    }
    var actual := Notional(contracts, price, size);
    NotionalIs(k, ct, price, size);
    var margin := Margin(actual, leverage);
    MarginWithin(actual, leverage, available);
    if margin > available {
      var maxNotional := Capacity(available, leverage);
      contracts := RoundContracts(maxNotional / unit, ct);
      RoundIs(maxNotional, ct, unit);
      CountIsLast(maxNotional, ct, unit);
      if contracts <= 0.0 {
        return TooSmall(BelowMinimumMargin);
      }
      k := Count(maxNotional, ct, unit);
      actual := Notional(contracts, price, size);
      NotionalIs(k, ct, price, size);
      margin := Margin(actual, leverage);
      MarginWithin(actual, leverage, available);
    }
    SizeIsLargest(k, ct, unit, notional, leverage, available);
    WorthMono(1, k, ct, unit);
    r := if margin > available && !Close(margin, available) then TooSmall(BelowMinimumMargin)
         else Sized(contracts, actual, margin);
  }

  // ---------------------------------------------------------------- building the order

  /** The tightest of the target, the user's limit and the contract's margin limit. */
  function Leverage(config: FuturesConfig, t: Terms): (r: real)
    requires config.targetLeverage > 0.0 && config.maxLeverage > 0.0 && GoodTerms(t)
    ensures 0.0 < r <= config.targetLeverage && r <= config.maxLeverage && r * t.marginReq <= 1.0
    ensures r == config.targetLeverage || r == config.maxLeverage || r * t.marginReq == 1.0
  {
    var limit := 1.0 / t.marginReq;
    var r := Min(Min(config.targetLeverage, config.maxLeverage), limit);
    assert limit * t.marginReq == 1.0;
    MulMono(r, limit, t.marginReq);
    r
  }

  /** The checks an order passes on construction. */
  predicate ValidOrder(o: FuturesOrder) {
    && Broker.Strip(o.symbol) != ""
    && o.quantity > 0.0 && o.multiplier > 0.0 && o.price > 0.0
    && o.leverage > 0.0 && o.notional > 0.0 && o.margin > 0.0
    && !o.contractType.Unsupported?
    && (o.expiry.Some? <==> o.contractType.Dated?)
    && Close(o.notional, Notional(o.quantity, o.price, o.multiplier))
    && Close(o.margin, Margin(o.notional, o.leverage))
  }

  /** Where the expiry of an order comes from. */
  ghost predicate ExpiryOf(expiry: Option<int>, ct: ContractType, contract: Option<FuturesContract>, now: int) {
    if !ct.Dated? then expiry == None
    else if contract.Some? && contract.value.expiry.Some? then expiry == contract.value.expiry
    else expiry.Some? && EarliestOpen(now, expiry.value)
  }

  /** No month of the calendar is left to choose for an order that needs one. */
  ghost predicate CalendarExhausted(ct: ContractType, contract: Option<FuturesContract>, now: int) {
    && ct.Dated? && !(contract.Some? && contract.value.expiry.Some?)
    && forall y, m :: ValidMonth(y, m) ==> !Open(now, ThirdFriday(y, m))
  }

  method ExpiryFor(ct: ContractType, contract: Option<FuturesContract>, today: Moment)
    returns (ok: bool, expiry: Option<int>)
    requires ValidMoment(today)
    ensures ok <==> !CalendarExhausted(ct, contract, Instant(today))
    ensures ok ==> ExpiryOf(expiry, ct, contract, Instant(today))
  {
    ok, expiry := true, None;
    if ct.Dated? {
      if contract.Some? && contract.value.expiry.Some? {
        expiry := contract.value.expiry;
      } else {
        expiry := FrontMonthExpiry(today);
        ok := expiry.Some?;
      }
    }
  }

  /** What a delivered order is. */
  ghost predicate Delivered(o: FuturesOrder, symbol: string, isLong: bool, price: real, notional: real, available: real,
                            t: Terms, leverage: real, contract: Option<FuturesContract>, now: int)
    requires leverage > 0.0
  {
    && ValidOrder(o)
    && o.symbol == symbol && o.long == isLong && o.price == price
    && o.multiplier == t.size && o.contractType == t.contractType && o.leverage == leverage
    && LargestSize(o.quantity, t.contractType, UnitValue(price, t.size), notional, leverage, available)
    && o.notional == Notional(o.quantity, price, t.size) && o.margin == Margin(o.notional, leverage) <= available
    && ExpiryOf(o.expiry, t.contractType, contract, now)
  }

  /** The outcome for a request whose terms were accepted, with the exact condition of each refusal. */
  ghost predicate OutcomeFor(r: Built, symbol: string, isLong: bool, price: real, notional: real, available: real,
                             t: Terms, leverage: real, contract: Option<FuturesContract>, now: int)
    requires leverage > 0.0
  {
    if !Fits(1, t.contractType, UnitValue(price, t.size), notional, leverage, available) then
      r == Refused(if Worth(1, t.contractType, UnitValue(price, t.size)) > notional
                   then BelowMinimumQuantity else BelowMinimumMargin)
    else if CalendarExhausted(t.contractType, contract, now) then r == Refused(NoExpiry)
    else if Broker.Strip(symbol) == "" then r == Refused(BlankSymbol)
    else r.Order? && Delivered(r.order, symbol, isLong, price, notional, available, t, leverage, contract, now)
  }

  /**
   Builds the order. The outcome is fixed by the inputs: each refusal has its exact condition, and
   an order carries the largest valid quantity within the notional and the margin at the allowed
   leverage, with consistent notional and margin and the right expiry.
   */
  method BuildOrder(symbol: string, isLong: bool, price: real, notional: real, available: real,
                    config: FuturesConfig, contract: Option<FuturesContract>, today: Moment) returns (r: Built)
    requires ValidMoment(today)
    ensures r == Refused(BadInput) <==>
            || price <= 0.0 || notional <= 0.0 || available <= 0.0
            || config.targetLeverage <= 0.0 || config.maxLeverage <= 0.0
    ensures GoodInput(price, notional, available, config) && !GoodTerms(TermsOf(config, contract)) ==>
              r == Refused(BadTerms)
    ensures GoodInput(price, notional, available, config) && GoodTerms(TermsOf(config, contract)) ==>
              OutcomeFor(r, symbol, isLong, price, notional, available, TermsOf(config, contract),
                         Leverage(config, TermsOf(config, contract)), contract, Instant(today))
  {
    hide Worth, Fits, LargestSize, UnitValue, Notional, Margin, CalendarExhausted, EarliestOpen, Leverage, Instant,
         Broker.Strip;
    if !GoodInput(price, notional, available, config) {
      return Refused(BadInput);
    }
    var t := TermsOf(config, contract);
    if !GoodTerms(t) {
      return Refused(BadTerms);
    }
    var leverage := Leverage(config, t);
    UnitPositive(price, t.size);
    var sized := SizeContracts(t.contractType, price, t.size, notional, leverage, available);
    if sized.TooSmall? {
      return Refused(sized.reason);
    }
    var ok, expiry := ExpiryFor(t.contractType, contract, today);
    if !ok {
      return Refused(NoExpiry);
    }
    Positive(sized.contracts, t.contractType, price, t.size, notional, leverage, available);
    var o := FuturesOrder(symbol, isLong, sized.contracts, t.size, price, leverage, sized.notional, sized.margin,
                          t.contractType, expiry);
    r := if ValidOrder(o) then Order(o) else Refused(BlankSymbol);
  }

  lemma UnitPositive(price: real, size: real)
    requires price > 0.0 && size > 0.0
    ensures UnitValue(price, size) > 0.0
  {
    MulMonoStrict(0.0, price, size);
  }

  // ---------------------------------------------------------------- in plain arithmetic

  /** Without a contract the margin requirement is the inverse of the leverage limit. */
  lemma TermsAre(config: FuturesConfig, contract: Option<FuturesContract>)
    requires config.maxLeverage > 0.0
    ensures var t := TermsOf(config, contract);
            && (contract.Some? ==>
                  && t.contractType == contract.value.contractType && t.size == contract.value.contractSize
                  && t.marginReq == contract.value.marginRequirement)
            && (contract.None? ==>
                  && t.contractType == (if config.usePerpetual then Perpetual else Dated)
                  && t.size == config.contractSize && t.marginReq * config.maxLeverage == 1.0)
            && (GoodTerms(t) <==>
                  && (t.contractType == Perpetual || t.contractType == Dated)
                  && t.size > 0.0 && t.marginReq > 0.0 && t.marginReq <= 1.0)
  {
    if contract.None? { Inverse(config.maxLeverage); }
  }

  lemma Inverse(x: real)
    requires x > 0.0
    ensures 1.0 / x * x == 1.0
  {
  }

  /** k increments as contracts: ten-thousandths of a perpetual, whole dated contracts. */
  ghost function Lots(k: int, ct: ContractType): real {
    if ct == Perpetual then k as real / 10_000.0 else k as real
  }

  /** That many contracts cost no more than the notional asked for and the margin times the leverage. */
  ghost predicate Affordable(contracts: real, price: real, size: real, notional: real, leverage: real,
                             available: real)
  {
    contracts * (price * size) <= notional && contracts * (price * size) <= available * leverage
  }

  lemma FitsIsAffordable(k: int, ct: ContractType, price: real, size: real, notional: real, leverage: real,
                         available: real)
    requires leverage > 0.0
    ensures Fits(k, ct, UnitValue(price, size), notional, leverage, available)
            <==> Affordable(Lots(k, ct), price, size, notional, leverage, available)
  {
    FitsCaps(k, ct, UnitValue(price, size), notional, leverage, available);
    hide Fits;
  }

  /**
   A delivered order in plain arithmetic: the quantity is the largest whole number of increments
   that is affordable, the notional is quantity times price times multiplier, and the margin times
   the leverage is the notional.
   */
  lemma DeliveredIs(o: FuturesOrder, symbol: string, isLong: bool, price: real, notional: real, available: real,
                    t: Terms, leverage: real, contract: Option<FuturesContract>, now: int) returns (k: int)
    requires leverage > 0.0
    requires Delivered(o, symbol, isLong, price, notional, available, t, leverage, contract, now)
    ensures k >= 1 && o.quantity == Lots(k, t.contractType)
    ensures Affordable(Lots(k, t.contractType), price, t.size, notional, leverage, available)
    ensures forall j :: j > k ==> !Affordable(Lots(j, t.contractType), price, t.size, notional, leverage, available)
    ensures o.notional == o.quantity * o.price * o.multiplier
    ensures o.margin * o.leverage == o.notional
  {
    Cancels(o.notional, leverage);
    k := LargestIs(o.quantity, t.contractType, price, t.size, notional, leverage, available);
    hide LargestSize, Fits, Affordable, Lots, Close;
  }

  lemma Cancels(a: real, b: real)
    requires b > 0.0
    ensures Margin(a, b) * b == a
  {
  }

  lemma LargestIs(q: real, ct: ContractType, price: real, size: real, notional: real, leverage: real, available: real)
    returns (k: int)
    requires leverage > 0.0 && LargestSize(q, ct, UnitValue(price, size), notional, leverage, available)
    ensures k >= 1 && q == Lots(k, ct) && Affordable(Lots(k, ct), price, size, notional, leverage, available)
    ensures forall j :: j > k ==> !Affordable(Lots(j, ct), price, size, notional, leverage, available)
  {
    var unit := UnitValue(price, size);
    k :| k >= 1 && q == k as real / PerContract(ct) && Largest(k, ct, unit, notional, leverage, available);
    hide Fits, Affordable;
    FitsIsAffordable(k, ct, price, size, notional, leverage, available);
    forall j | j > k ensures !Affordable(Lots(j, ct), price, size, notional, leverage, available) {
      FitsIsAffordable(j, ct, price, size, notional, leverage, available);
    }
  }

  /** The tolerance of the order's own checks is symmetric: a thousand-millionth, absolute or of the larger figure. */
  lemma CloseIs(a: real, b: real)
    requires a >= 0.0 && b >= 0.0
    ensures Close(a, b) <==>
            || (a - b <= 0.000000001 && b - a <= 0.000000001)
            || (a - b <= 0.000000001 * a && b - a <= 0.000000001 * b)
  {
  }

  /** A named contract with positive figures and an expiry exactly when it is dated. */
  ghost predicate WellNamed(o: FuturesOrder) {
    && Broker.Strip(o.symbol) != "" && (o.contractType == Perpetual || o.contractType == Dated)
    && (o.contractType == Dated <==> o.expiry != None)
    && o.quantity > 0.0 && o.multiplier > 0.0 && o.price > 0.0
    && o.leverage > 0.0 && o.notional > 0.0 && o.margin > 0.0
  }

  /** The construction checks demand that much, and nothing more of an order whose figures agree exactly. */
  lemma ConstructionChecks(o: FuturesOrder)
    ensures ValidOrder(o) ==> WellNamed(o)
    ensures WellNamed(o) && o.notional == o.quantity * o.price * o.multiplier && o.margin * o.leverage == o.notional ==>
              ValidOrder(o)
  {
    if o.leverage > 0.0 { DividesBack(o.margin, o.leverage); }
    hide Broker.Strip;
  }

  lemma DividesBack(a: real, b: real)
    requires b > 0.0
    ensures Margin(a * b, b) == a
  {
  }
}
