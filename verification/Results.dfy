/**
 Aggregation of broker order results into one execution result, and which results leave the
 claimed key open for another delivery.
 */
module Results {
  import opened Common
  import opened Broker
  import opened ClaimProtocol

  datatype ExecutionMode =
    | SPOT | MARGIN | PERPETUAL | FUTURES | BULL_CALL | BEAR_PUT | BULL_PUT | BEAR_CALL
    | IRON_CONDOR | STRADDLE | STRANGLE | OPTIONS_SINGLE | NOTIFY_ONLY | PAPER

  function ModeValue(m: ExecutionMode): string {
    match m
    case SPOT => "spot"
    case MARGIN => "margin"
    case PERPETUAL => "perpetual"
    case FUTURES => "futures"
    case BULL_CALL => "bull_call"
    case BEAR_PUT => "bear_put"
    case BULL_PUT => "bull_put"
    case BEAR_CALL => "bear_call"
    case IRON_CONDOR => "iron_condor"
    case STRADDLE => "straddle"
    case STRANGLE => "strangle"
    case OPTIONS_SINGLE => "options_single"
    case NOTIFY_ONLY => "notify_only"
    case PAPER => "paper"
  }

  datatype ExecutionResult = ExecutionResult(
    success: bool,
    mode: string,
    ordersSubmitted: nat,
    ordersFilled: nat,
    totalQuantity: real,
    averagePrice: real,
    totalCommission: real,
    blockReason: string
  )

  const TERMINAL_MODES: set<string> := {"blocked", "dedup"}

  const RETRYABLE_BLOCK_REASONS: set<string> := {
    "account_state_unavailable", "account_state_timestamp_missing", "account_state_timestamp_future",
    "account_state_stale", "sizing_state_unavailable", "market_data_missing", "market_data_price_missing",
    "market_data_timestamp_missing", "market_data_timestamp_future", "stale_market_data",
    "market_session_unavailable", "risk_baseline_unavailable"
  }

  predicate IsRetryableFailure(r: ExecutionResult) {
    if r.success then false
    else if r.mode !in TERMINAL_MODES then true
    else r.mode == "blocked" && r.blockReason in RETRYABLE_BLOCK_REASONS
  }

  function Filled(rs: seq<BrokerOrderResult>): (fs: seq<BrokerOrderResult>)
    ensures |fs| <= |rs|
    ensures forall f :: f in fs <==> f in rs && f.HasFill()
  {
    if rs == [] then []
    else (if rs[0].HasFill() then [rs[0]] else []) + Filled(rs[1..])
  }

  function TotalQuantity(rs: seq<BrokerOrderResult>): real {
    if rs == [] then 0.0 else rs[0].filledQuantity + TotalQuantity(rs[1..])
  }

  function TotalValue(rs: seq<BrokerOrderResult>): real {
    if rs == [] then 0.0 else rs[0].filledQuantity * rs[0].averagePrice + TotalValue(rs[1..])
  }

  function TotalCommission(rs: seq<BrokerOrderResult>): real {
    if rs == [] then 0.0 else rs[0].commission + TotalCommission(rs[1..])
  }

  predicate HasUnknown(rs: seq<BrokerOrderResult>) {
    exists r :: r in rs && r.errorCode == "submission_unknown"
  }

  /** Value per unit, zero when there is nothing. */
  function Average(value: real, quantity: real): real {
    if quantity > 0.0 then value / quantity else 0.0
  }

  function Aggregate(mode: ExecutionMode, rs: seq<BrokerOrderResult>): ExecutionResult {
    var fs := Filled(rs);
    var quantity := TotalQuantity(fs);
    var unknown := HasUnknown(rs);
    ExecutionResult(
      !unknown && (|fs| > 0 || |rs| == 0),
      if unknown then "blocked" else ModeValue(mode),
      |rs|,
      |fs|,
      quantity,
      Average(TotalValue(fs), quantity),
      TotalCommission(fs),
      if unknown then "submission_unknown" else "")
  }

  /** What the engine tells the deduplicator about a result. */
  function OutcomeOf(r: ExecutionResult): Outcome {
    Outcome(r.success, IsRetryableFailure(r), !r.success && r.mode == "blocked")
  }

  /** A momentarily unavailable or stale dependency: a redelivery may succeed. */
  ghost predicate TransientBlock(r: ExecutionResult) {
    && !r.success && r.mode == "blocked"
    && (|| r.blockReason == "account_state_unavailable" || r.blockReason == "account_state_timestamp_missing"
        || r.blockReason == "account_state_timestamp_future" || r.blockReason == "account_state_stale"
        || r.blockReason == "sizing_state_unavailable" || r.blockReason == "market_data_missing"
        || r.blockReason == "market_data_price_missing" || r.blockReason == "market_data_timestamp_missing"
        || r.blockReason == "market_data_timestamp_future" || r.blockReason == "stale_market_data"
        || r.blockReason == "market_session_unavailable" || r.blockReason == "risk_baseline_unavailable")
  }

  /**
   The status any result leaves on its claim row when it is recorded: pending exactly for a failure
   in a real execution mode or a transient block, rejected for every other block, failed for a
   duplicate, executed for a success. Memory forgets the key exactly when the row is pending.
   */
  lemma RecordedStatus(r: ExecutionResult)
    ensures var status := NewStatus(OutcomeOf(r));
            && (status == Executed <==> r.success)
            && (status == Pending <==> !r.success && ((r.mode != "blocked" && r.mode != "dedup") || TransientBlock(r)))
            && (status == Rejected <==> !r.success && r.mode == "blocked" && !TransientBlock(r))
            && (status == Failed <==> !r.success && r.mode == "dedup")
            && (Evicts(OutcomeOf(r)) <==> status == Pending)
            && (IsRetryableFailure(r) <==> status == Pending)
  {
    assert r.blockReason in RETRYABLE_BLOCK_REASONS && r.mode == "blocked" && !r.success ==> TransientBlock(r);
  }

  /** The status a successfully recorded aggregate leaves on its claim row, decided by the list alone. */
  lemma AggregateStatus(mode: ExecutionMode, rs: seq<BrokerOrderResult>)
    ensures var status := NewStatus(OutcomeOf(Aggregate(mode, rs)));
            && (status == Rejected <==> HasUnknown(rs))
            && (status == Executed <==> !HasUnknown(rs) && (rs == [] || exists r :: r in rs && r.HasFill()))
            && (status == Pending <==> !HasUnknown(rs) && rs != [] && forall r :: r in rs ==> !r.HasFill())
            && (Evicts(OutcomeOf(Aggregate(mode, rs))) <==> status == Pending)
  {
    assert "submission_unknown" !in RETRYABLE_BLOCK_REASONS;
    assert ModeValue(mode) !in TERMINAL_MODES;
    if |Filled(rs)| > 0 {
      assert Filled(rs)[0] in Filled(rs);
    } else {
      assert forall r :: r in rs && r.HasFill() ==> r in Filled(rs);
    }
  }

  /** A quantity summed over the orders that report a positive quantity at a positive price. */
  ghost function SumFilled(rs: seq<BrokerOrderResult>, f: BrokerOrderResult -> real): real {
    if rs == [] then 0.0
    else
      var last := rs[|rs| - 1];
      SumFilled(rs[..|rs| - 1], f) + if last.filledQuantity > 0.0 && last.averagePrice > 0.0 then f(last) else 0.0
  }

  lemma {:induction false} SumFilledFront(rs: seq<BrokerOrderResult>, f: BrokerOrderResult -> real)
    requires rs != []
    ensures SumFilled(rs, f)
            == (if rs[0].filledQuantity > 0.0 && rs[0].averagePrice > 0.0 then f(rs[0]) else 0.0)
               + SumFilled(rs[1..], f)
    decreases |rs|
  {
    var n := |rs| - 1;
    if n == 0 {
      assert rs[..0] == [] && rs[1..] == [];
    } else {
      SumFilledFront(rs[..n], f);
      assert rs[..n][1..] == rs[1..][..n - 1] && rs[1..][n - 1] == rs[n];
    }
  }

  function One(r: BrokerOrderResult): real { 1.0 }

  function QuantityOf(r: BrokerOrderResult): real { r.filledQuantity }

  function ValueOf(r: BrokerOrderResult): real { r.filledQuantity * r.averagePrice }

  function CommissionOf(r: BrokerOrderResult): real { r.commission }

  ghost function SumAll(rs: seq<BrokerOrderResult>, f: BrokerOrderResult -> real): real {
    if rs == [] then 0.0 else f(rs[0]) + SumAll(rs[1..], f)
  }

  lemma {:induction false} FilledSum(rs: seq<BrokerOrderResult>, f: BrokerOrderResult -> real)
    ensures SumAll(Filled(rs), f) == SumFilled(rs, f)
    decreases |rs|
  {
    if rs != [] {
      FilledSum(rs[1..], f);
      SumFilledFront(rs, f);
      if rs[0].HasFill() {
        assert Filled(rs)[1..] == Filled(rs[1..]);
      } else {
        assert Filled(rs) == Filled(rs[1..]);
      }
    }
  }

  lemma {:induction false} SumsAll(fs: seq<BrokerOrderResult>)
    ensures |fs| as real == SumAll(fs, One) && TotalQuantity(fs) == SumAll(fs, QuantityOf)
    ensures TotalValue(fs) == SumAll(fs, ValueOf) && TotalCommission(fs) == SumAll(fs, CommissionOf)
    decreases |fs|
  {
    if fs != [] {
      SumsAll(fs[1..]);
    }
  }

  lemma FilledSums(rs: seq<BrokerOrderResult>)
    ensures |Filled(rs)| as real == SumFilled(rs, One)
    ensures TotalQuantity(Filled(rs)) == SumFilled(rs, QuantityOf)
    ensures TotalValue(Filled(rs)) == SumFilled(rs, ValueOf)
    ensures TotalCommission(Filled(rs)) == SumFilled(rs, CommissionOf)
  {
    SumsAll(Filled(rs));
    FilledSum(rs, One);
    FilledSum(rs, QuantityOf);
    FilledSum(rs, ValueOf);
    FilledSum(rs, CommissionOf);
  }

  /**
   The figures of the aggregate: every order counts as submitted; filled orders, quantity and
   commission are sums over the orders that filled, and average times quantity is their value.
   */
  lemma AggregateTotals(mode: ExecutionMode, rs: seq<BrokerOrderResult>)
    ensures var a := Aggregate(mode, rs);
            && a.ordersSubmitted == |rs|
            && a.ordersFilled as real == SumFilled(rs, One)
            && a.totalQuantity == SumFilled(rs, QuantityOf)
            && a.totalCommission == SumFilled(rs, CommissionOf)
            && IsAverage(a.averagePrice, a.totalQuantity, SumFilled(rs, ValueOf))
  {
    hide SumFilled, Filled, TotalQuantity, TotalValue, TotalCommission, HasUnknown, ModeValue, Average, IsAverage;
    FilledSums(rs);
    AverageTimes(Filled(rs));
  }

  lemma AverageTimes(fs: seq<BrokerOrderResult>)
    requires forall r :: r in fs ==> r.HasFill()
    ensures TotalQuantity(fs) >= 0.0
    ensures IsAverage(Average(TotalValue(fs), TotalQuantity(fs)), TotalQuantity(fs), TotalValue(fs))
  {
    FilledPositive(fs);
    if TotalQuantity(fs) > 0.0 {
      QuotientIsAverage(TotalValue(fs), TotalQuantity(fs));
    }
  }

  /** A list with an unknown submission is reported as a block with that reason, any other under its own mode. */
  lemma AggregateMode(mode: ExecutionMode, rs: seq<BrokerOrderResult>)
    ensures var a := Aggregate(mode, rs);
            if exists r :: r in rs && r.errorCode == "submission_unknown"
            then !a.success && a.mode == "blocked" && a.blockReason == "submission_unknown"
            else a.mode == ModeValue(mode) && a.blockReason == ""
  {
  }

  /** The mode names are the fourteen of the configuration, told apart. */
  lemma ModeNames(m: ExecutionMode, n: ExecutionMode)
    ensures ModeValue(m) == ModeValue(n) <==> m == n
    ensures ModeValue(m) == "paper" <==> m == PAPER
    ensures ModeValue(m) == "spot" <==> m == SPOT
    ensures ModeValue(m) == "notify_only" <==> m == NOTIFY_ONLY
    ensures ModeValue(m) in {"perpetual", "futures", "margin"} <==> m in {PERPETUAL, FUTURES, MARGIN}
  {
  }

  lemma OptionModeNames(m: ExecutionMode)
    ensures ModeValue(m) == "bull_call" <==> m == BULL_CALL
    ensures ModeValue(m) == "bear_put" <==> m == BEAR_PUT
    ensures ModeValue(m) == "bull_put" <==> m == BULL_PUT
    ensures ModeValue(m) == "bear_call" <==> m == BEAR_CALL
    ensures ModeValue(m) == "iron_condor" <==> m == IRON_CONDOR
    ensures ModeValue(m) == "straddle" <==> m == STRADDLE
    ensures ModeValue(m) == "strangle" <==> m == STRANGLE
    ensures ModeValue(m) == "options_single" <==> m == OPTIONS_SINGLE
  {
  }

  lemma {:induction false} FilledPositive(fs: seq<BrokerOrderResult>)
    requires forall r :: r in fs ==> r.HasFill()
    ensures TotalQuantity(fs) >= 0.0
    ensures fs != [] ==> TotalQuantity(fs) > 0.0
  {
    if fs != [] {
      FilledPositive(fs[1..]);
      assert fs[0] in fs;
    }
  }

  lemma {:induction false} FilledWeighted(fs: seq<BrokerOrderResult>, lo: real, hi: real)
    requires forall r :: r in fs ==> r.HasFill() && lo <= r.averagePrice <= hi
    ensures Between(lo, hi, TotalQuantity(fs), TotalValue(fs))
  {
    if fs != [] {
      FilledWeighted(fs[1..], lo, hi);
      var q, p := fs[0].filledQuantity, fs[0].averagePrice;
      assert q > 0.0 && lo <= p <= hi by { assert fs[0] in fs; }
      BetweenStep(lo, hi, q, p, TotalQuantity(fs[1..]), TotalValue(fs[1..]));
    }
  }

  lemma AverageOfFills(fs: seq<BrokerOrderResult>, lo: real, hi: real)
    requires fs != [] && forall r :: r in fs ==> r.HasFill() && lo <= r.averagePrice <= hi
    ensures TotalQuantity(fs) > 0.0
    ensures lo <= TotalValue(fs) / TotalQuantity(fs) <= hi
  {
    FilledPositive(fs);
    FilledWeighted(fs, lo, hi);
    QuotientIsAverage(TotalValue(fs), TotalQuantity(fs));
    AverageBetween(TotalValue(fs) / TotalQuantity(fs), TotalQuantity(fs), TotalValue(fs), lo, hi);
  }

  /** The reported average price lies between the extreme fill prices. */
  lemma AveragePriceBounds(mode: ExecutionMode, rs: seq<BrokerOrderResult>, lo: real, hi: real)
    requires forall r :: r in rs && r.HasFill() ==> lo <= r.averagePrice <= hi
    requires exists r :: r in rs && r.HasFill()
    ensures lo <= Aggregate(mode, rs).averagePrice <= hi && Aggregate(mode, rs).totalQuantity > 0.0
  {
    var fs := Filled(rs);
    assert fs != [] by {
      var r :| r in rs && r.HasFill();
      assert r in fs;
    }
    AverageOfFills(fs, lo, hi);
  }
}
