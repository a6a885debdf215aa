/**
 The figures the recovery read reports, as sums over the stored rows of the order, whatever order
 they are read in.
 */
module LedgerTotals {
  import opened Common
  import opened Broker
  import opened Numeric
  import opened Ledger
  import opened LedgerSafety
  import opened LedgerRecovery

  ghost function SumRows(rows: seq<Exec>, f: Exec -> real): real {
    if rows == [] then 0.0 else SumRows(rows[..|rows| - 1], f) + f(rows[|rows| - 1])
  }

  function Quantity(e: Exec): real { e.qty as real / 100000000.0 }

  function Price(e: Exec): real { e.price as real / 100000000.0 }

  function Fee(e: Exec): real { e.fee as real / 100000000.0 }

  function Notional(e: Exec): real { Quantity(e) * Price(e) }

  lemma SumSnoc(rows: seq<Exec>, r: Exec, f: Exec -> real)
    ensures SumRows(rows + [r], f) == SumRows(rows, f) + f(r)
  {
    assert (rows + [r])[..|rows|] == rows;
  }

  lemma {:induction false} InsertSum(rows: seq<Exec>, r: Exec, f: Exec -> real)
    ensures SumRows(InsertRow(rows, r), f) == SumRows(rows, f) + f(r)
    decreases |rows|
  {
    if rows == [] || rows[|rows| - 1].ts <= r.ts {
      SumSnoc(rows, r, f);
      assert rows == [] ==> InsertRow(rows, r) == rows + [r];
    } else {
      var n := |rows| - 1;
      InsertSum(rows[..n], r, f);
      SumSnoc(InsertRow(rows[..n], r), rows[n], f);
    }
  }

  /** A sum does not depend on the order the rows are read in. */
  lemma {:induction false} SortSum(rows: seq<Exec>, f: Exec -> real)
    ensures SumRows(SortRows(rows), f) == SumRows(rows, f)
    decreases |rows|
  {
    if rows != [] {
      var n := |rows| - 1;
      SortSum(rows[..n], f);
      InsertSum(SortRows(rows[..n]), rows[n], f);
    }
  }

  lemma {:induction false} FillSums(rows: seq<Exec>, ref: string, symbol: string, side: string)
    ensures var fills := FillsOf(rows, ref, symbol, side);
            && SumQuantity(fills) == SumRows(rows, Quantity) && SumNotional(fills) == SumRows(rows, Notional)
            && SumCommission(fills) == SumRows(rows, Fee)
    decreases |rows|
  {
    if rows != [] {
      var n := |rows| - 1;
      var fills := FillsOf(rows, ref, symbol, side);
      FillSums(rows[..n], ref, symbol, side);
      assert fills[..n] == FillsOf(rows[..n], ref, symbol, side);
      FillAmounts(rows[n], ref, symbol, side);
      hide Quantity, Notional, Fee, FillOf;
    }
  }

  lemma FillAmounts(e: Exec, ref: string, symbol: string, side: string)
    ensures var f := FillOf(e, ref, symbol, side);
            f.quantity == Quantity(e) && f.quantity * f.price == Notional(e) && f.commission == Fee(e)
  {
  }

  /** The average of a fill set: times its quantity it is its value. */
  lemma AverageIs(fills: seq<BrokerFill>)
    requires SumQuantity(fills) == 0.0 ==> SumNotional(fills) == 0.0
    ensures IsAverage(AveragePrice(fills), SumQuantity(fills), SumNotional(fills))
  {
    if SumQuantity(fills) != 0.0 { QuotientIsAverage(SumNotional(fills), SumQuantity(fills)); }
  }

  /** Quantities are positive, so nothing is sold for nothing, and values lie between the extreme prices. */
  lemma {:induction false} SumBounds(rows: seq<Exec>, lo: real, hi: real)
    requires forall e :: e in rows ==> e.qty > 0 && lo <= Price(e) <= hi
    ensures SumRows(rows, Quantity) >= 0.0 && (rows != [] ==> SumRows(rows, Quantity) > 0.0)
    ensures Between(lo, hi, SumRows(rows, Quantity), SumRows(rows, Notional))
    decreases |rows|
  {
    hide Between, Quantity, Price, Notional;
    if rows == [] {
      BetweenNothing(lo, hi);
    } else {
      var n := |rows| - 1;
      assert rows[n] in rows && forall e :: e in rows[..n] ==> e in rows;
      QuantityPositive(rows[n]);
      SumBounds(rows[..n], lo, hi);
      assert SumRows(rows, Quantity) == SumRows(rows[..n], Quantity) + Quantity(rows[n]);
      assert SumRows(rows, Notional) == SumRows(rows[..n], Notional) + Notional(rows[n]);
      RowBetween(rows[n], lo, hi, SumRows(rows[..n], Quantity), SumRows(rows[..n], Notional));
    }
  }

  lemma RowBetween(e: Exec, lo: real, hi: real, quantity: real, value: real)
    requires e.qty > 0 && lo <= Price(e) <= hi && Between(lo, hi, quantity, value)
    ensures Between(lo, hi, quantity + Quantity(e), value + Notional(e))
  {
    QuantityPositive(e);
    hide Quantity, Price, Between;
    BetweenStep(lo, hi, Quantity(e), Price(e), quantity, value);
  }

  lemma QuantityPositive(e: Exec)
    requires e.qty > 0
    ensures Quantity(e) > 0.0
  {
  }

  lemma NothingForNothing(rows: seq<Exec>)
    requires forall e :: e in rows ==> e.qty > 0
    ensures SumRows(rows, Quantity) == 0.0 ==> SumRows(rows, Notional) == 0.0
  {
    var lo, hi := LowHigh(rows);
    SumBounds(rows, lo, hi);
  }

  lemma {:induction false} LowHigh(rows: seq<Exec>) returns (lo: real, hi: real)
    ensures forall e :: e in rows ==> lo <= Price(e) <= hi
    decreases |rows|
  {
    lo, hi := 0.0, 0.0;
    if rows != [] {
      var n := |rows| - 1;
      lo, hi := LowHigh(rows[..n]);
      var p := Price(rows[n]);
      lo, hi := if p < lo then p else lo, if p > hi then p else hi;
      assert forall e :: e in rows ==> e in rows[..n] || e == rows[n];
    }
  }

  /** All rows name one fee currency. */
  ghost predicate OneFeeCurrency(rows: seq<Exec>) {
    rows != [] && forall d, e :: d in rows && e in rows ==> d.currency == e.currency
  }

  lemma SortedMembers(rows: seq<Exec>, e: Exec)
    ensures e in SortRows(rows) <==> e in rows
  {
    SortRowsMembers(rows);
    assert e in SortRows(rows) <==> e in multiset(SortRows(rows));
    assert e in rows <==> e in multiset(rows);
  }

  lemma CurrenciesAgree(rows: seq<Exec>, ref: string, symbol: string, side: string)
    ensures OneCurrency(FillsOf(SortRows(rows), ref, symbol, side)) <==> OneFeeCurrency(rows)
  {
    var s := SortRows(rows);
    var fills := FillsOf(s, ref, symbol, side);
    forall e ensures e in s <==> e in rows { SortedMembers(rows, e); }
    SortRowsMembers(rows);
    assert |s| == |multiset(s)| == |rows|;
    if OneCurrency(fills) {
      forall d, e | d in rows && e in rows ensures d.currency == e.currency {
        var a :| 0 <= a < |s| && s[a] == d;
        var b :| 0 <= b < |s| && s[b] == e;
        assert fills[a] in fills && fills[b] in fills;
      }
    }
    if OneFeeCurrency(rows) {
      forall f | f in fills ensures f.currency == fills[0].currency {
        var a :| 0 <= a < |fills| && fills[a] == f;
        assert s[a] in s && s[0] in s;
      }
    }
  }

  /**
   Every figure of a successful recovery read, from the stored rows of the order alone: the quantity
   is their sum, the average times it is their value, the commission is the sum of the fees exactly
   when there is one fee currency and zero otherwise.
   */
  lemma ReadTotals(db: Db, id: nat)
    requires Wf(db) && Read(db, id).Found?
    ensures var d, rows := Read(db, id), RowsOf(db.execs, id);
            && d.result.filledQuantity == SumRows(rows, Quantity)
            && IsAverage(d.result.averagePrice, d.result.filledQuantity, SumRows(rows, Notional))
            && d.result.commission == (if OneFeeCurrency(rows) then SumRows(rows, Fee) else 0.0)
            && |d.fills| == |rows|
  {
    var rows := RowsOf(db.execs, id);
    var o := db.orders[id];
    var t := db.intents[o.intentId];
    var ref, symbol, side := Strip(o.ref), RoutedSymbol(t.payload.body), Lower(t.side);
    var fills := FillsOf(SortRows(rows), ref, symbol, side);
    assert Read(db, id).fills == fills;
    FillSums(SortRows(rows), ref, symbol, side);
    SortSum(rows, Quantity);
    SortSum(rows, Notional);
    SortSum(rows, Fee);
    CurrenciesAgree(rows, ref, symbol, side);
    NothingForNothing(rows);
    hide IsAverage, Between, Quantity, Notional, Fee;
    AverageIs(fills);
    SortRowsMembers(rows);
    assert |SortRows(rows)| == |multiset(SortRows(rows))| == |rows|;
  }

  /** The average reported lies between the lowest and the highest stored price. */
  lemma ReadAverageBetween(db: Db, id: nat, lo: real, hi: real)
    requires Wf(db) && Read(db, id).Found? && RowsOf(db.execs, id) != []
    requires forall e :: e in RowsOf(db.execs, id) ==> lo <= Price(e) <= hi
    ensures lo <= Read(db, id).result.averagePrice <= hi
  {
    var rows := RowsOf(db.execs, id);
    var r := Read(db, id).result;
    assert forall e :: e in rows ==> e.qty > 0;
    hide Read, IsAverage, Between, SumRows, RowsOf, Wf, Price, Quantity, Notional;
    ReadTotals(db, id);
    SumBounds(rows, lo, hi);
    AverageBetween(r.averagePrice, r.filledQuantity, SumRows(rows, Notional), lo, hi);
  }

  /** Each fill read back is a stored row's, with the order's reference, symbol and side. */
  lemma ReadFills(db: Db, id: nat, i: nat)
    requires Read(db, id).Found? && i < |Read(db, id).fills|
    ensures var f, e := Read(db, id).fills[i], SortRows(RowsOf(db.execs, id))[i];
            var t := db.intents[db.orders[id].intentId];
            && f.tradeId == e.tradeId && f.quantity == Quantity(e) && f.price == Price(e) && f.commission == Fee(e)
            && f.currency == e.currency && f.timestamp == e.ts && f.venue == e.venue && f.provenance == e.provenance
            && f.orderId == Strip(db.orders[id].ref)
            && f.symbol == Strip(if t.payload.body.brokerSymbol != "" then t.payload.body.brokerSymbol
                                 else t.payload.body.symbol)
            && (t.side == "BUY" ==> f.side == "buy") && (t.side == "SELL" ==> f.side == "sell")
  {
  }
}
