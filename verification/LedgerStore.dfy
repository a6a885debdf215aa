/**
 The execution store as the engine calls it: an object over the three tables whose methods are
 the transactions of the ledger. A method that raises leaves the tables as they were.
 */
module LedgerStore {
  import opened Common
  import opened Broker
  import opened Numeric
  import opened Ledger

  /** A refused fill refuses every longer fill set. */
  lemma {:induction false} RefusedPrefix(ctx: Context, l: Loop, fills: seq<BrokerFill>, n: nat)
    requires n <= |fills| && FoldFills(ctx, l, fills[..n]).None?
    ensures FoldFills(ctx, l, fills).None?
    decreases |fills| - n
  {
    if n == |fills| {
      assert fills[..n] == fills;
    } else {
      RefusedNext(ctx, l, fills[..n + 1]) by { assert fills[..n + 1][..n] == fills[..n]; }
      RefusedPrefix(ctx, l, fills, n + 1);
    }
  }

  lemma RefusedNext(ctx: Context, l: Loop, fills: seq<BrokerFill>)
    requires fills != [] && FoldFills(ctx, l, fills[..|fills| - 1]) == None
    ensures FoldFills(ctx, l, fills) == None
  {
  }

  class CanonicalExecutionStore {
    var intents: seq<Intent>
    var orders: seq<Order>
    var execs: seq<Exec>

    ghost function View(): Db
      reads this
    {
      Db(intents, orders, execs)
    }

    constructor ()
      ensures View() == Db([], [], [])
    {
      intents, orders, execs := [], [], [];
    }

    /** Validates and returns, or revives, the stored attempt `i`. */
    method ExistingOrderRef(i: nat, r: Request, broker: int) returns (ref: Option<Ref>)
      requires i < |intents|
      modifies this
      ensures (View(), ref) == ExistingRef(old(View()), i, r, broker)
    {
      var found := FindOrder(orders, i);
      if found.None? {
        return None;
      }
      var id, intent := found.value, intents[i];
      var order := orders[id];
      if !SameAttempt(intent, order, r, broker) || Strip(intent.payload.localOrderId) == "" {
        return None;
      }
      var hasExecution := exists e :: e in execs && e.order == id;
      if intent.status == Refused && order.state == Rejected && intent.payload.aborted.Some? && order.ref == "" &&
          !hasExecution {
        intents := intents[i := intent.(payload := FreshPayload(r), status := Routed)];
        orders := orders[id := order.(state := New)];
        return Some(Ref(i, id, r.settlement, r.localOrderId, New, "", false));
      }
      return Some(Ref(i, id, r.settlement, Strip(intent.payload.localOrderId), order.state, order.ref, true));
    }

    /** Creates the intent and order pair before broker submission, once per idempotency key. */
    method CreateOrder(cat: Catalog, r: Request) returns (ref: Option<Ref>)
      modifies this
      ensures (View(), ref) == Create(old(View()), cat, r)
    {
      if !ValidRequest(cat, r) {
        return None;
      }
      var broker := cat.brokers[r.brokerCode];
      if r.key.Some? {
        var existing := FindIntent(intents, r.account, r.key.value);
        if existing.Some? {
          ref := ExistingOrderRef(existing.value, r, broker);
          return;
        }
      }
      if exists o :: o in orders && o.account == r.account && o.clientId == r.clientId {
        return None;
      }
      intents := intents + [NewIntent(r)];
      orders := orders + [Order(|intents| - 1, broker, r.account, r.settlement, r.clientId, "", New)];
      return Some(Ref(|intents| - 1, |orders| - 1, r.settlement, r.localOrderId, New, "", false));
    }

    method AbortPreSubmission(id: nat, reason: string, code: string) returns (ok: bool)
      modifies this
      ensures var t := Abort(old(View()), id, reason, code);
              ok == t.Some? && View() == if ok then t.value else old(View())
    {
      if Strip(reason) == "" || Strip(code) == "" || id >= |orders| || orders[id].intentId >= |intents| {
        return false;
      }
      var order := orders[id];
      var hasExecution := exists e :: e in execs && e.order == id;
      if order.ref != "" || hasExecution || order.state != New {
        return false;
      }
      var intent := intents[order.intentId];
      intents := intents[order.intentId := intent.(payload := intent.payload.(aborted := Some(Strip(reason))),
          status := Refused)];
      orders := orders[id := order.(state := Rejected)];
      return true;
    }

    method MarkSubmissionUnknown(id: nat, reason: string) returns (ok: bool)
      modifies this
      ensures var t := MarkUnknown(old(View()), id, reason);
              ok == t.Some? && View() == if ok then t.value else old(View())
    {
      if Strip(reason) == "" || id >= |orders| || orders[id].intentId >= |intents| {
        return false;
      }
      var order := orders[id];
      if order.state != New && order.state != SubmissionUnknown {
        return false;
      }
      var intent := intents[order.intentId];
      intents := intents[order.intentId := intent.(payload := intent.payload.(unknown := Some(Strip(reason))))];
      orders := orders[id := order.(state := SubmissionUnknown)];
      return true;
    }

    /** Walks the fills once; the tables are touched only by the caller, after all are accepted. */
    method CollectFills(ctx: Context, start: string, fills: seq<BrokerFill>) returns (collected: Option<Loop>)
      ensures collected == FoldFills(ctx, Loop(start, execs, [], {}), fills)
    {
      var ref, rows, seen := start, execs, {};
      var inserted: seq<nat> := [];
      ghost var l := Loop(start, execs, [], {});
      var i := 0;
      while i < |fills|
        invariant 0 <= i <= |fills|
        invariant FoldFills(ctx, l, fills[..i]) == Some(Loop(ref, rows, inserted, seen))
      {
        var f := fills[i];
        assert fills[..i + 1][..i] == fills[..i];
        ghost var next := FillStep(ctx, Loop(ref, rows, inserted, seen), f);
        assert FoldFills(ctx, l, fills[..i + 1]) == next;
        if !FillOk(ctx, f) || f.tradeId in seen {
          RefusedPrefix(ctx, l, fills, i + 1);
          return None;
        }
        seen := seen + {f.tradeId};
        var expected := Strip(ref);
        if expected == "" {
          ref := f.orderId;
          expected := f.orderId;
        }
        if f.orderId != expected {
          RefusedPrefix(ctx, l, fills, i + 1);
          return None;
        }
        var existing := FindExec(rows, ctx.order, f.tradeId);
        if existing.Some? {
          if rows[existing.value] != Observed(ctx, f) {
            RefusedPrefix(ctx, l, fills, i + 1);
            return None;
          }
        } else {
          inserted := inserted + [|rows|];
          rows := rows + [Observed(ctx, f)];
        }
        i := i + 1;
      }
      assert fills[..i] == fills;
      return Some(Loop(ref, rows, inserted, seen));
    }

    /** Moves the order as observed and appends its exact fills, or raises and changes nothing. */
    method ApplyBrokerResult(cat: Catalog, id: nat, result: BrokerOrderResult, fills: seq<BrokerFill>,
                             instr: Option<int>)
      returns (inserted: Option<seq<nat>>)
      modifies this
      ensures var t := ApplyResult(old(View()), cat, id, result, fills, instr);
              if t.Some? then inserted == Some(t.value.1) && View() == t.value.0
              else inserted == None && View() == old(View())
    {
      hide FoldFills, SumQuantity, AveragePrice, EconomicsMatch, Lower, RoutedSymbol;
      if id >= |orders| {
        return None;
      }
      var order := orders[id];
      var target := StateOf(result.status);
      var hasExecution := exists e :: e in execs && e.order == id;
      if order.state == Filled && target != Filled {
        if fills == [] {
          return None;
        }
        target := Filled;
      }
      if hasExecution && fills == [] && target != PartiallyFilled && target != Filled {
        return None;
      }
      order := order.(state := target);
      if result.orderId != "" {
        if order.ref != "" && order.ref != result.orderId {
          return None;
        }
        order := order.(ref := result.orderId);
      }
      if result.HasFill() && fills == [] {
        return None;
      }
      if fills != [] && result.HasFill() {
        if !EconomicsMatch(SumQuantity(fills), result.filledQuantity) ||
            !EconomicsMatch(AveragePrice(fills), result.averagePrice) {
          return None;
        }
      }
      assert ResultOk(View(), id, result, fills) && order == ObservedOrder(orders[id], result);
      if fills == [] {
        orders := orders[id := order];
        return Some([]);
      }
      if !InstrumentOk(Db(intents, orders, execs), cat, id, instr) {
        return None;
      }
      var intent := intents[orders[id].intentId];
      var ctx := Context(id, instr.value, Lower(intent.side), RoutedSymbol(intent.payload.body));
      var collected := CollectFills(ctx, order.ref, fills);
      if collected.None? {
        return None;
      }
      orders := orders[id := order.(ref := collected.value.ref)];
      execs := collected.value.execs;
      return Some(collected.value.inserted);
    }

    /** Rebuilds broker status and exact fills from the tables. */
    method ReadDurableResult(id: nat) returns (d: Durable)
      ensures d == Read(View(), id)
    {
      hide SortRows, RowsOf, FillOf, SumQuantity, AveragePrice, SumCommission, OneCurrency, Strip, Lower,
           RoutedSymbol, MixedProvenance;
      if id >= |orders| {
        return Missing;
      }
      var order := orders[id];
      if order.intentId >= |intents| {
        return Conflict;
      }
      var rows := RowsOf(execs, id);
      var sorted := SortRows(rows);
      var ref := Strip(order.ref);
      var intent := intents[order.intentId];
      var symbol := RoutedSymbol(intent.payload.body);
      if (order.state == PartiallyFilled || order.state == Filled) && rows == [] {
        return Conflict;
      }
      if (rows != [] && ref == "") || symbol == "" {
        return Conflict;
      }
      if exists e :: e in rows && MixedProvenance(e.provenance) {
        return Conflict;
      }
      var fills := [];
      var i := 0;
      while i < |sorted|
        invariant 0 <= i <= |sorted|
        invariant fills == FillsOf(sorted[..i], ref, symbol, Lower(intent.side))
      {
        assert sorted[..i + 1][..i] == sorted[..i];
        fills := fills + [FillOf(sorted[i], ref, symbol, Lower(intent.side))];
        i := i + 1;
      }
      assert sorted[..i] == sorted;
      return Found(
          BrokerOrderResult(ref, StatusOf(order.state), SumQuantity(fills), AveragePrice(fills),
                            if OneCurrency(fills) then SumCommission(fills) else 0.0, ""),
          fills);
    }
  }
}
