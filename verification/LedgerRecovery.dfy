/**
 Crash recovery from the ledger: the recovery read never raises on a reachable order, feeding
 it back changes nothing, applying an observation twice is applying it once, and accepted fills
 add up to what the broker reported.
 */
module LedgerRecovery {
  import opened Common
  import opened Broker
  import opened Numeric
  import opened Ledger
  import opened LedgerSafety

  // ---------------------------------------------------------------- the read never raises

  /** A filled or partially filled status that neither reports nor carries nor finds any fill. */
  predicate EmptyFillReport(db: Db, id: nat, result: BrokerOrderResult, fills: seq<BrokerFill>) {
    && result.status in {PARTIALLY_FILLED, FILLED}
    && !result.HasFill() && fills == [] && !HasExec(db.execs, id)
  }

  /** Requests name a symbol, and fill statuses come with something filled. */
  predicate SoundOp(s: System, op: Op) {
    && (op.BeginCreate? ==> RoutedSymbol(op.r.body) != "")
    && (op.ApplyOrder? ==> !EmptyFillReport(s.db, op.id, op.result, op.fills))
  }

  ghost predicate Recoverable(s: System) {
    && Wf(s.db)
    && (forall c :: c in s.creators ==> RoutedSymbol(s.creators[c].0.body) != "")
    && (forall j :: 0 <= j < |s.db.intents| ==> RoutedSymbol(s.db.intents[j].payload.body) != "")
    && (forall j :: 0 <= j < |s.db.orders| && s.db.orders[j].state in {PartiallyFilled, Filled} ==>
         HasExec(s.db.execs, j))
  }

  lemma HasExecGrows(execs: seq<Exec>, execs': seq<Exec>, j: nat)
    requires execs <= execs' && HasExec(execs, j)
    ensures HasExec(execs', j)
  {
    var e :| e in execs && e.order == j;
    assert e in execs';
  }

  lemma ApplyRecoverable(db: Db, cat: Catalog, id: nat, result: BrokerOrderResult, fills: seq<BrokerFill>,
                         instr: Option<int>)
    requires Wf(db) && ApplyResult(db, cat, id, result, fills, instr).Some? && !EmptyFillReport(db, id, result, fills)
    requires forall i :: 0 <= i < |fills| ==> ValidFill(fills[i])
    requires db.orders[id].state in {PartiallyFilled, Filled} ==> HasExec(db.execs, id)
    ensures var db' := ApplyResult(db, cat, id, result, fills, instr).value.0;
            db'.orders[id].state in {PartiallyFilled, Filled} ==> HasExec(db'.execs, id)
  {
    if fills != [] {
      var o := ObservedOrder(db.orders[id], result);
      var ctx := ContextOf(db, id, instr.value);
      FoldKeeps(ctx, Loop(o.ref, db.execs, [], {}), fills);
      assert FillOk(ctx, fills[0]) && Observed(ctx, fills[0]).order == id;
    }
  }

  lemma StepKeepsSymbols(s: System, op: Op)
    requires Recoverable(s) && ValidOp(op) && SoundOp(s, op)
    ensures forall c :: c in Step(s, op).creators ==> RoutedSymbol(Step(s, op).creators[c].0.body) != ""
    ensures forall j :: 0 <= j < |Step(s, op).db.intents| ==> RoutedSymbol(Step(s, op).db.intents[j].payload.body) != ""
  {
    var s' := Step(s, op);
    forall j | 0 <= j < |s'.db.intents| ensures RoutedSymbol(s'.db.intents[j].payload.body) != "" {
      if j < |s.db.intents| {
        StepKeeps(s, op);
        assert SameIdentity(s.db.intents[j], s'.db.intents[j]);
      } else {
        StepAddsIntent(s, op, j);
      }
    }
  }

  /** Only the second half of a create adds an intent, with the payload it was asked for. */
  lemma StepAddsIntent(s: System, op: Op, j: nat)
    requires |s.db.intents| <= j < |Step(s, op).db.intents|
    ensures op.EndCreate? && op.c in s.creators && Step(s, op).db.intents[j].payload.body == s.creators[op.c].0.body
  {
  }

  lemma ExistingRefKeepsFilled(db: Db, i: nat, r: Request, broker: int, j: nat)
    requires i < |db.intents| && j < |ExistingRef(db, i, r, broker).0.orders|
    requires ExistingRef(db, i, r, broker).0.orders[j].state in {PartiallyFilled, Filled}
    ensures j < |db.orders| && db.orders[j].state == ExistingRef(db, i, r, broker).0.orders[j].state
    ensures ExistingRef(db, i, r, broker).0.execs == db.execs
  {
  }

  /** No transaction but an applied observation moves an order into a filled state. */
  lemma OthersKeepFilled(s: System, op: Op, j: nat)
    requires op.ApplyOrder? ==> op.id != j
    requires j < |Step(s, op).db.orders| && Step(s, op).db.orders[j].state in {PartiallyFilled, Filled}
    ensures j < |s.db.orders| && s.db.orders[j].state == Step(s, op).db.orders[j].state
  {
    if op.BeginCreate? && ValidRequest(op.cat, op.r) && Known(s.db, op.r) {
      var i := FindIntent(s.db.intents, op.r.account, op.r.key.value).value;
      ExistingRefKeepsFilled(s.db, i, op.r, op.cat.brokers[op.r.brokerCode], j);
    } else if op.EndCreate? && op.c in s.creators {
      var (r, broker) := s.creators[op.c];
      if Conflicts(s.db, r) && Known(s.db, r) {
        ExistingRefKeepsFilled(s.db, FindIntent(s.db.intents, r.account, r.key.value).value, r, broker, j);
      }
    }
  }

  lemma StepKeepsFilled(s: System, op: Op, j: nat)
    requires Recoverable(s) && ValidOp(op) && SoundOp(s, op)
    requires j < |Step(s, op).db.orders| && Step(s, op).db.orders[j].state in {PartiallyFilled, Filled}
    ensures HasExec(Step(s, op).db.execs, j)
  {
    if op.ApplyOrder? && op.id == j {
      if ApplyResult(s.db, op.cat, j, op.result, op.fills, op.instr).Some? {
        ApplyRecoverable(s.db, op.cat, j, op.result, op.fills, op.instr);
      }
    } else {
      OthersKeepFilled(s, op, j);
      assert s.db.execs <= Step(s, op).db.execs by { StepKeeps(s, op); }
      HasExecGrows(s.db.execs, Step(s, op).db.execs, j);
    }
  }

  lemma StepRecoverable(s: System, op: Op)
    requires Recoverable(s) && ValidOp(op) && SoundOp(s, op)
    ensures Recoverable(Step(s, op))
  {
    StepKeeps(s, op);
    StepKeepsSymbols(s, op);
    var s' := Step(s, op);
    forall j | 0 <= j < |s'.db.orders| && s'.db.orders[j].state in {PartiallyFilled, Filled}
      ensures HasExec(s'.db.execs, j)
    {
      StepKeepsFilled(s, op, j);
    }
  }

  lemma {:induction false} RunRecoverable(ops: seq<Op>)
    requires forall n :: 0 <= n < |ops| ==> ValidOp(ops[n]) && SoundOp(Run(EMPTY, ops[..n]), ops[n])
    ensures Recoverable(Run(EMPTY, ops))
    decreases |ops|
  {
    if ops != [] {
      var m := |ops| - 1;
      forall n | 0 <= n < m ensures ValidOp(ops[..m][n]) && SoundOp(Run(EMPTY, ops[..m][..n]), ops[..m][n]) {
        assert ops[..m][..n] == ops[..n];
      }
      RunRecoverable(ops[..m]);
      StepRecoverable(Run(EMPTY, ops[..m]), ops[m]);
    }
  }

  /** The recovery read succeeds on every order of every run. */
  lemma ReadNeverRaises(ops: seq<Op>, id: nat)
    requires forall n :: 0 <= n < |ops| ==> ValidOp(ops[n]) && SoundOp(Run(EMPTY, ops[..n]), ops[n])
    requires id < |Run(EMPTY, ops).db.orders|
    ensures Read(Run(EMPTY, ops).db, id).Found?
  {
    RunRecoverable(ops);
    ReadableIfRecoverable(Run(EMPTY, ops), id);
  }

  lemma ReadableIfRecoverable(s: System, id: nat)
    requires Recoverable(s) && id < |s.db.orders|
    ensures Read(s.db, id).Found?
  {
    var rows := RowsOf(s.db.execs, id);
    if HasExec(s.db.execs, id) {
      var e :| e in s.db.execs && e.order == id;
      assert e in rows;
    }
    if rows != [] { assert rows[0] in rows && rows[0] in s.db.execs; }
    forall e | e in rows ensures !MixedProvenance(e.provenance) { assert e in s.db.execs && ExecOk(e); }
  }

  lemma NoRows(execs: seq<Exec>, id: nat)
    ensures RowsOf(execs, id) == [] <==> !HasExec(execs, id)
  {
    var rows := RowsOf(execs, id);
    if rows != [] {
      assert rows[0] in rows;
    } else {
      assert forall e :: e in execs && e.order == id ==> e in rows;
    }
  }

  /** The hypothesis is exact: an accepted empty fill report leaves an order the read raises on. */
  lemma EmptyFillReportBreaksRead(db: Db, cat: Catalog, id: nat, result: BrokerOrderResult, instr: Option<int>)
    requires Wf(db) && EmptyFillReport(db, id, result, []) && ApplyResult(db, cat, id, result, [], instr).Some?
    ensures Read(ApplyResult(db, cat, id, result, [], instr).value.0, id).Conflict?
  {
    var db' := ApplyResult(db, cat, id, result, [], instr).value.0;
    assert db'.orders[id].state in {PartiallyFilled, Filled} && db'.execs == db.execs;
    NoRows(db.execs, id);
    assert Unreadable(db', id);
  }

  // ---------------------------------------------------------------- applying stored fills again

  /** A fill set that is already stored, fill by fill, under the reference `ref`. */
  ghost predicate Replayed(ctx: Context, ref: string, execs: seq<Exec>, fills: seq<BrokerFill>) {
    && (forall i :: 0 <= i < |fills| ==>
          FillOk(ctx, fills[i]) && Observed(ctx, fills[i]) in execs && Strip(ref) == fills[i].orderId)
    && (forall i, j :: 0 <= i < j < |fills| ==> fills[i].tradeId != fills[j].tradeId)
  }

  lemma FindStored(execs: seq<Exec>, e: Exec)
    requires DistinctTrades(execs) && e in execs
    ensures var r := FindExec(execs, e.order, e.tradeId); r.Some? && execs[r.value] == e
  {
    var r := FindExec(execs, e.order, e.tradeId);
    var j :| 0 <= j < |execs| && execs[j] == e;
    if r.Some? && r.value != j {
      assert execs[r.value].tradeId == execs[j].tradeId;
    }
  }

  function Seen(fills: seq<BrokerFill>): set<string> {
    set i | 0 <= i < |fills| :: fills[i].tradeId
  }

  /** Stored fills pass through the loop without inserting anything. */
  lemma {:induction false} FoldOfStored(ctx: Context, ref: string, execs: seq<Exec>, fills: seq<BrokerFill>)
    requires DistinctTrades(execs) && Replayed(ctx, ref, execs, fills) && (fills != [] ==> Strip(ref) != "")
    ensures FoldFills(ctx, Loop(ref, execs, [], {}), fills) == Some(Loop(ref, execs, [], Seen(fills)))
    decreases |fills|
  {
    if fills == [] {
      assert Seen(fills) == {};
    } else {
      var n := |fills| - 1;
      hide Replayed, FillStep, Seen, FillOk, DistinctTrades, Strip;
      ReplayedInit(ctx, ref, execs, fills);
      FoldOfStored(ctx, ref, execs, fills[..n]);
      StoredStep(ctx, ref, execs, Seen(fills[..n]), fills[n]);
    }
  }

  lemma ReplayedInit(ctx: Context, ref: string, execs: seq<Exec>, fills: seq<BrokerFill>)
    requires Replayed(ctx, ref, execs, fills) && fills != []
    ensures var init, f := fills[..|fills| - 1], fills[|fills| - 1];
            && Replayed(ctx, ref, execs, init) && FillOk(ctx, f) && Observed(ctx, f) in execs && Strip(ref) == f.orderId
            && f.tradeId !in Seen(init) && Seen(fills) == Seen(init) + {f.tradeId}
  {
    hide FillOk, Strip;
    var n := |fills| - 1;
    assert forall i :: 0 <= i < n ==> fills[i] == fills[..n][i];
  }

  lemma StoredStep(ctx: Context, ref: string, execs: seq<Exec>, seen: set<string>, f: BrokerFill)
    requires DistinctTrades(execs) && FillOk(ctx, f) && Observed(ctx, f) in execs && f.tradeId !in seen
    requires Strip(ref) == f.orderId && Strip(ref) != ""
    ensures FillStep(ctx, Loop(ref, execs, [], seen), f) == Some(Loop(ref, execs, [], seen + {f.tradeId}))
  {
    hide FillOk, Strip;
    FindStored(execs, Observed(ctx, f));
  }

  /** A result id that is set but blank, together with fills: the one case a replay of it is refused. */
  predicate BlankId(result: BrokerOrderResult, fills: seq<BrokerFill>) {
    result.orderId != "" && Strip(result.orderId) == "" && fills != []
  }

  lemma AcceptedIsReplayed(db: Db, cat: Catalog, id: nat, result: BrokerOrderResult, fills: seq<BrokerFill>,
                           instr: Option<int>)
    requires Wf(db) && ApplyResult(db, cat, id, result, fills, instr).Some? && fills != []
    requires forall i :: 0 <= i < |fills| ==> ValidFill(fills[i])
    ensures var db' := ApplyResult(db, cat, id, result, fills, instr).value.0;
            && OrderKnown(db', id) && InstrumentOk(db', cat, id, instr)
            && ContextOf(db', id, instr.value) == ContextOf(db, id, instr.value)
            && Replayed(ContextOf(db', id, instr.value), db'.orders[id].ref, db'.execs, fills)
            && Strip(db'.orders[id].ref) != ""
  {
    var o := ObservedOrder(db.orders[id], result);
    FoldKeeps(ContextOf(db, id, instr.value), Loop(o.ref, db.execs, [], {}), fills);
  }

  /** The reference an accepted observation with fills leaves on the order. */
  lemma AppliedRef(db: Db, cat: Catalog, id: nat, result: BrokerOrderResult, fills: seq<BrokerFill>, instr: Option<int>)
    requires ApplyResult(db, cat, id, result, fills, instr).Some? && result.orderId != ""
    requires forall i :: 0 <= i < |fills| ==> ValidFill(fills[i])
    ensures var ref := ApplyResult(db, cat, id, result, fills, instr).value.0.orders[id].ref;
            ref == result.orderId <==> !BlankId(result, fills)
  {
    if fills != [] {
      var o := ObservedOrder(db.orders[id], result);
      FoldRef(ContextOf(db, id, instr.value), Loop(o.ref, db.execs, [], {}), fills);
    }
  }

  /**
   Applying an accepted observation a second time inserts nothing and leaves the ledger as it is,
   exactly when its order id is absent or not blank (or it carries no fills).
   */
  lemma ApplyTwiceIsOnce(db: Db, cat: Catalog, id: nat, result: BrokerOrderResult, fills: seq<BrokerFill>,
                         instr: Option<int>)
    requires Wf(db) && ApplyResult(db, cat, id, result, fills, instr).Some?
    requires forall i :: 0 <= i < |fills| ==> ValidFill(fills[i])
    ensures var db' := ApplyResult(db, cat, id, result, fills, instr).value.0;
            ApplyResult(db', cat, id, result, fills, instr) == Some((db', [])) <==> !BlankId(result, fills)
  {
    var db' := ApplyResult(db, cat, id, result, fills, instr).value.0;
    if result.orderId != "" { AppliedRef(db, cat, id, result, fills, instr); }
    if !BlankId(result, fills) {
      SecondResultOk(db, cat, id, result, fills, instr);
      var o := ObservedOrder(db'.orders[id], result);
      assert o == db'.orders[id];
      assert db'.orders[id := o] == db'.orders;
      if fills != [] {
        AcceptedIsReplayed(db, cat, id, result, fills, instr);
        FoldOfStored(ContextOf(db', id, instr.value), o.ref, db'.execs, fills) by {
          ApplyKeeps(db, cat, id, result, fills, instr);
        }
        assert db'.orders[id := o.(ref := o.ref)] == db'.orders;
      }
    }
  }

  lemma SecondResultOk(db: Db, cat: Catalog, id: nat, result: BrokerOrderResult, fills: seq<BrokerFill>,
                       instr: Option<int>)
    requires Wf(db) && ApplyResult(db, cat, id, result, fills, instr).Some? && !BlankId(result, fills)
    requires forall i :: 0 <= i < |fills| ==> ValidFill(fills[i])
    ensures var db' := ApplyResult(db, cat, id, result, fills, instr).value.0;
            ResultOk(db', id, result, fills) && ObservedOrder(db'.orders[id], result) == db'.orders[id]
  {
    if result.orderId != "" { AppliedRef(db, cat, id, result, fills, instr); }
  }

  // ---------------------------------------------------------------- read, then apply

  lemma {:induction false} InsertRowMembers(rows: seq<Exec>, r: Exec)
    ensures multiset(InsertRow(rows, r)) == multiset(rows) + multiset{r}
    decreases |rows|
  {
    if rows != [] {
      var n := |rows| - 1;
      assert rows == rows[..n] + [rows[n]];
      if rows[n].ts > r.ts { InsertRowMembers(rows[..n], r); }
    }
  }

  /** The recovery read lists every execution of the order exactly once. */
  lemma {:induction false} SortRowsMembers(rows: seq<Exec>)
    ensures multiset(SortRows(rows)) == multiset(rows)
    decreases |rows|
  {
    if rows != [] {
      var n := |rows| - 1;
      SortRowsMembers(rows[..n]);
      InsertRowMembers(SortRows(rows[..n]), rows[n]);
      assert rows == rows[..n] + [rows[n]];
    }
  }

  /** Row x was stored before row y. */
  ghost predicate Precedes(rows: seq<Exec>, x: Exec, y: Exec) {
    exists a, b :: 0 <= a < b < |rows| && rows[a] == x && rows[b] == y
  }

  /** By fill time, and by identifier, which is the storing order, among equal times. */
  ghost predicate QueryOrder(rows: seq<Exec>, x: Exec, y: Exec) {
    x.ts < y.ts || (x.ts == y.ts && Precedes(rows, x, y))
  }

  ghost predicate Ordered(rows: seq<Exec>, s: seq<Exec>) {
    forall i, j :: 0 <= i < j < |s| ==> QueryOrder(rows, s[i], s[j])
  }

  lemma PrecedesGrows(rows: seq<Exec>, r: Exec, x: Exec, y: Exec)
    ensures Precedes(rows, x, y) ==> Precedes(rows + [r], x, y)
    ensures x in rows ==> Precedes(rows + [r], x, r)
  {
    var more := rows + [r];
    assert forall a :: 0 <= a < |rows| ==> more[a] == rows[a];
    if Precedes(rows, x, y) {
      var a, b :| 0 <= a < b < |rows| && rows[a] == x && rows[b] == y;
      assert more[a] == x && more[b] == y;
    }
    if x in rows {
      var a :| 0 <= a < |rows| && rows[a] == x;
      assert more[a] == x && more[|rows|] == r;
    }
  }

  lemma {:induction false} InsertRowOrdered(rows: seq<Exec>, s: seq<Exec>, r: Exec)
    requires Ordered(rows, s) && forall e :: e in s ==> e in rows
    ensures Ordered(rows + [r], InsertRow(s, r))
    decreases |s|
  {
    var s' := InsertRow(s, r);
    if s != [] {
      var n := |s| - 1;
      if s[n].ts <= r.ts {
        forall i, j | 0 <= i < j < |s'| ensures QueryOrder(rows + [r], s'[i], s'[j]) {
          PrecedesGrows(rows, r, s[i], s'[j]);
          assert s[i] in s && (i < n ==> QueryOrder(rows, s[i], s[n]));
        }
      } else {
        InsertRowOrdered(rows, s[..n], r);
        InsertRowMembers(s[..n], r);
        forall e | e in InsertRow(s[..n], r) ensures QueryOrder(rows + [r], e, s[n]) {
          assert e in multiset(InsertRow(s[..n], r));
          PrecedesGrows(rows, r, e, s[n]);
        }
      }
    }
  }

  /** ... in query order. */
  lemma {:induction false} SortRowsOrdered(rows: seq<Exec>)
    ensures Ordered(rows, SortRows(rows))
    decreases |rows|
  {
    if rows != [] {
      var n := |rows| - 1;
      var s := SortRows(rows[..n]);
      SortRowsOrdered(rows[..n]);
      SortRowsMembers(rows[..n]);
      forall e | e in s ensures e in rows[..n] {
        assert e in multiset(s);
      }
      InsertRowOrdered(rows[..n], s, rows[n]);
      assert rows[..n] + [rows[n]] == rows;
    }
  }

  lemma {:induction false} RowsOfPrecede(execs: seq<Exec>, id: nat, x: Exec, y: Exec)
    requires Precedes(RowsOf(execs, id), x, y)
    ensures Precedes(execs, x, y)
    decreases |execs|
  {
    var n := |execs| - 1;
    var rows := RowsOf(execs[..n], id);
    var a, b :| 0 <= a < b < |RowsOf(execs, id)| && RowsOf(execs, id)[a] == x && RowsOf(execs, id)[b] == y;
    assert execs[..n] + [execs[n]] == execs;
    PrecedesGrows(execs[..n], execs[n], x, y);
    if b < |rows| {
      assert rows[a] == x && rows[b] == y;
      RowsOfPrecede(execs[..n], id, x, y);
    } else {
      assert rows[a] in rows;
    }
  }

  ghost predicate DistinctIds(rows: seq<Exec>) {
    forall a, b :: 0 <= a < b < |rows| ==> rows[a].tradeId != rows[b].tradeId
  }

  lemma {:induction false} RowsOfDistinct(execs: seq<Exec>, id: nat)
    requires DistinctTrades(execs)
    ensures DistinctIds(RowsOf(execs, id))
    decreases |execs|
  {
    if execs != [] {
      var n := |execs| - 1;
      RowsOfDistinct(execs[..n], id);
      forall e | e in RowsOf(execs[..n], id) && execs[n].order == id ensures e.tradeId != execs[n].tradeId {
        var a :| 0 <= a < n && execs[a] == e;
      }
    }
  }

  lemma {:induction false} InsertRowDistinct(rows: seq<Exec>, r: Exec)
    requires DistinctIds(rows) && forall e :: e in rows ==> e.tradeId != r.tradeId
    ensures DistinctIds(InsertRow(rows, r))
    decreases |rows|
  {
    if rows != [] && rows[|rows| - 1].ts > r.ts {
      var n := |rows| - 1;
      InsertRowDistinct(rows[..n], r);
      InsertRowMembers(rows[..n], r);
      forall e | e in InsertRow(rows[..n], r) ensures e.tradeId != rows[n].tradeId {
        assert e in multiset(InsertRow(rows[..n], r));
        assert e in multiset(rows[..n]) || e == r;
      }
    }
  }

  lemma {:induction false} SortRowsDistinct(rows: seq<Exec>)
    requires DistinctIds(rows)
    ensures DistinctIds(SortRows(rows))
    decreases |rows|
  {
    if rows != [] {
      var n := |rows| - 1;
      SortRowsDistinct(rows[..n]);
      SortRowsMembers(rows[..n]);
      forall e | e in SortRows(rows[..n]) ensures e.tradeId != rows[n].tradeId {
        assert e in multiset(SortRows(rows[..n]));
        assert e in multiset(rows[..n]);
      }
      InsertRowDistinct(SortRows(rows[..n]), rows[n]);
    }
  }

  /** The rows the recovery read goes through are in query order over the whole execution table. */
  lemma ReadInQueryOrder(execs: seq<Exec>, id: nat)
    ensures Ordered(execs, SortRows(RowsOf(execs, id)))
  {
    var s := SortRows(RowsOf(execs, id));
    SortRowsOrdered(RowsOf(execs, id));
    forall i, j | 0 <= i < j < |s| ensures QueryOrder(execs, s[i], s[j]) {
      assert QueryOrder(RowsOf(execs, id), s[i], s[j]);
      if s[i].ts == s[j].ts { RowsOfPrecede(execs, id, s[i], s[j]); }
    }
  }

  /** A stored row, read back as a fill, is observed as the same row. */
  lemma FillOfIsObserved(ctx: Context, e: Exec, ref: string)
    requires ExecOk(e) && e.order == ctx.order && e.instr == ctx.instr
    ensures FillOk(ctx, FillOf(e, ref, ctx.symbol, ctx.side)) &&
              Observed(ctx, FillOf(e, ref, ctx.symbol, ctx.side)) == e
  {
    RoundIsIdempotent(e.qty);
    RoundIsIdempotent(e.price);
    RoundIsIdempotent(e.fee);
  }

  lemma DurableFillsReplayed(db: Db, id: nat, instr: int)
    requires Wf(db) && id < |db.orders| && forall e :: e in RowsOf(db.execs, id) ==> e.instr == instr
    ensures Replayed(ContextOf(db, id, instr), db.orders[id].ref, db.execs, DurableFills(db, id))
  {
    var rows := RowsOf(db.execs, id);
    var sorted := SortRows(rows);
    RowsOfDistinct(db.execs, id);
    SortRowsDistinct(rows);
    SortRowsMembers(rows);
    forall i | 0 <= i < |sorted| ensures sorted[i] in db.execs && sorted[i].order == id && sorted[i].instr == instr {
      assert sorted[i] in multiset(sorted);
      assert sorted[i] in multiset(rows);
    }
    var ctx := ContextOf(db, id, instr);
    forall i | 0 <= i < |sorted|
      ensures FillOk(ctx, DurableFills(db, id)[i]) && Observed(ctx, DurableFills(db, id)[i]) == sorted[i]
    {
      FillOfIsObserved(ctx, sorted[i], Strip(db.orders[id].ref));
    }
  }

  /** The stored reference is trimmed, or blank. */
  predicate TrimmedRef(o: Order) {
    Strip(o.ref) == "" || Strip(o.ref) == o.ref
  }

  lemma EconomicsMatchItself(x: real)
    ensures EconomicsMatch(x, x)
  {
  }

  /** The read returns fills exactly when the order has executions. */
  lemma DurableFillsIffExecs(db: Db, id: nat)
    requires OrderKnown(db, id)
    ensures DurableFills(db, id) != [] <==> HasExec(db.execs, id)
  {
    var rows := RowsOf(db.execs, id);
    SortRowsMembers(rows);
    assert |SortRows(rows)| == |multiset(SortRows(rows))| == |rows|;
    NoRows(db.execs, id);
  }

  lemma RecoveredResultOk(db: Db, id: nat)
    requires Wf(db) && Read(db, id).Found? && TrimmedRef(db.orders[id]) && db.orders[id].state != SubmissionUnknown
    ensures var d := Read(db, id);
            ResultOk(db, id, d.result, d.fills) && ObservedOrder(db.orders[id], d.result) == db.orders[id]
  {
    hide Read, DurableFills, SumQuantity, AveragePrice, EconomicsMatch, HasExec, Strip;
    ReadFields(db, id);
    DurableFillsIffExecs(db, id);
    EconomicsMatchItself(SumQuantity(DurableFills(db, id)));
    EconomicsMatchItself(AveragePrice(DurableFills(db, id)));
  }

  lemma ReadFields(db: Db, id: nat)
    requires Read(db, id).Found?
    ensures var d := Read(db, id); var o := db.orders[id];
            && OrderKnown(db, id) && d.fills == DurableFills(db, id)
            && d.result.orderId == Strip(o.ref) && d.result.status == StatusOf(o.state)
            && d.result.filledQuantity == SumQuantity(d.fills) && d.result.averagePrice == AveragePrice(d.fills)
            && (d.fills == [] ==> !d.result.HasFill())
            && (HasExec(db.execs, id) ==> Strip(o.ref) != "")
  {
    NoRows(db.execs, id);
  }

  /**
   Feeding the recovery read back inserts nothing and leaves the ledger as it is, exactly when the
   order is not in the unknown-submission state and its stored reference is trimmed or blank.
   */
  lemma ReadThenApplyChangesNothing(db: Db, cat: Catalog, id: nat, instr: int)
    requires Wf(db) && Read(db, id).Found?
    requires forall e :: e in RowsOf(db.execs, id) ==> e.instr == instr
    requires HasExec(db.execs, id) ==> InstrumentOk(db, cat, id, Some(instr))
    ensures var d := Read(db, id);
            ApplyResult(db, cat, id, d.result, d.fills, Some(instr)) == Some((db, []))
            <==> db.orders[id].state != SubmissionUnknown && TrimmedRef(db.orders[id])
  {
    if db.orders[id].state != SubmissionUnknown && TrimmedRef(db.orders[id]) {
      RecoveredApplies(db, cat, id, instr);
    } else {
      RecoveredDiffers(db, cat, id, Some(instr));
    }
  }

  lemma RecoveredApplies(db: Db, cat: Catalog, id: nat, instr: int)
    requires Wf(db) && Read(db, id).Found? && TrimmedRef(db.orders[id]) && db.orders[id].state != SubmissionUnknown
    requires forall e :: e in RowsOf(db.execs, id) ==> e.instr == instr
    requires HasExec(db.execs, id) ==> InstrumentOk(db, cat, id, Some(instr))
    ensures var d := Read(db, id); ApplyResult(db, cat, id, d.result, d.fills, Some(instr)) == Some((db, []))
  {
    var d := Read(db, id);
    var o := db.orders[id];
    ReadFields(db, id);
    RecoveredResultOk(db, id);
    assert DistinctTrades(db.execs) && db.orders[id := o] == db.orders;
    hide Read, Wf, Replayed, FoldFills, ResultOk, ObservedOrder, InstrumentOk, HasExec, DurableFills, RowsOf, ContextOf;
    if d.fills != [] {
      DurableFillsReplayed(db, id, instr);
      DurableFillsIffExecs(db, id);
      FoldOfStored(ContextOf(db, id, instr), o.ref, db.execs, d.fills);
    }
  }

  lemma RecoveredDiffers(db: Db, cat: Catalog, id: nat, instr: Option<int>)
    requires Read(db, id).Found? && (db.orders[id].state == SubmissionUnknown || !TrimmedRef(db.orders[id]))
    ensures var d := Read(db, id); ApplyResult(db, cat, id, d.result, d.fills, instr) != Some((db, []))
  {
    var d := Read(db, id);
    hide Read, Strip, ApplyResult;
    ReadFields(db, id);
    if ApplyResult(db, cat, id, d.result, d.fills, instr).Some? {
      AppliedState(db, cat, id, d.result, d.fills, instr);
    }
    if !TrimmedRef(db.orders[id]) {
      RenamedRefused(db, cat, id, d.result, d.fills, instr);
    }
  }

  lemma AppliedState(db: Db, cat: Catalog, id: nat, result: BrokerOrderResult, fills: seq<BrokerFill>,
                     instr: Option<int>)
    requires ApplyResult(db, cat, id, result, fills, instr).Some?
    ensures id < |db.orders|
    ensures var db' := ApplyResult(db, cat, id, result, fills, instr).value.0;
            id < |db'.orders| && db'.orders[id].state == TargetState(db.orders[id], result)
  {
    hide FoldFills, ResultOk, InstrumentOk;
  }

  lemma RenamedRefused(db: Db, cat: Catalog, id: nat, result: BrokerOrderResult, fills: seq<BrokerFill>,
                       instr: Option<int>)
    requires id < |db.orders| && result.orderId != "" && db.orders[id].ref != "" && db.orders[id].ref != result.orderId
    ensures ApplyResult(db, cat, id, result, fills, instr).None?
  {
    hide FoldFills, InstrumentOk;
    assert !ResultOk(db, id, result, fills);
  }

  // ---------------------------------------------------------------- quantities add up

  function SumUnits(rows: seq<Exec>): int {
    if rows == [] then 0 else SumUnits(rows[..|rows| - 1]) + rows[|rows| - 1].qty
  }

  function SumRounded(fills: seq<BrokerFill>): int {
    if fills == [] then 0 else SumRounded(fills[..|fills| - 1]) + Round(fills[|fills| - 1].quantity)
  }

  /** The order's quantity according to the ledger. */
  function LedgerQuantity(db: Db, id: nat): real {
    Value(SumUnits(RowsOf(db.execs, id)))
  }

  lemma {:induction false} SumWithout(rows: seq<Exec>, k: nat)
    requires k < |rows|
    ensures SumUnits(rows) == SumUnits(rows[..k] + rows[k + 1..]) + rows[k].qty
    decreases |rows|
  {
    var n := |rows| - 1;
    if k == n {
      assert rows[..k] + rows[k + 1..] == rows[..n];
    } else {
      SumWithout(rows[..n], k);
      var rest := rows[..k] + rows[k + 1..];
      assert rest[..|rest| - 1] == rows[..n][..k] + rows[..n][k + 1..];
    }
  }

  function TradeIds(rows: seq<Exec>): set<string> {
    set i | 0 <= i < |rows| :: rows[i].tradeId
  }

  lemma NoTradeIds(rows: seq<Exec>)
    ensures TradeIds(rows) == {} <==> rows == []
  {
    if rows != [] { assert rows[0].tradeId in TradeIds(rows); }
  }

  /** Rows and fills name the same trades, each row holding its fill's rounded quantity. */
  ghost predicate Matched(rows: seq<Exec>, fills: seq<BrokerFill>) {
    && DistinctIds(rows)
    && (forall i, j :: 0 <= i < j < |fills| ==> fills[i].tradeId != fills[j].tradeId)
    && TradeIds(rows) == Seen(fills)
    && (forall e, f :: e in rows && f in fills && e.tradeId == f.tradeId ==> e.qty == Round(f.quantity))
  }

  lemma TradeIdsWithout(rows: seq<Exec>, k: nat)
    requires DistinctIds(rows) && k < |rows|
    ensures DistinctIds(rows[..k] + rows[k + 1..])
    ensures TradeIds(rows[..k] + rows[k + 1..]) == TradeIds(rows) - {rows[k].tradeId}
  {
    var rest := rows[..k] + rows[k + 1..];
    forall t | t in TradeIds(rows) && t != rows[k].tradeId ensures t in TradeIds(rest) {
      var b :| 0 <= b < |rows| && rows[b].tradeId == t;
      assert rest[if b < k then b else b - 1] == rows[b];
    }
    forall t | t in TradeIds(rest) ensures t in TradeIds(rows) && t != rows[k].tradeId {
      var a :| 0 <= a < |rest| && rest[a].tradeId == t;
      var b := if a < k then a else a + 1;
      assert rows[b].tradeId == t;
    }
  }

  lemma SeenWithoutLast(fills: seq<BrokerFill>)
    requires fills != [] && forall i, j :: 0 <= i < j < |fills| ==> fills[i].tradeId != fills[j].tradeId
    ensures Seen(fills[..|fills| - 1]) == Seen(fills) - {fills[|fills| - 1].tradeId}
  {
    var n := |fills| - 1;
    forall t | t in Seen(fills) && t != fills[n].tradeId ensures t in Seen(fills[..n]) {
      var i :| 0 <= i < |fills| && fills[i].tradeId == t;
      assert fills[..n][i] == fills[i];
    }
  }

  lemma {:induction false} MatchedSums(rows: seq<Exec>, fills: seq<BrokerFill>)
    requires Matched(rows, fills)
    ensures SumUnits(rows) == SumRounded(fills)
    decreases |fills|
  {
    if fills == [] {
      NoTradeIds(rows);
    } else {
      var n := |fills| - 1;
      assert fills[n].tradeId in Seen(fills);
      var k :| 0 <= k < |rows| && rows[k].tradeId == fills[n].tradeId;
      TradeIdsWithout(rows, k);
      SeenWithoutLast(fills);
      MatchedSums(rows[..k] + rows[k + 1..], fills[..n]);
      SumWithout(rows, k);
      assert rows[k] in rows && fills[n] in fills;
    }
  }

  lemma {:induction false} RoundedSumClose(fills: seq<BrokerFill>)
    ensures Abs(Value(SumRounded(fills)) - SumQuantity(fills)) <= |fills| as real * 0.000000005
    decreases |fills|
  {
    if fills != [] {
      var n := |fills| - 1;
      RoundedSumClose(fills[..n]);
      RoundIsClose(fills[n].quantity);
      assert Value(SumRounded(fills)) == Value(SumRounded(fills[..n])) + Value(Round(fills[n].quantity));
    }
  }

  /** The fill set names every trade already stored for the order. */
  ghost predicate Covers(db: Db, id: nat, fills: seq<BrokerFill>) {
    forall e :: e in RowsOf(db.execs, id) ==> exists i :: 0 <= i < |fills| && fills[i].tradeId == e.tradeId
  }

  lemma AcceptedMatches(db: Db, cat: Catalog, id: nat, result: BrokerOrderResult, fills: seq<BrokerFill>,
                        instr: Option<int>)
    requires Wf(db) && ApplyResult(db, cat, id, result, fills, instr).Some? && fills != [] && Covers(db, id, fills)
    requires forall i :: 0 <= i < |fills| ==> ValidFill(fills[i])
    ensures Matched(RowsOf(ApplyResult(db, cat, id, result, fills, instr).value.0.execs, id), fills)
  {
    var db' := ApplyResult(db, cat, id, result, fills, instr).value.0;
    var ctx := ContextOf(db, id, instr.value);
    assert DistinctTrades(db'.execs) by { ApplyKeeps(db, cat, id, result, fills, instr); }
    assert Replayed(ctx, db'.orders[id].ref, db'.execs, fills)
        by { AcceptedIsReplayed(db, cat, id, result, fills, instr); }
    forall e | e in RowsOf(db'.execs, id) ensures exists i :: 0 <= i < |fills| && fills[i].tradeId == e.tradeId {
      AcceptedAddsOnlyFills(ctx, Loop(ObservedOrder(db.orders[id], result).ref, db.execs, [], {}), fills);
      assert e in db.execs ==> e in RowsOf(db.execs, id);
    }
    ReplayedMatches(ctx, db'.orders[id].ref, db'.execs, fills);
  }

  lemma ReplayedMatches(ctx: Context, ref: string, execs: seq<Exec>, fills: seq<BrokerFill>)
    requires DistinctTrades(execs) && Replayed(ctx, ref, execs, fills)
    requires forall e :: e in RowsOf(execs, ctx.order) ==> exists i :: 0 <= i < |fills| && fills[i].tradeId == e.tradeId
    ensures Matched(RowsOf(execs, ctx.order), fills)
  {
    var rows := RowsOf(execs, ctx.order);
    RowsOfDistinct(execs, ctx.order);
    forall t | t in Seen(fills) ensures t in TradeIds(rows) {
      var i :| 0 <= i < |fills| && fills[i].tradeId == t;
      var k :| 0 <= k < |rows| && rows[k] == Observed(ctx, fills[i]);
    }
    forall t | t in TradeIds(rows) ensures t in Seen(fills) {
      var k :| 0 <= k < |rows| && rows[k].tradeId == t;
      assert rows[k] in rows;
    }
    forall e, f | e in rows && f in fills && e.tradeId == f.tradeId ensures e.qty == Round(f.quantity) {
      var i :| 0 <= i < |fills| && fills[i] == f;
      FindStored(execs, Observed(ctx, fills[i]));
      FindStored(execs, e);
    }
  }

  /** Every execution the loop adds comes from one of its fills. */
  lemma {:induction false} AcceptedAddsOnlyFills(ctx: Context, l: Loop, fills: seq<BrokerFill>)
    requires FoldFills(ctx, l, fills).Some?
    ensures forall e :: e in FoldFills(ctx, l, fills).value.execs ==>
              e in l.execs || exists i :: 0 <= i < |fills| && fills[i].tradeId == e.tradeId
    decreases |fills|
  {
    if fills != [] {
      var n := |fills| - 1;
      AcceptedAddsOnlyFills(ctx, l, fills[..n]);
      var l1 := FoldFills(ctx, l, fills[..n]).value;
      forall e | e in FillStep(ctx, l1, fills[n]).value.execs
        ensures e in l.execs || exists i :: 0 <= i < |fills| && fills[i].tradeId == e.tradeId
      {
        if e in l1.execs {
          if e !in l.execs {
            var i :| 0 <= i < n && fills[..n][i].tradeId == e.tradeId;
            assert fills[i].tradeId == e.tradeId;
          }
        } else {
          assert fills[n].tradeId == e.tradeId;
        }
      }
    }
  }

  /**
   After a fill set covering every stored trade is accepted, the ledger quantity is the reported
   one up to the status tolerance and half a quantum of rounding per fill.
   */
  lemma LedgerQuantityIsReported(db: Db, cat: Catalog, id: nat, result: BrokerOrderResult, fills: seq<BrokerFill>,
                                 instr: Option<int>)
    requires Wf(db) && ApplyResult(db, cat, id, result, fills, instr).Some? && result.HasFill() && Covers(db, id, fills)
    requires forall i :: 0 <= i < |fills| ==> ValidFill(fills[i])
    ensures var db' := ApplyResult(db, cat, id, result, fills, instr).value.0;
            Abs(LedgerQuantity(db', id) - result.filledQuantity)
            <= Tolerance(result.filledQuantity) + |fills| as real * 0.000000005
  {
    hide ApplyResult, RowsOf, SumUnits, SumRounded, SumQuantity, Tolerance, Abs, Wf, Covers;
    AcceptedUnits(db, cat, id, result, fills, instr);
    AcceptedTotal(db, cat, id, result, fills, instr);
    RoundedSumClose(fills);
    WithinBoth(Value(SumRounded(fills)), SumQuantity(fills), result.filledQuantity,
               |fills| as real * 0.000000005, Tolerance(result.filledQuantity));
  }

  lemma AcceptedUnits(db: Db, cat: Catalog, id: nat, result: BrokerOrderResult, fills: seq<BrokerFill>,
                      instr: Option<int>)
    requires Wf(db) && ApplyResult(db, cat, id, result, fills, instr).Some? && result.HasFill() && Covers(db, id, fills)
    requires forall i :: 0 <= i < |fills| ==> ValidFill(fills[i])
    ensures SumUnits(RowsOf(ApplyResult(db, cat, id, result, fills, instr).value.0.execs, id)) == SumRounded(fills)
  {
    hide ApplyResult, RowsOf, SumUnits, SumRounded, Wf, Covers, Matched;
    AcceptedTotal(db, cat, id, result, fills, instr);
    AcceptedMatches(db, cat, id, result, fills, instr);
    MatchedSums(RowsOf(ApplyResult(db, cat, id, result, fills, instr).value.0.execs, id), fills);
  }

  lemma AcceptedTotal(db: Db, cat: Catalog, id: nat, result: BrokerOrderResult, fills: seq<BrokerFill>,
                      instr: Option<int>)
    requires ApplyResult(db, cat, id, result, fills, instr).Some? && result.HasFill()
    ensures fills != [] && Abs(SumQuantity(fills) - result.filledQuantity) <= Tolerance(result.filledQuantity)
  {
    hide FoldFills, InstrumentOk, ContextOf, HasExec, SumQuantity, AveragePrice, Tolerance, Abs;
    assert EconomicsMatch(SumQuantity(fills), result.filledQuantity);
  }

  lemma WithinBoth(a: real, b: real, c: real, e: real, t: real)
    requires Abs(a - b) <= e && Abs(b - c) <= t
    ensures Abs(a - c) <= t + e
  {
  }
}
