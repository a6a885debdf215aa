/**
 Safety of the order ledger over every run of its transactions, including creates that look a
 key up, find nothing, and later lose the unique-constraint race to another create.
 */
module LedgerSafety {
  import opened Common
  import opened Broker
  import opened Numeric
  import opened Ledger

  /** What the fill type guarantees: identifiers are trimmed and non-empty. */
  predicate ValidFill(f: BrokerFill) {
    f.orderId != "" && Strip(f.orderId) == f.orderId
  }

  // ---------------------------------------------------------------- one transaction's fills

  ghost predicate DistinctTrades(execs: seq<Exec>) {
    forall a, b :: 0 <= a < b < |execs| && execs[a].order == execs[b].order ==> execs[a].tradeId != execs[b].tradeId
  }

  predicate ExecOk(e: Exec) {
    && 0 < e.qty <= MAX_UNITS && 0 < e.price <= MAX_UNITS && -MAX_UNITS <= e.fee <= MAX_UNITS
    && AcceptedProvenance(e.provenance)
  }

  /** Every fill accepted so far is stored exactly as observed, under one broker reference. */
  ghost predicate Stored(ctx: Context, l: Loop, fills: seq<BrokerFill>) {
    && (forall i :: 0 <= i < |fills| ==>
          && FillOk(ctx, fills[i]) && fills[i].tradeId in l.seen
          && Observed(ctx, fills[i]) in l.execs && Strip(l.ref) == fills[i].orderId)
    && (forall i, j :: 0 <= i < j < |fills| ==> fills[i].tradeId != fills[j].tradeId)
  }

  /** What the loop over fills does to the execution table and the reference. */
  ghost predicate Grown(ctx: Context, l: Loop, l': Loop) {
    && l.execs <= l'.execs
    && (forall i :: |l.execs| <= i < |l'.execs| ==> l'.execs[i].order == ctx.order && ExecOk(l'.execs[i]))
    && (Strip(l.ref) != "" ==> l'.ref == l.ref)
  }

  lemma FillStepKeeps(ctx: Context, l: Loop, f: BrokerFill)
    requires ValidFill(f) && DistinctTrades(l.execs) && FillStep(ctx, l, f).Some?
    ensures var l' := FillStep(ctx, l, f).value;
            && Grown(ctx, l, l') && DistinctTrades(l'.execs)
            && FillOk(ctx, f) && Observed(ctx, f) in l'.execs && Strip(l'.ref) == f.orderId
            && l'.seen == l.seen + {f.tradeId}
            && (forall e :: e in l'.execs ==> e in l.execs || e == Observed(ctx, f))
  {
    var l' := FillStep(ctx, l, f).value;
    if FindExec(l.execs, ctx.order, f.tradeId).None? {
      assert l'.execs[|l.execs|] == Observed(ctx, f);
    }
  }

  lemma StoredSnoc(ctx: Context, l: Loop, l': Loop, init: seq<BrokerFill>, f: BrokerFill)
    requires ValidFill(f) && DistinctTrades(l.execs) && FillStep(ctx, l, f) == Some(l') && Stored(ctx, l, init)
    requires init != [] ==> Strip(l.ref) != ""
    ensures Stored(ctx, l', init + [f])
  {
    FillStepKeeps(ctx, l, f);
    var fills := init + [f];
    forall i | 0 <= i < |fills|
      ensures FillOk(ctx, fills[i]) && fills[i].tradeId in l'.seen && Observed(ctx, fills[i]) in l'.execs
              && Strip(l'.ref) == fills[i].orderId
    {
      if i < |init| { assert fills[i] == init[i]; }
    }
    forall i, j | 0 <= i < j < |fills| ensures fills[i].tradeId != fills[j].tradeId {
      assert fills[i] == init[i] && fills[i].tradeId in l.seen;
      if j < |init| { assert fills[j] == init[j]; }
    }
  }

  lemma GrownTransitive(ctx: Context, a: Loop, b: Loop, c: Loop)
    requires Grown(ctx, a, b) && Grown(ctx, b, c)
    ensures Grown(ctx, a, c)
  {
  }

  /** What an accepted fill set leaves behind. */
  ghost predicate Accepted(ctx: Context, l: Loop, l': Loop, fills: seq<BrokerFill>) {
    && Grown(ctx, l, l') && DistinctTrades(l'.execs) && Stored(ctx, l', fills)
    && (fills != [] ==> Strip(l'.ref) != "")
  }

  lemma AcceptedSnoc(ctx: Context, l: Loop, l1: Loop, l': Loop, init: seq<BrokerFill>, f: BrokerFill)
    requires ValidFill(f) && FillStep(ctx, l1, f) == Some(l') && Accepted(ctx, l, l1, init)
    ensures Accepted(ctx, l, l', init + [f])
  {
    FillStepKeeps(ctx, l1, f);
    StoredSnoc(ctx, l1, l', init, f);
    GrownTransitive(ctx, l, l1, l');
  }

  lemma {:induction false} FoldKeeps(ctx: Context, l: Loop, fills: seq<BrokerFill>)
    requires DistinctTrades(l.execs) && FoldFills(ctx, l, fills).Some?
    requires forall i :: 0 <= i < |fills| ==> ValidFill(fills[i])
    ensures Accepted(ctx, l, FoldFills(ctx, l, fills).value, fills)
    decreases |fills|
  {
    if fills != [] {
      hide FillStep, Accepted, ValidFill, DistinctTrades;
      var n := |fills| - 1;
      FoldKeeps(ctx, l, fills[..n]);
      var l1 := FoldFills(ctx, l, fills[..n]).value;
      AcceptedSnoc(ctx, l, l1, FillStep(ctx, l1, fills[n]).value, fills[..n], fills[n]);
      assert fills == fills[..n] + [fills[n]];
    }
  }

  // ---------------------------------------------------------------- the invariant of the tables

  ghost predicate Shape(db: Db) {
    && |db.intents| == |db.orders|
    && (forall j :: 0 <= j < |db.orders| ==>
         db.orders[j].intentId == j && db.orders[j].account == db.intents[j].account)
  }

  /** At most one intent, and through `Shape` one order, per account and idempotency key. */
  ghost predicate UniqueKeys(db: Db) {
    forall i, j :: 0 <= i < j < |db.intents| && db.intents[i].key.Some? &&
        db.intents[i].account == db.intents[j].account
      ==> db.intents[i].key != db.intents[j].key
  }

  ghost predicate ExecsOk(db: Db) {
    && DistinctTrades(db.execs)
    && (forall e :: e in db.execs ==> ExecOk(e) && e.order < |db.orders| && Strip(db.orders[e.order].ref) != "")
  }

  ghost predicate Wf(db: Db) {
    Shape(db) && UniqueKeys(db) && ExecsOk(db)
  }

  /** The order has seen broker activity. */
  predicate Active(db: Db, id: nat) {
    id < |db.orders| && (db.orders[id].ref != "" || HasExec(db.execs, id))
  }

  /** Ownership, routing and economics of an intent. */
  predicate SameIdentity(a: Intent, b: Intent) {
    b.(payload := a.payload, status := a.status) == a && a.payload.body == b.payload.body
  }

  predicate SameRoute(a: Order, b: Order) {
    b.(ref := a.ref, state := a.state) == a
  }

  /** What every transaction, and so every run, leaves as it was. */
  ghost predicate Extends(db: Db, db': Db) {
    && |db.intents| <= |db'.intents| && |db.orders| <= |db'.orders| && db.execs <= db'.execs
    && (forall i :: 0 <= i < |db.intents| ==>
          && SameIdentity(db.intents[i], db'.intents[i])
          && (db.intents[i].payload.unknown.Some? ==> db'.intents[i].payload.unknown.Some?))
    && (forall j :: 0 <= j < |db.orders| ==>
          && SameRoute(db.orders[j], db'.orders[j])
          && (db.orders[j].state == Filled ==> db'.orders[j].state == Filled)
          && (Strip(db.orders[j].ref) != "" ==> db'.orders[j].ref == db.orders[j].ref))
    && (forall j :: 0 <= j < |db.orders| && j < |db.intents| && Active(db, j) ==>
          && Active(db', j)
          && db'.intents[j].status == db.intents[j].status
          && db'.intents[j].payload.aborted == db.intents[j].payload.aborted)
  }

  lemma ExtendsSelf(db: Db)
    ensures Extends(db, db)
  {
  }

  lemma ExtendsTransitive(a: Db, b: Db, c: Db)
    requires Wf(a) && Wf(b) && Wf(c) && Extends(a, b) && Extends(b, c)
    ensures Extends(a, c)
  {
    forall j | 0 <= j < |a.orders| && Active(a, j)
      ensures Active(c, j) && c.intents[j].status == a.intents[j].status
              && c.intents[j].payload.aborted == a.intents[j].payload.aborted
    {
      assert Active(b, j);
    }
  }

  lemma FindOrderIsIntent(db: Db, i: nat)
    requires Shape(db) && i < |db.intents|
    ensures FindOrder(db.orders, i) == Some(i)
  {
    assert db.orders[i].intentId == i;
  }

  lemma ReviveKeeps(db: Db, i: nat, r: Request)
    requires Wf(db) && i < |db.intents| && SamePayload(db.intents[i].payload, FreshPayload(r))
    requires Revivable(db, db.intents[i], i)
    ensures var db' := db.(intents := db.intents[i := db.intents[i].(payload := FreshPayload(r), status := Routed)],
                           orders := db.orders[i := db.orders[i].(state := New)]);
            Wf(db') && Extends(db, db')
  {
  }

  lemma ExistingRefKeeps(db: Db, i: nat, r: Request, broker: int)
    requires Wf(db) && i < |db.intents|
    ensures Wf(ExistingRef(db, i, r, broker).0) && Extends(db, ExistingRef(db, i, r, broker).0)
  {
    FindOrderIsIntent(db, i);
    assert i < |db.orders|;
    hide Wf, Extends, SameAttempt, Revivable, SamePayload;
    ExtendsSelf(db);
    if SameAttempt(db.intents[i], db.orders[i], r, broker) && Revivable(db, db.intents[i], i) {
      ReviveKeeps(db, i, r);
    }
  }

  lemma CreateInsertKeeps(db: Db, r: Request, broker: int)
    requires Wf(db)
    ensures Wf(CreateInsert(db, r, broker).0) && Extends(db, CreateInsert(db, r, broker).0)
  {
    if Conflicts(db, r) {
      if Known(db, r) {
        ExistingRefKeeps(db, FindIntent(db.intents, r.account, r.key.value).value, r, broker);
      }
    }
  }

  lemma AbortKeeps(db: Db, id: nat, reason: string, code: string)
    requires Wf(db) && Abort(db, id, reason, code).Some?
    ensures Wf(Abort(db, id, reason, code).value) && Extends(db, Abort(db, id, reason, code).value)
  {
  }

  lemma MarkUnknownKeeps(db: Db, id: nat, reason: string)
    requires Wf(db) && MarkUnknown(db, id, reason).Some?
    ensures Wf(MarkUnknown(db, id, reason).value) && Extends(db, MarkUnknown(db, id, reason).value)
  {
  }

  lemma ApplyKeeps(db: Db, cat: Catalog, id: nat, result: BrokerOrderResult, fills: seq<BrokerFill>, instr: Option<int>)
    requires Wf(db) && ApplyResult(db, cat, id, result, fills, instr).Some?
    requires forall i :: 0 <= i < |fills| ==> ValidFill(fills[i])
    ensures var db' := ApplyResult(db, cat, id, result, fills, instr).value.0; Wf(db') && Extends(db, db')
  {
    hide ApplyResult, Wf, Extends;
    ApplyKeepsWf(db, cat, id, result, fills, instr);
    ApplyExtends(db, cat, id, result, fills, instr);
  }

  lemma ApplyKeepsWf(db: Db, cat: Catalog, id: nat, result: BrokerOrderResult, fills: seq<BrokerFill>,
                     instr: Option<int>)
    requires Wf(db) && ApplyResult(db, cat, id, result, fills, instr).Some?
    requires forall i :: 0 <= i < |fills| ==> ValidFill(fills[i])
    ensures Wf(ApplyResult(db, cat, id, result, fills, instr).value.0)
  {
    var db' := ApplyResult(db, cat, id, result, fills, instr).value.0;
    var o := ObservedOrder(db.orders[id], result);
    if fills != [] {
      FoldKeeps(ContextOf(db, id, instr.value), Loop(o.ref, db.execs, [], {}), fills);
    }
    forall e | e in db'.execs ensures ExecOk(e) && e.order < |db'.orders| && Strip(db'.orders[e.order].ref) != "" {
      var i :| 0 <= i < |db'.execs| && db'.execs[i] == e;
      if i < |db.execs| { assert db.execs[i] in db.execs; }
    }
  }

  lemma ApplyExtends(db: Db, cat: Catalog, id: nat, result: BrokerOrderResult, fills: seq<BrokerFill>,
                     instr: Option<int>)
    requires Wf(db) && ApplyResult(db, cat, id, result, fills, instr).Some?
    requires forall i :: 0 <= i < |fills| ==> ValidFill(fills[i])
    ensures Extends(db, ApplyResult(db, cat, id, result, fills, instr).value.0)
  {
    var db' := ApplyResult(db, cat, id, result, fills, instr).value.0;
    var o := ObservedOrder(db.orders[id], result);
    if fills != [] {
      FoldKeeps(ContextOf(db, id, instr.value), Loop(o.ref, db.execs, [], {}), fills);
    }
    forall j | 0 <= j < |db.orders| && Active(db, j) ensures Active(db', j) {
      if HasExec(db.execs, j) {
        var e :| e in db.execs && e.order == j;
        assert e in db'.execs;
      }
    }
  }

  // ---------------------------------------------------------------- runs

  /** A transaction, or half of a create by creator `c`. */
  datatype Op =
    | BeginCreate(c: nat, cat: Catalog, r: Request)
    | EndCreate(c: nat)
    | AbortOrder(id: nat, reason: string, code: string)
    | UnknownOrder(id: nat, reason: string)
    | ApplyOrder(cat: Catalog, id: nat, result: BrokerOrderResult, fills: seq<BrokerFill>, instr: Option<int>)

  /** The tables, and the creates that looked their key up and found nothing. */
  datatype System = System(db: Db, creators: map<nat, (Request, int)>)

  function Step(s: System, op: Op): System {
    match op
    case BeginCreate(c, cat, r) =>
      if !ValidRequest(cat, r) then s
      else if Known(s.db, r) then
        s.(db := ExistingRef(s.db, FindIntent(s.db.intents, r.account, r.key.value).value, r,
            cat.brokers[r.brokerCode]).0)
      else s.(creators := s.creators[c := (r, cat.brokers[r.brokerCode])])
    case EndCreate(c) =>
      if c !in s.creators then s
      else System(CreateInsert(s.db, s.creators[c].0, s.creators[c].1).0, s.creators - {c})
    case AbortOrder(id, reason, code) =>
      var t := Abort(s.db, id, reason, code); if t.Some? then s.(db := t.value) else s
    case UnknownOrder(id, reason) =>
      var t := MarkUnknown(s.db, id, reason); if t.Some? then s.(db := t.value) else s
    case ApplyOrder(cat, id, result, fills, instr) =>
      var t := ApplyResult(s.db, cat, id, result, fills, instr); if t.Some? then s.(db := t.value.0) else s
  }

  function Run(s: System, ops: seq<Op>): System
    decreases |ops|
  {
    if ops == [] then s else Step(Run(s, ops[..|ops| - 1]), ops[|ops| - 1])
  }

  predicate ValidOp(op: Op) {
    op.ApplyOrder? ==> forall i :: 0 <= i < |op.fills| ==> ValidFill(op.fills[i])
  }

  const EMPTY := System(Db([], [], []), map[])

  lemma StepKeeps(s: System, op: Op)
    requires Wf(s.db) && ValidOp(op)
    ensures Wf(Step(s, op).db) && Extends(s.db, Step(s, op).db)
  {
    hide Wf, Extends, ExistingRef, CreateInsert, Abort, MarkUnknown, ApplyResult;
    ExtendsSelf(s.db);
    match op
    case BeginCreate(c, cat, r) =>
      if ValidRequest(cat, r) && Known(s.db, r) {
        ExistingRefKeeps(s.db, FindIntent(s.db.intents, r.account, r.key.value).value, r, cat.brokers[r.brokerCode]);
      }
    case EndCreate(c) =>
      if c in s.creators { CreateInsertKeeps(s.db, s.creators[c].0, s.creators[c].1); }
    case AbortOrder(id, reason, code) =>
      if Abort(s.db, id, reason, code).Some? { AbortKeeps(s.db, id, reason, code); }
    case UnknownOrder(id, reason) =>
      if MarkUnknown(s.db, id, reason).Some? { MarkUnknownKeeps(s.db, id, reason); }
    case ApplyOrder(cat, id, result, fills, instr) =>
      if ApplyResult(s.db, cat, id, result, fills, instr).Some? { ApplyKeeps(s.db, cat, id, result, fills, instr); }
  }

  /** From any well-formed tables, every run keeps them well formed and extends them. */
  lemma {:induction false} RunKeeps(s: System, ops: seq<Op>)
    requires Wf(s.db) && forall n :: 0 <= n < |ops| ==> ValidOp(ops[n])
    ensures Wf(Run(s, ops).db) && Extends(s.db, Run(s, ops).db)
    decreases |ops|
  {
    if ops != [] {
      var init := ops[..|ops| - 1];
      RunKeeps(s, init);
      StepKeeps(Run(s, init), ops[|ops| - 1]);
      ExtendsTransitive(s.db, Run(s, init).db, Run(s, ops).db);
    }
  }

  // ---------------------------------------------------------------- what a run can never do

  /** In every run each account and idempotency key has at most one intent, and each intent one order. */
  lemma OneOrderPerKey(ops: seq<Op>, i: nat, j: nat)
    requires forall n :: 0 <= n < |ops| ==> ValidOp(ops[n])
    requires var db := Run(EMPTY, ops).db;
             && i < |db.intents| && j < |db.intents| && db.intents[i].key.Some?
             && db.intents[i].key == db.intents[j].key && db.intents[i].account == db.intents[j].account
    ensures i == j && i < |Run(EMPTY, ops).db.orders|
    ensures forall o :: 0 <= o < |Run(EMPTY, ops).db.orders| ==>
              (Run(EMPTY, ops).db.orders[o].intentId == i <==> o == i)
  {
    RunKeeps(EMPTY, ops);
  }

  /** The stored intent and order number i have the ownership, routing and economics of the request. */
  ghost predicate StoredAs(db: Db, i: nat, r: Request, broker: int) {
    && i < |db.intents| && i < |db.orders|
    && db.intents[i].account == r.account && db.orders[i].account == r.account
    && db.intents[i].strategy == r.strategy && db.intents[i].signal == r.signal
    && db.intents[i].side == r.side && db.intents[i].mode == r.mode
    && db.intents[i].environment == r.environment && db.intents[i].kind == r.kind
    && db.intents[i].payload.body == r.body
    && db.orders[i].broker == broker && db.orders[i].settlement == r.settlement
  }

  /** The columns a winning create writes, and that nothing else is written. */
  ghost predicate Written(db: Db, db': Db, r: Request, broker: int) {
    var i := |db.intents|;
    && |db'.intents| == i + 1 && |db'.orders| == |db.orders| + 1 && db'.execs == db.execs
    && db'.intents[..i] == db.intents && db'.orders[..|db.orders|] == db.orders
    && StoredAs(db', i, r, broker)
    && db'.intents[i].user == r.user && db'.intents[i].key == r.key && db'.intents[i].status == Routed
    && db'.intents[i].payload.localOrderId == r.localOrderId
    && db'.intents[i].payload.aborted.None? && db'.intents[i].payload.unknown.None?
    && db'.orders[i].intentId == i && db'.orders[i].clientId == r.clientId
    && db'.orders[i].ref == "" && db'.orders[i].state == New
  }

  /**
   A create whose key is already stored, whether its first lookup or a lost insert race found it,
   writes no row; it returns the stored identifiers exactly when the attempt matches and carries a
   local recovery identity, and raises otherwise.
   */
  lemma ReplayReturnsStoredIds(db: Db, r: Request, broker: int)
    requires Wf(db) && Known(db, r)
    ensures var i := FindIntent(db.intents, r.account, r.key.value).value;
            var (db', ref) := CreateInsert(db, r, broker);
            && (db', ref) == ExistingRef(db, i, r, broker)
            && |db'.intents| == |db.intents| && |db'.orders| == |db.orders| && db'.execs == db.execs
            && (ref.Some? <==> StoredAs(db, i, r, broker) && db.intents[i].payload.unknown.None?
                               && Strip(db.intents[i].payload.localOrderId) != "")
            && (ref.Some? ==> ref.value.intentId == i && ref.value.orderId == i && ref.value.settlement == r.settlement)
            && (ref.None? ==> db' == db)
  {
    FindOrderIsIntent(db, FindIntent(db.intents, r.account, r.key.value).value);
  }

  /** A create that wins its insert adds exactly one intent and its order. */
  lemma FreshCreateAddsOne(db: Db, r: Request, broker: int)
    requires Wf(db) && !Conflicts(db, r)
    ensures var (db', ref) := CreateInsert(db, r, broker);
            && ref == Some(Ref(|db.intents|, |db.intents|, r.settlement, r.localOrderId, New, "", false))
            && Written(db, db', r, broker)
            && (r.key.Some? ==> FindIntent(db'.intents, r.account, r.key.value) == Some(|db.intents|))
  {
  }

  /** Once a submission was marked unknown, every later replay of its key raises. */
  lemma UnknownMarkerBlocksReplay(s: System, ops: seq<Op>, i: nat, r: Request, broker: int)
    requires Wf(s.db) && forall n :: 0 <= n < |ops| ==> ValidOp(ops[n])
    requires i < |s.db.intents| && s.db.intents[i].payload.unknown.Some?
    requires s.db.intents[i].key == r.key && s.db.intents[i].account == r.account && r.key.Some?
    ensures Known(Run(s, ops).db, r) && CreateInsert(Run(s, ops).db, r, broker) == (Run(s, ops).db, None)
  {
    RunKeeps(s, ops);
    MarkedRefuses(s.db, Run(s, ops).db, i, r, broker);
  }

  lemma MarkedRefuses(old': Db, db: Db, i: nat, r: Request, broker: int)
    requires Wf(db) && Extends(old', db) && i < |old'.intents| && old'.intents[i].payload.unknown.Some?
    requires old'.intents[i].key == r.key && old'.intents[i].account == r.account && r.key.Some?
    ensures Known(db, r) && CreateInsert(db, r, broker) == (db, None)
  {
    assert SameIdentity(old'.intents[i], db.intents[i]);
    assert FindIntent(db.intents, r.account, r.key.value) == Some(i);
    ReplayReturnsStoredIds(db, r, broker);
  }

  /** An order with a broker reference or an execution is never aborted or revived again. */
  lemma ActiveNeverAbortedOrRevived(s: System, ops: seq<Op>, id: nat, reason: string, code: string, r: Request,
                                    broker: int)
    requires Wf(s.db) && Active(s.db, id) && forall n :: 0 <= n < |ops| ==> ValidOp(ops[n])
    ensures var db := Run(s, ops).db;
            && Active(db, id) && id < |db.intents|
            && Abort(db, id, reason, code).None? && ExistingRef(db, id, r, broker).0 == db
            && db.intents[id].status == s.db.intents[id].status
  {
    RunKeeps(s, ops);
    FindOrderIsIntent(Run(s, ops).db, id);
  }

  /**
   The prefix of every run is extended by the whole of it: executions are append-only and
   immutable, a filled order stays filled, and a non-blank broker reference never changes.
   */
  lemma LedgerOnlyGrows(ops: seq<Op>, n: nat)
    requires n <= |ops| && forall m :: 0 <= m < |ops| ==> ValidOp(ops[m])
    ensures Extends(Run(EMPTY, ops[..n]).db, Run(EMPTY, ops).db)
    ensures DistinctTrades(Run(EMPTY, ops).db.execs)
  {
    RunKeeps(EMPTY, ops[..n]);
    RunKeeps(Run(EMPTY, ops[..n]), ops[n..]);
    RunSplits(EMPTY, ops, n);
  }

  lemma {:induction false} RunSplits(s: System, ops: seq<Op>, n: nat)
    requires n <= |ops|
    ensures Run(s, ops) == Run(Run(s, ops[..n]), ops[n..])
    decreases |ops|
  {
    hide Step;
    if n == |ops| {
      assert ops[..n] == ops;
    } else {
      var m := |ops| - 1;
      RunSplits(s, ops[..m], n);
      assert ops[..m][..n] == ops[..n] && ops[..m][n..] == ops[n..][..m - n];
    }
  }

  /** Fills replace a reference exactly when it is blank. */
  lemma {:induction false} FoldRef(ctx: Context, l: Loop, fills: seq<BrokerFill>)
    requires fills != [] && FoldFills(ctx, l, fills).Some? && forall i :: 0 <= i < |fills| ==> ValidFill(fills[i])
    ensures FoldFills(ctx, l, fills).value.ref == if Strip(l.ref) == "" then fills[0].orderId else l.ref
    decreases |fills|
  {
    if |fills| > 1 {
      FoldRef(ctx, l, fills[..|fills| - 1]);
    } else {
      assert fills[..0] == [];
    }
  }

  /**
   Exactly when an accepted observation changes a reference that was already set: the stored one
   is white space and the observation carries fills.
   */
  lemma RefChangesOnlyIfBlank(db: Db, cat: Catalog, id: nat, result: BrokerOrderResult, fills: seq<BrokerFill>,
                              instr: Option<int>)
    requires ApplyResult(db, cat, id, result, fills, instr).Some? && db.orders[id].ref != ""
    requires forall i :: 0 <= i < |fills| ==> ValidFill(fills[i])
    ensures ApplyResult(db, cat, id, result, fills, instr).value.0.orders[id].ref != db.orders[id].ref
            <==> Strip(db.orders[id].ref) == "" && fills != []
  {
    if fills != [] {
      var o := ObservedOrder(db.orders[id], result);
      FoldRef(ContextOf(db, id, instr.value), Loop(o.ref, db.execs, [], {}), fills);
    }
  }
}
