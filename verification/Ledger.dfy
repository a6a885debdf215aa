/**
 The canonical order ledger: intents, routed orders and exact executions, and the database
 transactions on them. Each transaction is a function of the tables; one that raises changes
 nothing. Rows are never deleted, so a row's identifier is its position.
 */
module Ledger {
  import opened Common
  import opened Broker
  import opened Numeric

  datatype OrderState = New | SubmissionUnknown | Working | PartiallyFilled | Filled | Canceled | Rejected

  datatype IntentStatus = Routed | Refused

  /** Order economics as captured at the routing boundary; `details` stands for the rest of the payload. */
  datatype Body = Body(symbol: string, brokerSymbol: string, details: string)

  /** The intent payload: economics plus the recovery markers written beside them. */
  datatype Payload = Payload(localOrderId: string, body: Body, aborted: Option<string>, unknown: Option<string>)

  datatype Intent = Intent(
    user: string,
    account: int,
    strategy: string,
    signal: int,
    key: Option<string>,
    side: string,
    mode: string,
    environment: string,
    kind: string,
    payload: Payload,
    status: IntentStatus
  )

  datatype Order = Order(
    intentId: nat,
    broker: int,
    account: int,
    settlement: string,
    clientId: string,
    ref: string,
    state: OrderState
  )

  datatype Exec = Exec(
    order: nat,
    instr: int,
    ts: int,
    qty: int,
    price: int,
    currency: string,
    fee: int,
    venue: string,
    tradeId: string,
    provenance: Provenance
  )

  datatype Db = Db(intents: seq<Intent>, orders: seq<Order>, execs: seq<Exec>)

  // ---------------------------------------------------------------- reference data

  datatype Account = Account(user: string, broker: int, connected: bool, environment: string)

  datatype Signal = Signal(strategy: string, instr: int)

  datatype Catalog = Catalog(
    accounts: map<int, Account>,
    brokers: map<string, int>,
    strategies: set<string>,
    signals: map<int, Signal>,
    instruments: map<int, string>
  )

  /** A create request with its text fields already trimmed and case-folded. */
  datatype Request = Request(
    localOrderId: string,
    user: string,
    account: int,
    brokerCode: string,
    intentBroker: string,
    mode: string,
    strategy: string,
    signal: int,
    instr: int,
    side: string,
    body: Body,
    kind: string,
    settlement: string,
    key: Option<string>,
    environment: string,
    clientId: string
  )

  /** The identity checks made before any row is written. */
  predicate ValidRequest(cat: Catalog, r: Request) {
    && r.account > 0
    && r.brokerCode != "" && r.intentBroker == r.brokerCode
    && r.settlement != "" && r.strategy != "" && r.mode != "" && r.clientId != ""
    && (r.side == "BUY" || r.side == "SELL")
    && (r.key.Some? ==> 0 < |r.key.value| <= 64)
    && r.signal > 0 && r.instr > 0
    && r.account in cat.accounts
    && cat.accounts[r.account].user == r.user && cat.accounts[r.account].connected
    && r.brokerCode in cat.brokers && cat.accounts[r.account].broker == cat.brokers[r.brokerCode]
    && (r.environment == "paper" || r.environment == "live")
    && cat.accounts[r.account].environment == r.environment
    && r.strategy in cat.strategies
    && r.signal in cat.signals && cat.signals[r.signal] == Signal(r.strategy, r.instr)
    && r.instr in cat.instruments && cat.instruments[r.instr] == r.settlement
  }

  // ---------------------------------------------------------------- create

  datatype Ref = Ref(
    intentId: nat,
    orderId: nat,
    settlement: string,
    localOrderId: string,
    state: OrderState,
    brokerRef: string,
    reused: bool
  )

  function FindIntent(intents: seq<Intent>, account: int, key: string): (r: Option<nat>)
    ensures r.Some? ==> r.value < |intents| && intents[r.value].account == account && intents[r.value].key == Some(key)
    ensures r.None? ==> forall i :: 0 <= i < |intents| ==> intents[i].account != account || intents[i].key != Some(key)
  {
    if intents == [] then None
    else
      var n := |intents| - 1;
      if intents[n].account == account && intents[n].key == Some(key) then Some(n)
      else FindIntent(intents[..n], account, key)
  }

  function FindOrder(orders: seq<Order>, intentId: nat): (r: Option<nat>)
    ensures r.Some? ==> r.value < |orders| && orders[r.value].intentId == intentId
    ensures r.None? ==> forall i :: 0 <= i < |orders| ==> orders[i].intentId != intentId
  {
    if orders == [] then None
    else
      var n := |orders| - 1;
      if orders[n].intentId == intentId then Some(n) else FindOrder(orders[..n], intentId)
  }

  predicate HasExec(execs: seq<Exec>, order: nat) {
    exists e :: e in execs && e.order == order
  }

  /** What `_identity_payload` compares: the unknown-submission marker is part of it, the abort marker is not. */
  predicate SamePayload(p: Payload, q: Payload) {
    p.body == q.body && p.unknown == q.unknown
  }

  function FreshPayload(r: Request): Payload {
    Payload(r.localOrderId, r.body, None, None)
  }

  /** A stored attempt has the ownership, routing and economics of the request. */
  predicate SameAttempt(i: Intent, o: Order, r: Request, broker: int) {
    && i.account == r.account && i.strategy == r.strategy && i.signal == r.signal && i.side == r.side
    && i.mode == r.mode && i.environment == r.environment && i.kind == r.kind
    && o.account == r.account && o.broker == broker && o.settlement == r.settlement
    && SamePayload(i.payload, FreshPayload(r))
  }

  /** A pre-submission abort proves that no broker I/O occurred, so the attempt may be revived. */
  predicate Revivable(db: Db, i: Intent, id: nat)
    requires id < |db.orders|
  {
    && i.status == Refused && db.orders[id].state == Rejected
    && i.payload.aborted.Some? && db.orders[id].ref == "" && !HasExec(db.execs, id)
  }

  /** The one attempt stored for a key: validated, revived if it was aborted, else returned as it is. */
  function ExistingRef(db: Db, i: nat, r: Request, broker: int): (res: (Db, Option<Ref>))
    requires i < |db.intents|
  {
    var intent := db.intents[i];
    match FindOrder(db.orders, i)
    case None => (db, None)
    case Some(id) =>
      var order := db.orders[id];
      if !SameAttempt(intent, order, r, broker) then (db, None)
      else if Strip(intent.payload.localOrderId) == "" then (db, None)
      else if Revivable(db, intent, id) then
        (db.(intents := db.intents[i := intent.(payload := FreshPayload(r), status := Routed)],
             orders := db.orders[id := order.(state := New)]),
         Some(Ref(i, id, r.settlement, r.localOrderId, New, "", false)))
      else
        (db, Some(Ref(i, id, r.settlement, Strip(intent.payload.localOrderId), order.state, order.ref, true)))
  }

  /** The unique constraints on (account, idempotency key) and (account, client order id). */
  predicate Conflicts(db: Db, r: Request) {
    || (r.key.Some? && FindIntent(db.intents, r.account, r.key.value).Some?)
    || exists o :: o in db.orders && o.account == r.account && o.clientId == r.clientId
  }

  function NewIntent(r: Request): Intent {
    Intent(r.user, r.account, r.strategy, r.signal, r.key, r.side, r.mode, r.environment, r.kind, FreshPayload(r),
        Routed)
  }

  /** Whether the first lookup of a create already finds the key. */
  predicate Known(db: Db, r: Request) {
    r.key.Some? && FindIntent(db.intents, r.account, r.key.value).Some?
  }

  /** The insert half of a create; losing the unique-constraint race falls back to the stored attempt. */
  function CreateInsert(db: Db, r: Request, broker: int): (res: (Db, Option<Ref>)) {
    if Conflicts(db, r) then
      if !Known(db, r) then (db, None)
      else ExistingRef(db, FindIntent(db.intents, r.account, r.key.value).value, r, broker)
    else
      (Db(db.intents + [NewIntent(r)],
          db.orders + [Order(|db.intents|, broker, r.account, r.settlement, r.clientId, "", New)],
          db.execs),
       Some(Ref(|db.intents|, |db.orders|, r.settlement, r.localOrderId, New, "", false)))
  }

  /** A create with nothing in between its lookup and its insert. */
  function Create(db: Db, cat: Catalog, r: Request): (res: (Db, Option<Ref>)) {
    if !ValidRequest(cat, r) then (db, None)
    else if Known(db, r) then
      ExistingRef(db, FindIntent(db.intents, r.account, r.key.value).value, r, cat.brokers[r.brokerCode])
    else CreateInsert(db, r, cat.brokers[r.brokerCode])
  }

  // ---------------------------------------------------------------- abort and unknown

  predicate OrderKnown(db: Db, id: nat) {
    id < |db.orders| && db.orders[id].intentId < |db.intents|
  }

  function WithOrder(db: Db, id: nat, o: Order): Db
    requires id < |db.orders|
  {
    db.(orders := db.orders[id := o])
  }

  function WithIntent(db: Db, i: nat, t: Intent): Db
    requires i < |db.intents|
  {
    db.(intents := db.intents[i := t])
  }

  /** Closes an attempt before broker I/O; None when the transaction raises. */
  function Abort(db: Db, id: nat, reason: string, code: string): Option<Db> {
    if Strip(reason) == "" || Strip(code) == "" || !OrderKnown(db, id) then None
    else
      var o := db.orders[id];
      if o.ref != "" || HasExec(db.execs, id) || o.state != New then None
      else
        var t := db.intents[o.intentId];
        var t' := t.(payload := t.payload.(aborted := Some(Strip(reason))), status := Refused);
        Some(WithIntent(WithOrder(db, id, o.(state := Rejected)), o.intentId, t'))
  }

  /** Records that broker acceptance is unknown; None when the transaction raises. */
  function MarkUnknown(db: Db, id: nat, reason: string): Option<Db> {
    if Strip(reason) == "" || !OrderKnown(db, id) then None
    else
      var o := db.orders[id];
      if o.state != New && o.state != SubmissionUnknown then None
      else
        var t := db.intents[o.intentId];
        var t' := t.(payload := t.payload.(unknown := Some(Strip(reason))));
        Some(WithIntent(WithOrder(db, id, o.(state := SubmissionUnknown)), o.intentId, t'))
  }

  // ---------------------------------------------------------------- apply

  function StateOf(s: OrderStatus): OrderState {
    match s
    case PENDING => New
    case SUBMITTED => New
    case WORKING => Working
    case PARTIALLY_FILLED => PartiallyFilled
    case FILLED => Filled
    case CANCELLED => Canceled
    case REJECTED => Rejected
    case EXPIRED => Canceled
  }

  /** The venue symbol captured at routing: the broker's own symbol when one was given. */
  function RoutedSymbol(b: Body): string {
    Strip(if b.brokerSymbol != "" then b.brokerSymbol else b.symbol)
  }

  function Lower(side: string): string {
    if side == "BUY" then "buy" else if side == "SELL" then "sell" else side
  }

  function UpperChar(c: char): char {
    if 'a' <= c <= 'z' then (c as int - 32) as char else c
  }

  function Upper(s: string): string {
    if s == "" then "" else [UpperChar(s[0])] + Upper(s[1..])
  }

  function DropSeparators(s: string): string {
    if s == "" then ""
    else (if s[0] in {'-', '/', '_'} then "" else [s[0]]) + DropSeparators(s[1..])
  }

  /** Exchange product spelling: separators dropped, trimmed, upper case. */
  function NormalizeSymbol(s: string): string {
    Upper(Strip(DropSeparators(s)))
  }

  function SumQuantity(fills: seq<BrokerFill>): real {
    if fills == [] then 0.0 else SumQuantity(fills[..|fills| - 1]) + fills[|fills| - 1].quantity
  }

  function SumNotional(fills: seq<BrokerFill>): real {
    if fills == [] then 0.0
    else SumNotional(fills[..|fills| - 1]) + fills[|fills| - 1].quantity * fills[|fills| - 1].price
  }

  function SumCommission(fills: seq<BrokerFill>): real {
    if fills == [] then 0.0 else SumCommission(fills[..|fills| - 1]) + fills[|fills| - 1].commission
  }

  /** Fees in different currencies are never added. */
  predicate OneCurrency(fills: seq<BrokerFill>) {
    fills != [] && forall f :: f in fills ==> f.currency == fills[0].currency
  }

  function AveragePrice(fills: seq<BrokerFill>): real {
    if SumQuantity(fills) == 0.0 then 0.0 else SumNotional(fills) / SumQuantity(fills)
  }

  /** Provenance is complete, with positive identifiers and a non-blank policy. */
  predicate FullProvenance(p: Provenance) {
    && p.priceId.Some? && p.priceId.value > 0
    && p.revision.Some? && p.revision.value > 0
    && p.policy.Some? && Strip(p.policy.value) != ""
  }

  predicate AcceptedProvenance(p: Provenance) {
    p == NO_PROVENANCE || FullProvenance(p)
  }

  /** What every fill of one application is checked against. */
  datatype Context = Context(order: nat, instr: int, side: string, symbol: string)

  /** The checks on a fill that do not depend on what is stored. */
  predicate FillOk(ctx: Context, f: BrokerFill) {
    && AcceptedProvenance(f.provenance)
    && f.side == ctx.side
    && NormalizeSymbol(f.symbol) == NormalizeSymbol(ctx.symbol)
    && Canonical(f.quantity, true).Some? && Canonical(f.price, true).Some? && Canonical(f.commission, false).Some?
  }

  /** The execution row a fill becomes. */
  function Observed(ctx: Context, f: BrokerFill): Exec
    requires FillOk(ctx, f)
  {
    Exec(ctx.order, ctx.instr, f.timestamp, Canonical(f.quantity, true).value, Canonical(f.price, true).value,
         f.currency, Canonical(f.commission, false).value, f.venue, f.tradeId, f.provenance)
  }

  function FindExec(execs: seq<Exec>, order: nat, tradeId: string): (r: Option<nat>)
    ensures r.Some? ==> r.value < |execs| && execs[r.value].order == order && execs[r.value].tradeId == tradeId
    ensures r.None? ==> forall e :: e in execs ==> e.order != order || e.tradeId != tradeId
  {
    if execs == [] then None
    else if execs[0].order == order && execs[0].tradeId == tradeId then Some(0)
    else match FindExec(execs[1..], order, tradeId)
      case None => None
      case Some(i) => Some(i + 1)
  }

  /** The loop over fills: the broker reference, the execution table, new identifiers and trade ids seen. */
  datatype Loop = Loop(ref: string, execs: seq<Exec>, inserted: seq<nat>, seen: set<string>)

  /** The reference a fill leaves on the order: the first fill supplies a missing one. */
  function RefAfter(ref: string, f: BrokerFill): string {
    if Strip(ref) == "" then f.orderId else ref
  }

  /** The reference a fill must carry. */
  function RefExpected(ref: string, f: BrokerFill): string {
    if Strip(ref) == "" then f.orderId else Strip(ref)
  }

  /** One fill; None when it is refused. */
  function FillStep(ctx: Context, l: Loop, f: BrokerFill): Option<Loop> {
    if !FillOk(ctx, f) || f.tradeId in l.seen || f.orderId != RefExpected(l.ref, f) then None
    else
      var l' := l.(ref := RefAfter(l.ref, f), seen := l.seen + {f.tradeId});
      match FindExec(l.execs, ctx.order, f.tradeId)
      case Some(j) => if l.execs[j] == Observed(ctx, f) then Some(l') else None
      case None => Some(l'.(execs := l.execs + [Observed(ctx, f)], inserted := l.inserted + [|l.execs|]))
  }

  function FoldFills(ctx: Context, l: Loop, fills: seq<BrokerFill>): Option<Loop>
    decreases |fills|
  {
    if fills == [] then Some(l)
    else
      match FoldFills(ctx, l, fills[..|fills| - 1])
      case None => None
      case Some(l') => FillStep(ctx, l', fills[|fills| - 1])
  }

  /** The state an observation moves the order to; a filled order never leaves that state. */
  function TargetState(o: Order, result: BrokerOrderResult): OrderState {
    if o.state == Filled then Filled else StateOf(result.status)
  }

  /** The checks on the observation itself, before any fill is looked at. */
  predicate ResultOk(db: Db, id: nat, result: BrokerOrderResult, fills: seq<BrokerFill>)
    requires id < |db.orders|
  {
    var o := db.orders[id];
    var target := StateOf(result.status);
    && (o.state == Filled && target != Filled ==> fills != [])
    && (HasExec(db.execs, id) && fills == [] ==> TargetState(o, result) in {PartiallyFilled, Filled})
    && (result.orderId != "" && o.ref != "" ==> o.ref == result.orderId)
    && (result.HasFill() ==> fills != [])
    && (result.HasFill() && fills != [] ==>
          && EconomicsMatch(SumQuantity(fills), result.filledQuantity)
          && EconomicsMatch(AveragePrice(fills), result.averagePrice))
  }

  function ObservedOrder(o: Order, result: BrokerOrderResult): Order {
    o.(state := TargetState(o, result), ref := if result.orderId != "" then result.orderId else o.ref)
  }

  /** The instrument named for the fills is the signal's, and settles as the order does. */
  predicate InstrumentOk(db: Db, cat: Catalog, id: nat, instr: Option<int>)
    requires id < |db.orders|
  {
    var o := db.orders[id];
    && instr.Some? && instr.value > 0
    && o.intentId < |db.intents|
    && RoutedSymbol(db.intents[o.intentId].payload.body) != ""
    && db.intents[o.intentId].signal in cat.signals
    && cat.signals[db.intents[o.intentId].signal].instr == instr.value
    && instr.value in cat.instruments && cat.instruments[instr.value] == o.settlement
  }

  function ContextOf(db: Db, id: nat, instr: int): Context
    requires OrderKnown(db, id)
  {
    var t := db.intents[db.orders[id].intentId];
    Context(id, instr, Lower(t.side), RoutedSymbol(t.payload.body))
  }

  /** Updates the order and appends exact fills; None when the transaction raises. */
  function ApplyResult(db: Db, cat: Catalog, id: nat, result: BrokerOrderResult, fills: seq<BrokerFill>,
                       instr: Option<int>)
    : Option<(Db, seq<nat>)>
  {
    if id >= |db.orders| || !ResultOk(db, id, result, fills) then None
    else
      var o := ObservedOrder(db.orders[id], result);
      if fills == [] then Some((WithOrder(db, id, o), []))
      else if !InstrumentOk(db, cat, id, instr) then None
      else
        match FoldFills(ContextOf(db, id, instr.value), Loop(o.ref, db.execs, [], {}), fills)
        case None => None
        case Some(l) => Some((WithOrder(db, id, o.(ref := l.ref)).(execs := l.execs), l.inserted))
  }

  // ---------------------------------------------------------------- recovery read

  function StatusOf(s: OrderState): OrderStatus {
    match s
    case New => PENDING
    case SubmissionUnknown => PENDING
    case Working => WORKING
    case PartiallyFilled => PARTIALLY_FILLED
    case Filled => FILLED
    case Canceled => CANCELLED
    case Rejected => REJECTED
  }

  /** The executions of one order in identifier order. */
  function RowsOf(execs: seq<Exec>, id: nat): (rows: seq<Exec>)
    ensures forall e :: e in rows <==> e in execs && e.order == id
  {
    if execs == [] then []
    else
      var n := |execs| - 1;
      RowsOf(execs[..n], id) + if execs[n].order == id then [execs[n]] else []
  }

  /** Places a row after every row that is not later than it. */
  function InsertRow(rows: seq<Exec>, r: Exec): seq<Exec> {
    if rows == [] then [r]
    else if rows[|rows| - 1].ts <= r.ts then rows + [r]
    else InsertRow(rows[..|rows| - 1], r) + [rows[|rows| - 1]]
  }

  /** Rows by fill time, ties by identifier. */
  function SortRows(rows: seq<Exec>): seq<Exec> {
    if rows == [] then [] else InsertRow(SortRows(rows[..|rows| - 1]), rows[|rows| - 1])
  }

  predicate MixedProvenance(p: Provenance) {
    && (p.priceId.Some? || p.revision.Some? || p.policy.Some?)
    && (p.priceId.None? || p.revision.None? || p.policy.None?)
  }

  function FillOf(e: Exec, ref: string, symbol: string, side: string): BrokerFill {
    BrokerFill(e.tradeId, ref, symbol, side, Value(e.qty), Value(e.price), Value(e.fee), e.currency, e.ts, e.venue,
        e.provenance)
  }

  function FillsOf(rows: seq<Exec>, ref: string, symbol: string, side: string): (fs: seq<BrokerFill>)
    ensures |fs| == |rows|
    ensures forall i :: 0 <= i < |rows| ==> fs[i] == FillOf(rows[i], ref, symbol, side)
  {
    if rows == [] then []
    else FillsOf(rows[..|rows| - 1], ref, symbol, side) + [FillOf(rows[|rows| - 1], ref, symbol, side)]
  }

  datatype Durable = Missing | Conflict | Found(result: BrokerOrderResult, fills: seq<BrokerFill>)

  /** The conditions under which the recovery read raises. */
  predicate Unreadable(db: Db, id: nat)
    requires id < |db.orders|
  {
    var o := db.orders[id];
    var rows := RowsOf(db.execs, id);
    || o.intentId >= |db.intents|
    || (o.state in {PartiallyFilled, Filled} && rows == [])
    || (rows != [] && Strip(o.ref) == "")
    || RoutedSymbol(db.intents[o.intentId].payload.body) == ""
    || exists e :: e in rows && MixedProvenance(e.provenance)
  }

  function DurableFills(db: Db, id: nat): seq<BrokerFill>
    requires OrderKnown(db, id)
  {
    var o := db.orders[id];
    var t := db.intents[o.intentId];
    FillsOf(SortRows(RowsOf(db.execs, id)), Strip(o.ref), RoutedSymbol(t.payload.body), Lower(t.side))
  }

  /** Broker status and exact fills rebuilt from the ledger alone. */
  function Read(db: Db, id: nat): Durable {
    if id >= |db.orders| then Missing
    else if Unreadable(db, id) then Conflict
    else
      var fills := DurableFills(db, id);
      Found(BrokerOrderResult(Strip(db.orders[id].ref), StatusOf(db.orders[id].state), SumQuantity(fills),
                              AveragePrice(fills), if OneCurrency(fills) then SumCommission(fills) else 0.0, ""),
            fills)
  }
}
