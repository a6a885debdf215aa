/**
 Where the ledger's laws stop: for every valid request, runs from the empty ledger that reach the
 inputs their exact conditions exclude.
 */
module LedgerLimits {
  import opened Common
  import opened Broker
  import opened Numeric
  import opened Ledger
  import opened LedgerSafety
  import opened LedgerRecovery

  /** A request the reference data admits. */
  const REQUEST := Request("local-1", "user", 1, "broker", "broker", "spot", "strategy", 1, 1, "BUY",
                           Body("BTC-USD", "", ""), "market", "USD", Some("key"), "paper", "client-1")

  const CATALOG := Catalog(map[1 := Account("user", 7, true, "paper")], map["broker" := 7], {"strategy"},
                           map[1 := Signal("strategy", 1)], map[1 := "USD"])

  /** The requests these runs start from exist. */
  lemma RequestsExist()
    ensures ValidRequest(CATALOG, REQUEST) && RoutedSymbol(REQUEST.body) == "BTC-USD"
  {
  }

  function CreateOps(cat: Catalog, r: Request): seq<Op> {
    [BeginCreate(0, cat, r), EndCreate(0)]
  }

  function FirstOrder(cat: Catalog, r: Request, ref: string, state: OrderState): Order
    requires r.brokerCode in cat.brokers
  {
    Order(0, cat.brokers[r.brokerCode], r.account, r.settlement, r.clientId, ref, state)
  }

  function Created(cat: Catalog, r: Request, ref: string, state: OrderState): Db
    requires r.brokerCode in cat.brokers
  {
    Db([NewIntent(r)], [FirstOrder(cat, r, ref, state)], [])
  }

  lemma FirstCreate(cat: Catalog, r: Request)
    requires ValidRequest(cat, r)
    ensures Run(EMPTY, CreateOps(cat, r)) == System(Created(cat, r, "", New), map[])
  {
    var s1 := Step(EMPTY, BeginCreate(0, cat, r));
    assert s1 == System(EMPTY.db, map[0 := (r, cat.brokers[r.brokerCode])]);
    var s2 := Step(s1, EndCreate(0));
    assert s2 == System(Created(cat, r, "", New), map[]);
    assert [BeginCreate(0, cat, r)][..0] == [];
    assert Run(EMPTY, [BeginCreate(0, cat, r)]) == s1;
    assert CreateOps(cat, r)[..1] == [BeginCreate(0, cat, r)];
  }

  /** One applied result after the create. */
  lemma ThenApply(cat: Catalog, r: Request, result: BrokerOrderResult, fills: seq<BrokerFill>, instr: Option<int>)
    requires ValidRequest(cat, r)
    requires ApplyResult(Created(cat, r, "", New), cat, 0, result, fills, instr).Some?
    ensures Run(EMPTY, CreateOps(cat, r) + [ApplyOrder(cat, 0, result, fills, instr)]).db
            == ApplyResult(Created(cat, r, "", New), cat, 0, result, fills, instr).value.0
  {
    var ops := CreateOps(cat, r) + [ApplyOrder(cat, 0, result, fills, instr)];
    FirstCreate(cat, r);
    assert ops[..|ops| - 1] == CreateOps(cat, r);
  }

  /** A status without any quantity. */
  function Status(orderId: string, status: OrderStatus): BrokerOrderResult {
    BrokerOrderResult(orderId, status, 0.0, 0.0, 0.0, "")
  }

  lemma StatusAccepted(cat: Catalog, r: Request, orderId: string, status: OrderStatus)
    requires r.brokerCode in cat.brokers
    ensures ApplyResult(Created(cat, r, "", New), cat, 0, Status(orderId, status), [], None)
            == Some((Created(cat, r, orderId, StateOf(status)), []))
  {
    assert [FirstOrder(cat, r, "", New)][0 := FirstOrder(cat, r, orderId, StateOf(status))]
        == [FirstOrder(cat, r, orderId, StateOf(status))];
  }

  /** A fill status that reports no fill is accepted, and the recovery read of that order raises. */
  lemma EmptyFillReportAccepted(cat: Catalog, r: Request)
    requires ValidRequest(cat, r)
    ensures var s := Run(EMPTY, CreateOps(cat, r) + [ApplyOrder(cat, 0, Status("x", FILLED), [], None)]);
            s.db.orders == [FirstOrder(cat, r, "x", Filled)] && Read(s.db, 0).Conflict?
  {
    StatusAccepted(cat, r, "x", FILLED);
    ThenApply(cat, r, Status("x", FILLED), [], None);
  }

  /** An untrimmed order id is accepted; reading the order back and applying that raises. */
  lemma UntrimmedRefAccepted(cat: Catalog, r: Request)
    requires ValidRequest(cat, r) && RoutedSymbol(r.body) != ""
    ensures var s := Run(EMPTY, CreateOps(cat, r) + [ApplyOrder(cat, 0, Status(" x ", WORKING), [], None)]);
            && s.db.orders == [FirstOrder(cat, r, " x ", Working)] && !TrimmedRef(s.db.orders[0])
            && Read(s.db, 0).Found? && ApplyResult(s.db, cat, 0, Read(s.db, 0).result, Read(s.db, 0).fills, None).None?
  {
    StatusAccepted(cat, r, " x ", WORKING);
    ThenApply(cat, r, Status(" x ", WORKING), [], None);
    assert Strip(" x ") == Strip("x ") == Strip("x") == "x";
    ReadFields(Created(cat, r, " x ", Working), 0);
  }

  /** A fill of the order, under the reference x. */
  function FillFor(r: Request): BrokerFill {
    BrokerFill("t", "x", RoutedSymbol(r.body), Lower(r.side), 1.0, 1.0, 0.0, "USD", 0, "venue", NO_PROVENANCE)
  }

  lemma FillAccepted(cat: Catalog, r: Request, ref: string, state: OrderState)
    requires ValidRequest(cat, r) && RoutedSymbol(r.body) != "" && Strip(ref) == ""
    ensures var db := Created(cat, r, ref, state); var ctx := Context(0, r.instr, Lower(r.side), RoutedSymbol(r.body));
            && OrderKnown(db, 0) && InstrumentOk(db, cat, 0, Some(r.instr)) && ContextOf(db, 0, r.instr) == ctx
            && FillOk(ctx, FillFor(r))
            && FoldFills(ctx, Loop(ref, [], [], {}), [FillFor(r)])
               == Some(Loop("x", [Observed(ctx, FillFor(r))], [0], {"t"}))
  {
    var ctx := Context(0, r.instr, Lower(r.side), RoutedSymbol(r.body));
    var f := FillFor(r);
    assert Round(1.0) == 100000000 && Round(0.0) == 0;
    assert [f][..0] == [];
    assert FindExec([], 0, "t").None? && Canonical(1.0, true) == Some(100000000) && Canonical(0.0, false) == Some(0);
    assert {} + {"t"} == {"t"} && [] + [0] == [0] && [] + [Observed(ctx, f)] == [Observed(ctx, f)];
    assert FillStep(ctx, Loop(ref, [], [], {}), f) == Some(Loop("x", [Observed(ctx, f)], [0], {"t"}));
  }

  /** A blank order id with fills is accepted once; the same result is refused the second time. */
  lemma BlankIdAcceptedOnce(cat: Catalog, r: Request)
    requires ValidRequest(cat, r) && RoutedSymbol(r.body) != ""
    ensures Run(EMPTY, CreateOps(cat, r)).db == Created(cat, r, "", New)
    ensures var first := ApplyResult(Created(cat, r, "", New), cat, 0, Status(" ", WORKING), [FillFor(r)],
              Some(r.instr));
            && first.Some? && first.value.0.orders == [FirstOrder(cat, r, "x", Working)]
            && ApplyResult(first.value.0, cat, 0, Status(" ", WORKING), [FillFor(r)], Some(r.instr)).None?
  {
    assert Strip(" ") == Strip("") == "";
    FillAccepted(cat, r, " ", Working);
    FillAccepted(cat, r, "", New);
    FirstCreate(cat, r);
    assert [FirstOrder(cat, r, "", New)][0 := FirstOrder(cat, r, "x", Working)] == [FirstOrder(cat, r, "x", Working)];
  }

  /** A blank reference, stored by an accepted status, is replaced by the fills that follow. */
  lemma BlankRefReplaced(cat: Catalog, r: Request)
    requires ValidRequest(cat, r) && RoutedSymbol(r.body) != ""
    ensures var s := Run(EMPTY, CreateOps(cat, r) + [ApplyOrder(cat, 0, Status(" ", WORKING), [], None)]);
            var next := ApplyResult(s.db, cat, 0, Status("", WORKING), [FillFor(r)], Some(r.instr));
            && s.db.orders == [FirstOrder(cat, r, " ", Working)]
            && next.Some? && next.value.0.orders == [FirstOrder(cat, r, "x", Working)]
  {
    StatusAccepted(cat, r, " ", WORKING);
    ThenApply(cat, r, Status(" ", WORKING), [], None);
    assert Strip(" ") == Strip("") == "";
    FillAccepted(cat, r, " ", Working);
    assert [FirstOrder(cat, r, " ", Working)][0 := FirstOrder(cat, r, "x", Working)] ==
        [FirstOrder(cat, r, "x", Working)];
  }
}
