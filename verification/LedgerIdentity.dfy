/**
 Who an order belongs to: what a create writes, what a replay must agree with to be answered with
 a stored order, and whose intents a ledger can hold, over every run.
 */
module LedgerIdentity {
  import opened Common
  import opened Broker
  import opened Ledger
  import opened LedgerSafety

  // ---------------------------------------------------------------- creates answered with one order

  /** A create answered with an order. */
  datatype Answer = Answer(r: Request, broker: int, ref: Ref)

  /** What a transaction answers a creator with, if it answers with an order. */
  ghost function AnswerOf(s: System, op: Op): Option<Answer> {
    match op
    case BeginCreate(c, cat, r) =>
      if !ValidRequest(cat, r) || !Known(s.db, r) then None
      else
        var broker := cat.brokers[r.brokerCode];
        var ref := ExistingRef(s.db, FindIntent(s.db.intents, r.account, r.key.value).value, r, broker).1;
        if ref.None? then None else Some(Answer(r, broker, ref.value))
    case EndCreate(c) =>
      if c !in s.creators then None
      else
        var (r, broker) := s.creators[c];
        var ref := CreateInsert(s.db, r, broker).1;
        if ref.None? then None else Some(Answer(r, broker, ref.value))
    case _ => None
  }

  /** The order exists with the key of the request and everything the request says about it. */
  ghost predicate Holds(db: Db, a: Answer) {
    && StoredAs(db, a.ref.orderId, a.r, a.broker) && db.intents[a.ref.orderId].key == a.r.key
    && a.ref.intentId == a.ref.orderId && a.ref.settlement == a.r.settlement
  }

  lemma ReplayAnswer(db: Db, r: Request, broker: int)
    requires Wf(db) && Known(db, r)
    ensures var i := FindIntent(db.intents, r.account, r.key.value).value;
            var (db', ref) := ExistingRef(db, i, r, broker);
            ref.Some? ==> Holds(db', Answer(r, broker, ref.value))
  {
    var i := FindIntent(db.intents, r.account, r.key.value).value;
    FindOrderIsIntent(db, i);
  }

  lemma AnswerHolds(s: System, op: Op)
    requires Wf(s.db) && AnswerOf(s, op).Some?
    ensures Holds(Step(s, op).db, AnswerOf(s, op).value)
  {
    match op
    case BeginCreate(c, cat, r) => ReplayAnswer(s.db, r, cat.brokers[r.brokerCode]);
    case EndCreate(c) =>
      var (r, broker) := s.creators[c];
      if Conflicts(s.db, r) { ReplayAnswer(s.db, r, broker); } else { FreshCreateAddsOne(s.db, r, broker); }
  }

  lemma HoldsLater(db: Db, db': Db, a: Answer)
    requires Holds(db, a) && Extends(db, db')
    ensures Holds(db', a)
  {
    var i := a.ref.orderId;
    assert SameIdentity(db.intents[i], db'.intents[i]) && SameRoute(db.orders[i], db'.orders[i]);
  }

  /**
   In every run, two creates answered with the same order agree in key, account, strategy, signal,
   side, mode, environment, kind, settlement, broker and economics.
   */
  lemma SameOrderSameAttempt(ops: seq<Op>, m: nat, n: nat)
    requires m < n < |ops| && forall i :: 0 <= i < |ops| ==> ValidOp(ops[i])
    requires var a, b := AnswerOf(Run(EMPTY, ops[..m]), ops[m]), AnswerOf(Run(EMPTY, ops[..n]), ops[n]);
             a.Some? && b.Some? && a.value.ref.orderId == b.value.ref.orderId
    ensures var a, b := AnswerOf(Run(EMPTY, ops[..m]), ops[m]).value, AnswerOf(Run(EMPTY, ops[..n]), ops[n]).value;
            && a.r.key == b.r.key && a.r.account == b.r.account && a.r.strategy == b.r.strategy
            && a.r.signal == b.r.signal && a.r.side == b.r.side && a.r.mode == b.r.mode
            && a.r.environment == b.r.environment && a.r.kind == b.r.kind && a.r.settlement == b.r.settlement
            && a.broker == b.broker && a.r.body == b.r.body
  {
    hide Step, AnswerOf, Wf, Extends, Holds;
    var s, t := Run(EMPTY, ops[..m]), Run(EMPTY, ops[..n]);
    RunKeeps(EMPTY, ops[..m]);
    RunKeeps(EMPTY, ops[..n]);
    AnswerHolds(s, ops[m]);
    AnswerHolds(t, ops[n]);
    NextRun(ops, m);
    NextRun(ops, n);
    PrefixExtends(ops, m + 1, n + 1);
    HoldsLater(Step(s, ops[m]).db, Step(t, ops[n]).db, AnswerOf(s, ops[m]).value);
    AnswersAgree(Step(t, ops[n]).db, AnswerOf(s, ops[m]).value, AnswerOf(t, ops[n]).value);
  }

  lemma AnswersAgree(db: Db, a: Answer, b: Answer)
    requires Holds(db, a) && Holds(db, b) && a.ref.orderId == b.ref.orderId
    ensures && a.r.key == b.r.key && a.r.account == b.r.account && a.r.strategy == b.r.strategy
            && a.r.signal == b.r.signal && a.r.side == b.r.side && a.r.mode == b.r.mode
            && a.r.environment == b.r.environment && a.r.kind == b.r.kind && a.r.settlement == b.r.settlement
            && a.broker == b.broker && a.r.body == b.r.body
  {
  }

  lemma NextRun(ops: seq<Op>, m: nat)
    requires m < |ops|
    ensures Run(EMPTY, ops[..m + 1]) == Step(Run(EMPTY, ops[..m]), ops[m])
  {
    assert ops[..m + 1][..m] == ops[..m];
  }

  lemma PrefixExtends(ops: seq<Op>, m: nat, n: nat)
    requires m <= n <= |ops| && forall i :: 0 <= i < |ops| ==> ValidOp(ops[i])
    ensures Extends(Run(EMPTY, ops[..m]).db, Run(EMPTY, ops[..n]).db)
  {
    LedgerOnlyGrows(ops[..n], m);
    assert ops[..n][..m] == ops[..m];
  }

  // ---------------------------------------------------------------- whose intents there are

  /** Every create is checked against this catalogue. */
  predicate ChecksWith(op: Op, cat: Catalog) {
    op.BeginCreate? ==> op.cat == cat
  }

  /** The intent and its order are those of a connected account, its owner and broker, and a known signal. */
  ghost predicate Owned(cat: Catalog, t: Intent, o: Order) {
    && t.account > 0 && t.account in cat.accounts
    && cat.accounts[t.account].user == t.user && cat.accounts[t.account].connected
    && cat.accounts[t.account].environment == t.environment && (t.environment == "paper" || t.environment == "live")
    && t.strategy != "" && t.strategy in cat.strategies
    && t.signal > 0 && t.signal in cat.signals && cat.signals[t.signal].strategy == t.strategy
    && cat.signals[t.signal].instr > 0 && cat.signals[t.signal].instr in cat.instruments
    && (t.side == "BUY" || t.side == "SELL") && t.mode != ""
    && (t.key.Some? ==> 0 < |t.key.value| <= 64)
    && o.account == t.account && o.broker == cat.accounts[t.account].broker
    && o.settlement != "" && o.settlement == cat.instruments[cat.signals[t.signal].instr] && o.clientId != ""
  }

  ghost predicate AllOwned(cat: Catalog, s: System) {
    && (forall c :: c in s.creators ==>
          ValidRequest(cat, s.creators[c].0) && s.creators[c].1 == cat.brokers[s.creators[c].0.brokerCode])
    && |s.db.orders| == |s.db.intents|
    && (forall i :: 0 <= i < |s.db.intents| ==> Owned(cat, s.db.intents[i], s.db.orders[i]))
  }

  lemma OwnedKept(cat: Catalog, t: Intent, o: Order, t': Intent, o': Order)
    requires Owned(cat, t, o) && SameIdentity(t, t') && SameRoute(o, o')
    ensures Owned(cat, t', o')
  {
  }

  lemma ValidIsOwned(cat: Catalog, db: Db, db': Db, r: Request)
    requires ValidRequest(cat, r) && Shape(db) && Written(db, db', r, cat.brokers[r.brokerCode])
    ensures Owned(cat, db'.intents[|db.intents|], db'.orders[|db.intents|])
  {
  }

  lemma StepOwned(cat: Catalog, s: System, op: Op, i: nat)
    requires Wf(s.db) && AllOwned(cat, s) && ValidOp(op) && ChecksWith(op, cat)
    requires i < |Step(s, op).db.intents|
    ensures |Step(s, op).db.orders| == |Step(s, op).db.intents|
    ensures Owned(cat, Step(s, op).db.intents[i], Step(s, op).db.orders[i])
  {
    StepKeeps(s, op);
    var s' := Step(s, op);
    if i < |s.db.intents| {
      OwnedKept(cat, s.db.intents[i], s.db.orders[i], s'.db.intents[i], s'.db.orders[i]);
    } else {
      StepInserts(s, op);
      var (r, broker) := s.creators[op.c];
      FreshCreateAddsOne(s.db, r, broker);
      ValidIsOwned(cat, s.db, s'.db, r);
    }
  }

  /** Only a create that meets no conflict adds an intent. */
  lemma StepInserts(s: System, op: Op)
    requires |Step(s, op).db.intents| > |s.db.intents|
    ensures op.EndCreate? && op.c in s.creators && !Conflicts(s.db, s.creators[op.c].0)
  {
  }

  lemma StepAllOwned(cat: Catalog, s: System, op: Op)
    requires Wf(s.db) && AllOwned(cat, s) && ValidOp(op) && ChecksWith(op, cat)
    ensures AllOwned(cat, Step(s, op))
  {
    StepKeeps(s, op);
    StepCreators(cat, s, op);
    hide Step, Owned, ValidRequest;
    forall i | 0 <= i < |Step(s, op).db.intents|
      ensures Owned(cat, Step(s, op).db.intents[i], Step(s, op).db.orders[i])
    {
      StepOwned(cat, s, op, i);
    }
  }

  lemma StepCreators(cat: Catalog, s: System, op: Op)
    requires AllOwned(cat, s) && ChecksWith(op, cat)
    ensures var s' := Step(s, op);
            forall c :: c in s'.creators ==>
              ValidRequest(cat, s'.creators[c].0) && s'.creators[c].1 == cat.brokers[s'.creators[c].0.brokerCode]
  {
    hide ExistingRef, CreateInsert, Abort, MarkUnknown, ApplyResult, Owned, Conflicts;
    if op.BeginCreate? && !Known(s.db, op.r) && ValidRequest(cat, op.r) {
      assert Step(s, op).creators == s.creators[op.c := (op.r, cat.brokers[op.r.brokerCode])];
    }
  }

  /**
   In every run that checks its creates against one catalogue, each stored intent belongs to the
   owner of its account and is routed to that account's broker in its environment, for a signal of
   its strategy, settling as the signal's instrument does.
   */
  lemma {:induction false} RunOwned(cat: Catalog, ops: seq<Op>)
    requires forall n :: 0 <= n < |ops| ==> ValidOp(ops[n]) && ChecksWith(ops[n], cat)
    ensures AllOwned(cat, Run(EMPTY, ops))
    decreases |ops|
  {
    hide Step, AllOwned, Wf;
    if ops == [] {
      NothingOwned(cat);
    } else {
      var n := |ops| - 1;
      RunOwned(cat, ops[..n]);
      RunKeeps(EMPTY, ops[..n]);
      StepAllOwned(cat, Run(EMPTY, ops[..n]), ops[n]);
    }
  }

  lemma NothingOwned(cat: Catalog)
    ensures AllOwned(cat, EMPTY)
  {
  }

  // ---------------------------------------------------------------- client order ids

  ghost predicate ClientIdsUnique(db: Db) {
    forall i, j :: 0 <= i < j < |db.orders| && db.orders[i].account == db.orders[j].account ==>
      db.orders[i].clientId != db.orders[j].clientId
  }

  /** A create of an unknown key is refused exactly when the account already uses its client order id. */
  lemma CreateRefusedIff(db: Db, r: Request, broker: int)
    requires !(exists t :: t in db.intents && t.account == r.account && r.key.Some? && t.key == r.key)
    ensures CreateInsert(db, r, broker).1.None?
            <==> exists o :: o in db.orders && o.account == r.account && o.clientId == r.clientId
    ensures CreateInsert(db, r, broker).1.None? ==> CreateInsert(db, r, broker).0 == db
  {
    KnownIsStored(db, r);
  }

  lemma KnownIsStored(db: Db, r: Request)
    ensures Known(db, r) ==> exists t :: t in db.intents && t.account == r.account && r.key.Some? && t.key == r.key
  {
    if Known(db, r) {
      assert db.intents[FindIntent(db.intents, r.account, r.key.value).value] in db.intents;
    }
  }

  lemma StepClientIds(s: System, op: Op)
    requires Wf(s.db) && ClientIdsUnique(s.db) && ValidOp(op)
    ensures ClientIdsUnique(Step(s, op).db)
  {
    StepKeeps(s, op);
    var db, db' := s.db, Step(s, op).db;
    assert forall i :: 0 <= i < |db.orders| ==> SameRoute(db.orders[i], db'.orders[i]);
    if |db'.intents| > |db.intents| {
      StepInserts(s, op);
      var (r, broker) := s.creators[op.c];
      FreshCreateAddsOne(db, r, broker);
      forall i | 0 <= i < |db.orders| && db.orders[i].account == r.account ensures db.orders[i].clientId != r.clientId {
        assert db.orders[i] in db.orders;
      }
    }
  }

  /** In every run no account has two orders under one client order id. */
  lemma {:induction false} RunClientIds(ops: seq<Op>)
    requires forall n :: 0 <= n < |ops| ==> ValidOp(ops[n])
    ensures ClientIdsUnique(Run(EMPTY, ops).db)
    decreases |ops|
  {
    hide Step, Wf;
    if ops != [] {
      var n := |ops| - 1;
      RunClientIds(ops[..n]);
      RunKeeps(EMPTY, ops[..n]);
      StepClientIds(Run(EMPTY, ops[..n]), ops[n]);
    }
  }

  // ---------------------------------------------------------------- abort, revive, unknown

  /** The intent and order are as they were but for the fields named. */
  ghost predicate Only(db: Db, db': Db, id: nat, t: Intent, o: Order) {
    && OrderKnown(db, id)
    && db'.intents == db.intents[db.orders[id].intentId := t]
    && db'.orders == db.orders[id := o] && db'.execs == db.execs
  }

  /** An abort is accepted exactly before any broker activity, and marks intent and order as rejected. */
  lemma AbortIs(db: Db, id: nat, reason: string, code: string)
    ensures Abort(db, id, reason, code).Some?
            <==> && Strip(reason) != "" && Strip(code) != "" && OrderKnown(db, id)
                 && db.orders[id].ref == "" && db.orders[id].state == New
                 && !(exists e :: e in db.execs && e.order == id)
    ensures Abort(db, id, reason, code).Some? ==>
              var t := db.intents[db.orders[id].intentId];
              Only(db, Abort(db, id, reason, code).value, id,
                   t.(status := Refused, payload := t.payload.(aborted := Some(Strip(reason)))),
                   db.orders[id].(state := Rejected))
  {
  }

  /** An unknown submission is recorded exactly on a new order or one already unknown. */
  lemma MarkUnknownIs(db: Db, id: nat, reason: string)
    ensures MarkUnknown(db, id, reason).Some?
            <==> && Strip(reason) != "" && OrderKnown(db, id)
                 && (db.orders[id].state == New || db.orders[id].state == SubmissionUnknown)
    ensures MarkUnknown(db, id, reason).Some? ==>
              var t := db.intents[db.orders[id].intentId];
              Only(db, MarkUnknown(db, id, reason).value, id,
                   t.(payload := t.payload.(unknown := Some(Strip(reason)))),
                   db.orders[id].(state := SubmissionUnknown))
  {
  }

  /**
   A matching replay revives exactly an attempt aborted before submission, rewriting its payload and
   reopening intent and order; any other is answered as it stands, with nothing written.
   */
  lemma ReplayRevivesIff(db: Db, r: Request, broker: int)
    requires Wf(db) && Known(db, r)
    requires CreateInsert(db, r, broker).1.Some?
    ensures var i := FindIntent(db.intents, r.account, r.key.value).value; var t, o := db.intents[i], db.orders[i];
            var (db', ref) := CreateInsert(db, r, broker);
            if && t.status == Refused && o.state == Rejected && t.payload.aborted.Some? && o.ref == ""
               && !(exists e :: e in db.execs && e.order == i)
            then && Only(db, db', i, t.(status := Routed, payload := Payload(r.localOrderId, r.body, None, None)),
                         o.(state := New))
                 && ref.value == Ref(i, i, r.settlement, r.localOrderId, New, "", false)
            else && db' == db
                 && ref.value == Ref(i, i, r.settlement, Strip(t.payload.localOrderId), o.state, o.ref, true)
  {
    FindOrderIsIntent(db, FindIntent(db.intents, r.account, r.key.value).value);
  }

  /** Creating, aborting and creating again leaves the ledger as the first create did. */
  lemma AbortThenReplayIsFresh(db: Db, r: Request, broker: int, reason: string, code: string)
    requires Wf(db) && !Conflicts(db, r) && r.key.Some? && Strip(r.localOrderId) != ""
    requires Strip(reason) != "" && Strip(code) != ""
    ensures var (db1, ref) := CreateInsert(db, r, broker); var aborted := Abort(db1, |db.intents|, reason, code);
            && aborted.Some?
            && CreateInsert(aborted.value, r, broker) == (db1, ref)
  {
    var (db1, ref) := CreateInsert(db, r, broker);
    var i := |db.intents|;
    FreshCreateAddsOne(db, r, broker);
    CreateInsertKeeps(db, r, broker);
    assert db1.execs == db.execs && forall e :: e in db.execs ==> e.order < |db.orders|;
    hide CreateInsert, Abort, Conflicts, Extends, Wf;
    AbortIs(db1, i, reason, code);
    AbortKeeps(db1, i, reason, code);
    RevivesAborted(db1, Abort(db1, i, reason, code).value, i, r, broker, Strip(reason));
  }

  lemma KeyFindsIntent(db: Db, i: nat, r: Request)
    requires Wf(db) && i < |db.intents| && r.key.Some?
    requires db.intents[i].key == r.key && db.intents[i].account == r.account
    ensures FindIntent(db.intents, r.account, r.key.value) == Some(i) && Known(db, r)
  {
    var j := FindIntent(db.intents, r.account, r.key.value);
    assert j.Some?;
  }

  lemma RevivesAborted(db1: Db, db2: Db, i: nat, r: Request, broker: int, reason: string)
    requires Wf(db2) && i < |db1.intents| && OrderKnown(db1, i) && db1.orders[i].intentId == i
    requires r.key.Some? && db1.intents[i].key == r.key && Strip(r.localOrderId) != "" && StoredAs(db1, i, r, broker)
    requires db1.intents[i].payload == Payload(r.localOrderId, r.body, None, None) && db1.intents[i].status == Routed
    requires db1.orders[i].ref == "" && db1.orders[i].state == New && !(exists e :: e in db1.execs && e.order == i)
    requires Only(db1, db2, i,
                  db1.intents[i].(status := Refused, payload := db1.intents[i].payload.(aborted := Some(reason))),
                  db1.orders[i].(state := Rejected))
    ensures CreateInsert(db2, r, broker) == (db1, Some(Ref(i, i, r.settlement, r.localOrderId, New, "", false)))
  {
    KeyFindsIntent(db2, i, r);
    hide CreateInsert, Wf;
    ReplayReturnsStoredIds(db2, r, broker);
    ReplayRevivesIff(db2, r, broker);
    var db3 := CreateInsert(db2, r, broker).0;
    assert db3.intents == db1.intents && db3.orders == db1.orders;
  }
}
