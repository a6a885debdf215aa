/**
 What an observation does to the ledger, said without the loop: which results and fill sets are
 accepted, what state the order moves to, and which rows are stored.
 */
module LedgerFills {
  import opened Common
  import opened Broker
  import opened Numeric
  import opened Ledger
  import opened LedgerSafety

  // ---------------------------------------------------------------- states and statuses

  /** The state of the order after an accepted observation, whatever came before. */
  lemma StateAfter(db: Db, cat: Catalog, id: nat, result: BrokerOrderResult, fills: seq<BrokerFill>, instr: Option<int>)
    requires ApplyResult(db, cat, id, result, fills, instr).Some?
    ensures id < |db.orders|
    ensures var db' := ApplyResult(db, cat, id, result, fills, instr).value.0;
            && |db'.orders| == |db.orders|
            && (db.orders[id].state == Filled ==> db'.orders[id].state == Filled)
            && (db.orders[id].state != Filled ==>
                  && (db'.orders[id].state == New <==> result.status == PENDING || result.status == SUBMITTED)
                  && (db'.orders[id].state == Working <==> result.status == WORKING)
                  && (db'.orders[id].state == PartiallyFilled <==> result.status == PARTIALLY_FILLED)
                  && (db'.orders[id].state == Filled <==> result.status == FILLED)
                  && (db'.orders[id].state == Canceled <==> result.status == CANCELLED || result.status == EXPIRED)
                  && (db'.orders[id].state == Rejected <==> result.status == REJECTED)
                  && db'.orders[id].state != SubmissionUnknown)
            && db'.intents == db.intents
            && (forall j :: 0 <= j < |db.orders| && j != id ==> db'.orders[j] == db.orders[j])
  {
    hide FoldFills, ResultOk, InstrumentOk;
  }

  /** The status a stored order is read back with. */
  lemma StatusRead(db: Db, id: nat)
    requires Read(db, id).Found?
    ensures var state, status := db.orders[id].state, Read(db, id).result.status;
            && (status == PENDING <==> state == New || state == SubmissionUnknown)
            && (status == WORKING <==> state == Working)
            && (status == PARTIALLY_FILLED <==> state == PartiallyFilled)
            && (status == FILLED <==> state == Filled)
            && (status == CANCELLED <==> state == Canceled)
            && (status == REJECTED <==> state == Rejected)
    ensures Read(db, id).result.orderId == Strip(db.orders[id].ref) && Read(db, id).result.errorCode == ""
  {
  }

  // ---------------------------------------------------------------- which fills are accepted

  /** A fill is for this order: complete or absent provenance, its side and symbol, amounts the ledger can hold. */
  ghost predicate Fitting(ctx: Context, f: BrokerFill) {
    && (|| (f.provenance.priceId.None? && f.provenance.revision.None? && f.provenance.policy.None?)
        || (&& f.provenance.priceId.Some? && f.provenance.priceId.value > 0
            && f.provenance.revision.Some? && f.provenance.revision.value > 0
            && f.provenance.policy.Some? && Strip(f.provenance.policy.value) != ""))
    && f.side == ctx.side && NormalizeSymbol(f.symbol) == NormalizeSymbol(ctx.symbol)
    && 1 <= Round(f.quantity) <= 99999999999999999999 && 1 <= Round(f.price) <= 99999999999999999999
    && -99999999999999999999 <= Round(f.commission) <= 99999999999999999999
  }

  /** The row a fill is stored as. */
  ghost function RowFor(ctx: Context, f: BrokerFill): Exec {
    Exec(ctx.order, ctx.instr, f.timestamp, Round(f.quantity), Round(f.price), f.currency, Round(f.commission),
         f.venue, f.tradeId, f.provenance)
  }

  lemma FillOkIs(ctx: Context, f: BrokerFill)
    ensures FillOk(ctx, f) <==> Fitting(ctx, f)
    ensures FillOk(ctx, f) ==> Observed(ctx, f) == RowFor(ctx, f)
  {
    hide NormalizeSymbol, Round, Strip;
    var p := f.provenance;
    assert p == NO_PROVENANCE <==> p.priceId.None? && p.revision.None? && p.policy.None?;
  }

  /** The reference all fills must carry: the order's own, or the first fill's where it has none. */
  ghost function Carried(ref: string, fills: seq<BrokerFill>): string
    requires fills != []
  {
    if Strip(ref) == "" then fills[0].orderId else Strip(ref)
  }

  ghost predicate Known(execs: seq<Exec>, order: nat, tradeId: string) {
    exists e :: e in execs && e.order == order && e.tradeId == tradeId
  }

  /** The fill set is consistent with itself, with the order and with what is stored of it. */
  ghost predicate Acceptable(ctx: Context, ref: string, execs: seq<Exec>, fills: seq<BrokerFill>) {
    && (forall i :: 0 <= i < |fills| ==> Fitting(ctx, fills[i]))
    && (forall i, j :: 0 <= i < j < |fills| ==> fills[i].tradeId != fills[j].tradeId)
    && (forall i :: 0 <= i < |fills| ==> fills[i].orderId == Carried(ref, fills))
    && (forall i, e :: 0 <= i < |fills| && e in execs && e.order == ctx.order && e.tradeId == fills[i].tradeId ==>
          e == RowFor(ctx, fills[i]))
  }

  /** The rows of the fills whose trades are not stored yet, in the order of the fills. */
  ghost function Fresh(ctx: Context, execs: seq<Exec>, fills: seq<BrokerFill>): seq<Exec> {
    if fills == [] then []
    else
      var f := fills[|fills| - 1];
      Fresh(ctx, execs, fills[..|fills| - 1]) + if Known(execs, ctx.order, f.tradeId) then [] else [RowFor(ctx, f)]
  }

  lemma {:induction false} FreshFrom(ctx: Context, execs: seq<Exec>, fills: seq<BrokerFill>, e: Exec)
    requires e in Fresh(ctx, execs, fills)
    ensures e.order == ctx.order && exists i :: 0 <= i < |fills| && e == RowFor(ctx, fills[i])
    decreases |fills|
  {
    var n := |fills| - 1;
    if e in Fresh(ctx, execs, fills[..n]) {
      FreshFrom(ctx, execs, fills[..n], e);
      var i :| 0 <= i < n && e == RowFor(ctx, fills[..n][i]);
      assert e == RowFor(ctx, fills[i]);
    } else {
      assert e == RowFor(ctx, fills[n]);
    }
  }

  ghost function Ids(fills: seq<BrokerFill>): set<string> {
    set i | 0 <= i < |fills| :: fills[i].tradeId
  }

  /** Where the loop stands after an acceptable fill set. */
  ghost function After(ctx: Context, ref: string, execs: seq<Exec>, fills: seq<BrokerFill>): Loop {
    var added := Fresh(ctx, execs, fills);
    Loop(if fills == [] || Strip(ref) != "" then ref else fills[0].orderId,
         execs + added, Numbered(|execs|, |added|), Ids(fills))
  }

  /** The identifiers of n rows stored from the given one on. */
  ghost function Numbered(from: nat, n: nat): seq<nat> {
    seq(n, i => from + i)
  }

  lemma NumberedNext(from: nat, n: nat)
    ensures Numbered(from, n + 1) == Numbered(from, n) + [from + n]
  {
  }

  lemma SeenNext(fills: seq<BrokerFill>)
    requires fills != []
    ensures var n := |fills| - 1;
            && Ids(fills) == Ids(fills[..n]) + {fills[n].tradeId}
            && (fills[n].tradeId in Ids(fills[..n]) <==> exists i :: 0 <= i < n && fills[i].tradeId == fills[n].tradeId)
  {
    var n := |fills| - 1;
    assert forall i :: 0 <= i < n ==> fills[..n][i] == fills[i];
    forall t ensures t in Ids(fills) <==> t in Ids(fills[..n]) + {fills[n].tradeId} {
      if t in Ids(fills) {
        var i :| 0 <= i <= n && fills[i].tradeId == t;
        if i < n { assert fills[..n][i].tradeId == t; }
      }
    }
  }

  lemma RefNext(ctx: Context, ref: string, execs: seq<Exec>, fills: seq<BrokerFill>)
    requires fills != [] && forall i :: 0 <= i < |fills| ==> ValidFill(fills[i])
    ensures var n := |fills| - 1; var l, l' := After(ctx, ref, execs, fills[..n]), After(ctx, ref, execs, fills);
            RefExpected(l.ref, fills[n]) == Carried(ref, fills) && RefAfter(l.ref, fills[n]) == l'.ref
  {
    assert ValidFill(fills[0]);
    hide Strip, Fresh;
  }

  lemma AcceptableSplits(ctx: Context, ref: string, execs: seq<Exec>, fills: seq<BrokerFill>)
    requires fills != []
    ensures var n := |fills| - 1; var f := fills[n];
            Acceptable(ctx, ref, execs, fills)
            <==> && Acceptable(ctx, ref, execs, fills[..n])
                 && Fitting(ctx, f) && f.tradeId !in Ids(fills[..n]) && f.orderId == Carried(ref, fills)
                 && forall e :: e in execs && e.order == ctx.order && e.tradeId == f.tradeId ==> e == RowFor(ctx, f)
  {
    hide Fitting, Strip, RowFor;
    var n := |fills| - 1;
    SeenNext(fills);
    hide Ids;
    assert forall i :: 0 <= i < n ==> fills[..n][i] == fills[i];
    assert n > 0 ==> Carried(ref, fills[..n]) == Carried(ref, fills);
  }

  lemma LookupNext(ctx: Context, execs: seq<Exec>, init: seq<BrokerFill>, tradeId: string)
    requires tradeId !in Ids(init)
    ensures var all := execs + Fresh(ctx, execs, init); var j := FindExec(all, ctx.order, tradeId);
            && (j.Some? <==> Known(execs, ctx.order, tradeId))
            && (j.Some? ==> j.value < |execs| && all[j.value] in execs)
  {
    var added := Fresh(ctx, execs, init);
    var all := execs + added;
    var j := FindExec(all, ctx.order, tradeId);
    forall e | e in added ensures e.tradeId != tradeId {
      FreshFrom(ctx, execs, init, e);
      var i :| 0 <= i < |init| && e == RowFor(ctx, init[i]);
      assert init[i].tradeId in Ids(init);
    }
    assert forall i :: |execs| <= i < |all| ==> all[i] == added[i - |execs|] && all[i] in added;
    assert forall e :: e in execs ==> e in all;
  }

  lemma StoredOnce(execs: seq<Exec>, e: Exec, e': Exec)
    requires DistinctTrades(execs) && e in execs && e' in execs && e.order == e'.order && e.tradeId == e'.tradeId
    ensures e == e'
  {
    var a :| 0 <= a < |execs| && execs[a] == e;
    var b :| 0 <= b < |execs| && execs[b] == e';
  }

  /** One more fill. */
  lemma AcceptableNext(ctx: Context, ref: string, execs: seq<Exec>, fills: seq<BrokerFill>)
    requires DistinctTrades(execs) && fills != [] && forall i :: 0 <= i < |fills| ==> ValidFill(fills[i])
    requires Acceptable(ctx, ref, execs, fills[..|fills| - 1])
    ensures var n := |fills| - 1;
            FillStep(ctx, After(ctx, ref, execs, fills[..n]), fills[n])
            == if Acceptable(ctx, ref, execs, fills) then Some(After(ctx, ref, execs, fills)) else None
  {
    var n := |fills| - 1;
    var init, f := fills[..n], fills[n];
    hide Acceptable, Fitting, Strip, DistinctTrades, RefExpected, RefAfter, FillStep, RowFor;
    SeenNext(fills);
    RefNext(ctx, ref, execs, fills);
    AcceptableSplits(ctx, ref, execs, fills);
    AfterNext(ctx, ref, execs, fills);
    StepAt(ctx, After(ctx, ref, execs, init), execs, init, f);
  }

  /** What one more fill adds to where the loop stands. */
  lemma AfterNext(ctx: Context, ref: string, execs: seq<Exec>, fills: seq<BrokerFill>)
    requires fills != [] && forall i :: 0 <= i < |fills| ==> ValidFill(fills[i])
    ensures var n := |fills| - 1; var f := fills[n];
            var l, l' := After(ctx, ref, execs, fills[..n]), After(ctx, ref, execs, fills);
            && l'.ref == RefAfter(l.ref, f) && l'.seen == l.seen + {f.tradeId}
            && (Known(execs, ctx.order, f.tradeId) ==> l'.execs == l.execs && l'.inserted == l.inserted)
            && (!Known(execs, ctx.order, f.tradeId) ==>
                  l'.execs == l.execs + [RowFor(ctx, f)] && l'.inserted == l.inserted + [|l.execs|])
  {
    var n := |fills| - 1;
    var f, added := fills[n], Fresh(ctx, execs, fills[..n]);
    SeenNext(fills);
    RefNext(ctx, ref, execs, fills);
    hide Strip, Ids, RefAfter, RefExpected, Carried, RowFor, Numbered;
    NumberedNext(|execs|, |added|);
    assert execs + (added + [RowFor(ctx, f)]) == execs + added + [RowFor(ctx, f)];
  }

  /** One fill against the rows stored before and those added so far. */
  lemma StepAt(ctx: Context, l: Loop, execs: seq<Exec>, init: seq<BrokerFill>, f: BrokerFill)
    requires DistinctTrades(execs) && l.execs == execs + Fresh(ctx, execs, init) && l.seen == Ids(init)
    ensures FillStep(ctx, l, f).Some?
            <==> && Fitting(ctx, f) && f.tradeId !in Ids(init) && f.orderId == RefExpected(l.ref, f)
                 && forall e :: e in execs && e.order == ctx.order && e.tradeId == f.tradeId ==> e == RowFor(ctx, f)
    ensures FillStep(ctx, l, f).Some? ==>
              FillStep(ctx, l, f).value
              == if Known(execs, ctx.order, f.tradeId) then l.(ref := RefAfter(l.ref, f), seen := l.seen + {f.tradeId})
                 else Loop(RefAfter(l.ref, f), l.execs + [RowFor(ctx, f)], l.inserted + [|l.execs|],
                           l.seen + {f.tradeId})
  {
    FillOkIs(ctx, f);
    hide Fitting, FillOk, Observed, RowFor, RefAfter, RefExpected, Fresh, Ids;
    if f.tradeId !in Ids(init) {
      LookupNext(ctx, execs, init, f.tradeId);
      var j := FindExec(l.execs, ctx.order, f.tradeId);
      if j.Some? {
        forall e | e in execs && e.order == ctx.order && e.tradeId == f.tradeId ensures e == l.execs[j.value] {
          StoredOnce(execs, e, l.execs[j.value]);
        }
      }
    }
  }

  /**
   A fill set is accepted exactly when it is acceptable; then exactly the rows of its new trades are
   appended, in its order, and the reference is the order's own or, where that is blank, the fills'.
   */
  lemma {:induction false} FillsAcceptedIff(ctx: Context, ref: string, execs: seq<Exec>, fills: seq<BrokerFill>)
    requires DistinctTrades(execs) && forall i :: 0 <= i < |fills| ==> ValidFill(fills[i])
    ensures FoldFills(ctx, Loop(ref, execs, [], {}), fills)
            == if Acceptable(ctx, ref, execs, fills) then Some(After(ctx, ref, execs, fills)) else None
    decreases |fills|
  {
    if fills == [] {
      assert After(ctx, ref, execs, fills) == Loop(ref, execs, [], {});
    } else {
      var n := |fills| - 1;
      FillsAcceptedIff(ctx, ref, execs, fills[..n]);
      AcceptableSplits(ctx, ref, execs, fills);
      hide Acceptable, FillStep, After, Fitting;
      if Acceptable(ctx, ref, execs, fills[..n]) {
        AcceptableNext(ctx, ref, execs, fills);
      }
    }
  }

  // ---------------------------------------------------------------- which results are accepted

  /** Two amounts agree within one part in a hundred million, or one quantum. */
  ghost predicate Agree(observed: real, reported: real) {
    var diff := if observed < reported then reported - observed else observed - reported;
    diff <= 0.00000001 || diff <= (if reported < 0.0 then -reported else reported) * 0.00000001
  }

  lemma EconomicsMatchIs(observed: real, reported: real)
    ensures EconomicsMatch(observed, reported) <==> Agree(observed, reported)
  {
  }

  /** The observation does not contradict the order's state, reference or fills. */
  ghost predicate Consistent(db: Db, id: nat, result: BrokerOrderResult, fills: seq<BrokerFill>)
    requires id < |db.orders|
  {
    var o := db.orders[id];
    && (o.state == Filled && result.status != FILLED ==> fills != [])
    && (fills == [] && (exists e :: e in db.execs && e.order == id) ==>
          o.state == Filled || result.status == PARTIALLY_FILLED || result.status == FILLED)
    && (result.orderId == "" || o.ref == "" || o.ref == result.orderId)
    && (result.filledQuantity > 0.0 && result.averagePrice > 0.0 ==>
          && fills != []
          && Agree(SumQuantity(fills), result.filledQuantity) && Agree(AveragePrice(fills), result.averagePrice))
  }

  lemma ResultOkIs(db: Db, id: nat, result: BrokerOrderResult, fills: seq<BrokerFill>)
    requires id < |db.orders|
    ensures ResultOk(db, id, result, fills) <==> Consistent(db, id, result, fills)
  {
    hide SumQuantity, AveragePrice, EconomicsMatch, Agree;
    EconomicsMatchIs(SumQuantity(fills), result.filledQuantity);
    EconomicsMatchIs(AveragePrice(fills), result.averagePrice);
  }

  /** The instrument is the signal's own and settles as the order does. */
  ghost predicate FitsSignal(db: Db, cat: Catalog, id: nat, instr: Option<int>)
    requires OrderKnown(db, id)
  {
    var t := db.intents[db.orders[id].intentId];
    && instr.Some? && instr.value > 0
    && Strip(if t.payload.body.brokerSymbol != "" then t.payload.body.brokerSymbol else t.payload.body.symbol) != ""
    && t.signal in cat.signals && cat.signals[t.signal].instr == instr.value
    && instr.value in cat.instruments && cat.instruments[instr.value] == db.orders[id].settlement
  }

  /** What the fills of an order are held against. */
  ghost function Expected(db: Db, id: nat, instr: int): Context
    requires OrderKnown(db, id)
  {
    var t := db.intents[db.orders[id].intentId];
    Context(id, instr, if t.side == "BUY" then "buy" else if t.side == "SELL" then "sell" else t.side,
            Strip(if t.payload.body.brokerSymbol != "" then t.payload.body.brokerSymbol else t.payload.body.symbol))
  }

  /** The reference an observation leaves before its fills are looked at. */
  ghost function RefSeen(db: Db, id: nat, result: BrokerOrderResult): string
    requires id < |db.orders|
  {
    if result.orderId != "" then result.orderId else db.orders[id].ref
  }

  /** An observation without fills changes no execution. */
  lemma AppliedEmpty(db: Db, cat: Catalog, id: nat, result: BrokerOrderResult, instr: Option<int>)
    requires Wf(db) && OrderKnown(db, id)
    ensures ApplyResult(db, cat, id, result, [], instr).Some? <==> Consistent(db, id, result, [])
    ensures ApplyResult(db, cat, id, result, [], instr).Some? ==>
              var (db', inserted) := ApplyResult(db, cat, id, result, [], instr).value;
              db'.execs == db.execs && inserted == [] && db'.orders[id].ref == RefSeen(db, id, result)
  {
    ResultOkIs(db, id, result, []);
    hide ResultOk, Consistent, FoldFills, Wf, Strip;
  }

  lemma AppliedFills(db: Db, cat: Catalog, id: nat, result: BrokerOrderResult, fills: seq<BrokerFill>,
                     instr: Option<int>)
    requires Wf(db) && OrderKnown(db, id) && fills != [] && forall i :: 0 <= i < |fills| ==> ValidFill(fills[i])
    ensures ApplyResult(db, cat, id, result, fills, instr).Some?
            <==> && Consistent(db, id, result, fills) && FitsSignal(db, cat, id, instr)
                 && Acceptable(Expected(db, id, instr.value), RefSeen(db, id, result), db.execs, fills)
    ensures ApplyResult(db, cat, id, result, fills, instr).Some? ==>
              var (db', inserted) := ApplyResult(db, cat, id, result, fills, instr).value;
              var l := After(Expected(db, id, instr.value), RefSeen(db, id, result), db.execs, fills);
              db'.execs == l.execs && inserted == l.inserted && db'.orders[id].ref == l.ref
  {
    ResultOkIs(db, id, result, fills);
    hide ResultOk, Consistent, FoldFills, Acceptable, After, Wf, Strip;
    if instr.Some? {
      FillsAcceptedIff(Expected(db, id, instr.value), RefSeen(db, id, result), db.execs, fills);
    }
  }

  /**
   An observation is accepted exactly when the order exists, the observation is consistent with it
   and its fills, if any, are for the signal's instrument and acceptable; what it leaves is the
   reference and exactly the rows of the new trades, returned by their identifiers.
   */
  lemma AppliedIff(db: Db, cat: Catalog, id: nat, result: BrokerOrderResult, fills: seq<BrokerFill>, instr: Option<int>)
    requires Wf(db) && forall i :: 0 <= i < |fills| ==> ValidFill(fills[i])
    ensures ApplyResult(db, cat, id, result, fills, instr).Some?
            <==> && OrderKnown(db, id) && Consistent(db, id, result, fills)
                 && (fills != [] ==> && FitsSignal(db, cat, id, instr)
                                     && Acceptable(Expected(db, id, instr.value), RefSeen(db, id, result), db.execs,
                                                   fills))
    ensures ApplyResult(db, cat, id, result, fills, instr).Some? ==>
              var (db', inserted) := ApplyResult(db, cat, id, result, fills, instr).value;
              if fills == []
              then db'.execs == db.execs && inserted == [] && db'.orders[id].ref == RefSeen(db, id, result)
              else
                var l := After(Expected(db, id, instr.value), RefSeen(db, id, result), db.execs, fills);
                db'.execs == l.execs && inserted == l.inserted && db'.orders[id].ref == l.ref
  {
    if OrderKnown(db, id) {
      if fills == [] {
        AppliedEmpty(db, cat, id, result, instr);
      } else {
        AppliedFills(db, cat, id, result, fills, instr);
      }
      hide ApplyResult, Consistent, Acceptable, After, Wf, FitsSignal;
    }
  }

  // ---------------------------------------------------------------- product spelling

  ghost predicate Plain(s: string) {
    forall i :: 0 <= i < |s| ==> s[i] != '-' && s[i] != '/' && s[i] != '_' && !('a' <= s[i] <= 'z')
  }

  lemma {:induction false} UpperIs(s: string)
    ensures |Upper(s)| == |s|
    ensures forall i :: 0 <= i < |s| ==>
              if 'a' <= s[i] <= 'z' then Upper(s)[i] as int == s[i] as int - 32 else Upper(s)[i] == s[i]
    decreases |s|
  {
    if s != "" { UpperIs(s[1..]); }
  }

  ghost predicate Separator(c: char) {
    c == '-' || c == '/' || c == '_'
  }

  lemma {:induction false} DropIs(s: string)
    requires forall i :: 0 <= i < |s| ==> !Separator(s[i])
    ensures DropSeparators(s) == s
    decreases |s|
  {
    if s != "" {
      DropIs(s[1..]);
      assert !Separator(s[0]) && s == [s[0]] + s[1..];
    }
  }

  lemma {:induction false} DropLeaves(s: string, i: nat)
    requires i < |DropSeparators(s)|
    ensures !Separator(DropSeparators(s)[i])
    decreases |s|
  {
    var rest := DropSeparators(s[1..]);
    if Separator(s[0]) {
      assert DropSeparators(s) == rest;
      DropLeaves(s[1..], i);
    } else {
      assert DropSeparators(s) == [s[0]] + rest;
      if i > 0 { DropLeaves(s[1..], i - 1); }
    }
  }

  /** What is left of one character. */
  ghost function Left(c: char): string {
    if Separator(c) then "" else [c]
  }

  lemma DropHead(s: string)
    requires s != ""
    ensures DropSeparators(s) == Left(s[0]) + DropSeparators(s[1..])
  {
  }

  lemma {:induction false} DropAppend(a: string, b: string)
    ensures DropSeparators(a + b) == DropSeparators(a) + DropSeparators(b)
    decreases |a|
  {
    if a == "" {
      assert a + b == b;
    } else {
      hide DropSeparators, Left;
      DropAppend(a[1..], b);
      DropHead(a);
      DropHead(a + b);
      TailOfJoin(a, b);
      Regroup(Left(a[0]), DropSeparators(a[1..]), DropSeparators(b));
    }
  }

  lemma TailOfJoin(a: string, b: string)
    requires a != ""
    ensures (a + b)[0] == a[0] && (a + b)[1..] == a[1..] + b
  {
  }

  lemma Regroup(a: string, b: string, c: string)
    ensures a + (b + c) == a + b + c
  {
  }

  /** Separators never matter. */
  lemma SeparatorsIgnored(a: string, sep: char, b: string)
    requires Separator(sep)
    ensures NormalizeSymbol(a + [sep] + b) == NormalizeSymbol(a + b)
  {
    DropAppend(a, [sep] + b);
    DropAppend([sep], b);
    DropAppend(a, b);
    assert a + [sep] + b == a + ([sep] + b);
    assert [sep][1..] == "";
    assert DropSeparators([sep]) == "";
    assert DropSeparators(a + [sep] + b) == DropSeparators(a + b);
    hide DropSeparators, Strip, Upper;
  }

  /** A symbol already in plain upper-case spelling is its own normal form. */
  lemma PlainIsNormal(s: string)
    requires Plain(s) && Strip(s) == s
    ensures NormalizeSymbol(s) == s
  {
    DropIs(s);
    UpperIs(s);
    assert Upper(s) == s;
    hide DropSeparators, Strip, Upper;
  }

  /** Case never matters. */
  lemma CaseFolds(s: string)
    ensures Upper(Upper(s)) == Upper(s)
  {
    UpperIs(s);
    UpperIs(Upper(s));
  }
}
