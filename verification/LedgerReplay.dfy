/**
 Reading an order back and applying what was read, over whole runs: the executions of every run
 carry the instrument of their order's signal, so the exact condition of the recovery fixed point
 needs nothing about the tables.
 */
module LedgerReplay {
  import opened Common
  import opened Broker
  import opened Ledger
  import opened LedgerSafety
  import opened LedgerRecovery

  /** The instrument of the signal behind an order. */
  function SignalInstrument(db: Db, cat: Catalog, id: nat): Option<int>
    requires OrderKnown(db, id)
  {
    var signal := db.intents[db.orders[id].intentId].signal;
    if signal in cat.signals then Some(cat.signals[signal].instr) else None
  }

  /** Every execution was accepted for the instrument its order's signal names. */
  ghost predicate ExecsChecked(db: Db, cat: Catalog) {
    forall e :: e in db.execs ==> e.order < |db.orders| && InstrumentOk(db, cat, e.order, Some(e.instr))
  }

  /** The operation looks its instruments up in this catalogue. */
  predicate LooksUp(op: Op, cat: Catalog) {
    op.ApplyOrder? ==> op.cat == cat
  }

  lemma InstrumentStaysOk(db: Db, db': Db, cat: Catalog, id: nat, instr: Option<int>)
    requires Wf(db) && Extends(db, db') && id < |db.orders| && InstrumentOk(db, cat, id, instr)
    ensures id < |db'.orders| && InstrumentOk(db', cat, id, instr)
  {
    assert SameRoute(db.orders[id], db'.orders[id]);
    assert SameIdentity(db.intents[db.orders[id].intentId], db'.intents[db'.orders[id].intentId]);
  }

  /** Every execution the loop adds is of the order and instrument it was called for. */
  lemma {:induction false} FoldAdds(ctx: Context, l: Loop, fills: seq<BrokerFill>, e: Exec)
    requires FoldFills(ctx, l, fills).Some? && e in FoldFills(ctx, l, fills).value.execs
    ensures e in l.execs || (e.order == ctx.order && e.instr == ctx.instr)
    decreases |fills|
  {
    if fills != [] {
      var n := |fills| - 1;
      var l1 := FoldFills(ctx, l, fills[..n]).value;
      if e in l1.execs { FoldAdds(ctx, l, fills[..n], e); }
    }
  }

  lemma ApplyAdds(db: Db, cat: Catalog, id: nat, result: BrokerOrderResult, fills: seq<BrokerFill>, instr: Option<int>,
                  e: Exec)
    requires ApplyResult(db, cat, id, result, fills, instr).Some?
    requires e in ApplyResult(db, cat, id, result, fills, instr).value.0.execs
    ensures e in db.execs || (e.order == id < |db.orders| && InstrumentOk(db, cat, id, instr) && e.instr == instr.value)
  {
    hide ResultOk, FoldFills;
    if fills != [] {
      var o := ObservedOrder(db.orders[id], result);
      FoldAdds(ContextOf(db, id, instr.value), Loop(o.ref, db.execs, [], {}), fills, e);
    }
  }

  lemma StepAddsChecked(s: System, op: Op, cat: Catalog, e: Exec)
    requires LooksUp(op, cat) && e in Step(s, op).db.execs && e !in s.db.execs
    ensures e.order < |s.db.orders| && InstrumentOk(s.db, cat, e.order, Some(e.instr))
  {
    hide ApplyResult;
    if op.ApplyOrder? { ApplyAdds(s.db, op.cat, op.id, op.result, op.fills, op.instr, e); }
  }

  lemma StepChecked(s: System, op: Op, cat: Catalog)
    requires Wf(s.db) && ExecsChecked(s.db, cat) && ValidOp(op) && LooksUp(op, cat)
    ensures ExecsChecked(Step(s, op).db, cat)
  {
    hide Step, InstrumentOk, Extends, Wf;
    StepKeeps(s, op);
    forall e | e in Step(s, op).db.execs
      ensures e.order < |Step(s, op).db.orders| && InstrumentOk(Step(s, op).db, cat, e.order, Some(e.instr))
    {
      if e !in s.db.execs { StepAddsChecked(s, op, cat, e); }
      InstrumentStaysOk(s.db, Step(s, op).db, cat, e.order, Some(e.instr));
    }
  }

  lemma {:induction false} RunChecked(ops: seq<Op>, cat: Catalog)
    requires forall n :: 0 <= n < |ops| ==> ValidOp(ops[n]) && LooksUp(ops[n], cat)
    ensures Wf(Run(EMPTY, ops).db) && ExecsChecked(Run(EMPTY, ops).db, cat)
    decreases |ops|
  {
    hide Step, ExecsChecked;
    RunKeeps(EMPTY, ops);
    if ops == [] {
      NothingChecked(cat);
    } else {
      RunChecked(ops[..|ops| - 1], cat);
      StepChecked(Run(EMPTY, ops[..|ops| - 1]), ops[|ops| - 1], cat);
    }
  }

  lemma NothingChecked(cat: Catalog)
    ensures ExecsChecked(EMPTY.db, cat)
  {
  }

  /** Without fills the instrument is not looked at. */
  lemma NoFillsNoInstrument(db: Db, cat: Catalog, id: nat, result: BrokerOrderResult, a: Option<int>, b: Option<int>)
    ensures ApplyResult(db, cat, id, result, [], a) == ApplyResult(db, cat, id, result, [], b)
  {
  }

  /** Another instrument than the signal's is refused where there are fills. */
  lemma OtherInstrumentRefused(db: Db, cat: Catalog, id: nat, result: BrokerOrderResult, fills: seq<BrokerFill>,
                               instr: Option<int>)
    requires fills != [] && OrderKnown(db, id) && instr != SignalInstrument(db, cat, id)
    ensures ApplyResult(db, cat, id, result, fills, instr).None?
  {
    hide ResultOk, FoldFills;
    assert !InstrumentOk(db, cat, id, instr);
  }

  /**
   In every run that looks its instruments up in one catalogue, feeding the recovery read of any
   order back, for any instrument, inserts nothing and leaves the ledger as it is exactly when the
   order is not in the unknown-submission state, its reference is trimmed or blank, and the
   instrument is the signal's wherever there are executions.
   */
  lemma RunReadThenApplyChangesNothing(ops: seq<Op>, cat: Catalog, id: nat, instr: Option<int>)
    requires forall n :: 0 <= n < |ops| ==> ValidOp(ops[n]) && LooksUp(ops[n], cat)
    requires Read(Run(EMPTY, ops).db, id).Found?
    ensures var db := Run(EMPTY, ops).db; var d := Read(db, id);
            && OrderKnown(db, id)
            && (ApplyResult(db, cat, id, d.result, d.fills, instr) == Some((db, []))
                <==> && db.orders[id].state != SubmissionUnknown && TrimmedRef(db.orders[id])
                     && (HasExec(db.execs, id) ==> instr == SignalInstrument(db, cat, id)))
  {
    RunChecked(ops, cat);
    CheckedReadThenApply(Run(EMPTY, ops).db, cat, id, instr);
  }

  lemma CheckedReadThenApply(db: Db, cat: Catalog, id: nat, instr: Option<int>)
    requires Wf(db) && ExecsChecked(db, cat) && Read(db, id).Found?
    ensures var d := Read(db, id);
            && OrderKnown(db, id)
            && (ApplyResult(db, cat, id, d.result, d.fills, instr) == Some((db, []))
                <==> && db.orders[id].state != SubmissionUnknown && TrimmedRef(db.orders[id])
                     && (HasExec(db.execs, id) ==> instr == SignalInstrument(db, cat, id)))
  {
    var d := Read(db, id);
    hide Read, ApplyResult, Wf, DurableFills;
    ReadFields(db, id);
    DurableFillsIffExecs(db, id);
    if db.orders[id].state == SubmissionUnknown || !TrimmedRef(db.orders[id]) {
      RecoveredDiffers(db, cat, id, instr);
    } else if HasExec(db.execs, id) {
      if instr == SignalInstrument(db, cat, id) {
        RowsOfSignal(db, cat, id);
        RecoveredApplies(db, cat, id, instr.value);
      } else {
        OtherInstrumentRefused(db, cat, id, d.result, d.fills, instr);
      }
    } else {
      NoRows(db.execs, id);
      RecoveredApplies(db, cat, id, 0);
      NoFillsNoInstrument(db, cat, id, d.result, instr, Some(0));
    }
  }

  /** The rows of an order carry its signal's instrument. */
  lemma RowsOfSignal(db: Db, cat: Catalog, id: nat)
    requires ExecsChecked(db, cat) && OrderKnown(db, id) && HasExec(db.execs, id)
    ensures SignalInstrument(db, cat, id).Some? && InstrumentOk(db, cat, id, SignalInstrument(db, cat, id))
    ensures forall e :: e in RowsOf(db.execs, id) ==> Some(e.instr) == SignalInstrument(db, cat, id)
  {
    var e :| e in db.execs && e.order == id;
    assert InstrumentOk(db, cat, id, Some(e.instr));
    assert forall e' :: e' in RowsOf(db.execs, id) ==>
                          e'.order == id && InstrumentOk(db, cat, e'.order, Some(e'.instr));
  }
}
