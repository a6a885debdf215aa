/** Broker results carried through to the claim row they are recorded on. */
module ClaimResults {
  import opened Broker
  import opened ClaimProtocol
  import opened ClaimCache
  import opened Results

  /**
   Recording an aggregate with an unknown submission leaves a rejected row, in every configuration
   and every state. It is never claimable again without clean-up or outside reset exactly when no
   other worker holds the key with an outcome that may still be retryable.
   */
  lemma UnknownSubmissionNeverReclaimed(cfg: Config, s: State, w: Worker, mode: ExecutionMode,
                                        rs: seq<BrokerOrderResult>)
    requires HasUnknown(rs) && PhaseOf(s, w).Recording? && PhaseOf(s, w).out == OutcomeOf(Aggregate(mode, rs))
    ensures var k := PhaseOf(s, w).key; var s' := Apply(cfg, s, Record(w, true));
            && k in s'.table && s'.table[k].status == Rejected
            && (StaysTerminal(cfg, s', k) <==> forall w' :: w' != w ==> !CouldReopen(s, w', k))
            && (Reopenable(cfg, s', k) <==> exists w' :: w' != w && CouldReopen(s, w', k))
  {
    hide Aggregate, OutcomeOf, HasUnknown, Reopenable, StaysTerminal, CouldReopen, Apply;
    AggregateStatus(mode, rs);
    RecordedTerminalReopenableIff(cfg, s, w);
  }

  /**
   With stale reclaim off that is every recorded unknown submission of every undisturbed run, and
   the row never changes.
   */
  lemma UnknownSubmissionSealed(cfg: Config, s: State, steps: seq<Step>, w: Worker, mode: ExecutionMode,
                                rs: seq<BrokerOrderResult>, more: seq<Step>, reading: int)
    requires !cfg.reclaim && Start(s) && HasUnknown(rs)
    requires forall n :: 0 <= n < |steps| ==> Undisturbed(steps[n])
    requires var ph := PhaseOf(Run(cfg, s, steps), w); ph.Recording? && ph.out == OutcomeOf(Aggregate(mode, rs))
    requires forall n :: 0 <= n < |more| ==> Undisturbed(more[n])
    ensures var s' := Run(cfg, s, steps); var k := PhaseOf(s', w).key;
            var s'' := Run(cfg, Apply(cfg, s', Record(w, true)), more);
            k in s''.table && s''.table[k].status == Rejected && !Claimable(cfg, s''.table[k], reading)
  {
    hide Run, Aggregate, OutcomeOf, HasUnknown, Start, Undisturbed;
    AggregateStatus(mode, rs);
    RecordedTerminalSeals(cfg, s, steps, w);
    var s' := Run(cfg, s, steps);
    UndisturbedOpen(more, PhaseOf(s', w).key);
    SealedForever(cfg, Apply(cfg, s', Record(w, true)), more, PhaseOf(s', w).key);
  }

  lemma UndisturbedOpen(steps: seq<Step>, k: Key)
    requires forall n :: 0 <= n < |steps| ==> Undisturbed(steps[n])
    ensures forall n :: 0 <= n < |steps| ==> !steps[n].CleanUp? && steps[n] != Reopen(k)
  {
  }

  /**
   Whatever the result, once it is recorded the row is claimable at every reading exactly when the
   failure was in a real execution mode or a transient block.
   */
  lemma RecordedResultReclaimable(cfg: Config, s: State, w: Worker, r: ExecutionResult, reading: int)
    requires PhaseOf(s, w).Recording? && PhaseOf(s, w).out == OutcomeOf(r)
    ensures var k := PhaseOf(s, w).key; var s' := Apply(cfg, s, Record(w, true));
            && k in s'.table
            && (Claimable(cfg, s'.table[k], reading)
                <==> !r.success && ((r.mode != "blocked" && r.mode != "dedup") || TransientBlock(r)))
  {
    hide OutcomeOf, TransientBlock;
    RecordedStatus(r);
  }

  /** A key blocked on a transient condition is granted again, at once and in the same process. */
  lemma TransientBlockGrantedAgain(cfg: Config, s: State, w: Worker, v: Worker, r: ExecutionResult)
    requires PhaseOf(s, w).Recording? && PhaseOf(s, w).out == OutcomeOf(r) && TransientBlock(r)
    requires v.pid == w.pid && v != w && PhaseOf(s, v).Idle?
    ensures var k := PhaseOf(s, w).key;
            var retry := [Record(w, true), Settle(w), Begin(v, k), CheckMemory(v), ReadClock(v), Select(v, true)];
            var s' := Run(cfg, s, retry);
            && Holds(s', v, k) && k in s'.table && s'.table[k] == Row(Executing, s.now)
            && s'.log == s.log + [Retried(k), Granted(k, s.now, s.now)]
  {
    hide Run, Apply, OutcomeOf, TransientBlock;
    RecordedStatus(r);
    assert !r.success && r.mode == "blocked" by { BlockedFails(r); }
    RecordedRetryIsReclaimable(cfg, s, w, v);
  }

  lemma BlockedFails(r: ExecutionResult)
    requires TransientBlock(r)
    ensures !r.success && r.mode == "blocked"
  {
  }

  /** A non-empty list without a fill and without an unknown submission leaves the recorded key reclaimable. */
  lemma NoFillLeavesKeyOpen(cfg: Config, s: State, w: Worker, mode: ExecutionMode, rs: seq<BrokerOrderResult>,
                            reading: int)
    requires rs != [] && !HasUnknown(rs) && forall r :: r in rs ==> !r.HasFill()
    requires PhaseOf(s, w).Recording? && PhaseOf(s, w).out == OutcomeOf(Aggregate(mode, rs))
    ensures var k := PhaseOf(s, w).key; var s' := Apply(cfg, s, Record(w, true));
            k in s'.table && s'.table[k].status == Pending && Claimable(cfg, s'.table[k], reading)
  {
    AggregateStatus(mode, rs);
  }
}
