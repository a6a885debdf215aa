/**
 The memory cache against the table it speeds up, and how long a recorded terminal outcome
 keeps its key closed.
 */
module ClaimCache {
  import opened ClaimProtocol

  /** The worker holds a granted claim of `k` whose result is not yet written. */
  predicate Holds(s: State, w: Worker, k: Key) {
    var ph := PhaseOf(s, w);
    (ph.Caching? || ph.Holding? || ph.Recording?) && ph.key == k
  }

  predicate Terminal(s: State, k: Key) {
    k in s.table && s.table[k].status in {Executed, Failed, Rejected}
  }

  /** The row reads executing and nobody will ever finalise it. */
  ghost predicate Orphaned(s: State, k: Key) {
    && k in s.table && s.table[k].status == Executing
    && forall w :: !Holds(s, w, k)
  }

  /** The window between writing a retryable outcome and evicting the key from memory. */
  predicate Evicting(s: State, w: Worker, k: Key) {
    var ph := PhaseOf(s, w);
    ph.Settling? && Evicts(ph.out) && ph.key == k
  }

  /** Why process `p` may still have `k` in its cache. */
  ghost predicate Justified(s: State, p: nat, k: Key) {
    || Terminal(s, k)
    || Orphaned(s, k)
    || exists w: Worker :: w.pid == p && k in s.table && (Holds(s, w, k) || Evicting(s, w, k))
  }

  ghost predicate CacheInv(s: State) {
    && (forall w, k :: Holds(s, w, k) ==> k in s.table && s.table[k].status == Executing)
    && (forall w, w', k :: Holds(s, w, k) && Holds(s, w', k) ==> w == w')
    && (forall w, k :: PhaseOf(s, w).Settling? && PhaseOf(s, w).key == k && !Evicts(PhaseOf(s, w).out)
          ==> Terminal(s, k) || Orphaned(s, k))
    && (forall w, k :: Evicting(s, w, k) ==> k in s.table)
    && (forall p, k :: k in CacheOf(s, p) ==> Justified(s, p, k))
  }

  /** Clean-up and outside resets take rows away from under the cache. */
  predicate Undisturbed(step: Step) {
    !step.CleanUp? && !step.Reopen?
  }

  /** The worker a step moves; a clock tick, a crash or an outside write moves nobody forward. */
  predicate Moves(step: Step, w: Worker) {
    match step
    case Crash(_) => false
    case Tick(_) => false
    case CleanUp(_) => false
    case Schedule(_, _) => false
    case Reopen(_) => false
    case _ => step.w == w
  }

  lemma PhaseKept(cfg: Config, s: State, step: Step, w: Worker)
    requires !Moves(step, w)
    ensures PhaseOf(Apply(cfg, s, step), w) == PhaseOf(s, w) || PhaseOf(Apply(cfg, s, step), w) == Idle
  {
  }

  /** A holder after the step held before it, or has just been granted an unheld key. */
  lemma HolderFrom(cfg: Config, s: State, step: Step, w: Worker, k: Key)
    requires !cfg.reclaim && CacheInv(s) && Undisturbed(step)
    requires Holds(Apply(cfg, s, step), w, k)
    ensures Holds(s, w, k) || (Moves(step, w) && forall w' :: !Holds(s, w', k))
    ensures k in Apply(cfg, s, step).table && Apply(cfg, s, step).table[k].status == Executing
  {
    if !Moves(step, w) {
      PhaseKept(cfg, s, step, w);
      OthersRowKept(cfg, s, step, w, k);
    } else if Holds(s, w, k) {
      assert s.table[k].status == Executing;
    }
  }

  /** While somebody holds `k`, no other worker's step touches its row. */
  lemma OthersRowKept(cfg: Config, s: State, step: Step, w: Worker, k: Key)
    requires !cfg.reclaim && CacheInv(s) && Undisturbed(step) && Holds(s, w, k) && !Moves(step, w)
    ensures k in Apply(cfg, s, step).table && Apply(cfg, s, step).table[k] == s.table[k]
  {
    if step.Record? && PhaseOf(s, step.w).Recording? {
      assert Holds(s, step.w, PhaseOf(s, step.w).key);
    }
  }

  lemma HoldersKept(cfg: Config, s: State, step: Step)
    requires !cfg.reclaim && CacheInv(s) && Undisturbed(step)
    ensures forall w, w', k :: Holds(Apply(cfg, s, step), w, k) && Holds(Apply(cfg, s, step), w', k) ==> w == w'
  {
    var s' := Apply(cfg, s, step);
    forall w, w', k | Holds(s', w, k) && Holds(s', w', k) ensures w == w' {
      HolderFrom(cfg, s, step, w, k);
      HolderFrom(cfg, s, step, w', k);
    }
  }

  /** A terminal row, and an executing row nobody holds, stay what they are. */
  lemma ClosedRowKept(cfg: Config, s: State, step: Step, k: Key)
    requires !cfg.reclaim && CacheInv(s) && Undisturbed(step)
    ensures Terminal(s, k) ==> Terminal(Apply(cfg, s, step), k)
    ensures Orphaned(s, k) ==> Orphaned(Apply(cfg, s, step), k)
  {
    var s' := Apply(cfg, s, step);
    if step.Record? && PhaseOf(s, step.w).Recording? {
      assert Holds(s, step.w, PhaseOf(s, step.w).key);
    }
    if Orphaned(s, k) {
      forall w ensures !Holds(s', w, k) {
        if Holds(s', w, k) && !Holds(s, w, k) { HolderFrom(cfg, s, step, w, k); }
      }
    }
  }

  lemma RowsKept(cfg: Config, s: State, step: Step)
    requires Undisturbed(step)
    ensures forall k :: k in s.table ==> k in Apply(cfg, s, step).table
  {
  }

  /** The holder's own result write leaves the key closed or the holder evicting. */
  lemma RecordCloses(cfg: Config, s: State, w: Worker, written: bool)
    requires !cfg.reclaim && CacheInv(s) && PhaseOf(s, w).Recording?
    ensures var s' := DoRecord(s, w, written); var k := PhaseOf(s, w).key;
            Evicting(s', w, k) || Terminal(s', k) || Orphaned(s', k)
  {
    var k := PhaseOf(s, w).key;
    assert Holds(s, w, k);
    var s' := DoRecord(s, w, written);
    forall w' ensures !Holds(s', w', k) {
      if w' == w {
        assert PhaseOf(s', w).Settling?;
      } else {
        assert PhaseOf(s', w') == PhaseOf(s, w') && !Holds(s, w', k);
      }
    }
  }

  lemma SettlingKept(cfg: Config, s: State, step: Step, w: Worker, k: Key)
    requires !cfg.reclaim && CacheInv(s) && Undisturbed(step)
    requires var ph := PhaseOf(Apply(cfg, s, step), w); ph.Settling? && ph.key == k
    ensures k in Apply(cfg, s, step).table
    ensures !Evicts(PhaseOf(Apply(cfg, s, step), w).out)
            ==> Terminal(Apply(cfg, s, step), k) || Orphaned(Apply(cfg, s, step), k)
  {
    RowsKept(cfg, s, step);
    ClosedRowKept(cfg, s, step, k);
    if Moves(step, w) {
      if step.Record? && PhaseOf(s, w).Recording? {
        assert Holds(s, w, k);
        RecordCloses(cfg, s, w, step.written);
      }
    } else {
      PhaseKept(cfg, s, step, w);
    }
    var ph := PhaseOf(s, w);
    if ph.Settling? && ph.key == k {
      assert Evicting(s, w, k) || Terminal(s, k) || Orphaned(s, k);
    }
  }

  /** A key new in a cache was put there by a worker that holds it or has closed it. */
  lemma NewInCache(cfg: Config, s: State, step: Step, p: nat, k: Key)
    requires k in CacheOf(Apply(cfg, s, step), p) && k !in CacheOf(s, p)
    ensures (step.CacheClaim? || step.Settle?) && step.w.pid == p
    ensures step.CacheClaim? ==> Holds(s, step.w, k) && Holds(Apply(cfg, s, step), step.w, k)
    ensures step.Settle? ==>
              PhaseOf(s, step.w).Settling? && PhaseOf(s, step.w).key == k && !Evicts(PhaseOf(s, step.w).out)
  {
    CacheWriters(cfg, s, step, p);
  }

  /** Only a lookup, a claim, a settled outcome or a crash changes a process's cache. */
  lemma CacheWriters(cfg: Config, s: State, step: Step, p: nat)
    ensures || CacheOf(Apply(cfg, s, step), p) == CacheOf(s, p)
            || ((step.CheckMemory? || step.CacheClaim? || step.Settle?) && step.w.pid == p)
            || step == Crash(p)
  {
  }

  /** A worker that keeps `k` in its process's cache goes on doing so, or closes the key, or evicts it. */
  lemma KeeperKept(cfg: Config, s: State, step: Step, w: Worker, k: Key)
    requires !cfg.reclaim && CacheInv(s) && Undisturbed(step)
    requires Holds(s, w, k) || Evicting(s, w, k)
    requires k in CacheOf(Apply(cfg, s, step), w.pid)
    ensures var s' := Apply(cfg, s, step);
            Holds(s', w, k) || Evicting(s', w, k) || Terminal(s', k) || Orphaned(s', k)
  {
    if Moves(step, w) && step.Record? && PhaseOf(s, w).Recording? {
      RecordCloses(cfg, s, w, step.written);
    } else {
      KeeperMoves(cfg, s, step, w, k);
    }
  }

  lemma KeeperMoves(cfg: Config, s: State, step: Step, w: Worker, k: Key)
    requires !(Moves(step, w) && step.Record? && PhaseOf(s, w).Recording?)
    requires Holds(s, w, k) || Evicting(s, w, k)
    requires k in CacheOf(Apply(cfg, s, step), w.pid)
    ensures Holds(Apply(cfg, s, step), w, k) || Evicting(Apply(cfg, s, step), w, k)
  {
    if Moves(step, w) { KeeperActs(cfg, s, step, w, k); } else { KeeperWaits(cfg, s, step, w, k); }
  }

  lemma KeeperActs(cfg: Config, s: State, step: Step, w: Worker, k: Key)
    requires Moves(step, w) && !(step.Record? && PhaseOf(s, w).Recording?)
    requires Holds(s, w, k) || Evicting(s, w, k)
    requires k in CacheOf(Apply(cfg, s, step), w.pid)
    ensures Holds(Apply(cfg, s, step), w, k) || Evicting(Apply(cfg, s, step), w, k)
  {
  }

  lemma KeeperWaits(cfg: Config, s: State, step: Step, w: Worker, k: Key)
    requires !Moves(step, w) && k in CacheOf(Apply(cfg, s, step), w.pid)
    requires Holds(s, w, k) || Evicting(s, w, k)
    ensures Holds(Apply(cfg, s, step), w, k) || Evicting(Apply(cfg, s, step), w, k)
  {
  }

  lemma JustifiedKept(cfg: Config, s: State, step: Step, p: nat, k: Key)
    requires !cfg.reclaim && CacheInv(s) && Undisturbed(step)
    requires k in CacheOf(Apply(cfg, s, step), p)
    ensures Justified(Apply(cfg, s, step), p, k)
  {
    ClosedRowKept(cfg, s, step, k);
    RowsKept(cfg, s, step);
    if k in CacheOf(s, p) {
      assert Justified(s, p, k);
      if !Terminal(s, k) && !Orphaned(s, k) {
        var w: Worker :| w.pid == p && k in s.table && (Holds(s, w, k) || Evicting(s, w, k));
        KeeperKept(cfg, s, step, w, k);
      }
    } else {
      NewInCache(cfg, s, step, p, k);
    }
  }

  lemma CacheInvKept(cfg: Config, s: State, step: Step)
    requires !cfg.reclaim && CacheInv(s) && Undisturbed(step)
    ensures CacheInv(Apply(cfg, s, step))
  {
    var s' := Apply(cfg, s, step);
    HoldersKept(cfg, s, step);
    forall w, k | Holds(s', w, k) ensures k in s'.table && s'.table[k].status == Executing {
      HolderFrom(cfg, s, step, w, k);
    }
    forall w, k | PhaseOf(s', w).Settling? && PhaseOf(s', w).key == k
      ensures k in s'.table && (!Evicts(PhaseOf(s', w).out) ==> Terminal(s', k) || Orphaned(s', k))
    {
      SettlingKept(cfg, s, step, w, k);
    }
    forall p, k | k in CacheOf(s', p) ensures Justified(s', p, k) {
      JustifiedKept(cfg, s, step, p, k);
    }
  }

  lemma {:induction false} CacheInvAlways(cfg: Config, s: State, steps: seq<Step>)
    requires !cfg.reclaim && Start(s)
    requires forall n :: 0 <= n < |steps| ==> Undisturbed(steps[n])
    ensures CacheInv(Run(cfg, s, steps))
    decreases |steps|
  {
    if steps != [] {
      CacheInvAlways(cfg, s, steps[..|steps| - 1]);
      CacheInvKept(cfg, Run(cfg, s, steps[..|steps| - 1]), steps[|steps| - 1]);
    }
  }

  /**
   With stale reclaim and clean-up off and no outside reset, a key the memory cache refuses has
   a row, and that row is not claimable unless a worker of the same process stands between
   recording a retryable outcome and evicting the key.
   */
  lemma CacheAgreesWithTable(cfg: Config, s: State, steps: seq<Step>, p: nat, k: Key, reading: int)
    requires !cfg.reclaim && Start(s)
    requires forall n :: 0 <= n < |steps| ==> Undisturbed(steps[n])
    requires var s' := Run(cfg, s, steps); Refuses(CacheOf(s', p), k, s'.now)
    ensures var s' := Run(cfg, s, steps);
            && k in s'.table
            && (Claimable(cfg, s'.table[k], reading) ==> exists w: Worker :: w.pid == p && Evicting(s', w, k))
  {
    CacheInvAlways(cfg, s, steps);
    assert Justified(Run(cfg, s, steps), p, k);
  }

  /** A retryable failure, a success. */
  const RETRY := Outcome(false, true, false)
  const SUCCESS := Outcome(true, false, false)

  function FirstHolderRun(w: Worker, k: Key): seq<Step> {
    [Begin(w, k), CheckMemory(w), ReadClock(w), Select(w, true), Insert(w, true), CacheClaim(w)]
  }

  lemma FirstHolder(cfg: Config, s: State, w: Worker, k: Key)
    requires Start(s) && k !in s.table
    ensures var s' := Run(cfg, s, FirstHolderRun(w, k));
            && s'.now == s.now && s'.table == s.table[k := Row(Executing, s.now)] && s'.phases == map[w := Holding(k)]
            && CacheOf(s', w.pid) == map[k := s.now + cfg.ttl]
            && forall p :: p != w.pid ==> CacheOf(s', p) == map[]
  {
    var s1 := Apply(cfg, s, Begin(w, k));
    var s2 := Apply(cfg, s1, CheckMemory(w));
    var s3 := Apply(cfg, s2, ReadClock(w));
    assert s3.phases == map[w := Selecting(k, s.now + cfg.ttl, s.now)] && CacheOf(s3, w.pid) == map[];
    var s4 := Apply(cfg, s3, Select(w, true));
    var s5 := Apply(cfg, s4, Insert(w, true));
    assert s5.phases == map[w := Caching(k, s.now + cfg.ttl)] && CacheOf(s5, w.pid) == map[];
    var s6 := Apply(cfg, s5, CacheClaim(w));
    ChainIsRun(cfg, [s, s1, s2, s3, s4, s5, s6], FirstHolderRun(w, k));
  }

  /** One worker claims a fresh key, then records a retryable outcome, and is stopped there. */
  function WindowRun(w: Worker, k: Key): seq<Step> {
    FirstHolderRun(w, k) + [Finish(w, RETRY), Record(w, true)]
  }

  lemma RetryBeforeEviction(cfg: Config, s: State, w: Worker, k: Key)
    requires PhaseOf(s, w) == Holding(k) && k in s.table
    ensures var s' := Run(cfg, s, [Finish(w, RETRY), Record(w, true)]);
            && k in s'.table && s'.table[k].status == Pending && Evicting(s', w, k)
            && s'.caches == s.caches && s'.now == s.now
  {
    var s1 := Apply(cfg, s, Finish(w, RETRY));
    var s2 := Apply(cfg, s1, Record(w, true));
    ChainIsRun(cfg, [s, s1, s2], [Finish(w, RETRY), Record(w, true)]);
  }

  /** That window is real: every start with an unseen key reaches it, and memory then refuses a claimable row. */
  lemma EvictionWindowIsReached(cfg: Config, s: State, w: Worker, k: Key, reading: int)
    requires cfg.ttl > 0 && Start(s) && k !in s.table
    ensures var s' := Run(cfg, s, WindowRun(w, k));
            && k in s'.table && Claimable(cfg, s'.table[k], reading)
            && Refuses(CacheOf(s', w.pid), k, s'.now) && Evicting(s', w, k)
  {
    hide Run, Apply, Evicting;
    FirstHolder(cfg, s, w, k);
    RetryBeforeEviction(cfg, Run(cfg, s, FirstHolderRun(w, k)), w, k);
    RunAppend(cfg, s, FirstHolderRun(w, k), [Finish(w, RETRY), Record(w, true)]);
  }

  lemma RetrySettled(cfg: Config, s: State, w: Worker)
    requires PhaseOf(s, w).Recording? && Evicts(PhaseOf(s, w).out)
    ensures var k := PhaseOf(s, w).key; var s' := Run(cfg, s, [Record(w, true), Settle(w)]);
            && s'.now == s.now && s'.phases == s.phases[w := Idle] && k !in CacheOf(s', w.pid)
            && s'.log == s.log + [Retried(k)] && s'.table.Keys == s.table.Keys + {k}
            && s'.table[k].status == Pending && s'.table == s.table[k := s'.table[k]]
  {
    var s1 := Apply(cfg, s, Record(w, true));
    var s2 := Apply(cfg, s1, Settle(w));
    ChainIsRun(cfg, [s, s1, s2], [Record(w, true), Settle(w)]);
  }

  lemma PendingIsClaimed(cfg: Config, s: State, v: Worker, k: Key)
    requires PhaseOf(s, v).Idle? && k !in CacheOf(s, v.pid) && k in s.table && s.table[k].status == Pending
    ensures var s' := Run(cfg, s, [Begin(v, k), CheckMemory(v), ReadClock(v), Select(v, true)]);
            && Holds(s', v, k) && s'.log == s.log + [Granted(k, s.now, s.now)]
            && s'.table == s.table[k := Row(Executing, s.now)]
  {
    var s1 := Apply(cfg, s, Begin(v, k));
    var s2 := Apply(cfg, s1, CheckMemory(v));
    var s3 := Apply(cfg, s2, ReadClock(v));
    assert PhaseOf(s3, v) == Selecting(k, s.now + cfg.ttl, s.now) && s3.table == s.table && s3.log == s.log;
    var s4 := Apply(cfg, s3, Select(v, true));
    ChainIsRun(cfg, [s, s1, s2, s3, s4], [Begin(v, k), CheckMemory(v), ReadClock(v), Select(v, true)]);
  }

  /**
   Once the outcome is recorded and evicted, any worker of the same process that is free can
   claim the key again at once.
   */
  lemma RecordedRetryIsReclaimable(cfg: Config, s: State, w: Worker, v: Worker)
    requires PhaseOf(s, w).Recording? && Evicts(PhaseOf(s, w).out)
    requires v.pid == w.pid && v != w && PhaseOf(s, v).Idle?
    ensures var k := PhaseOf(s, w).key;
            var retry := [Record(w, true), Settle(w), Begin(v, k), CheckMemory(v), ReadClock(v), Select(v, true)];
            var s' := Run(cfg, s, retry);
            && Holds(s', v, k)
            && s'.log == s.log + [Retried(k), Granted(k, s.now, s.now)]
            && s'.table == s.table[k := Row(Executing, s.now)]
  {
    hide Run, Apply, Holds, Evicts;
    var k := PhaseOf(s, w).key;
    var a, b := [Record(w, true), Settle(w)], [Begin(v, k), CheckMemory(v), ReadClock(v), Select(v, true)];
    RetrySettled(cfg, s, w);
    PendingIsClaimed(cfg, Run(cfg, s, a), v, k);
    RunAppend(cfg, s, a, b);
    assert a + b == [Record(w, true), Settle(w), Begin(v, k), CheckMemory(v), ReadClock(v), Select(v, true)];
  }

  /** A terminal row whose key no worker holds. */
  ghost predicate Sealed(s: State, k: Key) {
    Terminal(s, k) && forall w :: !Holds(s, w, k)
  }

  lemma SealedKept(cfg: Config, s: State, step: Step, k: Key)
    requires Sealed(s, k) && !step.CleanUp? && step != Reopen(k)
    ensures Sealed(Apply(cfg, s, step), k)
    ensures Apply(cfg, s, step).table[k] == s.table[k]
    ensures forall e :: e in Apply(cfg, s, step).log && e !in s.log ==> !(e.Granted? && e.key == k)
  {
    var s' := Apply(cfg, s, step);
    if step.Record? { assert !Holds(s, step.w, k); }
    forall w ensures !Holds(s', w, k) {
      assert !Holds(s, w, k);
      if Moves(step, w) { NotGranted(cfg, s, step, w, k); } else { PhaseKept(cfg, s, step, w); }
    }
  }

  /** A closed row is not granted to the worker that moves. */
  lemma NotGranted(cfg: Config, s: State, step: Step, w: Worker, k: Key)
    requires Terminal(s, k) && !Holds(s, w, k) && Moves(step, w)
    ensures !Holds(Apply(cfg, s, step), w, k)
  {
  }

  /**
   Whatever the configuration, a terminal outcome recorded when no other worker holds the key
   closes it for every continuation without clean-up or outside reset of that key.
   */
  lemma {:induction false} SealedForever(cfg: Config, s: State, steps: seq<Step>, k: Key)
    requires Sealed(s, k)
    requires forall n :: 0 <= n < |steps| ==> !steps[n].CleanUp? && steps[n] != Reopen(k)
    ensures Sealed(Run(cfg, s, steps), k) && Run(cfg, s, steps).table[k] == s.table[k]
    ensures forall reading :: !Claimable(cfg, Run(cfg, s, steps).table[k], reading)
    decreases |steps|
  {
    if steps != [] {
      SealedForever(cfg, s, steps[..|steps| - 1], k);
      SealedKept(cfg, Run(cfg, s, steps[..|steps| - 1]), steps[|steps| - 1], k);
    }
  }

  /** Recording a terminal outcome while nobody else holds the key seals it. */
  lemma RecordingSeals(cfg: Config, s: State, w: Worker)
    requires PhaseOf(s, w).Recording? && !Evicts(PhaseOf(s, w).out)
    requires forall w' :: w' != w ==> !Holds(s, w', PhaseOf(s, w).key)
    ensures Sealed(Apply(cfg, s, Record(w, true)), PhaseOf(s, w).key)
  {
    var s' := Apply(cfg, s, Record(w, true));
    forall w' ensures !Holds(s', w', PhaseOf(s, w).key) {
      if w' == w {
        assert PhaseOf(s', w).Settling?;
      } else {
        assert PhaseOf(s', w') == PhaseOf(s, w') && !Holds(s, w', PhaseOf(s, w).key);
      }
    }
  }

  // ---------------------------------------------------------------- exactly when a terminal row can be reopened

  /** The worker holds the key and may still write a retryable outcome for it. */
  predicate CouldReopen(s: State, w: Worker, k: Key) {
    Holds(s, w, k) && (PhaseOf(s, w).Recording? ==> Evicts(PhaseOf(s, w).out))
  }

  /** A continuation without clean-up and without an outside reset of the key. */
  ghost predicate Quiet(steps: seq<Step>, k: Key) {
    forall n :: 0 <= n < |steps| ==> !steps[n].CleanUp? && steps[n] != Reopen(k)
  }

  predicate IsPending(s: State, k: Key) {
    k in s.table && s.table[k].status == Pending
  }

  /** Some quiet continuation makes the row pending again. */
  ghost predicate Reopenable(cfg: Config, s: State, k: Key) {
    exists steps :: Quiet(steps, k) && IsPending(Run(cfg, s, steps), k)
  }

  /** Every quiet continuation leaves the row terminal, and so claimable at no reading. */
  ghost predicate StaysTerminal(cfg: Config, s: State, k: Key) {
    forall steps :: Quiet(steps, k) ==>
      Terminal(Run(cfg, s, steps), k) && forall reading :: !Claimable(cfg, Run(cfg, s, steps).table[k], reading)
  }

  ghost predicate Closed(s: State, k: Key) {
    Terminal(s, k) && forall w :: !CouldReopen(s, w, k)
  }

  lemma ClosedKept(cfg: Config, s: State, step: Step, k: Key)
    requires Closed(s, k) && !step.CleanUp? && step != Reopen(k)
    ensures Closed(Apply(cfg, s, step), k)
  {
    var s' := Apply(cfg, s, step);
    if step.Record? { assert !CouldReopen(s, step.w, k); }
    forall w ensures !CouldReopen(s', w, k) {
      assert !CouldReopen(s, w, k);
      if !Moves(step, w) {
        PhaseKept(cfg, s, step, w);
      } else if !Holds(s, w, k) {
        NotGranted(cfg, s, step, w, k);
      }
    }
  }

  lemma {:induction false} ClosedForever(cfg: Config, s: State, steps: seq<Step>, k: Key)
    requires Closed(s, k) && Quiet(steps, k)
    ensures Closed(Run(cfg, s, steps), k)
    decreases |steps|
  {
    if steps != [] {
      ClosedForever(cfg, s, steps[..|steps| - 1], k);
      ClosedKept(cfg, Run(cfg, s, steps[..|steps| - 1]), steps[|steps| - 1], k);
    }
  }

  /** Whichever phase the holder stands in, these steps end with its retryable outcome written. */
  function ReopeningRun(w: Worker): seq<Step> {
    [CacheClaim(w), Finish(w, RETRY), Record(w, true)]
  }

  lemma HolderReopens(cfg: Config, s: State, w: Worker, k: Key)
    requires CouldReopen(s, w, k)
    ensures Quiet(ReopeningRun(w), k) && IsPending(Run(cfg, s, ReopeningRun(w)), k)
  {
    var s1 := Apply(cfg, s, CacheClaim(w));
    assert CouldReopen(s1, w, k) && !PhaseOf(s1, w).Caching?;
    var s2 := Apply(cfg, s1, Finish(w, RETRY));
    assert PhaseOf(s2, w).Recording? && CouldReopen(s2, w, k);
    var s3 := Apply(cfg, s2, Record(w, true));
    ChainIsRun(cfg, [s, s1, s2, s3], ReopeningRun(w));
  }

  /**
   In every configuration and every state, a terminal row can be made pending again without
   clean-up or outside reset exactly when some holder may still write a retryable outcome;
   otherwise it stays terminal for good.
   */
  lemma TerminalReopenableIff(cfg: Config, s: State, k: Key)
    requires Terminal(s, k)
    ensures Reopenable(cfg, s, k) <==> exists w :: CouldReopen(s, w, k)
    ensures StaysTerminal(cfg, s, k) <==> !Reopenable(cfg, s, k)
  {
    if w :| CouldReopen(s, w, k) {
      HolderReopens(cfg, s, w, k);
    } else {
      forall steps | Quiet(steps, k) ensures Closed(Run(cfg, s, steps), k) {
        ClosedForever(cfg, s, steps, k);
      }
    }
  }

  /**
   After a terminal outcome is recorded the row can be reopened exactly when another worker holds
   the key and has not already decided on a terminal outcome of its own.
   */
  lemma RecordedTerminalReopenableIff(cfg: Config, s: State, w: Worker)
    requires PhaseOf(s, w).Recording? && !Evicts(PhaseOf(s, w).out)
    ensures var k := PhaseOf(s, w).key; var s' := Apply(cfg, s, Record(w, true));
            && Terminal(s', k) && s'.table[k].status == NewStatus(PhaseOf(s, w).out)
            && (Reopenable(cfg, s', k) <==> exists w' :: w' != w && CouldReopen(s, w', k))
            && (StaysTerminal(cfg, s', k) <==> !Reopenable(cfg, s', k))
  {
    var k := PhaseOf(s, w).key;
    var s' := Apply(cfg, s, Record(w, true));
    TerminalReopenableIff(cfg, s', k);
    assert PhaseOf(s', w).Settling?;
    forall w' | w' != w ensures CouldReopen(s', w', k) <==> CouldReopen(s, w', k) {
      assert PhaseOf(s', w') == PhaseOf(s, w');
    }
  }

  /** With stale reclaim off no other worker ever holds the key, so every recorded terminal outcome seals it. */
  lemma RecordedTerminalSeals(cfg: Config, s: State, steps: seq<Step>, w: Worker)
    requires !cfg.reclaim && Start(s)
    requires forall n :: 0 <= n < |steps| ==> Undisturbed(steps[n])
    requires var s' := Run(cfg, s, steps); PhaseOf(s', w).Recording? && !Evicts(PhaseOf(s', w).out)
    ensures var s' := Run(cfg, s, steps); Sealed(Apply(cfg, s', Record(w, true)), PhaseOf(s', w).key)
  {
    CacheInvAlways(cfg, s, steps);
    var s' := Run(cfg, s, steps);
    assert Holds(s', w, PhaseOf(s', w).key);
    RecordingSeals(cfg, s', w);
  }

  function StaleReclaimRun(late: int, v: Worker, k: Key): seq<Step> {
    [Tick(late), Begin(v, k), CheckMemory(v), ReadClock(v), Select(v, true), CacheClaim(v)]
  }

  /** Two processes hold one key after a stale reclaim, and the first records success. */
  function SecondHolderRun(late: int, w: Worker, v: Worker, k: Key): seq<Step> {
    FirstHolderRun(w, k) + StaleReclaimRun(late, v, k) + [Finish(w, SUCCESS), Record(w, true)]
  }

  lemma StaleLookup(cfg: Config, s: State, late: int, v: Worker, k: Key)
    requires s.now <= late && PhaseOf(s, v).Idle? && k !in CacheOf(s, v.pid)
    ensures var s' := Run(cfg, s, [Tick(late), Begin(v, k), CheckMemory(v)]);
            s'.phases == s.phases[v := Querying(k, late + cfg.ttl)] && s'.table == s.table && s'.now == late
  {
    var s1 := Apply(cfg, s, Tick(late));
    var s2 := Apply(cfg, s1, Begin(v, k));
    var s3 := Apply(cfg, s2, CheckMemory(v));
    ChainIsRun(cfg, [s, s1, s2, s3], [Tick(late), Begin(v, k), CheckMemory(v)]);
  }

  lemma StaleTake(cfg: Config, s: State, v: Worker, k: Key, expires: int)
    requires cfg.reclaim && PhaseOf(s, v) == Querying(k, expires)
    requires k in s.table && s.table[k].status == Executing && s.table[k].ts < s.now - cfg.ttl
    ensures Run(cfg, s, [ReadClock(v), Select(v, true), CacheClaim(v)]).phases == s.phases[v := Holding(k)]
  {
    var s1 := Apply(cfg, s, ReadClock(v));
    var s2 := Apply(cfg, s1, Select(v, true));
    var s3 := Apply(cfg, s2, CacheClaim(v));
    ChainIsRun(cfg, [s, s1, s2, s3], [ReadClock(v), Select(v, true), CacheClaim(v)]);
  }

  lemma StaleReclaim(cfg: Config, s: State, late: int, v: Worker, k: Key)
    requires cfg.reclaim && s.now <= late && PhaseOf(s, v).Idle? && k !in CacheOf(s, v.pid)
    requires k in s.table && s.table[k].status == Executing && s.table[k].ts < late - cfg.ttl
    ensures Run(cfg, s, StaleReclaimRun(late, v, k)).phases == s.phases[v := Holding(k)]
  {
    hide Run, Apply;
    var lookup, take := [Tick(late), Begin(v, k), CheckMemory(v)], [ReadClock(v), Select(v, true), CacheClaim(v)];
    StaleLookup(cfg, s, late, v, k);
    StaleTake(cfg, Run(cfg, s, lookup), v, k, late + cfg.ttl);
    RunAppend(cfg, s, lookup, take);
    assert StaleReclaimRun(late, v, k) == lookup + take;
  }

  /** From any state with two holders the first one's recorded success is reopened by the second. */
  lemma TwoHoldersReopen(cfg: Config, s: State, w: Worker, v: Worker, k: Key)
    requires w != v && PhaseOf(s, w) == Holding(k) && PhaseOf(s, v) == Holding(k)
    ensures var s' := Run(cfg, s, [Finish(w, SUCCESS), Record(w, true)]);
            k in s'.table && s'.table[k].status == Executed && Terminal(s', k) && Holds(s', v, k)
    ensures ReopensBy(cfg, Run(cfg, s, [Finish(w, SUCCESS), Record(w, true)]), v, k)
  {
    var s1 := Apply(cfg, s, Finish(w, SUCCESS));
    var s2 := Apply(cfg, s1, Record(w, true));
    ChainIsRun(cfg, [s, s1, s2], [Finish(w, SUCCESS), Record(w, true)]);
  }

  /** A retryable outcome of `v` would set the row back to pending. */
  predicate ReopensBy(cfg: Config, s: State, v: Worker, k: Key) {
    var s' := Apply(cfg, Apply(cfg, s, Finish(v, RETRY)), Record(v, true));
    k in s'.table && s'.table[k].status == Pending
  }

  /**
   With stale reclaim on there can be such a worker: every start with an unseen key reaches a state
   in which a recorded success is reopened by the second holder's retryable outcome.
   */
  lemma SecondHolderReopens(cfg: Config, s: State, late: int, w: Worker, v: Worker, k: Key)
    requires cfg.ttl > 0 && cfg.reclaim && Start(s) && k !in s.table && w.pid != v.pid && late > s.now + cfg.ttl
    ensures var s' := Run(cfg, s, SecondHolderRun(late, w, v, k));
            k in s'.table && s'.table[k].status == Executed && Terminal(s', k)
    ensures ReopensBy(cfg, Run(cfg, s, SecondHolderRun(late, w, v, k)), v, k)
  {
    var a, b, c := FirstHolderRun(w, k), StaleReclaimRun(late, v, k), [Finish(w, SUCCESS), Record(w, true)];
    FirstHolder(cfg, s, w, k);
    var s1 := Run(cfg, s, a);
    StaleReclaim(cfg, s1, late, v, k);
    var s2 := Run(cfg, s1, b);
    assert PhaseOf(s2, w) == Holding(k) && PhaseOf(s2, v) == Holding(k);
    TwoHoldersReopen(cfg, s2, w, v, k);
    assert Run(cfg, s, a + b + c) == Run(cfg, s2, c) by {
      RunAppend(cfg, s, a, b);
      RunAppend(cfg, s, a + b, c);
    }
  }
}
