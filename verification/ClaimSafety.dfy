/**
 Safety of the claim protocol over whole runs: two grants of one key are never explained by
 anything other than a recorded retry, an outside reset, a clean-up, or a stale reclaim.
 */
module ClaimSafety {
  import opened ClaimProtocol

  predicate IsGrant(log: seq<Event>, i: int, k: Key) {
    0 <= i < |log| && log[i].Granted? && log[i].key == k
  }

  predicate Reopens(e: Event, k: Key) {
    (e.Retried? || e.Reset?) && e.key == k
  }

  ghost predicate ReopenedBetween(log: seq<Event>, i: int, j: int, k: Key) {
    exists m :: 0 <= i < m < j <= |log| && Reopens(log[m], k)
  }

  /** A clean-up removed `k` because its row was already past the TTL counted from `ts`. */
  predicate CleansPast(cfg: Config, e: Event, k: Key, ts: int) {
    e.Cleaned? && k in e.keys && e.reading > ts + cfg.ttl
  }

  ghost predicate CleanedBetween(cfg: Config, log: seq<Event>, i: int, j: int, k: Key)
    requires 0 <= i < |log| && log[i].Granted?
  {
    exists m :: i < m < j <= |log| && CleansPast(cfg, log[m], k, log[i].ts)
  }

  /** The three ways a second grant of a key can come about. */
  ghost predicate Explained(cfg: Config, log: seq<Event>, i: int, j: int, k: Key)
    requires IsGrant(log, i, k) && IsGrant(log, j, k)
  {
    || ReopenedBetween(log, i, j, k)
    || CleanedBetween(cfg, log, i, j, k)
    || (cfg.reclaim && log[j].ts > log[i].ts + cfg.ttl)
  }

  ghost predicate AllExplained(cfg: Config, log: seq<Event>) {
    forall i, j, k :: i < j && IsGrant(log, i, k) && IsGrant(log, j, k) ==> Explained(cfg, log, i, j, k)
  }

  /** While a grant is not reopened its row blocks the key, or a clean-up took it past the TTL. */
  ghost predicate Guarded(cfg: Config, s: State, i: int, k: Key)
    requires IsGrant(s.log, i, k)
  {
    || (k in s.table && s.table[k].status != Pending && s.table[k].ts >= s.log[i].ts)
    || CleanedBetween(cfg, s.log, i, |s.log|, k)
    || ReopenedBetween(s.log, i, |s.log|, k)
  }

  ghost predicate AllGuarded(cfg: Config, s: State) {
    forall i, k :: IsGrant(s.log, i, k) ==> Guarded(cfg, s, i, k)
  }

  predicate TimelyEvent(e: Event, now: int) {
    && (e.Granted? ==> e.ts <= e.at <= now)
    && (e.Cleaned? ==> e.reading <= now)
  }

  /** Clock readings lie in the past, and events are logged in clock order. */
  ghost predicate Timely(s: State) {
    && (forall w :: w in s.phases && (s.phases[w].Selecting? || s.phases[w].Inserting?)
          ==> s.phases[w].reading <= s.now)
    && (forall m :: 0 <= m < |s.log| ==> TimelyEvent(s.log[m], s.now))
    && (forall m, j :: 0 <= m < j < |s.log| && s.log[m].Cleaned? && s.log[j].Granted?
          ==> s.log[m].reading <= s.log[j].at)
  }

  ghost predicate Inv(cfg: Config, s: State) {
    Timely(s) && AllGuarded(cfg, s) && AllExplained(cfg, s.log)
  }

  /** Readings a worker holds stay in the past. */
  lemma ReadingsStep(cfg: Config, s: State, step: Step, w: Worker)
    requires Timely(s) && w in Apply(cfg, s, step).phases
    ensures var ph := Apply(cfg, s, step).phases[w];
            ph.Selecting? || ph.Inserting? ==> ph.reading <= s.now
  {
    if step.Select? {
      SelectReading(cfg, s, step.w, step.acked, w);
    } else if step.Insert? || step.Record? || step.Settle? || step.CheckMemory? || step.CacheClaim? {
      OtherReading(cfg, s, step, w);
    }
  }

  lemma SelectReading(cfg: Config, s: State, v: Worker, acked: bool, w: Worker)
    requires Timely(s) && w in DoSelect(cfg, s, v, acked).phases
    ensures var ph := DoSelect(cfg, s, v, acked).phases[w];
            ph.Selecting? || ph.Inserting? ==> ph.reading <= s.now
  {
  }

  /** A step past the table claim never leaves its own worker with a reading. */
  lemma OtherReading(cfg: Config, s: State, step: Step, w: Worker)
    requires step.Insert? || step.Record? || step.Settle? || step.CheckMemory? || step.CacheClaim?
    requires w in Apply(cfg, s, step).phases
    ensures var ph := Apply(cfg, s, step).phases[w];
            ph.Selecting? || ph.Inserting? ==> w in s.phases && ph == s.phases[w]
  {
  }

  /** A step logs at most one event, with the clock as it stands. */
  lemma LogStep(cfg: Config, s: State, step: Step)
    requires Timely(s)
    ensures var s' := Apply(cfg, s, step);
            && s.now <= s'.now
            && (|| s'.log == s.log
                || exists e :: s'.log == s.log + [e] && TimelyEvent(e, s.now) && (e.Granted? ==> e.at == s.now))
  {
  }

  lemma TimelyKept(cfg: Config, s: State, step: Step)
    requires Timely(s)
    ensures Timely(Apply(cfg, s, step))
  {
    hide Apply;
    var s' := Apply(cfg, s, step);
    LogStep(cfg, s, step);
    forall w | w in s'.phases && (s'.phases[w].Selecting? || s'.phases[w].Inserting?)
      ensures s'.phases[w].reading <= s'.now
    {
      ReadingsStep(cfg, s, step, w);
    }
  }

  /** Appending an event keeps what was already said about earlier grants. */
  lemma GuardedExtends(cfg: Config, s: State, e: Event, i: int, k: Key)
    requires IsGrant(s.log, i, k)
    ensures CleanedBetween(cfg, s.log, i, |s.log|, k) ==> CleanedBetween(cfg, s.log + [e], i, |s.log| + 1, k)
    ensures ReopenedBetween(s.log, i, |s.log|, k) ==> ReopenedBetween(s.log + [e], i, |s.log| + 1, k)
    ensures Reopens(e, k) ==> ReopenedBetween(s.log + [e], i, |s.log| + 1, k)
    ensures CleansPast(cfg, e, k, s.log[i].ts) ==> CleanedBetween(cfg, s.log + [e], i, |s.log| + 1, k)
  {
    var log' := s.log + [e];
    assert log'[|s.log|] == e;
    if CleanedBetween(cfg, s.log, i, |s.log|, k) {
      var m :| i < m < |s.log| && CleansPast(cfg, s.log[m], k, s.log[i].ts);
      assert log'[m] == s.log[m];
    }
    if ReopenedBetween(s.log, i, |s.log|, k) {
      var m :| i < m < |s.log| && Reopens(s.log[m], k);
      assert log'[m] == s.log[m];
    }
  }

  /** The worker's next statement on the table may commit its claim. */
  predicate CanCommit(cfg: Config, s: State, w: Worker) {
    var ph := PhaseOf(s, w);
    && (ph.Selecting? || ph.Inserting?)
    && (ph.key in s.table ==> Claimable(cfg, s.table[ph.key], ph.reading))
  }

  /** A claim that commits finds every earlier grant of its key explained. */
  lemma CommitExplained(cfg: Config, s: State, w: Worker, i: int)
    requires cfg.ttl > 0 && Inv(cfg, s)
    requires CanCommit(cfg, s, w)
    requires IsGrant(s.log, i, PhaseOf(s, w).key)
    ensures var ph := PhaseOf(s, w);
            || CleanedBetween(cfg, s.log, i, |s.log|, ph.key)
            || ReopenedBetween(s.log, i, |s.log|, ph.key)
            || (cfg.reclaim && ph.reading > s.log[i].ts + cfg.ttl)
  {
    assert Guarded(cfg, s, i, PhaseOf(s, w).key);
  }

  lemma CommitKeepsGuarded(cfg: Config, s: State, w: Worker, acked: bool)
    requires cfg.ttl > 0 && Inv(cfg, s)
    requires CanCommit(cfg, s, w)
    ensures AllGuarded(cfg, Commit(s, w, PhaseOf(s, w), acked))
  {
    var ph := PhaseOf(s, w);
    var s' := Commit(s, w, ph, acked);
    forall i, k | IsGrant(s'.log, i, k) ensures Guarded(cfg, s', i, k) {
      if i < |s.log| {
        assert Guarded(cfg, s, i, k);
        GuardedExtends(cfg, s, Granted(ph.key, ph.reading, s.now), i, k);
        if k == ph.key { CommitExplained(cfg, s, w, i); }
      }
    }
  }

  lemma CommitKeepsExplained(cfg: Config, s: State, w: Worker, acked: bool)
    requires cfg.ttl > 0 && Inv(cfg, s)
    requires CanCommit(cfg, s, w)
    ensures AllExplained(cfg, Commit(s, w, PhaseOf(s, w), acked).log)
  {
    var ph := PhaseOf(s, w);
    var log' := Commit(s, w, ph, acked).log;
    forall i, j, k | i < j && IsGrant(log', i, k) && IsGrant(log', j, k) ensures Explained(cfg, log', i, j, k) {
      if j < |s.log| {
        assert Explained(cfg, s.log, i, j, k);
        ExplainedExtends(cfg, s.log, log', i, j, k);
      } else {
        CommitExplained(cfg, s, w, i);
        ExplainedPrefix(cfg, s.log, log', i, k);
      }
    }
  }

  lemma ExplainedExtends(cfg: Config, log: seq<Event>, log': seq<Event>, i: int, j: int, k: Key)
    requires log <= log' && IsGrant(log, i, k) && IsGrant(log, j, k) && Explained(cfg, log, i, j, k)
    ensures Explained(cfg, log', i, j, k)
  {
    if ReopenedBetween(log, i, j, k) {
      var m :| i < m < j && Reopens(log[m], k);
      assert Reopens(log'[m], k);
    } else if CleanedBetween(cfg, log, i, j, k) {
      var m :| i < m < j && CleansPast(cfg, log[m], k, log[i].ts);
      assert CleansPast(cfg, log'[m], k, log'[i].ts);
    }
  }

  lemma ExplainedPrefix(cfg: Config, log: seq<Event>, log': seq<Event>, i: int, k: Key)
    requires log <= log' && IsGrant(log, i, k)
    ensures ReopenedBetween(log, i, |log|, k) ==> ReopenedBetween(log', i, |log|, k)
    ensures CleanedBetween(cfg, log, i, |log|, k) ==> CleanedBetween(cfg, log', i, |log|, k)
  {
    if ReopenedBetween(log, i, |log|, k) {
      var m :| i < m < |log| && Reopens(log[m], k);
      assert Reopens(log'[m], k);
    }
    if CleanedBetween(cfg, log, i, |log|, k) {
      var m :| i < m < |log| && CleansPast(cfg, log[m], k, log[i].ts);
      assert CleansPast(cfg, log'[m], k, log'[i].ts);
    }
  }

  /** A step that grants nothing keeps every earlier grant guarded. */
  lemma OtherKeepsGuarded(cfg: Config, s: State, step: Step)
    requires cfg.ttl > 0 && Inv(cfg, s)
    requires !step.Select? && !step.Insert?
    ensures AllGuarded(cfg, Apply(cfg, s, step))
  {
    var s' := Apply(cfg, s, step);
    forall i, k | IsGrant(s'.log, i, k) ensures Guarded(cfg, s', i, k) {
      assert IsGrant(s.log, i, k);
      assert Guarded(cfg, s, i, k);
      if |s'.log| > |s.log| {
        GuardedExtends(cfg, s, s'.log[|s.log|], i, k);
      }
    }
  }

  lemma OtherKeepsExplained(cfg: Config, s: State, step: Step)
    requires Inv(cfg, s)
    requires !step.Select? && !step.Insert?
    ensures AllExplained(cfg, Apply(cfg, s, step).log)
  {
    var log' := Apply(cfg, s, step).log;
    forall i, j, k | i < j && IsGrant(log', i, k) && IsGrant(log', j, k) ensures Explained(cfg, log', i, j, k) {
      assert IsGrant(s.log, i, k) && IsGrant(s.log, j, k);
      ExplainedExtends(cfg, s.log, log', i, j, k);
    }
  }

  lemma InvKept(cfg: Config, s: State, step: Step)
    requires cfg.ttl > 0 && Inv(cfg, s)
    ensures Inv(cfg, Apply(cfg, s, step))
  {
    TimelyKept(cfg, s, step);
    if step.Select? || step.Insert? {
      if CanCommit(cfg, s, step.w) {
        CommitKeepsGuarded(cfg, s, step.w, step.acked);
        CommitKeepsExplained(cfg, s, step.w, step.acked);
      }
      var s' := Apply(cfg, s, step);
      if s'.log == s.log && s'.table == s.table {
        forall i, k | IsGrant(s'.log, i, k) ensures Guarded(cfg, s', i, k) {
          assert Guarded(cfg, s, i, k);
        }
      }
    } else {
      OtherKeepsGuarded(cfg, s, step);
      OtherKeepsExplained(cfg, s, step);
    }
  }

  lemma {:induction false} InvAlways(cfg: Config, s: State, steps: seq<Step>)
    requires cfg.ttl > 0 && Start(s)
    ensures Inv(cfg, Run(cfg, s, steps))
    decreases |steps|
  {
    if steps != [] {
      InvAlways(cfg, s, steps[..|steps| - 1]);
      InvKept(cfg, Run(cfg, s, steps[..|steps| - 1]), steps[|steps| - 1]);
    }
  }

  /**
   In every run, two grants of one key have a recorded retry or an outside reset between them,
   or the second commits more than the TTL after the first one's recorded timestamp.
   */
  lemma GrantsSeparated(cfg: Config, s: State, steps: seq<Step>, i: int, j: int, k: Key)
    requires cfg.ttl > 0 && Start(s) && i < j
    requires var log := Run(cfg, s, steps).log; IsGrant(log, i, k) && IsGrant(log, j, k)
    ensures var log := Run(cfg, s, steps).log;
            ReopenedBetween(log, i, j, k) || log[j].at > log[i].ts + cfg.ttl
  {
    InvAlways(cfg, s, steps);
    var s' := Run(cfg, s, steps);
    assert Explained(cfg, s'.log, i, j, k);
    assert TimelyEvent(s'.log[j], s'.now);
  }

  /**
   By recorded timestamps the two grants are more than the TTL apart as well, unless a clean-up
   with a later clock reading than the second claim's removed the row in between.
   */
  lemma RecordedGrantsSeparated(cfg: Config, s: State, steps: seq<Step>, i: int, j: int, k: Key)
    requires cfg.ttl > 0 && Start(s) && i < j
    requires var log := Run(cfg, s, steps).log; IsGrant(log, i, k) && IsGrant(log, j, k)
    requires var log := Run(cfg, s, steps).log;
             forall m :: i < m < j && log[m].Cleaned? && k in log[m].keys ==> log[m].reading <= log[j].ts
    ensures var log := Run(cfg, s, steps).log;
            ReopenedBetween(log, i, j, k) || log[j].ts > log[i].ts + cfg.ttl
  {
    InvAlways(cfg, s, steps);
    assert Explained(cfg, Run(cfg, s, steps).log, i, j, k);
  }

  lemma {:induction false} NoCleanUpNoCleaned(cfg: Config, s: State, steps: seq<Step>)
    requires Start(s) && forall n :: 0 <= n < |steps| ==> !steps[n].CleanUp?
    ensures forall m :: 0 <= m < |Run(cfg, s, steps).log| ==> !Run(cfg, s, steps).log[m].Cleaned?
    decreases |steps|
  {
    if steps != [] {
      NoCleanUpNoCleaned(cfg, s, steps[..|steps| - 1]);
    }
  }

  /** With stale reclaim and clean-up off, only a retry or an outside reset admits a second grant. */
  lemma OneGrantPerOpening(cfg: Config, s: State, steps: seq<Step>, i: int, j: int, k: Key)
    requires cfg.ttl > 0 && !cfg.reclaim && Start(s) && i < j
    requires forall n :: 0 <= n < |steps| ==> !steps[n].CleanUp?
    requires var log := Run(cfg, s, steps).log; IsGrant(log, i, k) && IsGrant(log, j, k)
    ensures ReopenedBetween(Run(cfg, s, steps).log, i, j, k)
  {
    InvAlways(cfg, s, steps);
    NoCleanUpNoCleaned(cfg, s, steps);
    assert Explained(cfg, Run(cfg, s, steps).log, i, j, k);
  }

  // ---------------------------------------------------------------- the condition is tight

  function W(p: nat): Worker { Worker(p, 0) }

  /** The first claim of `k`, by process `p`, up to its clock reading. */
  function ClaimUpToReading(p: nat, k: Key): seq<Step> {
    [Begin(W(p), k), CheckMemory(W(p)), ReadClock(W(p))]
  }

  function ClaimCommit(p: nat): seq<Step> {
    [Select(W(p), true), Insert(W(p), true)]
  }

  /** A run in which process 2 reads the clock at `reading` and a clean-up reads it at `late`. */
  function EarlyReadingRun(reading: int, late: int, k: Key): seq<Step> {
    ClaimUpToReading(1, k) + ClaimCommit(1) + [Tick(reading)] + ClaimUpToReading(2, k)
    + [Tick(late), CleanUp(late)] + ClaimCommit(2)
  }

  lemma RunClaimUpToReading(cfg: Config, s: State, p: nat, k: Key)
    requires PhaseOf(s, W(p)).Idle? && CacheOf(s, p) == map[]
    ensures Run(cfg, s, ClaimUpToReading(p, k))
            == s.(phases := s.phases[W(p) := Selecting(k, s.now + cfg.ttl, s.now)], caches := s.caches[p := map[]])
  {
    var steps := ClaimUpToReading(p, k);
    RunOne(cfg, s, steps[0]);
    RunSnoc(cfg, s, [steps[0]], steps[1]);
    RunSnoc(cfg, s, [steps[0], steps[1]], steps[2]);
    assert [steps[0]] + [steps[1]] == [steps[0], steps[1]];
    assert [steps[0], steps[1]] + [steps[2]] == steps;
  }

  lemma RunClaimCommit(cfg: Config, s: State, p: nat)
    requires PhaseOf(s, W(p)).Selecting? && PhaseOf(s, W(p)).key !in s.table
    ensures var ph := PhaseOf(s, W(p));
            Run(cfg, s, ClaimCommit(p))
            == s.(table := s.table[ph.key := Row(Executing, ph.reading)],
                  phases := s.phases[W(p) := Caching(ph.key, ph.expires)],
                  log := s.log + [Granted(ph.key, ph.reading, s.now)])
  {
    var steps := ClaimCommit(p);
    RunOne(cfg, s, steps[0]);
    RunSnoc(cfg, s, [steps[0]], steps[1]);
    assert [steps[0]] + [steps[1]] == steps;
  }

  lemma RunTickClean(cfg: Config, s: State, late: int)
    requires s.now <= late
    ensures Run(cfg, s, [Tick(late), CleanUp(late)]) == DoCleanUp(cfg, s.(now := late), late)
  {
    RunOne(cfg, s, Tick(late));
    RunSnoc(cfg, s, [Tick(late)], CleanUp(late));
    assert [Tick(late)] + [CleanUp(late)] == [Tick(late), CleanUp(late)];
  }

  /** The run up to the second claimant's clock reading. */
  lemma RunFirstGrant(cfg: Config, s: State, reading: int, k: Key)
    requires s == State(s.now, map[], map[], map[], []) && s.now <= reading
    ensures var s' := Run(cfg, s, ClaimUpToReading(1, k) + ClaimCommit(1) + [Tick(reading)] + ClaimUpToReading(2, k));
            && s'.now == reading && s'.table == map[k := Row(Executing, s.now)]
            && PhaseOf(s', W(2)) == Selecting(k, reading + cfg.ttl, reading)
            && s'.log == [Granted(k, s.now, s.now)]
  {
    var a, b, c, d := ClaimUpToReading(1, k), ClaimCommit(1), [Tick(reading)], ClaimUpToReading(2, k);
    RunAppend(cfg, s, a, b);
    RunAppend(cfg, s, a + b, c);
    RunAppend(cfg, s, a + b + c, d);
    RunClaimUpToReading(cfg, s, 1, k);
    var s1 := Run(cfg, s, a);
    RunClaimCommit(cfg, s1, 1);
    var s2 := Run(cfg, s1, b);
    RunOne(cfg, s2, Tick(reading));
    var s3 := Run(cfg, s2, c);
    assert s3.log == [Granted(k, s.now, s.now)];
    RunClaimUpToReading(cfg, s3, 2, k);
  }

  /**
   Whatever reading a claimant holds, if some clean-up can read the clock later then a run
   exists whose two grants, with nothing reopening the key between them, are recorded no more
   than the TTL apart. So the hypothesis of `RecordedGrantsSeparated` cannot be weakened.
   */
  lemma EarlyReadingBreaksRecordedGap(ttl: int, reading: int, late: int, k: Key) returns (s: State, log: seq<Event>)
    requires ttl > 0 && reading < late
    ensures Start(s)
    ensures log == Run(Config(ttl, false), s, EarlyReadingRun(reading, late, k)).log
    ensures |log| == 3 && IsGrant(log, 0, k) && IsGrant(log, 2, k)
    ensures log[2].ts == reading && log[1] == Cleaned({k}, late)
    ensures !ReopenedBetween(log, 0, 2, k) && log[2].ts <= log[0].ts + ttl
  {
    var cfg := Config(ttl, false);
    var first := if reading < late - ttl - 1 then reading else late - ttl - 1;
    s := State(first, map[], map[], map[], []);
    var a := ClaimUpToReading(1, k) + ClaimCommit(1) + [Tick(reading)] + ClaimUpToReading(2, k);
    var e := [Tick(late), CleanUp(late)];
    RunAppend(cfg, s, a + e, ClaimCommit(2));
    RunAppend(cfg, s, a, e);
    RunFirstGrant(cfg, s, reading, k);
    var s4 := Run(cfg, s, a);
    RunTickClean(cfg, s4, late);
    var s5 := Run(cfg, s4, e);
    assert Expired(cfg, s4.table, late) == {k};
    RunClaimCommit(cfg, s5, 2);
    log := Run(cfg, s5, ClaimCommit(2)).log;
    assert log == [Granted(k, first, first), Cleaned({k}, late), Granted(k, reading, late)];
  }
}
