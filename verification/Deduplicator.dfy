/**
 The deduplicator object of one process and the decision log it shares: the methods of the
 claim path as the engine calls them, each proved against the functions the protocol's steps
 are made of. Clock readings are parameters.
 */
module Deduplicator {
  import opened ClaimProtocol

  /** A claim run with nothing else in between: whether it is granted, the table and the cache after it. */
  function ClaimAlone(cfg: Config, t: Table, c: Cache, k: Key, built: int, looked: int, reading: int, stored: int)
    : (r: (bool, Table, Cache))
  {
    if Refuses(c, k, looked) then (false, t, c)
    else if k in t && !Claimable(cfg, t[k], reading) then (false, t, Looked(c, k, looked))
    else (true, t[k := Row(Executing, reading)], Remembered(Looked(c, k, looked), k, built + cfg.ttl, stored))
  }

  /** The decision-log table, keyed by its unique idempotency key. */
  class DecisionLog {
    var rows: Table

    constructor ()
      ensures rows == map[]
    {
      rows := map[];
    }

    /** Claims a key for the caller, as the row lock and the unique constraint arbitrate it. */
    method Claim(cfg: Config, key: Key, reading: int) returns (claimed: bool)
      modifies this
      ensures claimed <==> key !in old(rows) || Claimable(cfg, old(rows)[key], reading)
      ensures claimed <==>
                || key !in old(rows) || old(rows)[key].status == Pending
                || (old(rows)[key].status == Executing && cfg.reclaim && old(rows)[key].ts < reading - cfg.ttl)
      ensures claimed ==> rows == old(rows)[key := Row(Executing, reading)]
      ensures !claimed ==> rows == old(rows)
    {
      if key !in rows {
        rows := rows[key := Row(Executing, reading)];
        return true;
      }
      var row := rows[key];
      if row.status == Pending || (row.status == Executing && row.ts < reading - cfg.ttl && cfg.reclaim) {
        rows := rows[key := Row(Executing, reading)];
        return true;
      }
      return false;
    }

    /** Writes an outcome; a write the database refuses is swallowed. */
    method Store(key: Key, out: Outcome, now: int, healthy: bool)
      modifies this
      ensures rows == if healthy then Recorded(old(rows), key, NewStatus(out), now) else old(rows)
      ensures healthy ==>
                && key in rows
                && (rows[key].status == Executed <==> out.success)
                && (rows[key].status == Pending <==> !out.success && out.retryable)
                && (rows[key].status == Rejected <==> !out.success && !out.retryable && out.blocked)
                && (rows[key].status == Failed <==> !out.success && !out.retryable && !out.blocked)
                && (key in old(rows) ==> rows[key].ts == old(rows)[key].ts)
                && (key !in old(rows) ==> rows[key].ts == now)
                && forall k :: k != key ==> (k in rows <==> k in old(rows)) && (k in rows ==> rows[k] == old(rows)[k])
    {
      if !healthy {
        return;
      }
      var status: Status;
      if out.success {
        status := Executed;
      } else if out.retryable {
        status := Pending;
      } else if out.blocked {
        status := Rejected;
      } else {
        status := Failed;
      }
      if key in rows {
        rows := rows[key := rows[key].(status := status)];
      } else {
        rows := rows[key := Row(status, now)];
      }
    }

    /** Deletes the rows past the TTL and counts them. */
    method ClearExpired(cfg: Config, reading: int) returns (cleared: nat)
      modifies this
      ensures rows == old(rows) - Expired(cfg, old(rows), reading)
      ensures cleared == |Expired(cfg, old(rows), reading)|
      ensures forall k :: k in rows <==> k in old(rows) && old(rows)[k].ts >= reading - cfg.ttl
    {
      var gone := set k | k in rows && rows[k].ts < reading - cfg.ttl;
      rows := rows - gone;
      cleared := |gone|;
    }
  }

  class ExecutionDeduplicator {
    const cfg: Config
    const decisions: DecisionLog
    var memory: Cache

    constructor (cfg: Config, decisions: DecisionLog)
      requires cfg.ttl > 0
      ensures this.cfg == cfg && this.decisions == decisions && memory == map[]
    {
      this.cfg := cfg;
      this.decisions := decisions;
      memory := map[];
    }

    /** The memory fast path; an expired record is dropped on the way. */
    method CheckMemory(key: Key, now: int) returns (hit: bool)
      modifies this
      ensures hit <==> Refuses(old(memory), key, now)
      ensures hit <==> key in old(memory) && now <= old(memory)[key]
      ensures memory == Looked(old(memory), key, now)
    {
      if key !in memory {
        return false;
      }
      if now > memory[key] {
        memory := memory - {key};
        return false;
      }
      return true;
    }

    method StoreMemory(key: Key, expires: int, now: int)
      modifies this
      ensures memory == Remembered(old(memory), key, expires, now)
    {
      memory := memory[key := expires];
      if |memory| > CACHE_SWEEP_SIZE {
        CleanupMemory(now);
      }
    }

    /** Removes the expired records one by one. */
    method CleanupMemory(now: int)
      modifies this
      ensures memory == Swept(old(memory), now)
    {
      var expired := set k | k in memory && now > memory[k];
      ghost var all := expired;
      while expired != {}
        invariant expired <= all
        invariant memory == old(memory) - (all - expired)
        decreases expired
      {
        var k :| k in expired;
        memory := memory - {k};
        expired := expired - {k};
      }
      assert memory == old(memory) - all;
    }

    /** Claims a key before any broker-visible side effect. */
    method ClaimExecution(key: Key, built: int, looked: int, reading: int, stored: int) returns (granted: bool)
      modifies this, decisions
      ensures (granted, decisions.rows, memory)
              == ClaimAlone(cfg, old(decisions.rows), old(memory), key, built, looked, reading, stored)
    {
      var hit := CheckMemory(key, looked);
      if hit {
        return false;
      }
      granted := decisions.Claim(cfg, key, reading);
      if granted {
        StoreMemory(key, built + cfg.ttl, stored);
      }
    }

    /** Records a finished execution: the row first, then memory. */
    method MarkExecuted(key: Key, out: Outcome, now: int, stored: int, healthy: bool)
      modifies this, decisions
      ensures decisions.rows
              == if healthy then Recorded(old(decisions.rows), key, NewStatus(out), now) else old(decisions.rows)
      ensures memory
              == if Evicts(out) then old(memory) - {key} else Remembered(old(memory), key, now + cfg.ttl, stored)
      ensures out.retryable && !out.success ==> key !in memory
    {
      decisions.Store(key, out, now, healthy);
      if out.retryable && !out.success {
        memory := memory - {key};
      } else {
        StoreMemory(key, now + cfg.ttl, stored);
      }
    }
  }

  /** The steps of one claim by `w` up to its clock reading, and from there to its return. */
  function LookupSteps(w: Worker, k: Key, looked: int, reading: int): seq<Step> {
    [Begin(w, k), Tick(looked), CheckMemory(w), Tick(reading), ReadClock(w)]
  }

  function TableSteps(w: Worker, stored: int): seq<Step> {
    [Select(w, true), Insert(w, true), Tick(stored), CacheClaim(w)]
  }

  lemma LookupAlone(cfg: Config, s: State, w: Worker, k: Key, looked: int, reading: int)
    requires PhaseOf(s, w).Idle? && s.now <= looked <= reading
    ensures var s' := Run(cfg, s, LookupSteps(w, k, looked, reading));
            && s'.now == reading && s'.table == s.table && CacheOf(s', w.pid) == Looked(CacheOf(s, w.pid), k, looked)
            && PhaseOf(s', w) == (if Refuses(CacheOf(s, w.pid), k, looked) then Idle
                                  else Selecting(k, s.now + cfg.ttl, reading))
  {
    var steps := LookupSteps(w, k, looked, reading);
    var s1 := Apply(cfg, s, steps[0]);
    var s2 := Apply(cfg, s1, steps[1]);
    var s3 := Apply(cfg, s2, steps[2]);
    var s4 := Apply(cfg, s3, steps[3]);
    var s5 := Apply(cfg, s4, steps[4]);
    ChainIsRun(cfg, [s, s1, s2, s3, s4, s5], steps);
  }

  lemma TableAlone(cfg: Config, s: State, w: Worker, stored: int)
    requires (PhaseOf(s, w).Idle? || PhaseOf(s, w).Selecting?) && s.now <= stored
    ensures var s' := Run(cfg, s, TableSteps(w, stored)); var ph := PhaseOf(s, w); var c := CacheOf(s, w.pid);
            if ph.Idle? || (ph.key in s.table && !Claimable(cfg, s.table[ph.key], ph.reading))
            then PhaseOf(s', w).Idle? && s'.table == s.table && CacheOf(s', w.pid) == c
            else && PhaseOf(s', w) == Holding(ph.key)
                 && s'.table == s.table[ph.key := Row(Executing, ph.reading)]
                 && CacheOf(s', w.pid) == Remembered(c, ph.key, ph.expires, stored)
  {
    var steps := TableSteps(w, stored);
    var s1 := Apply(cfg, s, steps[0]);
    var s2 := Apply(cfg, s1, steps[1]);
    var s3 := Apply(cfg, s2, steps[2]);
    var s4 := Apply(cfg, s3, steps[3]);
    ChainIsRun(cfg, [s, s1, s2, s3, s4], steps);
  }

  /** The claim as one method is the protocol's claim with no other step in between. */
  lemma ClaimAloneIsRun(cfg: Config, s: State, w: Worker, k: Key, looked: int, reading: int, stored: int)
    requires PhaseOf(s, w).Idle? && s.now <= looked <= reading <= stored
    ensures var s' := Run(cfg, s, LookupSteps(w, k, looked, reading) + TableSteps(w, stored));
            && (PhaseOf(s', w) == Holding(k), s'.table, CacheOf(s', w.pid))
               == ClaimAlone(cfg, s.table, CacheOf(s, w.pid), k, s.now, looked, reading, stored)
            && (PhaseOf(s', w).Idle? || PhaseOf(s', w) == Holding(k))
  {
    LookupAlone(cfg, s, w, k, looked, reading);
    TableAlone(cfg, Run(cfg, s, LookupSteps(w, k, looked, reading)), w, stored);
    RunAppend(cfg, s, LookupSteps(w, k, looked, reading), TableSteps(w, stored));
  }

  function MarkSteps(w: Worker, out: Outcome, stored: int, healthy: bool): seq<Step> {
    [Finish(w, out), Record(w, healthy), Tick(stored), Settle(w)]
  }

  lemma MarkWritten(cfg: Config, s: State, w: Worker, k: Key, out: Outcome, healthy: bool)
    requires PhaseOf(s, w) == Holding(k)
    ensures var s' := Run(cfg, s, [Finish(w, out), Record(w, healthy)]);
            && PhaseOf(s', w) == Settling(k, out, s.now + cfg.ttl) && s'.now == s.now && s'.caches == s.caches
            && s'.table == if healthy then Recorded(s.table, k, NewStatus(out), s.now) else s.table
  {
    var s1 := Apply(cfg, s, Finish(w, out));
    var s2 := Apply(cfg, s1, Record(w, healthy));
    ChainIsRun(cfg, [s, s1, s2], [Finish(w, out), Record(w, healthy)]);
  }

  lemma MarkSettled(cfg: Config, s: State, w: Worker, stored: int)
    requires PhaseOf(s, w).Settling? && s.now <= stored
    ensures var s' := Run(cfg, s, [Tick(stored), Settle(w)]); var ph := PhaseOf(s, w); var c := CacheOf(s, w.pid);
            && PhaseOf(s', w).Idle? && s'.table == s.table
            && CacheOf(s', w.pid) == if Evicts(ph.out) then c - {ph.key} else Remembered(c, ph.key, ph.expires, stored)
  {
    var s1 := Apply(cfg, s, Tick(stored));
    var s2 := Apply(cfg, s1, Settle(w));
    ChainIsRun(cfg, [s, s1, s2], [Tick(stored), Settle(w)]);
  }

  /** Recording as one method is the holder's finish, write and settle with no other step in between. */
  lemma MarkAloneIsRun(cfg: Config, s: State, w: Worker, k: Key, out: Outcome, stored: int, healthy: bool)
    requires PhaseOf(s, w) == Holding(k) && s.now <= stored
    ensures var s' := Run(cfg, s, MarkSteps(w, out, stored, healthy)); var c := CacheOf(s, w.pid);
            && PhaseOf(s', w).Idle?
            && s'.table == (if healthy then Recorded(s.table, k, NewStatus(out), s.now) else s.table)
            && CacheOf(s', w.pid) == (if Evicts(out) then c - {k} else Remembered(c, k, s.now + cfg.ttl, stored))
  {
    hide Run, Apply;
    var written := [Finish(w, out), Record(w, healthy)];
    MarkWritten(cfg, s, w, k, out, healthy);
    MarkSettled(cfg, Run(cfg, s, written), w, stored);
    RunAppend(cfg, s, written, [Tick(stored), Settle(w)]);
    assert written + [Tick(stored), Settle(w)] == MarkSteps(w, out, stored, healthy);
  }
}
