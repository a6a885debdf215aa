/**
 The execution claim protocol as a state machine.

 Any number of engine processes, each with any number of worker threads, share one
 decision-log table and claim keys in it before touching a broker. Every atomic section of
 the claim path is one step, so all the interleavings the database and the thread scheduler
 allow are runs of this machine. The log records what a run did, for stating safety over
 whole runs.
 */
module ClaimProtocol {

  type Key = string

  /** Decision-log status; `Skipped` is written only by the scoring engine. */
  datatype Status = Pending | Executing | Executed | Failed | Rejected | Skipped

  datatype Row = Row(status: Status, ts: int)

  type Table = map<Key, Row>

  /** One process's memory cache: key to the instant its record expires. */
  type Cache = map<Key, int>

  datatype Config = Config(ttl: int, reclaim: bool)

  /** What `mark_executed` is told about a finished execution. */
  datatype Outcome = Outcome(success: bool, retryable: bool, blocked: bool)

  const CACHE_SWEEP_SIZE := 1000

  /** The memory fast path refuses a key whose record has not expired. */
  predicate Refuses(c: Cache, k: Key, now: int) {
    k in c && now <= c[k]
  }

  /** The cache after a lookup: an expired record is dropped. */
  function Looked(c: Cache, k: Key, now: int): Cache {
    if k in c && now > c[k] then c - {k} else c
  }

  /** The cache without its expired records. */
  function Swept(c: Cache, now: int): Cache {
    map k | k in c && now <= c[k] :: c[k]
  }

  /** The cache after a record is stored; a large cache is swept. */
  function Remembered(c: Cache, k: Key, expires: int, now: int): Cache {
    var c' := c[k := expires];
    if |c'| > CACHE_SWEEP_SIZE then Swept(c', now) else c'
  }

  /** Whether a locked row may be claimed by a worker that read the clock at `reading`. */
  predicate Claimable(cfg: Config, row: Row, reading: int) {
    || row.status == Pending
    || (row.status == Executing && row.ts < reading - cfg.ttl && cfg.reclaim)
  }

  function NewStatus(out: Outcome): Status {
    if out.success then Executed
    else if out.retryable then Pending
    else if out.blocked then Rejected
    else Failed
  }

  predicate Evicts(out: Outcome) {
    out.retryable && !out.success
  }

  /** The table after a recorded outcome: an existing row keeps its timestamp. */
  function Recorded(t: Table, k: Key, status: Status, now: int): Table {
    t[k := Row(status, if k in t then t[k].ts else now)]
  }

  /** The keys a clean-up removes when it read the clock at `reading`. */
  function Expired(cfg: Config, t: Table, reading: int): set<Key> {
    set k | k in t && t[k].ts < reading - cfg.ttl
  }

  // ---------------------------------------------------------------- the machine

  /** Thread `tid` of process `pid`. */
  datatype Worker = Worker(pid: nat, tid: nat)

  /** Where a worker stands between two atomic sections. */
  datatype Phase =
    | Idle
    | Checking(key: Key, expires: int)                  // record built, memory not yet looked up
    | Querying(key: Key, expires: int)                  // memory passed, clock not yet read
    | Selecting(key: Key, expires: int, reading: int)   // clock read, row not yet selected
    | Inserting(key: Key, expires: int, reading: int)   // no row was seen
    | Caching(key: Key, expires: int)                   // claim committed, memory not yet written
    | Holding(key: Key)                                 // the claim was granted
    | Recording(key: Key, out: Outcome, expires: int)   // result known, row not yet written
    | Settling(key: Key, out: Outcome, expires: int)    // row write done or swallowed

  datatype Event =
    | Granted(key: Key, ts: int, at: int)               // recorded timestamp and commit instant
    | Retried(key: Key)                                 // a retryable outcome was recorded
    | Reset(key: Key)                                   // the row was set to pending from outside
    | Cleaned(keys: set<Key>, reading: int)

  datatype State = State(
    now: int,
    table: Table,
    caches: map<nat, Cache>,
    phases: map<Worker, Phase>,
    log: seq<Event>
  )

  /**
   One atomic section. `acked` is false when a commit took effect but its acknowledgement was
   lost, so the claim raises; `written` is false when the best-effort result write failed.
   */
  datatype Step =
    | Begin(w: Worker, k: Key)
    | CheckMemory(w: Worker)
    | ReadClock(w: Worker)
    | Select(w: Worker, acked: bool)
    | Insert(w: Worker, acked: bool)
    | ClaimFault(w: Worker)
    | CacheClaim(w: Worker)
    | Finish(w: Worker, out: Outcome)
    | Record(w: Worker, written: bool)
    | Settle(w: Worker)
    | Crash(p: nat)
    | Tick(t: int)
    | CleanUp(reading: int)
    | Schedule(k: Key, status: Status)
    | Reopen(k: Key)

  function PhaseOf(s: State, w: Worker): Phase {
    if w in s.phases then s.phases[w] else Idle
  }

  function CacheOf(s: State, p: nat): Cache {
    if p in s.caches then s.caches[p] else map[]
  }

  function Move(s: State, w: Worker, ph: Phase): State {
    s.(phases := s.phases[w := ph])
  }

  function SetCache(s: State, p: nat, c: Cache): State {
    s.(caches := s.caches[p := c])
  }

  /** The claim of `ph.key` commits: the row reads executing at the worker's clock reading. */
  function Commit(s: State, w: Worker, ph: Phase, acked: bool): State
    requires ph.Selecting? || ph.Inserting?
  {
    var s' := s.(table := s.table[ph.key := Row(Executing, ph.reading)]);
    if acked
    then Move(s'.(log := s.log + [Granted(ph.key, ph.reading, s.now)]), w, Caching(ph.key, ph.expires))
    else Move(s', w, Idle)
  }

  function DoSelect(cfg: Config, s: State, w: Worker, acked: bool): State {
    var ph := PhaseOf(s, w);
    if !ph.Selecting? then s
    else if ph.key !in s.table then Move(s, w, Inserting(ph.key, ph.expires, ph.reading))
    else if Claimable(cfg, s.table[ph.key], ph.reading) then Commit(s, w, ph, acked)
    else Move(s, w, Idle)
  }

  function DoInsert(s: State, w: Worker, acked: bool): State {
    var ph := PhaseOf(s, w);
    if !ph.Inserting? then s
    else if ph.key in s.table then Move(s, w, Idle)
    else Commit(s, w, ph, acked)
  }

  function DoRecord(s: State, w: Worker, written: bool): State {
    var ph := PhaseOf(s, w);
    if !ph.Recording? then s
    else
      var s' := Move(s, w, Settling(ph.key, ph.out, ph.expires));
      if !written then s'
      else
        var status := NewStatus(ph.out);
        s'.(table := Recorded(s.table, ph.key, status, s.now),
            log := if status == Pending then s.log + [Retried(ph.key)] else s.log)
  }

  function DoSettle(s: State, w: Worker): State {
    var ph := PhaseOf(s, w);
    if !ph.Settling? then s
    else
      var c := CacheOf(s, w.pid);
      Move(SetCache(s, w.pid, if Evicts(ph.out) then c - {ph.key} else Remembered(c, ph.key, ph.expires, s.now)),
           w, Idle)
  }

  function DoCheck(s: State, w: Worker): State {
    var ph := PhaseOf(s, w);
    if !ph.Checking? then s
    else
      var c := CacheOf(s, w.pid);
      Move(SetCache(s, w.pid, Looked(c, ph.key, s.now)), w,
           if Refuses(c, ph.key, s.now) then Idle else Querying(ph.key, ph.expires))
  }

  function DoCache(s: State, w: Worker): State {
    var ph := PhaseOf(s, w);
    if !ph.Caching? then s
    else Move(SetCache(s, w.pid, Remembered(CacheOf(s, w.pid), ph.key, ph.expires, s.now)), w, Holding(ph.key))
  }

  function DoCleanUp(cfg: Config, s: State, reading: int): State {
    if reading > s.now then s
    else
      var gone := Expired(cfg, s.table, reading);
      s.(table := s.table - gone, log := s.log + [Cleaned(gone, reading)])
  }

  /** One step; a step that is not enabled leaves the state as it is. */
  function Apply(cfg: Config, s: State, step: Step): State {
    match step
    case Begin(w, k) =>
      if PhaseOf(s, w).Idle? then Move(s, w, Checking(k, s.now + cfg.ttl)) else s
    case CheckMemory(w) => DoCheck(s, w)
    case ReadClock(w) =>
      var ph := PhaseOf(s, w);
      if ph.Querying? then Move(s, w, Selecting(ph.key, ph.expires, s.now)) else s
    case Select(w, acked) => DoSelect(cfg, s, w, acked)
    case Insert(w, acked) => DoInsert(s, w, acked)
    case ClaimFault(w) =>
      var ph := PhaseOf(s, w);
      if ph.Selecting? || ph.Inserting? then Move(s, w, Idle) else s
    case CacheClaim(w) => DoCache(s, w)
    case Finish(w, out) =>
      var ph := PhaseOf(s, w);
      if ph.Holding? then Move(s, w, Recording(ph.key, out, s.now + cfg.ttl)) else s
    case Record(w, written) => DoRecord(s, w, written)
    case Settle(w) => DoSettle(s, w)
    case Crash(p) =>
      s.(caches := s.caches - {p}, phases := map w | w in s.phases && w.pid != p :: s.phases[w])
    case Tick(t) => if t >= s.now then s.(now := t) else s
    case CleanUp(reading) => DoCleanUp(cfg, s, reading)
    case Schedule(k, status) =>
      if k !in s.table && (status == Pending || status == Skipped)
      then s.(table := s.table[k := Row(status, s.now)]) else s
    case Reopen(k) =>
      if k in s.table
      then s.(table := s.table[k := s.table[k].(status := Pending)], log := s.log + [Reset(k)]) else s
  }

  /** The state after a whole run of steps. */
  function Run(cfg: Config, s: State, steps: seq<Step>): State
    decreases |steps|
  {
    if steps == [] then s
    else Apply(cfg, Run(cfg, s, steps[..|steps| - 1]), steps[|steps| - 1])
  }

  /** A start: processes are up with empty caches; the table may hold anything. */
  predicate Start(s: State) {
    s.caches == map[] && s.phases == map[] && s.log == []
  }

  lemma RunSnoc(cfg: Config, s: State, steps: seq<Step>, step: Step)
    ensures Run(cfg, s, steps + [step]) == Apply(cfg, Run(cfg, s, steps), step)
  {
    assert (steps + [step])[..|steps + [step]| - 1] == steps;
  }

  lemma {:induction false} RunAppend(cfg: Config, s: State, a: seq<Step>, b: seq<Step>)
    ensures Run(cfg, s, a + b) == Run(cfg, Run(cfg, s, a), b)
    decreases |b|
  {
    if b == [] {
      assert a + b == a;
    } else {
      RunAppend(cfg, s, a, b[..|b| - 1]);
      assert (a + b)[..|a + b| - 1] == a + b[..|b| - 1];
    }
  }

  lemma RunOne(cfg: Config, s: State, a: Step)
    ensures Run(cfg, s, [a]) == Apply(cfg, s, a)
  {
    RunSnoc(cfg, s, [], a);
  }

  // ---------------------------------------------------------------- what the cache and clean-up mean

  /**
   From the instant of a store on, the cache refuses the stored key exactly up to its expiry and
   every other key exactly as before; beyond a thousand records it keeps none that has expired, and
   up to a thousand it keeps them all.
   */
  lemma RememberedRefuses(c: Cache, k: Key, expires: int, now: int, k': Key, t: int)
    requires now <= t
    ensures Refuses(Remembered(c, k, expires, now), k', t)
            <==> if k' == k then t <= expires else k' in c && t <= c[k']
    ensures |Remembered(c, k, expires, now)| > 1000 ==>
              forall x :: x in Remembered(c, k, expires, now) ==> now <= Remembered(c, k, expires, now)[x]
    ensures |c[k := expires]| <= 1000 ==> Remembered(c, k, expires, now) == c[k := expires]
  {
  }

  /** A lookup never changes what is refused from then on, and drops an expired record of its key. */
  lemma LookedRefuses(c: Cache, k: Key, now: int, k': Key, t: int)
    requires now <= t
    ensures Refuses(Looked(c, k, now), k', t) <==> k' in c && t <= c[k']
    ensures k in Looked(c, k, now) ==> now <= Looked(c, k, now)[k]
  {
  }

  /** A clean-up removes exactly the rows older than the TTL at its reading, whatever their status. */
  lemma CleanUpRemoves(cfg: Config, s: State, reading: int, k: Key)
    requires reading <= s.now
    ensures var s' := Apply(cfg, s, CleanUp(reading));
            && (k in s'.table <==> k in s.table && s.table[k].ts >= reading - cfg.ttl)
            && (k in s'.table ==> s'.table[k] == s.table[k])
            && s'.phases == s.phases && s'.caches == s.caches && s'.now == s.now
  {
  }

  /** A sequence of states in which each follows from the one before is a run. */
  lemma {:induction false} ChainIsRun(cfg: Config, states: seq<State>, steps: seq<Step>)
    requires |states| == |steps| + 1
    requires forall i :: 0 <= i < |steps| ==> states[i + 1] == Apply(cfg, states[i], steps[i])
    ensures Run(cfg, states[0], steps) == states[|steps|]
    decreases |steps|
  {
    if steps != [] {
      var n := |steps| - 1;
      ChainIsRun(cfg, states[..n + 1], steps[..n]);
    }
  }
}
