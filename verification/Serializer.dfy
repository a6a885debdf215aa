/**
 Account-wide execution authority as a state machine: tasks of many processes acquire a local
 lock, a database advisory lock on a dedicated connection, and a generation, and give them back
 in the opposite order. Processes crash, connections are lost, database calls fail.
 */
module Serializer {
  import opened Common

  /** One (user, broker account) pair. */
  datatype Partition = Partition(user: string, account: int)

  /** Task `tid` of process `pid`. */
  datatype Task = Task(pid: nat, tid: nat)

  /** A writer generation; `owner` stands for the fresh owner name drawn for it. */
  datatype Lease = Lease(part: Partition, owner: nat, gen: nat)

  /** The audit row of a partition; no owner once released. */
  datatype GenRow = GenRow(gen: nat, owner: Option<nat>)

  /** Where a task stands in its outermost hold. */
  datatype Phase =
    | Out
    | Locking(part: Partition)                          // local lock taken
    | Locked(part: Partition, conn: nat)                // advisory lock granted
    | Held(part: Partition, conn: nat, lease: Lease)    // generation claimed, lease in context
    | Unlocking(part: Partition, conn: nat)             // generation given back, or that raised

  datatype State = State(
    locals: set<(nat, Partition)>,
    locks: map<Partition, nat>,
    gens: map<Partition, GenRow>,
    phases: map<Task, Phase>,
    context: map<Task, Lease>,
    nextConn: nat,
    nextOwner: nat,
    issued: seq<Lease>
  )

  datatype Step =
    | TryLocal(t: Task, part: Partition)
    | TryAdvisory(t: Task, connected: bool)
    | Claim(t: Task, committed: bool, acked: bool)
    | Exit(t: Task, healthy: bool)
    | Unlock(t: Task)
    | Spawn(t: Task, child: Task)
    | Join(t: Task)
    | Lose(conn: nat)
    | Crash(pid: nat)

  function PhaseOf(s: State, t: Task): Phase {
    if t in s.phases then s.phases[t] else Out
  }

  predicate HasConn(ph: Phase) {
    ph.Locked? || ph.Held? || ph.Unlocking?
  }

  /** The task's connection still holds the advisory lock of its partition. */
  predicate OwnsLock(s: State, t: Task) {
    var ph := PhaseOf(s, t);
    HasConn(ph) && ph.part in s.locks && s.locks[ph.part] == ph.conn
  }

  /** The row a claim writes. */
  function ClaimedRow(gens: map<Partition, GenRow>, part: Partition, owner: nat): GenRow {
    GenRow(if part in gens then gens[part].gen + 1 else 1, Some(owner))
  }

  /** The row still carries this lease's generation and owner. */
  predicate Current(gens: map<Partition, GenRow>, l: Lease) {
    l.part in gens && gens[l.part] == GenRow(l.gen, Some(l.owner))
  }

  /** The rows after a release; a lease that is not current raises and changes nothing. */
  function Released(gens: map<Partition, GenRow>, l: Lease): map<Partition, GenRow> {
    if Current(gens, l) then gens[l.part := GenRow(l.gen, None)] else gens
  }

  /** A nested hold: the inherited lease for the same account, else it raises. */
  function Nested(s: State, t: Task, part: Partition): Option<Lease> {
    if t in s.context && s.context[t].part == part then Some(s.context[t]) else None
  }

  function Move(s: State, t: Task, ph: Phase): State {
    s.(phases := s.phases[t := ph])
  }

  /** The task leaves: its local lock is released, its connection closed. */
  function Leave(s: State, t: Task): State {
    var ph := PhaseOf(s, t);
    if ph.Out? then s
    else
      var s' := Move(s.(locals := s.locals - {(t.pid, ph.part)}), t, Out);
      if OwnsLock(s, t) then s'.(locks := s.locks - {ph.part}) else s'
  }

  function DoTryLocal(s: State, t: Task, part: Partition): State {
    if !PhaseOf(s, t).Out? || t in s.context || (t.pid, part) in s.locals then s
    else Move(s.(locals := s.locals + {(t.pid, part)}), t, Locking(part))
  }

  /** A lock already held, or a connection that cannot be opened, sends the caller away. */
  function DoTryAdvisory(s: State, t: Task, connected: bool): State {
    var ph := PhaseOf(s, t);
    if !ph.Locking? then s
    else if !connected || ph.part in s.locks then Leave(s, t)
    else Move(s.(locks := s.locks[ph.part := s.nextConn], nextConn := s.nextConn + 1), t, Locked(ph.part, s.nextConn))
  }

  /** The generation transaction may fail before or after its commit. */
  function DoClaim(s: State, t: Task, committed: bool, acked: bool): State {
    var ph := PhaseOf(s, t);
    if !ph.Locked? then s
    else
      var row := ClaimedRow(s.gens, ph.part, s.nextOwner);
      var l := Lease(ph.part, s.nextOwner, row.gen);
      var s' := s.(gens := if committed then s.gens[ph.part := row] else s.gens, nextOwner := s.nextOwner + 1);
      if committed && acked
      then Move(s'.(context := s.context[t := l], issued := s.issued + [l]), t, Held(ph.part, ph.conn, l))
      else Move(s', t, Unlocking(ph.part, ph.conn))
  }

  /** No other task still carries the lease in its context. */
  predicate Unshared(s: State, t: Task) {
    forall u :: u in s.context && u != t ==> t in s.context ==> s.context[u] != s.context[t]
  }

  function DoExit(s: State, t: Task, healthy: bool): State {
    var ph := PhaseOf(s, t);
    if !ph.Held? || !Unshared(s, t) then s
    else Move(s.(context := s.context - {t}, gens := if healthy then Released(s.gens, ph.lease) else s.gens),
              t, Unlocking(ph.part, ph.conn))
  }

  function DoUnlock(s: State, t: Task): State {
    if PhaseOf(s, t).Unlocking? then Leave(s, t) else s
  }

  /** A child task starts with a copy of its parent's context. */
  function DoSpawn(s: State, t: Task, child: Task): State {
    if t in s.context && child.pid == t.pid && child !in s.context && PhaseOf(s, child).Out?
    then s.(context := s.context[child := s.context[t]]) else s
  }

  function DoJoin(s: State, t: Task): State {
    if PhaseOf(s, t).Out? then s.(context := s.context - {t}) else s
  }

  function DoCrash(s: State, pid: nat): State {
    s.(locals := (set x | x in s.locals && x.0 != pid),
       locks := map x | x in s.locks && !OwnedBy(s, x, pid) :: s.locks[x],
       phases := map t | t in s.phases && t.pid != pid :: s.phases[t],
       context := map t | t in s.context && t.pid != pid :: s.context[t])
  }

  /** Some task of the process opened the connection that holds the lock. */
  predicate OwnedBy(s: State, part: Partition, pid: nat) {
    exists t :: t in s.phases && t.pid == pid && OwnsLock(s, t) && PhaseOf(s, t).part == part
  }

  /** One step; a step that is not enabled leaves the state as it is. */
  function Apply(s: State, step: Step): State {
    match step
    case TryLocal(t, part) => DoTryLocal(s, t, part)
    case TryAdvisory(t, connected) => DoTryAdvisory(s, t, connected)
    case Claim(t, committed, acked) => DoClaim(s, t, committed, acked)
    case Exit(t, healthy) => DoExit(s, t, healthy)
    case Unlock(t) => DoUnlock(s, t)
    case Spawn(t, child) => DoSpawn(s, t, child)
    case Join(t) => DoJoin(s, t)
    case Lose(conn) => s.(locks := map x | x in s.locks && s.locks[x] != conn :: s.locks[x])
    case Crash(pid) => DoCrash(s, pid)
  }

  function Run(s: State, steps: seq<Step>): State
    decreases |steps|
  {
    if steps == [] then s else Apply(Run(s, steps[..|steps| - 1]), steps[|steps| - 1])
  }

  const START := State({}, map[], map[], map[], map[], 0, 0, [])

  lemma {:induction false} RunAppend(s: State, a: seq<Step>, b: seq<Step>)
    ensures Run(s, a + b) == Run(Run(s, a), b)
    decreases |b|
  {
    if b == [] {
      assert a + b == a;
    } else {
      RunAppend(s, a, b[..|b| - 1]);
      assert (a + b)[..|a + b| - 1] == a + b[..|b| - 1];
    }
  }

  /** A sequence of states in which each follows from the one before is a run. */
  lemma {:induction false} ChainIsRun(states: seq<State>, steps: seq<Step>)
    requires |states| == |steps| + 1
    requires forall i :: 0 <= i < |steps| ==> states[i + 1] == Apply(states[i], steps[i])
    ensures Run(states[0], steps) == states[|steps|]
    decreases |steps|
  {
    if steps != [] {
      ChainIsRun(states[..|steps|], steps[..|steps| - 1]);
    }
  }
}
