/**
 The serializer object of one process, with the generation table and the advisory locks it shares:
 entering and leaving a hold, proved against the state machine. Generations are kept in memory
 when no database is configured.
 */
module SerializerObject {
  import opened Common
  import opened Serializer

  /** The generation rows, one per account. */
  class GenerationTable {
    var rows: map<Partition, GenRow>

    constructor ()
      ensures rows == map[]
    {
      rows := map[];
    }
  }

  /** The advisory locks of the database server, each held by one connection. */
  class AdvisoryLocks {
    var owners: map<Partition, nat>
    var nextConn: nat

    constructor ()
      ensures owners == map[] && nextConn == 0
    {
      owners, nextConn := map[], 0;
    }

    /** Opens a connection and tries the lock on it; a connection that does not get it is closed. */
    method TryLock(part: Partition) returns (conn: Option<nat>)
      modifies this
      ensures conn.Some? <==> part !in old(owners)
      ensures conn.None? ==> owners == old(owners) && nextConn == old(nextConn)
      ensures conn.Some? ==> conn.value == old(nextConn) && nextConn == conn.value + 1
      ensures conn.Some? ==> owners == old(owners)[part := conn.value]
    {
      if part in owners {
        return None;
      }
      conn := Some(nextConn);
      owners, nextConn := owners[part := nextConn], nextConn + 1;
    }

    /** Unlocks on this connection and closes it; false when the lock was not its own. */
    method Unlock(part: Partition, conn: nat) returns (released: bool)
      modifies this`owners
      ensures released <==> part in old(owners) && old(owners)[part] == conn
      ensures owners == if released then old(owners) - {part} else old(owners)
    {
      released := part in owners && owners[part] == conn;
      if released {
        owners := owners - {part};
      }
    }
  }

  /** How a hold begins. */
  datatype Entered = Inherited(lease: Lease) | Granted(lease: Lease, conn: nat) | Refused

  class AccountExecutionSerializer {
    const pid: nat
    const table: GenerationTable
    const server: AdvisoryLocks
    var locked: set<Partition>
    var memory: map<Partition, nat>
    var current: map<Task, Lease>

    constructor (pid: nat, table: GenerationTable, server: AdvisoryLocks)
      ensures this.pid == pid && this.table == table && this.server == server
      ensures locked == {} && memory == map[] && current == map[]
    {
      this.pid, this.table, this.server := pid, table, server;
      locked, memory, current := {}, map[], map[];
    }

    /** This process's part of a state of the machine, and what all processes share. */
    ghost predicate Matches(s: State)
      reads this, table, server
    {
      && (forall x :: x in locked <==> (pid, x) in s.locals)
      && (forall t: Task :: t.pid == pid ==> (t in current <==> t in s.context))
      && (forall t: Task :: t.pid == pid && t in current ==> current[t] == s.context[t])
      && table.rows == s.gens && server.owners == s.locks && server.nextConn == s.nextConn
    }

    /** Claims the next generation: of the shared row, or of this process's memory. */
    method ClaimGeneration(part: Partition, owner: nat, persist: bool) returns (generation: nat)
      modifies this`memory, table
      ensures persist ==> table.rows == old(table.rows)[part := ClaimedRow(old(table.rows), part, owner)]
      ensures persist ==> generation == table.rows[part].gen && memory == old(memory)
      ensures persist ==> Current(table.rows, Lease(part, owner, generation))
      ensures !persist ==> table.rows == old(table.rows) && memory == old(memory)[part := generation]
      ensures !persist ==> generation == 1 + if part in old(memory) then old(memory)[part] else 0
    {
      if !persist {
        generation := 1;
        if part in memory {
          generation := memory[part] + 1;
        }
        memory := memory[part := generation];
        return;
      }
      if part in table.rows {
        generation := table.rows[part].gen + 1;
      } else {
        generation := 1;
      }
      table.rows := table.rows[part := GenRow(generation, Some(owner))];
    }

    /** Gives the generation back; refused, without touching the row, when the lease is not current. */
    method ReleaseGeneration(lease: Lease, persist: bool) returns (ok: bool)
      modifies table
      ensures ok <==> !persist || Current(old(table.rows), lease)
      ensures table.rows == if persist then Released(old(table.rows), lease) else old(table.rows)
    {
      if !persist {
        return true;
      }
      if lease.part !in table.rows {
        return false;
      }
      var row := table.rows[lease.part];
      if row.gen != lease.gen || row.owner != Some(lease.owner) {
        return false;
      }
      table.rows := table.rows[lease.part := GenRow(lease.gen, None)];
      return true;
    }

    /** The local lock is taken unless a task of this process already has it. */
    method TakeLocal(t: Task, part: Partition, ghost s: State) returns (ok: bool)
      requires Matches(s) && t.pid == pid && PhaseOf(s, t).Out? && t !in s.context
      modifies this`locked
      ensures Matches(DoTryLocal(s, t, part))
      ensures if ok then PhaseOf(DoTryLocal(s, t, part), t) == Locking(part) else DoTryLocal(s, t, part) == s
    {
      if part in locked {
        return false;
      }
      locked := locked + {part};
      return true;
    }

    /** The advisory lock on a connection of its own; without it the local lock is given back. */
    method TakeAdvisory(t: Task, part: Partition, connected: bool, ghost s: State) returns (conn: Option<nat>)
      requires Matches(s) && t.pid == pid && PhaseOf(s, t) == Locking(part)
      modifies this`locked, server
      ensures Matches(DoTryAdvisory(s, t, connected))
      ensures PhaseOf(DoTryAdvisory(s, t, connected), t) == if conn.Some? then Locked(part, conn.value) else Out
    {
      conn := None;
      if connected {
        conn := server.TryLock(part);
      }
      if conn.None? {
        locked := locked - {part};
      }
    }

    /** The generation transaction; a lease once it committed and the caller learnt of it. */
    method TakeLease(t: Task, part: Partition, conn: nat, owner: nat, committed: bool, acked: bool, ghost s: State)
      returns (lease: Option<Lease>)
      requires Matches(s) && t.pid == pid && PhaseOf(s, t) == Locked(part, conn) && owner == s.nextOwner
      modifies this`current, this`memory, table
      ensures Matches(DoClaim(s, t, committed, acked))
      ensures PhaseOf(DoClaim(s, t, committed, acked), t)
              == if lease.Some? then Held(part, conn, lease.value) else Unlocking(part, conn)
      ensures lease.Some? <==> committed && acked
    {
      lease := None;
      if committed {
        var generation := ClaimGeneration(part, owner, true);
        if acked {
          lease := Some(Lease(part, owner, generation));
          current := current[t := lease.value];
        }
      }
    }

    /** The context is reset and the generation given back, unless that call fails or refuses. */
    method GiveBack(t: Task, lease: Lease, conn: nat, healthy: bool, ghost s: State) returns (ok: bool)
      requires Matches(s) && t.pid == pid && PhaseOf(s, t) == Held(lease.part, conn, lease) && Unshared(s, t)
      modifies this`current, table
      ensures Matches(DoExit(s, t, healthy)) && PhaseOf(DoExit(s, t, healthy), t) == Unlocking(lease.part, conn)
      ensures OwnsLock(DoExit(s, t, healthy), t) == OwnsLock(s, t)
      ensures ok <==> healthy && Current(s.gens, lease)
    {
      current := current - {t};
      ok := false;
      if healthy {
        ok := ReleaseGeneration(lease, true);
      }
    }

    /** The advisory lock is released where it is still owned, and the local lock in any case. */
    method Disconnect(t: Task, part: Partition, conn: nat, ghost s: State) returns (released: bool)
      requires Matches(s) && t.pid == pid && PhaseOf(s, t) == Unlocking(part, conn)
      modifies this`locked, server
      ensures Matches(DoUnlock(s, t)) && PhaseOf(DoUnlock(s, t), t).Out? && part !in locked
      ensures released <==> OwnsLock(s, t)
    {
      released := server.Unlock(part, conn);
      locked := locked - {part};
    }

    /**
     Enters a hold. `connected` is false when no connection can be opened; `committed` and `acked`
     say whether the generation transaction took effect and whether the caller learnt of it. The
     object follows the machine through local lock, advisory lock and claim; where any of them
     fails, the clean-up has run by the time the caller sees the failure.
     */
    method Enter(t: Task, part: Partition, owner: nat, connected: bool, committed: bool, acked: bool, ghost s: State)
      returns (e: Entered)
      requires Matches(s) && t.pid == pid && owner == s.nextOwner && (t in s.context || PhaseOf(s, t).Out?)
      modifies this, table, server
      ensures t in s.context ==>
                Matches(s) && e == if Nested(s, t, part).Some? then Inherited(Nested(s, t, part).value) else Refused
      ensures t !in s.context ==>
                var s' := Run(s, EnterSteps(t, part, connected, committed, acked));
                match e
                case Inherited(_) => false
                case Granted(lease, conn) => Matches(s') && PhaseOf(s', t) == Held(part, conn, lease)
                case Refused => Matches(DoUnlock(s', t)) && PhaseOf(DoUnlock(s', t), t).Out?
    {
      if t in current {
        return if current[t].part == part then Inherited(current[t]) else Refused;
      }
      ghost var s1 := DoTryLocal(s, t, part);
      ghost var s2 := DoTryAdvisory(s1, t, connected);
      ghost var s3 := DoClaim(s2, t, committed, acked);
      EnterRun(s, t, part, connected, committed, acked);
      OutStays(s1, t, connected, committed, acked);
      OutStays(s2, t, connected, committed, acked);
      hide Run, DoTryLocal, DoTryAdvisory, DoClaim, DoUnlock, Matches;
      var ok := TakeLocal(t, part, s);
      if !ok {
        return Refused;
      }
      var conn := TakeAdvisory(t, part, connected, s1);
      if conn.None? {
        return Refused;
      }
      OwnerKept(s, t, part, connected);
      var lease := TakeLease(t, part, conn.value, owner, committed, acked, s2);
      if lease.Some? {
        return Granted(lease.value, conn.value);
      }
      var released := Disconnect(t, part, conn.value, s3);
      return Refused;
    }

    /**
     Leaves a hold through its nested clean-up: the release of the generation may fail or refuse,
     the unlock may find the lock gone, and each is attempted whatever happened before. `healthy`
     is false when the release call itself raises. No exception reaches the caller exactly when the
     lease was current and the lock still owned.
     */
    method Exit(t: Task, lease: Lease, conn: nat, healthy: bool, ghost s: State) returns (ok: bool)
      requires Matches(s) && t.pid == pid && PhaseOf(s, t) == Held(lease.part, conn, lease) && Unshared(s, t)
      modifies this`locked, this`current, table, server
      ensures Matches(Run(s, [Step.Exit(t, healthy), Step.Unlock(t)]))
      ensures PhaseOf(Run(s, [Step.Exit(t, healthy), Step.Unlock(t)]), t).Out? && lease.part !in locked
      ensures ok <==> healthy && Current(s.gens, lease) && OwnsLock(s, t)
    {
      ghost var s1 := DoExit(s, t, healthy);
      ChainIsRun([s, s1, DoUnlock(s1, t)], [Step.Exit(t, healthy), Step.Unlock(t)]);
      hide Run, DoExit, DoUnlock, Matches;
      var given := GiveBack(t, lease, conn, healthy, s);
      var unlocked := Disconnect(t, lease.part, conn, s1);
      ok := given && unlocked;
    }
  }

  /** A task that is out is not moved by the later steps of a hold. */
  lemma OutStays(s: State, t: Task, connected: bool, committed: bool, acked: bool)
    ensures PhaseOf(s, t).Out? ==>
              DoTryAdvisory(s, t, connected) == s && DoClaim(s, t, committed, acked) == s && DoUnlock(s, t) == s
  {
  }

  lemma OwnerKept(s: State, t: Task, part: Partition, connected: bool)
    ensures DoTryAdvisory(DoTryLocal(s, t, part), t, connected).nextOwner == s.nextOwner
  {
  }

  function EnterSteps(t: Task, part: Partition, connected: bool, committed: bool, acked: bool): seq<Step> {
    [TryLocal(t, part), TryAdvisory(t, connected), Claim(t, committed, acked)]
  }

  lemma EnterRun(s: State, t: Task, part: Partition, connected: bool, committed: bool, acked: bool)
    ensures Run(s, EnterSteps(t, part, connected, committed, acked))
            == DoClaim(DoTryAdvisory(DoTryLocal(s, t, part), t, connected), t, committed, acked)
  {
    var s1 := Apply(s, TryLocal(t, part));
    var s2 := Apply(s1, TryAdvisory(t, connected));
    ChainIsRun([s, s1, s2, Apply(s2, Claim(t, committed, acked))], EnterSteps(t, part, connected, committed, acked));
  }
}
