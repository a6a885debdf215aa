/** One writer per account: what every run of the serializer keeps. */
module SerializerSafety {
  import opened Common
  import opened Serializer

  /** The step is taken by task t itself. */
  predicate Acts(step: Step, t: Task) {
    match step
    case TryLocal(u, _) => u == t
    case TryAdvisory(u, _) => u == t
    case Claim(u, _, _) => u == t
    case Exit(u, _) => u == t
    case Unlock(u) => u == t
    case _ => false
  }

  /** The phases a task's own step can lead to. */
  predicate Follows(s: State, ph: Phase, ph': Phase) {
    || ph' == ph
    || (ph.Out? && ph'.Locking?)
    || (ph.Locking? && (ph'.Out? || ph' == Locked(ph.part, s.nextConn)))
    || (ph.Locked? && (ph' == Unlocking(ph.part, ph.conn) || (ph'.Held? && ph'.part == ph.part && ph'.conn == ph.conn)))
    || (ph.Held? && ph' == Unlocking(ph.part, ph.conn))
    || (ph.Unlocking? && ph'.Out?)
  }

  lemma PhaseStep(s: State, step: Step, t: Task)
    ensures Acts(step, t) ==> Follows(s, PhaseOf(s, t), PhaseOf(Apply(s, step), t))
    ensures !Acts(step, t) ==>
              || PhaseOf(Apply(s, step), t) == PhaseOf(s, t)
              || (step == Crash(t.pid) && PhaseOf(Apply(s, step), t).Out?)
  {
  }

  /** The task is inside the partition: it has taken the local lock and not yet left. */
  predicate Inside(s: State, t: Task, part: Partition) {
    !PhaseOf(s, t).Out? && PhaseOf(s, t).part == part
  }

  /** A local lock is held exactly while one task of the process is inside the partition. */
  ghost predicate LocalInv(s: State) {
    && (forall t, x :: Inside(s, t, x) ==> (t.pid, x) in s.locals)
    && (forall t, u, x :: Inside(s, t, x) && Inside(s, u, x) && t.pid == u.pid ==> t == u)
    && (forall p, x :: (p, x) in s.locals ==> exists t: Task :: t.pid == p && Inside(s, t, x))
  }

  lemma LocalGained(s: State, step: Step, p: nat, x: Partition)
    requires (p, x) in Apply(s, step).locals && (p, x) !in s.locals
    ensures step.TryLocal? && step.t.pid == p && Inside(Apply(s, step), step.t, x)
  {
  }

  lemma LocalLost(s: State, step: Step, p: nat, x: Partition)
    requires (p, x) in s.locals && (p, x) !in Apply(s, step).locals
    ensures || step == Crash(p)
            || ((step.TryAdvisory? || step.Unlock?) && step.t.pid == p && Inside(s, step.t, x)
                && PhaseOf(Apply(s, step), step.t).Out?)
  {
  }

  /** Every exit path frees the local lock. */
  lemma LeavingFreesLocal(s: State, step: Step, t: Task, x: Partition)
    requires Inside(s, t, x) && !Inside(Apply(s, step), t, x)
    ensures (t.pid, x) !in Apply(s, step).locals
  {
    PhaseStep(s, step, t);
  }

  lemma InsideStep(s: State, step: Step, t: Task, x: Partition)
    requires Inside(Apply(s, step), t, x)
    ensures Inside(s, t, x) || (step == TryLocal(t, x) && (t.pid, x) !in s.locals &&
              (t.pid, x) in Apply(s, step).locals)
  {
    PhaseStep(s, step, t);
  }

  lemma LocalKept(s: State, step: Step)
    requires LocalInv(s)
    ensures LocalInv(Apply(s, step))
  {
    var s' := Apply(s, step);
    forall t, x | Inside(s', t, x) ensures (t.pid, x) in s'.locals {
      InsideStep(s, step, t, x);
      if Inside(s, t, x) && (t.pid, x) !in s'.locals {
        LocalLost(s, step, t.pid, x);
        PhaseStep(s, step, t);
      }
    }
    forall t, u, x | Inside(s', t, x) && Inside(s', u, x) && t.pid == u.pid ensures t == u {
      InsideStep(s, step, t, x);
      InsideStep(s, step, u, x);
    }
    forall p, x | (p, x) in s'.locals ensures exists t: Task :: t.pid == p && Inside(s', t, x) {
      if (p, x) in s.locals {
        var t: Task :| t.pid == p && Inside(s, t, x);
        if !Inside(s', t, x) { LeavingFreesLocal(s, step, t, x); }
      } else {
        LocalGained(s, step, p, x);
      }
    }
  }

  predicate Uses(s: State, t: Task, conn: nat) {
    HasConn(PhaseOf(s, t)) && PhaseOf(s, t).conn == conn
  }

  /** Connections are dedicated, and every advisory lock belongs to a task that will close it. */
  ghost predicate LockInv(s: State) {
    && (forall t, c: nat :: Uses(s, t, c) ==> c < s.nextConn)
    && (forall t, u, c: nat :: Uses(s, t, c) && Uses(s, u, c) ==> t == u)
    && (forall x :: x in s.locks ==> exists t :: Uses(s, t, s.locks[x]) && Inside(s, t, x))
  }

  lemma UsesStep(s: State, step: Step, t: Task, c: nat)
    requires Uses(Apply(s, step), t, c)
    ensures Uses(s, t, c) || (step.TryAdvisory? && step.t == t && c == s.nextConn && Apply(s, step).nextConn == c + 1)
    ensures s.nextConn <= Apply(s, step).nextConn
  {
    PhaseStep(s, step, t);
  }

  /** A lock that survives a step keeps its holder. */
  lemma LockStep(s: State, step: Step, x: Partition, t: Task)
    requires x in s.locks && Uses(s, t, s.locks[x]) && Inside(s, t, x) && x in Apply(s, step).locks
    ensures Apply(s, step).locks[x] == s.locks[x] && Uses(Apply(s, step), t, s.locks[x]) && Inside(Apply(s, step), t, x)
  {
    PhaseStep(s, step, t);
    assert OwnsLock(s, t);
  }

  lemma LockGained(s: State, step: Step, x: Partition)
    requires x in Apply(s, step).locks && x !in s.locks
    ensures step.TryAdvisory? && Uses(Apply(s, step), step.t, Apply(s, step).locks[x]) &&
              Inside(Apply(s, step), step.t, x)
  {
  }

  lemma LockKept(s: State, step: Step)
    requires LockInv(s)
    ensures LockInv(Apply(s, step))
  {
    var s' := Apply(s, step);
    forall t, c: nat | Uses(s', t, c) ensures c < s'.nextConn {
      UsesStep(s, step, t, c);
    }
    forall t, u, c: nat | Uses(s', t, c) && Uses(s', u, c) ensures t == u {
      UsesStep(s, step, t, c);
      UsesStep(s, step, u, c);
    }
    forall x | x in s'.locks ensures exists t :: Uses(s', t, s'.locks[x]) && Inside(s', t, x) {
      if x in s.locks {
        var t :| Uses(s, t, s.locks[x]) && Inside(s, t, x);
        LockStep(s, step, x, t);
      } else {
        LockGained(s, step, x);
      }
    }
  }

  predicate Holds(s: State, t: Task, l: Lease) {
    PhaseOf(s, t).Held? && PhaseOf(s, t).lease == l
  }

  /** Generations only grow; every lease was issued, under an owner of its own. */
  ghost predicate GenInv(s: State) {
    && (forall l :: l in s.issued ==> l.owner < s.nextOwner && l.part in s.gens && l.gen <= s.gens[l.part].gen)
    && (forall i, j :: 0 <= i < j < |s.issued| ==>
          && s.issued[i].owner < s.issued[j].owner
          && (s.issued[i].part == s.issued[j].part ==> s.issued[i].gen < s.issued[j].gen))
    && (forall t, l :: Holds(s, t, l) ==> l in s.issued && Inside(s, t, l.part))
    && (forall t, u, l :: Holds(s, t, l) && Holds(s, u, l) ==> t == u)
  }

  lemma HoldStep(s: State, step: Step, t: Task, l: Lease)
    requires Holds(Apply(s, step), t, l)
    ensures Holds(s, t, l) || (step.Claim? && step.t == t && Apply(s, step).issued == s.issued + [l]
                               && l.part == PhaseOf(Apply(s, step), t).part && l.owner == s.nextOwner)
  {
    PhaseStep(s, step, t);
  }

  lemma GenKept(s: State, step: Step)
    requires GenInv(s)
    ensures GenInv(Apply(s, step))
  {
    hide Apply;
    var s' := Apply(s, step);
    RowsGrow(s, step);
    IssuedGrow(s, step);
    forall t, l | Holds(s', t, l) ensures l in s'.issued && Inside(s', t, l.part) {
      HoldStep(s, step, t, l);
      if Holds(s, t, l) { PhaseStep(s, step, t); }
    }
    forall t, u, l | Holds(s', t, l) && Holds(s', u, l) ensures t == u {
      HoldStep(s, step, t, l);
      HoldStep(s, step, u, l);
    }
  }

  lemma RowsGrow(s: State, step: Step)
    ensures s.nextOwner <= Apply(s, step).nextOwner
    ensures forall x :: x in s.gens ==> x in Apply(s, step).gens && s.gens[x].gen <= Apply(s, step).gens[x].gen
  {
    if !step.Claim? && !step.Exit? { assert Apply(s, step).gens == s.gens; }
  }

  lemma IssuedGrow(s: State, step: Step)
    requires GenInv(s)
    ensures var s' := Apply(s, step);
            || s'.issued == s.issued
            || exists l :: && s'.issued == s.issued + [l] && l.owner == s.nextOwner < s'.nextOwner
                           && l.part in s'.gens && l.gen == s'.gens[l.part].gen
                           && (l.part in s.gens ==> s.gens[l.part].gen < l.gen)
  {
  }

  predicate Carries(s: State, t: Task, l: Lease) {
    t in s.context && s.context[t] == l
  }

  /** A lease in a task's context is held, right now, by a task of the same process. */
  ghost predicate ContextInv(s: State) {
    && (forall t, l :: Carries(s, t, l) ==> exists h: Task :: h.pid == t.pid && Holds(s, h, l))
    && (forall t, l :: Holds(s, t, l) ==> t in s.context && s.context[t] == l)
  }

  lemma CarryStep(s: State, step: Step, t: Task, l: Lease)
    requires Carries(Apply(s, step), t, l)
    ensures step != Crash(t.pid)
    ensures || Carries(s, t, l)
            || (step.Claim? && step.t == t && Holds(Apply(s, step), t, l))
            || (step.Spawn? && step.child == t && step.t.pid == t.pid && Carries(s, step.t, l))
  {
  }

  lemma ExitUnshared(s: State, t: Task, healthy: bool, l: Lease)
    requires Holds(s, t, l) && Carries(s, t, l) && !Holds(Apply(s, Exit(t, healthy)), t, l)
    ensures forall u :: !Carries(Apply(s, Exit(t, healthy)), u, l)
  {
    forall u ensures !Carries(Apply(s, Exit(t, healthy)), u, l) {
      if u != t && u in s.context { assert s.context[u] != s.context[t]; }
    }
  }

  /** A holder keeps its lease while any task of its process carries it. */
  lemma HolderStays(s: State, step: Step, h: Task, t: Task, l: Lease)
    requires h.pid == t.pid && Holds(s, h, l) && Carries(s, h, l) && Carries(Apply(s, step), t, l)
    ensures Holds(Apply(s, step), h, l)
  {
    PhaseStep(s, step, h);
    CarryStep(s, step, t, l);
    if step.Exit? && step.t == h && !Holds(Apply(s, step), h, l) {
      ExitUnshared(s, h, step.healthy, l);
    }
  }

  lemma CarrierHasHolder(s: State, step: Step, t: Task, l: Lease) returns (h: Task)
    requires ContextInv(s) && Carries(Apply(s, step), t, l)
    ensures h.pid == t.pid && Holds(Apply(s, step), h, l)
  {
    CarryStep(s, step, t, l);
    if step.Claim? && step.t == t && Holds(Apply(s, step), t, l) {
      h := t;
    } else {
      var from := if Carries(s, t, l) then t else step.t;
      assert Carries(s, from, l);
      h :| h.pid == from.pid && Holds(s, h, l);
      HolderStays(s, step, h, t, l);
    }
  }

  lemma ContextKept(s: State, step: Step)
    requires ContextInv(s)
    ensures ContextInv(Apply(s, step))
  {
    forall t, l | Carries(Apply(s, step), t, l)
      ensures exists h: Task :: h.pid == t.pid && Holds(Apply(s, step), h, l)
    {
      var h := CarrierHasHolder(s, step, t, l);
    }
    forall t, l | Holds(Apply(s, step), t, l) ensures Carries(Apply(s, step), t, l) {
      HolderCarries(s, step, t, l);
    }
  }

  lemma HolderCarries(s: State, step: Step, t: Task, l: Lease)
    requires Holds(s, t, l) ==> Carries(s, t, l)
    requires Holds(Apply(s, step), t, l)
    ensures Carries(Apply(s, step), t, l)
  {
    HoldStep(s, step, t, l);
  }

  ghost predicate Inv(s: State) {
    LocalInv(s) && LockInv(s) && GenInv(s) && ContextInv(s)
  }

  lemma {:induction false} InvAlways(steps: seq<Step>)
    ensures Inv(Run(START, steps))
    decreases |steps|
  {
    if steps != [] {
      var s := Run(START, steps[..|steps| - 1]);
      var step := steps[|steps| - 1];
      InvAlways(steps[..|steps| - 1]);
      LocalKept(s, step);
      LockKept(s, step);
      GenKept(s, step);
      ContextKept(s, step);
    }
  }

  // ---------------------------------------------------------------- main results

  /** In every run at most one task per account holds a lease under the advisory lock. */
  lemma OneLiveLease(steps: seq<Step>, t: Task, u: Task)
    requires var s := Run(START, steps);
             PhaseOf(s, t).Held? && PhaseOf(s, u).Held? && PhaseOf(s, t).part == PhaseOf(s, u).part
             && OwnsLock(s, t) && OwnsLock(s, u)
    ensures t == u
  {
    InvAlways(steps);
    var s := Run(START, steps);
    assert Uses(s, t, PhaseOf(s, t).conn) && Uses(s, u, PhaseOf(s, t).conn);
  }

  /** Successive leases of one account carry strictly increasing generations and fresh owners. */
  lemma GenerationsIncrease(steps: seq<Step>, i: nat, j: nat)
    requires i < j < |Run(START, steps).issued| && Run(START, steps).issued[i].part == Run(START, steps).issued[j].part
    ensures Run(START, steps).issued[i].gen < Run(START, steps).issued[j].gen
    ensures Run(START, steps).issued[i].owner != Run(START, steps).issued[j].owner
  {
    InvAlways(steps);
  }

  /** A nested hold returns the outer lease, which a task of the same process holds, and never another account's. */
  lemma NestedReturnsOuter(steps: seq<Step>, t: Task, part: Partition)
    requires t in Run(START, steps).context
    ensures var s := Run(START, steps); var l := s.context[t];
            && (Nested(s, t, part) == if l.part == part then Some(l) else None)
            && exists h: Task :: h.pid == t.pid && Holds(s, h, l) && Inside(s, h, l.part)
  {
    InvAlways(steps);
    var s := Run(START, steps);
    assert Carries(s, t, s.context[t]);
    var h: Task :| h.pid == t.pid && Holds(s, h, s.context[t]);
    assert Inside(s, h, s.context[t].part);
  }

  /** In every run a local lock is taken exactly while a task of that process is inside, so none is leaked. */
  lemma LocalLocksMatchTasks(steps: seq<Step>, p: nat, x: Partition)
    ensures var s := Run(START, steps);
            (p, x) in s.locals <==> exists t: Task :: t.pid == p && Inside(s, t, x)
  {
    InvAlways(steps);
  }

  /** The step commits a generation of the account. */
  predicate Commits(s: State, step: Step, x: Partition) {
    step.Claim? && step.committed && PhaseOf(s, step.t).Locked? && PhaseOf(s, step.t).part == x
  }

  /** While a task holds its lease, only a commit of the account takes the row away from it. */
  lemma CurrentStep(s: State, step: Step, t: Task, l: Lease)
    requires GenInv(s) && Holds(s, t, l) && Holds(Apply(s, step), t, l)
    ensures Current(Apply(s, step).gens, l) <==> Current(s.gens, l) && !Commits(s, step, l.part)
  {
    assert l in s.issued;
    if step.Exit? && PhaseOf(s, step.t).Held? {
      assert Holds(s, step.t, PhaseOf(s, step.t).lease);
      if PhaseOf(s, step.t).lease == l { assert step.t == t; }
    }
  }

  // ---------------------------------------------------------------- without lost connections

  /** Every task past the advisory lock still owns it, and every holder's row is current. */
  ghost predicate Connected(s: State) {
    && (forall t :: HasConn(PhaseOf(s, t)) ==> OwnsLock(s, t))
    && (forall t, l :: Holds(s, t, l) ==> Current(s.gens, l))
  }

  lemma SameLockSameTask(s: State, t: Task, u: Task)
    requires LockInv(s) && OwnsLock(s, t) && OwnsLock(s, u) && PhaseOf(s, t).part == PhaseOf(s, u).part
    ensures t == u
  {
    assert Uses(s, t, PhaseOf(s, t).conn) && Uses(s, u, PhaseOf(s, t).conn);
  }

  lemma OwnsKept(s: State, step: Step, t: Task)
    requires LockInv(s) && HasConn(PhaseOf(Apply(s, step), t)) && step != Lose(PhaseOf(Apply(s, step), t).conn)
    requires HasConn(PhaseOf(s, t)) ==> OwnsLock(s, t)
    ensures OwnsLock(Apply(s, step), t)
  {
    PhaseStep(s, step, t);
    if HasConn(PhaseOf(s, t)) {
      hide Apply, LockInv, OwnedBy;
      var x := PhaseOf(s, t).part;
      if x !in Apply(s, step).locks || Apply(s, step).locks[x] != s.locks[x] {
        LockLost(s, step, x);
        if step.Crash? {
          var u := OwnerOf(s, x, step.pid);
          SameLockSameTask(s, t, u);
        } else if !step.Lose? {
          SameLockSameTask(s, t, step.t);
        }
      }
    }
  }

  lemma OwnerOf(s: State, x: Partition, pid: nat) returns (u: Task)
    requires OwnedBy(s, x, pid)
    ensures u.pid == pid && OwnsLock(s, u) && PhaseOf(s, u).part == x
  {
    u :| u in s.phases && u.pid == pid && OwnsLock(s, u) && PhaseOf(s, u).part == x;
  }

  /** How an advisory lock can go: with its connection, its process, or its leaving owner. */
  lemma LockLost(s: State, step: Step, x: Partition)
    requires x in s.locks && (x !in Apply(s, step).locks || Apply(s, step).locks[x] != s.locks[x])
    ensures || step == Lose(s.locks[x])
            || (step.Crash? && OwnedBy(s, x, step.pid))
            || ((step.TryAdvisory? || step.Unlock?) && OwnsLock(s, step.t) && PhaseOf(s, step.t).part == x
                && !HasConn(PhaseOf(Apply(s, step), step.t)))
  {
  }

  lemma CurrentKept(s: State, step: Step, t: Task, l: Lease)
    requires Inv(s) && Connected(s) && Holds(Apply(s, step), t, l)
    ensures Current(Apply(s, step).gens, l)
  {
    HoldStep(s, step, t, l);
    if Holds(s, t, l) {
      hide Apply;
      CurrentStep(s, step, t, l);
      if Commits(s, step, l.part) {
        assert OwnsLock(s, t) && OwnsLock(s, step.t) && Inside(s, t, l.part);
        SameLockSameTask(s, t, step.t);
      }
    }
  }

  lemma {:induction false} ConnectedAlways(steps: seq<Step>)
    requires forall n :: 0 <= n < |steps| ==> !steps[n].Lose?
    ensures Connected(Run(START, steps))
    decreases |steps|
  {
    if steps != [] {
      var s := Run(START, steps[..|steps| - 1]);
      var step := steps[|steps| - 1];
      ConnectedAlways(steps[..|steps| - 1]);
      InvAlways(steps[..|steps| - 1]);
      forall t | HasConn(PhaseOf(Apply(s, step), t)) ensures OwnsLock(Apply(s, step), t) {
        OwnsKept(s, step, t);
      }
      forall t, l | Holds(Apply(s, step), t, l) ensures Current(Apply(s, step).gens, l) {
        CurrentKept(s, step, t, l);
      }
    }
  }

  /**
   Without a lost connection, crashes and failing calls included, at most one task of all
   processes holds a lease of an account, and a healthy release never raises.
   */
  lemma OneHolderWithoutLoss(steps: seq<Step>, t: Task, u: Task)
    requires forall n :: 0 <= n < |steps| ==> !steps[n].Lose?
    requires var s := Run(START, steps);
             PhaseOf(s, t).Held? && PhaseOf(s, u).Held? && PhaseOf(s, t).part == PhaseOf(s, u).part
    ensures t == u && Current(Run(START, steps).gens, PhaseOf(Run(START, steps), t).lease)
  {
    ConnectedAlways(steps);
    OneLiveLease(steps, t, u);
    assert Holds(Run(START, steps), t, PhaseOf(Run(START, steps), t).lease);
  }

  // ---------------------------------------------------------------- overtaken holders

  /** Step n claimed the lease for task t, which has held it ever since. */
  ghost predicate HeldFrom(steps: seq<Step>, n: nat, t: Task, l: Lease) {
    && n < |steps| && Commits(Run(START, steps[..n]), steps[n], l.part) && steps[n].t == t
    && forall m :: n < m <= |steps| ==> Holds(Run(START, steps[..m]), t, l)
  }

  /** A claim of the account committed after step n. */
  ghost predicate Overtaken(steps: seq<Step>, n: nat, x: Partition) {
    exists m :: n < m < |steps| && Commits(Run(START, steps[..m]), steps[m], x)
  }

  lemma {:induction false} HeldSince(steps: seq<Step>, t: Task, l: Lease) returns (n: nat)
    requires Holds(Run(START, steps), t, l)
    ensures HeldFrom(steps, n, t, l)
    decreases |steps|
  {
    var k := |steps| - 1;
    var init := steps[..k];
    assert steps[..|steps|] == steps;
    HoldStep(Run(START, init), steps[k], t, l);
    if Holds(Run(START, init), t, l) {
      n := HeldSince(init, t, l);
      assert forall m :: 0 <= m <= k ==> init[..m] == steps[..m];
    } else {
      n := k;
    }
  }

  lemma {:induction false} CurrentFrom(steps: seq<Step>, n: nat, t: Task, l: Lease)
    requires HeldFrom(steps, n, t, l)
    ensures Current(Run(START, steps).gens, l) <==> !Overtaken(steps, n, l.part)
    decreases |steps|
  {
    hide LocalInv, LockInv, ContextInv;
    var k := |steps| - 1;
    var init := steps[..k];
    assert steps[..|steps|] == steps && Run(START, steps) == Apply(Run(START, init), steps[k]);
    if n < k {
      assert forall m :: 0 <= m <= k ==> init[..m] == steps[..m];
      CurrentFrom(init, n, t, l);
      InvAlways(init);
      CurrentStep(Run(START, init), steps[k], t, l);
      OvertakenSnoc(steps, n, l.part);
    }
  }

  lemma OvertakenSnoc(steps: seq<Step>, n: nat, x: Partition)
    requires n < |steps| - 1
    ensures var k := |steps| - 1;
            Overtaken(steps, n, x) <==> Overtaken(steps[..k], n, x) || Commits(Run(START, steps[..k]), steps[k], x)
  {
    var k := |steps| - 1;
    assert forall m :: 0 <= m <= k ==> steps[..k][..m] == steps[..m];
    if Overtaken(steps[..k], n, x) {
      var m :| n < m < k && Commits(Run(START, steps[..k][..m]), steps[..k][m], x);
      assert Commits(Run(START, steps[..m]), steps[m], x);
    }
  }

  /**
   In every run a holder's row is its own exactly when no claim of the account committed after its
   own; otherwise its exit raises and leaves the row as it is. Either way leaving frees the local lock.
   */
  lemma OvertakenReleaseRaises(steps: seq<Step>, t: Task, l: Lease, healthy: bool) returns (n: nat)
    requires Holds(Run(START, steps), t, l)
    ensures HeldFrom(steps, n, t, l)
    ensures Current(Run(START, steps).gens, l) <==> !Overtaken(steps, n, l.part)
    ensures var s := Run(START, steps); var s' := Apply(s, Exit(t, healthy));
            && (Overtaken(steps, n, l.part) ==> s'.gens == s.gens)
            && (!Overtaken(steps, n, l.part) && healthy && Unshared(s, t) ==>
                  s'.gens == s.gens[l.part := GenRow(l.gen, None)])
            && (PhaseOf(s', t).Unlocking? ==> (t.pid, l.part) !in Apply(s', Unlock(t)).locals)
  {
    hide Run, HeldFrom, Overtaken;
    n := HeldSince(steps, t, l);
    CurrentFrom(steps, n, t, l);
    InvAlways(steps);
    assert Inside(Run(START, steps), t, l.part);
    hide Inv;
  }

  /** Step j loses the connection while task u uses it. */
  ghost predicate LostInUse(steps: seq<Step>, j: nat, u: Task, conn: nat) {
    j < |steps| && steps[j] == Lose(conn) && Uses(Run(START, steps[..j]), u, conn)
  }

  /** A connected task that does not own its lock lost its connection, in use by then, earlier in the run. */
  lemma {:induction false} LossBehind(steps: seq<Step>, u: Task) returns (j: nat)
    requires HasConn(PhaseOf(Run(START, steps), u)) && !OwnsLock(Run(START, steps), u)
    ensures j < |steps| && LostInUse(steps, j, u, PhaseOf(Run(START, steps), u).conn)
    decreases |steps|
  {
    var k := |steps| - 1;
    var s := Run(START, steps[..k]);
    j := k;
    PhaseStep(s, steps[k], u);
    if steps[k] != Lose(PhaseOf(Run(START, steps), u).conn) {
      InvAlways(steps[..k]);
      if !HasConn(PhaseOf(s, u)) || OwnsLock(s, u) {
        OwnsKept(s, steps[k], u);
      } else {
        j := LossBehind(steps[..k], u);
        assert steps[..k][..j] == steps[..j];
      }
    }
  }

  /** A lock once lost is never regained on the same connection. */
  lemma OwnedBefore(s: State, step: Step, t: Task)
    requires LockInv(s) && OwnsLock(Apply(s, step), t) && HasConn(PhaseOf(s, t))
    ensures OwnsLock(s, t)
  {
    PhaseStep(s, step, t);
    assert Uses(s, t, PhaseOf(s, t).conn);
  }

  lemma {:induction false} OwnedSince(steps: seq<Step>, n: nat, t: Task, l: Lease, m: nat)
    requires HeldFrom(steps, n, t, l) && n < m <= |steps| && OwnsLock(Run(START, steps), t)
    ensures OwnsLock(Run(START, steps[..m]), t)
    decreases |steps|
  {
    hide Apply, LockInv;
    var k := |steps| - 1;
    assert steps[..|steps|] == steps;
    if m <= k {
      InvAlways(steps[..k]);
      assert Holds(Run(START, steps[..k]), t, l);
      OwnedBefore(Run(START, steps[..k]), steps[k], t);
      assert forall i :: 0 <= i <= k ==> steps[..k][..i] == steps[..i];
      OwnedSince(steps[..k], n, t, l, m);
    }
  }

  /** Step m commits a claim of the account by a task whose connection was lost since it locked the account. */
  ghost predicate LateClaim(steps: seq<Step>, m: nat, x: Partition) {
    && m < |steps| && Commits(Run(START, steps[..m]), steps[m], x)
    && exists j :: 0 <= j < m && LostInUse(steps, j, steps[m].t, PhaseOf(Run(START, steps[..m]), steps[m].t).conn)
  }

  /**
   A holder that owns the advisory lock is overtaken exactly when a task that had lost its
   connection between its own lock and its claim committed that claim afterwards.
   */
  lemma LockOwnerOvertakenOnlyByLoss(steps: seq<Step>, t: Task, l: Lease) returns (n: nat)
    requires Holds(Run(START, steps), t, l) && OwnsLock(Run(START, steps), t)
    ensures HeldFrom(steps, n, t, l)
    ensures Current(Run(START, steps).gens, l) <==> forall m :: n < m < |steps| ==> !LateClaim(steps, m, l.part)
  {
    n := HeldSince(steps, t, l);
    CurrentFrom(steps, n, t, l);
    hide LateClaim, Run, Commits, HeldFrom;
    forall m | n < m < |steps|
      ensures LateClaim(steps, m, l.part) <==> Commits(Run(START, steps[..m]), steps[m], l.part)
    {
      LaterClaimIsLate(steps, n, t, l, m);
    }
  }

  /** While the lock owner holds its lease, whoever commits a claim of the account has lost its connection. */
  lemma LaterClaimIsLate(steps: seq<Step>, n: nat, t: Task, l: Lease, m: nat)
    requires HeldFrom(steps, n, t, l) && OwnsLock(Run(START, steps), t) && n < m < |steps|
    ensures LateClaim(steps, m, l.part) <==> Commits(Run(START, steps[..m]), steps[m], l.part)
  {
    var init := steps[..m];
    var s := Run(START, init);
    assert Holds(s, t, l);
    OwnedSince(steps, n, t, l, m);
    hide Run, HeldFrom;
    if Commits(s, steps[m], l.part) {
      var u := steps[m].t;
      InvAlways(init);
      assert Inside(s, t, l.part);
      if OwnsLock(s, u) { SameLockSameTask(s, t, u); }
      var j := LossBehind(init, u);
      assert init[j] == steps[j] && init[..j] == steps[..j];
      assert LostInUse(steps, j, u, PhaseOf(s, u).conn);
    }
  }

  // ---------------------------------------------------------------- a lost connection

  function Takes(u: Task, x: Partition): seq<Step> {
    [TryLocal(u, x), TryAdvisory(u, true), Claim(u, true, true)]
  }

  /** Taking a free account. */
  lemma TakeOver(s: State, u: Task, x: Partition)
    requires PhaseOf(s, u).Out? && u !in s.context && (u.pid, x) !in s.locals && x !in s.locks
    ensures var row := ClaimedRow(s.gens, x, s.nextOwner); var l := Lease(x, s.nextOwner, row.gen);
            Run(s, Takes(u, x)) == State(s.locals + {(u.pid, x)}, s.locks[x := s.nextConn], s.gens[x := row],
                                         s.phases[u := Held(x, s.nextConn, l)], s.context[u := l],
                                         s.nextConn + 1, s.nextOwner + 1, s.issued + [l])
  {
    hide Apply;
    LockFree(s, u, x);
    var s1 := Apply(s, TryLocal(u, x));
    var s2 := Apply(s1, TryAdvisory(u, true));
    ClaimLocked(s2, u, x, s.nextConn);
    var s3 := Apply(s2, Claim(u, true, true));
    var ph := Held(x, s.nextConn, Lease(x, s.nextOwner, ClaimedRow(s.gens, x, s.nextOwner).gen));
    assert s.phases[u := Locked(x, s.nextConn)][u := ph] == s.phases[u := ph];
    ChainIsRun([s, s1, s2, s3], Takes(u, x));
  }

  lemma ClaimLocked(s: State, u: Task, x: Partition, conn: nat)
    requires PhaseOf(s, u) == Locked(x, conn)
    ensures var row := ClaimedRow(s.gens, x, s.nextOwner); var l := Lease(x, s.nextOwner, row.gen);
            Apply(s, Claim(u, true, true))
            == s.(gens := s.gens[x := row], phases := s.phases[u := Held(x, conn, l)], context := s.context[u := l],
                  nextOwner := s.nextOwner + 1, issued := s.issued + [l])
  {
  }

  lemma LockFree(s: State, u: Task, x: Partition)
    requires PhaseOf(s, u).Out? && u !in s.context && (u.pid, x) !in s.locals && x !in s.locks
    ensures Apply(Apply(s, TryLocal(u, x)), TryAdvisory(u, true))
            == s.(locals := s.locals + {(u.pid, x)}, locks := s.locks[x := s.nextConn],
                  phases := s.phases[u := Locked(x, s.nextConn)], nextConn := s.nextConn + 1)
  {
    assert s.phases[u := Locking(x)][u := Locked(x, s.nextConn)] == s.phases[u := Locked(x, s.nextConn)];
  }

  /** One task holds a lease, its connection is lost, and a task of another process takes the account. */
  function LossRun(t: Task, u: Task, x: Partition): seq<Step> {
    Takes(t, x) + [Lose(0)] + Takes(u, x)
  }

  /** Without that hypothesis two processes can hold leases of one account. */
  lemma LossLetsHoldersOverlap(t: Task, u: Task, x: Partition)
    requires t.pid != u.pid
    ensures var s := Run(START, LossRun(t, u, x));
            && Holds(s, t, Lease(x, 0, 1)) && Holds(s, u, Lease(x, 1, 2))
            && !OwnsLock(s, t) && OwnsLock(s, u) && s.gens == map[x := GenRow(2, Some(1))]
  {
    AfterLoss(t, x);
    var s := Run(START, Takes(t, x) + [Lose(0)]);
    hide Run;
    TakeOver(s, u, x);
    RunAppend(START, Takes(t, x) + [Lose(0)], Takes(u, x));
  }

  lemma AfterLoss(t: Task, x: Partition)
    ensures var l := Lease(x, 0, 1);
            Run(START, Takes(t, x) + [Lose(0)])
            == State({(t.pid, x)}, map[], map[x := GenRow(1, Some(0))], map[t := Held(x, 0, l)], map[t := l], 1, 1, [l])
  {
    TakeOver(START, t, x);
    var s1 := Run(START, Takes(t, x));
    var s2 := Apply(s1, Lose(0));
    assert s2 == s1.(locks := map[]);
    ChainIsRun([s1, s2], [Lose(0)]);
    RunAppend(START, Takes(t, x), [Lose(0)]);
  }

  /** The connection is lost between the lock and the claim, and the claim still commits, after the new owner's. */
  function LateClaimRun(t: Task, u: Task, x: Partition): seq<Step> {
    [TryLocal(t, x), TryAdvisory(t, true), Lose(0)] + Takes(u, x) + [Claim(t, true, true)]
  }

  /**
   The claim does not check the lock again: whoever lost it overwrites the row of the lock
   owner, whose healthy release then raises.
   */
  lemma LateClaimOverwritesOwner(t: Task, u: Task, x: Partition)
    requires t.pid != u.pid
    ensures var s := Run(START, LateClaimRun(t, u, x));
            && Holds(s, u, Lease(x, 0, 1)) && OwnsLock(s, u) && !Current(s.gens, Lease(x, 0, 1))
            && Holds(s, t, Lease(x, 1, 2)) && !OwnsLock(s, t) && Current(s.gens, Lease(x, 1, 2))
            && Apply(s, Exit(u, true)).gens == s.gens
  {
    var a := [TryLocal(t, x), TryAdvisory(t, true), Lose(0)];
    var s1 := Apply(START, TryLocal(t, x));
    var s2 := Apply(s1, TryAdvisory(t, true));
    var s3 := Apply(s2, Lose(0));
    ChainIsRun([START, s1, s2, s3], a);
    assert s3 == State({(t.pid, x)}, map[], map[], map[t := Locked(x, 0)], map[], 1, 0, []);
    TakeOver(s3, u, x);
    RunAppend(START, a, Takes(u, x));
    var s4 := Run(s3, Takes(u, x));
    var s5 := Apply(s4, Claim(t, true, true));
    ChainIsRun([s4, s5], [Claim(t, true, true)]);
    RunAppend(START, a + Takes(u, x), [Claim(t, true, true)]);
  }

  // ---------------------------------------------------------------- a whole hold

  /** Enough to take an account: the task is outside, and neither lock of the account is taken. */
  ghost predicate Free(s: State, t: Task, x: Partition) {
    PhaseOf(s, t).Out? && t !in s.context && (t.pid, x) !in s.locals && x !in s.locks
  }

  /** Nobody in a reachable state carries the lease that is issued next. */
  lemma NextLeaseNew(steps: seq<Step>, u: Task)
    ensures var s := Run(START, steps); u in s.context ==> s.context[u].owner < s.nextOwner
  {
    InvAlways(steps);
    var s := Run(START, steps);
    if u in s.context {
      assert Carries(s, u, s.context[u]);
    }
  }

  /** What a hold with a child task in it does, from the claim to the last lock given back. */
  function Leaves(t: Task, child: Task): seq<Step> {
    [Spawn(t, child), Join(child), Exit(t, true), Unlock(t)]
  }

  /** Spawning and joining a child leaves no trace, and the child inherits the lease in between. */
  lemma ChildComesAndGoes(s: State, t: Task, child: Task, l: Lease)
    requires Carries(s, t, l) && child.pid == t.pid && child !in s.context && PhaseOf(s, child).Out?
    ensures Nested(Apply(s, Spawn(t, child)), child, l.part) == Some(l)
    ensures Apply(Apply(s, Spawn(t, child)), Join(child)) == s
  {
    var s1 := Apply(s, Spawn(t, child));
    assert s1.context - {child} == s.context;
  }

  lemma HolderLeaves(s: State, t: Task, x: Partition, conn: nat, l: Lease)
    requires PhaseOf(s, t) == Held(x, conn, l) && l.part == x && Carries(s, t, l)
    requires x in s.locks && s.locks[x] == conn && Current(s.gens, l)
    requires forall u :: u in s.context && u != t ==> s.context[u] != l
    ensures Apply(Apply(s, Exit(t, true)), Unlock(t))
            == s.(locals := s.locals - {(t.pid, x)}, locks := s.locks - {x}, gens := s.gens[x := GenRow(l.gen, None)],
                  phases := s.phases[t := Out], context := s.context - {t})
  {
    var s1 := Apply(s, Exit(t, true));
    assert s1 == s.(gens := s.gens[x := GenRow(l.gen, None)], phases := s.phases[t := Unlocking(x, conn)],
                    context := s.context - {t});
    assert s.phases[t := Unlocking(x, conn)][t := Out] == s.phases[t := Out];
  }

  /** The lease a free account is taken under. */
  ghost function NextLease(s: State, x: Partition): Lease {
    Lease(x, s.nextOwner, if x in s.gens then s.gens[x].gen + 1 else 1)
  }

  /** The state after a whole hold: locks and contexts as before, the row without an owner. */
  ghost predicate GivenBack(s: State, s': State, t: Task, x: Partition) {
    && s'.locals == s.locals && s'.locks == s.locks && s'.context == s.context && PhaseOf(s', t).Out?
    && s'.gens == s.gens[x := GenRow(if x in s.gens then s.gens[x].gen + 1 else 1, None)]
    && s'.issued == s.issued + [NextLease(s, x)]
  }

  /**
   A whole undisturbed hold, from any reachable state: the account is taken under the next
   generation, a child task inherits the lease, and afterwards every lock and context is as before
   and the row shows that generation without an owner.
   */
  lemma WholeHold(steps: seq<Step>, t: Task, child: Task, x: Partition)
    requires Free(Run(START, steps), t, x) && child != t && child.pid == t.pid
    requires child !in Run(START, steps).context && PhaseOf(Run(START, steps), child).Out?
    ensures var s := Run(START, steps);
            && GivenBack(s, Run(s, Takes(t, x) + Leaves(t, child)), t, x)
            && Nested(Run(s, Takes(t, x) + [Spawn(t, child)]), child, x) == Some(NextLease(s, x))
  {
    var s := Run(START, steps);
    forall u | u in s.context ensures s.context[u].owner < s.nextOwner {
      NextLeaseNew(steps, u);
    }
    TakeOver(s, t, x);
    hide Run, GivenBack, Takes, Leaves, Nested;
    RunAppend(s, Takes(t, x), Leaves(t, child));
    RunAppend(s, Takes(t, x), [Spawn(t, child)]);
    HeldToReleased(s, Run(s, Takes(t, x)), t, child, x);
  }

  /** The second half of a hold, from the state its first half leaves. */
  lemma HeldToReleased(s: State, a: State, t: Task, child: Task, x: Partition)
    requires Free(s, t, x) && child != t && child.pid == t.pid && child !in s.context && PhaseOf(s, child).Out?
    requires forall u :: u in s.context ==> s.context[u].owner < s.nextOwner
    requires var row := ClaimedRow(s.gens, x, s.nextOwner); var l := Lease(x, s.nextOwner, row.gen);
             a == State(s.locals + {(t.pid, x)}, s.locks[x := s.nextConn], s.gens[x := row],
                        s.phases[t := Held(x, s.nextConn, l)], s.context[t := l],
                        s.nextConn + 1, s.nextOwner + 1, s.issued + [l])
    ensures GivenBack(s, Run(a, Leaves(t, child)), t, x)
    ensures Nested(Run(a, [Spawn(t, child)]), child, x) == Some(NextLease(s, x))
  {
    hide Apply, Run;
    var l := a.context[t];
    ChildComesAndGoes(a, t, child, l);
    HolderLeaves(a, t, x, s.nextConn, l);
    var b := Apply(a, Spawn(t, child));
    var c := Apply(a, Exit(t, true));
    var d := Apply(c, Unlock(t));
    ChainIsRun([a, b, a, c, d], Leaves(t, child));
    ChainIsRun([a, b], [Spawn(t, child)]);
    assert a.locals - {(t.pid, x)} == s.locals;
    assert a.locks - {x} == s.locks;
    assert a.context - {t} == s.context;
    assert a.gens[x := GenRow(l.gen, None)] == s.gens[x := GenRow(l.gen, None)];
  }
}
