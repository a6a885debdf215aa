/**
 The sliding-window circuit breaker: one cell per key, a deque of recent failures that is pruned
 as it grows, and an opening deadline; against the plain log of everything that was called.
 */
module Breaker {
  import opened Common

  datatype Config = Config(threshold: int, window: int, cooldown: int)

  /** What is kept for one key; `announced` is its membership in the recently-closed set. */
  datatype Cell = Cell(failures: seq<int>, openUntil: Option<int>, reason: string, announced: bool)

  const FRESH := Cell([], None, "", false)

  /** One call on a key. */
  datatype Call =
    | IsOpen(now: int)
    | Open(now: int, reason: string)
    | Restore(now: int, until: int, count: int, reason: string)
    | Fail(now: int, reason: string)
    | Close
    | Consume

  function Cleared(announced: bool): Cell {
    Cell([], None, "", announced)
  }

  /** Drops failures from the left while they are older than the cutoff. */
  function Pruned(failures: seq<int>, cutoff: int): seq<int> {
    if failures != [] && failures[0] < cutoff then Pruned(failures[1..], cutoff) else failures
  }

  function Opened(cfg: Config, c: Cell, now: int, reason: string): Cell {
    c.(openUntil := Some(now + cfg.cooldown), reason := reason, announced := false)
  }

  function Repeat(t: int, count: int): (r: seq<int>)
    ensures |r| == (if count > 0 then count else 0) && forall i :: 0 <= i < |r| ==> r[i] == t
  {
    if count <= 0 then [] else Repeat(t, count - 1) + [t]
  }

  /** The deque after a failure. */
  function AfterFailure(cfg: Config, c: Cell, now: int): seq<int> {
    Pruned(c.failures, now - cfg.window) + [now]
  }

  predicate Trips(cfg: Config, c: Cell, now: int) {
    |AfterFailure(cfg, c, now)| >= cfg.threshold
  }

  predicate Expired(c: Cell, now: int) {
    c.openUntil.Some? && now >= c.openUntil.value
  }

  /** What `is_open` answers. */
  predicate Blocks(c: Cell, now: int) {
    c.openUntil.Some? && now < c.openUntil.value
  }

  function Next(cfg: Config, c: Cell, call: Call): Cell {
    match call
    case IsOpen(now) => if Expired(c, now) then Cleared(true) else c
    case Open(now, reason) => Opened(cfg, c, now, reason)
    case Restore(now, until, count, reason) =>
      if until <= now then Cleared(false) else Cell(Repeat(now, count), Some(until), reason, false)
    case Fail(now, reason) =>
      var c' := c.(failures := AfterFailure(cfg, c, now), reason := reason);
      if Trips(cfg, c, now) then Opened(cfg, c', now, reason) else c'
    case Close => Cleared(false)
    case Consume => c.(announced := false)
  }

  /** The cell after a whole log of calls. */
  function Run(cfg: Config, log: seq<Call>): Cell {
    if log == [] then FRESH else Next(cfg, Run(cfg, log[..|log| - 1]), log[|log| - 1])
  }

  // ---------------------------------------------------------------- the object

  class CircuitBreaker {
    const cfg: Config
    var states: map<string, Cell>
    var recentlyClosed: set<string>

    constructor (cfg: Config)
      ensures this.cfg == cfg && states == map[] && recentlyClosed == {}
    {
      this.cfg := cfg;
      states, recentlyClosed := map[], {};
    }

    ghost function CellOf(key: string): Cell
      reads this
    {
      (if key in states then states[key] else FRESH).(announced := key in recentlyClosed)
    }

    /** Reading a key creates its entry, as a default dictionary does. */
    method Touch(key: string) returns (cell: Cell)
      modifies this`states
      ensures key in states && cell == states[key]
      ensures forall k :: CellOf(k) == old(CellOf(k))
      ensures cell.(announced := key in recentlyClosed) == CellOf(key)
    {
      if key !in states {
        states := states[key := FRESH];
      }
      cell := states[key];
    }

    method CloseKey(key: string, remember: bool)
      modifies this
      ensures key in states && CellOf(key) == Cleared(remember)
      ensures forall k :: k != key ==> CellOf(k) == old(CellOf(k))
    {
      var cell := Touch(key);
      states := states[key := cell.(failures := [], openUntil := None, reason := "")];
      recentlyClosed := if remember then recentlyClosed + {key} else recentlyClosed - {key};
    }

    method IsOpenKey(key: string, now: int) returns (open: bool)
      modifies this
      ensures open <==> Blocks(old(CellOf(key)), now)
      ensures CellOf(key) == Next(cfg, old(CellOf(key)), IsOpen(now))
      ensures forall k :: k != key ==> CellOf(k) == old(CellOf(k))
    {
      var cell := Touch(key);
      if cell.openUntil.Some? && now >= cell.openUntil.value {
        CloseKey(key, true);
      }
      cell := states[key];
      return cell.openUntil.Some? && now < cell.openUntil.value;
    }

    method OpenKey(key: string, reason: string, now: int)
      modifies this
      ensures CellOf(key) == Next(cfg, old(CellOf(key)), Open(now, reason))
      ensures forall k :: k != key ==> CellOf(k) == old(CellOf(k))
    {
      var cell := Touch(key);
      states := states[key := cell.(openUntil := Some(now + cfg.cooldown), reason := reason)];
      recentlyClosed := recentlyClosed - {key};
    }

    method RestoreKey(key: string, until: int, count: int, reason: string, now: int)
      modifies this
      ensures CellOf(key) == Next(cfg, old(CellOf(key)), Restore(now, until, count, reason))
      ensures forall k :: k != key ==> CellOf(k) == old(CellOf(k))
    {
      if until <= now {
        CloseKey(key, false);
        return;
      }
      var cell := Touch(key);
      states := states[key := cell.(failures := Repeat(now, count), openUntil := Some(until), reason := reason)];
      recentlyClosed := recentlyClosed - {key};
    }

    /** Prunes the deque from the left, appends, and opens when enough failures are left. */
    method RecordFailure(key: string, reason: string, now: int) returns (tripped: bool)
      modifies this
      ensures tripped <==> Trips(cfg, old(CellOf(key)), now)
      ensures CellOf(key) == Next(cfg, old(CellOf(key)), Fail(now, reason))
      ensures forall k :: k != key ==> CellOf(k) == old(CellOf(k))
    {
      var cell := Touch(key);
      var cutoff := now - cfg.window;
      var failures := cell.failures;
      while failures != [] && failures[0] < cutoff
        invariant Pruned(failures, cutoff) == Pruned(cell.failures, cutoff)
        decreases |failures|
      {
        failures := failures[1..];
      }
      failures := failures + [now];
      states := states[key := cell.(failures := failures, reason := reason)];
      if |failures| >= cfg.threshold {
        OpenKey(key, reason, now);
        return true;
      }
      return false;
    }

    method ConsumeRecentlyClosed(key: string) returns (closed: bool)
      modifies this`recentlyClosed
      ensures closed <==> old(CellOf(key)).announced
      ensures CellOf(key) == Next(cfg, old(CellOf(key)), Consume)
      ensures forall k :: k != key ==> CellOf(k) == old(CellOf(k))
    {
      closed := key in recentlyClosed;
      recentlyClosed := recentlyClosed - {key};
    }
  }

  // ---------------------------------------------------------------- the event log

  /** The call forgets the failures: a close, an expiry noticed by `is_open`, or a restore. */
  ghost predicate Forgets(cfg: Config, log: seq<Call>, i: int)
    requires 0 <= i < |log|
  {
    Closing(cfg, log, i) || log[i].Restore?
  }

  /** The call closes the breaker; an `is_open` does so when the opening that counts has run out. */
  ghost predicate Closing(cfg: Config, log: seq<Call>, i: int)
    requires 0 <= i < |log|
    decreases i, 2
  {
    match log[i]
    case Close => true
    case Restore(now, until, _, _) => until <= now
    case IsOpen(now) => RanOut(cfg, log[..i], now)
    case _ => false
  }

  /** The failures logged since the last close or restore, with what a restore put in their place. */
  ghost function Failures(cfg: Config, log: seq<Call>): seq<int>
    decreases |log|, 0
  {
    if log == [] then []
    else
      var n := |log| - 1;
      if Closing(cfg, log, n) then []
      else match log[n]
        case Restore(now, _, count, _) => Repeat(now, count)
        case Fail(now, _) => Failures(cfg, log[..n]) + [now]
        case _ => Failures(cfg, log[..n])
  }

  /** Those of them no older than the cutoff. */
  function Since(ts: seq<int>, cutoff: int): seq<int> {
    if ts == [] then []
    else Since(ts[..|ts| - 1], cutoff) + if ts[|ts| - 1] >= cutoff then [ts[|ts| - 1]] else []
  }

  /** The window of the latest failure: it and the earlier ones it still covers. */
  function InWindow(cfg: Config, earlier: seq<int>, now: int): seq<int> {
    Since(earlier, now - cfg.window) + [now]
  }

  /** The call opens the breaker: by hand, by a restore, or as the failure that reaches the threshold. */
  ghost predicate Opening(cfg: Config, log: seq<Call>, i: int)
    requires 0 <= i < |log|
    decreases i, 1
  {
    match log[i]
    case Open(_, _) => true
    case Restore(now, until, _, _) => until > now
    case Fail(now, _) => |InWindow(cfg, Failures(cfg, log[..i]), now)| >= cfg.threshold
    case _ => false
  }

  function Deadline(cfg: Config, call: Call): int {
    match call
    case Restore(_, until, _, _) => until
    case Open(now, _) => now + cfg.cooldown
    case Fail(now, _) => now + cfg.cooldown
    case _ => 0
  }

  /** Nothing after `j` opens or closes the breaker. */
  ghost predicate LastWord(cfg: Config, log: seq<Call>, j: int)
    requires 0 <= j < |log|
    decreases |log|, 0
  {
    forall k :: j < k < |log| ==> !Opening(cfg, log, k) && !Closing(cfg, log, k)
  }

  /** The opening with the last word has reached its deadline. */
  ghost predicate RanOut(cfg: Config, log: seq<Call>, now: int)
    decreases |log|, 1
  {
    exists j :: 0 <= j < |log| && Opening(cfg, log, j) && LastWord(cfg, log, j) && Deadline(cfg, log[j]) <= now
  }

  /** The call carries a clock reading. */
  predicate Timed(call: Call) {
    !call.Close? && !call.Consume?
  }

  /** The clock never runs backwards across the log. */
  predicate ClockOrdered(log: seq<Call>) {
    forall i, j :: 0 <= i < j < |log| && Timed(log[i]) && Timed(log[j]) ==> log[i].now <= log[j].now
  }

  ghost predicate Sorted(ts: seq<int>) {
    forall i, j :: 0 <= i < j < |ts| ==> ts[i] <= ts[j]
  }

  lemma {:induction false} SinceKeeps(ts: seq<int>, cutoff: int, t: int)
    requires Sorted(ts) && forall i :: 0 <= i < |ts| ==> ts[i] <= t
    ensures Sorted(Since(ts, cutoff)) && forall i :: 0 <= i < |Since(ts, cutoff)| ==>
              cutoff <= Since(ts, cutoff)[i] <= t
    decreases |ts|
  {
    if ts != [] {
      SinceKeeps(ts[..|ts| - 1], cutoff, ts[|ts| - 1]);
    }
  }

  lemma {:induction false} SinceSince(ts: seq<int>, a: int, b: int)
    requires a <= b
    ensures Since(Since(ts, a), b) == Since(ts, b)
    decreases |ts|
  {
    if ts != [] {
      var n := |ts| - 1;
      SinceSince(ts[..n], a, b);
      var kept := Since(ts[..n], a);
      if ts[n] >= a {
        assert Since(ts, a) == kept + [ts[n]] && (kept + [ts[n]])[..|kept|] == kept;
      } else {
        assert Since(ts, a) == kept;
      }
    }
  }

  /** On a sorted deque, popping old entries from the left is filtering. */
  lemma {:induction false} PrunedIsSince(ts: seq<int>, cutoff: int)
    requires Sorted(ts)
    ensures Pruned(ts, cutoff) == Since(ts, cutoff)
    decreases |ts|
  {
    if ts != [] {
      if ts[0] < cutoff {
        PrunedIsSince(ts[1..], cutoff);
        SinceTail(ts, cutoff);
      } else {
        SinceAll(ts, cutoff);
      }
    }
  }

  lemma {:induction false} SinceTail(ts: seq<int>, cutoff: int)
    requires ts != [] && ts[0] < cutoff
    ensures Since(ts, cutoff) == Since(ts[1..], cutoff)
    decreases |ts|
  {
    if |ts| == 1 {
      assert ts[..0] == [] && ts[1..] == [];
    } else {
      var n := |ts| - 1;
      SinceTail(ts[..n], cutoff);
      assert ts[..n][1..] == ts[1..][..n - 1];
    }
  }

  lemma {:induction false} SinceAll(ts: seq<int>, cutoff: int)
    requires forall i :: 0 <= i < |ts| ==> ts[i] >= cutoff
    ensures Since(ts, cutoff) == ts
    decreases |ts|
  {
    if ts != [] {
      SinceAll(ts[..|ts| - 1], cutoff);
      assert ts == ts[..|ts| - 1] + [ts[|ts| - 1]];
    }
  }

  /** The latest failure since the last close or restore. */
  ghost function LastFailure(cfg: Config, log: seq<Call>): Option<int> {
    if log == [] then None
    else
      var n := |log| - 1;
      if Forgets(cfg, log, n) then None
      else if log[n].Fail? then Some(log[n].now)
      else LastFailure(cfg, log[..n])
  }

  predicate AllBefore(ts: seq<int>, t: int) {
    forall i :: 0 <= i < |ts| ==> ts[i] <= t
  }

  lemma {:induction false} FailuresOrdered(cfg: Config, log: seq<Call>, t: int)
    requires ClockOrdered(log) && forall i :: 0 <= i < |log| && Timed(log[i]) ==> log[i].now <= t
    ensures Sorted(Failures(cfg, log)) && AllBefore(Failures(cfg, log), t)
    decreases |log|
  {
    if log != [] {
      var n := |log| - 1;
      if log[n].Fail? {
        FailuresOrdered(cfg, log[..n], log[n].now);
      } else {
        FailuresOrdered(cfg, log[..n], t);
      }
    }
  }

  /** What the deque holds: the failures since the last reset, in the window of the latest of them. */
  ghost function Kept(cfg: Config, log: seq<Call>): seq<int> {
    var fs := Failures(cfg, log);
    if LastFailure(cfg, log).None? || fs == [] then fs else InWindow(cfg, fs[..|fs| - 1], fs[|fs| - 1])
  }

  /** One more failure: pruning what was kept is filtering everything logged. */
  lemma KeptNext(cfg: Config, log: seq<Call>, now: int)
    requires ClockOrdered(log) && forall i :: 0 <= i < |log| && Timed(log[i]) ==> log[i].now <= now
    ensures Pruned(Kept(cfg, log), now - cfg.window) == Since(Failures(cfg, log), now - cfg.window)
  {
    var fs := Failures(cfg, log);
    var cutoff := now - cfg.window;
    FailuresOrdered(cfg, log, now);
    if LastFailure(cfg, log).None? || fs == [] {
      PrunedIsSince(fs, cutoff);
    } else {
      var m := |fs| - 1;
      var old_ := fs[m] - cfg.window;
      SinceKeeps(fs[..m], old_, fs[m]);
      PrunedIsSince(Since(fs[..m], old_) + [fs[m]], cutoff);
      SinceSince(fs[..m], old_, cutoff);
      var kept := Since(fs[..m], old_) + [fs[m]];
      assert kept[..|kept| - 1] == Since(fs[..m], old_);
    }
  }

  lemma DequeAfterFailure(cfg: Config, log: seq<Call>)
    requires log != [] && log[|log| - 1].Fail? && ClockOrdered(log)
    requires Run(cfg, log[..|log| - 1]).failures == Kept(cfg, log[..|log| - 1])
    ensures Run(cfg, log).failures == Kept(cfg, log)
  {
    var n := |log| - 1;
    var fs := Failures(cfg, log[..n]);
    KeptNext(cfg, log[..n], log[n].now);
    assert Failures(cfg, log) == fs + [log[n].now];
    assert (fs + [log[n].now])[..|fs|] == fs;
    assert LastFailure(cfg, log).Some?;
  }

  /** A call that is no failure empties the deque, replaces it, or leaves it. */
  lemma DequeAfterOther(cfg: Config, log: seq<Call>)
    requires log != [] && !log[|log| - 1].Fail? && Decided(cfg, log[..|log| - 1])
    requires Run(cfg, log[..|log| - 1]).failures == Kept(cfg, log[..|log| - 1])
    ensures Run(cfg, log).failures == Kept(cfg, log)
  {
    hide Closing, Decided, Failures, LastFailure;
    LastCloses(cfg, log);
    FailuresAfterOther(cfg, log);
  }

  lemma FailuresAfterOther(cfg: Config, log: seq<Call>)
    requires log != [] && !log[|log| - 1].Fail?
    ensures var n := |log| - 1;
            if Closing(cfg, log, n) then Failures(cfg, log) == [] && LastFailure(cfg, log).None?
            else if log[n].Restore?
            then Failures(cfg, log) == Repeat(log[n].now, log[n].count) && LastFailure(cfg, log).None?
            else Failures(cfg, log) == Failures(cfg, log[..n]) && LastFailure(cfg, log) == LastFailure(cfg, log[..n])
  {
    hide Closing;
  }

  /** Which opening, if any, has the last word, and its deadline. */
  ghost predicate DecidedBy(cfg: Config, log: seq<Call>, deadline: Option<int>) {
    if deadline.Some?
    then exists j :: && 0 <= j < |log| && Opening(cfg, log, j) && LastWord(cfg, log, j)
                     && Deadline(cfg, log[j]) == deadline.value
    else forall j :: 0 <= j < |log| && Opening(cfg, log, j) ==> !LastWord(cfg, log, j)
  }

  ghost predicate Decided(cfg: Config, log: seq<Call>) {
    DecidedBy(cfg, log, Run(cfg, log).openUntil)
  }

  lemma OneLastWord(cfg: Config, log: seq<Call>, j: int, k: int)
    requires 0 <= j < |log| && Opening(cfg, log, j) && LastWord(cfg, log, j)
    requires 0 <= k < |log| && Opening(cfg, log, k) && LastWord(cfg, log, k)
    ensures j == k
  {
  }

  /** The breaker's own deadline has passed exactly when the log says so. */
  lemma RanOutIsExpired(cfg: Config, log: seq<Call>, now: int)
    requires Decided(cfg, log)
    ensures RanOut(cfg, log, now) <==> Expired(Run(cfg, log), now)
  {
    if RanOut(cfg, log, now) && Run(cfg, log).openUntil.Some? {
      var j :| 0 <= j < |log| && Opening(cfg, log, j) && LastWord(cfg, log, j) && Deadline(cfg, log[j]) <= now;
      var k :| && 0 <= k < |log| && Opening(cfg, log, k) && LastWord(cfg, log, k)
               && Deadline(cfg, log[k]) == Run(cfg, log).openUntil.value;
      OneLastWord(cfg, log, j, k);
    }
  }

  /** The last call sets the deadline when it opens, clears it when it closes, and leaves it otherwise. */
  lemma DeadlineStep(cfg: Config, log: seq<Call>)
    requires log != [] && ClockOrdered(log) && Decided(cfg, log[..|log| - 1])
    requires Run(cfg, log[..|log| - 1]).failures == Kept(cfg, log[..|log| - 1])
    ensures var n := |log| - 1;
            Run(cfg, log).openUntil
            == if Opening(cfg, log, n) then Some(Deadline(cfg, log[n]))
               else if Closing(cfg, log, n) then None
               else Run(cfg, log[..n]).openUntil
  {
    hide Opening, Closing, Kept, Decided, Trips;
    LastCloses(cfg, log);
    LastOpens(cfg, log);
  }

  /** The last call closes the breaker in the log exactly when it does in the cell. */
  lemma LastCloses(cfg: Config, log: seq<Call>)
    requires log != [] && Decided(cfg, log[..|log| - 1])
    ensures var n := |log| - 1; var last := log[n];
            Closing(cfg, log, n) <==> || last.Close? || (last.Restore? && last.until <= last.now)
                                      || (last.IsOpen? && Expired(Run(cfg, log[..n]), last.now))
  {
    var n := |log| - 1;
    if log[n].IsOpen? { RanOutIsExpired(cfg, log[..n], log[n].now); }
    hide RanOut, Decided, Run;
  }

  lemma LastOpens(cfg: Config, log: seq<Call>)
    requires log != [] && ClockOrdered(log) && Run(cfg, log[..|log| - 1]).failures == Kept(cfg, log[..|log| - 1])
    ensures var n := |log| - 1; var last := log[n];
            Opening(cfg, log, n) <==> || last.Open? || (last.Restore? && last.until > last.now)
                                      || (last.Fail? && Trips(cfg, Run(cfg, log[..n]), last.now))
  {
    var n := |log| - 1;
    if log[n].Fail? { KeptNext(cfg, log[..n], log[n].now); }
    hide Failures, Kept, Run, Since, Pruned;
  }

  lemma SameCalls(cfg: Config, log: seq<Call>, k: int)
    requires 0 <= k < |log| - 1
    ensures Opening(cfg, log, k) == Opening(cfg, log[..|log| - 1], k)
    ensures Closing(cfg, log, k) == Closing(cfg, log[..|log| - 1], k)
  {
    assert log[..|log| - 1][..k] == log[..k];
  }

  lemma LastWordStep(cfg: Config, log: seq<Call>, j: int)
    requires 0 <= j < |log| - 1
    ensures var n := |log| - 1;
            LastWord(cfg, log, j) <==> LastWord(cfg, log[..n], j) && !Opening(cfg, log, n) && !Closing(cfg, log, n)
  {
    var n := |log| - 1;
    hide Opening, Closing;
    forall k | j < k < n
      ensures Opening(cfg, log, k) == Opening(cfg, log[..n], k) && Closing(cfg, log, k) == Closing(cfg, log[..n], k)
    {
      SameCalls(cfg, log, k);
    }
  }

  lemma DecidedStep(cfg: Config, log: seq<Call>)
    requires log != [] && ClockOrdered(log) && Decided(cfg, log[..|log| - 1])
    requires Run(cfg, log[..|log| - 1]).failures == Kept(cfg, log[..|log| - 1])
    ensures Decided(cfg, log)
  {
    var n := |log| - 1;
    var init := log[..n];
    DeadlineStep(cfg, log);
    hide Opening, Closing, Run, Kept;
    if Opening(cfg, log, n) {
      assert LastWord(cfg, log, n);
    } else if !Closing(cfg, log, n) && Run(cfg, init).openUntil.Some? {
      var j :| && 0 <= j < n && Opening(cfg, init, j) && LastWord(cfg, init, j)
               && Deadline(cfg, init[j]) == Run(cfg, init).openUntil.value;
      LastWordStep(cfg, log, j);
      SameCalls(cfg, log, j);
    } else {
      forall j | 0 <= j < |log| && Opening(cfg, log, j) ensures !LastWord(cfg, log, j) {
        LastWordStep(cfg, log, j);
        SameCalls(cfg, log, j);
      }
    }
  }

  /** Over every log with a clock that never runs backwards, deque and deadline are what the log says. */
  lemma {:induction false} RunRefinesLog(cfg: Config, log: seq<Call>)
    requires ClockOrdered(log)
    ensures Run(cfg, log).failures == Kept(cfg, log) && Decided(cfg, log)
    decreases |log|
  {
    if log != [] {
      RunRefinesLog(cfg, log[..|log| - 1]);
      if log[|log| - 1].Fail? { DequeAfterFailure(cfg, log); } else { DequeAfterOther(cfg, log); }
      DecidedStep(cfg, log);
    }
  }

  /** The pruned deque is exactly the failures since the last reset that lie in the window of the latest one. */
  lemma DequeIsWindow(cfg: Config, log: seq<Call>)
    requires ClockOrdered(log)
    ensures Run(cfg, log).failures == Kept(cfg, log)
  {
    RunRefinesLog(cfg, log);
  }

  /** The deadline kept is the one of the last opening, unless something closed the breaker after it. */
  lemma OpenUntilIsLastOpening(cfg: Config, log: seq<Call>)
    requires ClockOrdered(log)
    ensures DecidedBy(cfg, log, Run(cfg, log).openUntil)
  {
    RunRefinesLog(cfg, log);
  }

  /** A failure trips the breaker exactly when the failures in its window reach the threshold. */
  lemma TripsIffWindowFull(cfg: Config, log: seq<Call>, now: int)
    requires ClockOrdered(log) && forall i :: 0 <= i < |log| && Timed(log[i]) ==> log[i].now <= now
    ensures Trips(cfg, Run(cfg, log), now) <==> |InWindow(cfg, Failures(cfg, log), now)| >= cfg.threshold
  {
    RunRefinesLog(cfg, log);
    KeptNext(cfg, log, now);
  }

  /**
   The breaker blocks at `t` exactly when `t` lies before the deadline of an opening, manual,
   restored or tripped, after which nothing opened it again or closed it.
   */
  lemma BlocksIffBeforeDeadline(cfg: Config, log: seq<Call>, t: int)
    requires ClockOrdered(log)
    ensures Blocks(Run(cfg, log), t) <==>
              exists j :: 0 <= j < |log| && Opening(cfg, log, j) && LastWord(cfg, log, j) && t < Deadline(cfg, log[j])
  {
    RunRefinesLog(cfg, log);
    RanOutIsExpired(cfg, log, t);
    hide Opening, LastWord, Run;
    if j :| 0 <= j < |log| && Opening(cfg, log, j) && LastWord(cfg, log, j) && t < Deadline(cfg, log[j]) {
      var k :| && 0 <= k < |log| && Opening(cfg, log, k) && LastWord(cfg, log, k)
               && Deadline(cfg, log[k]) == Run(cfg, log).openUntil.value;
      OneLastWord(cfg, log, j, k);
    }
  }

  // ---------------------------------------------------------------- the announcement and the reason

  /** An `is_open` that finds the opening run out. */
  ghost predicate Notices(cfg: Config, log: seq<Call>, i: int)
    requires 0 <= i < |log|
  {
    log[i].IsOpen? && RanOut(cfg, log[..i], log[i].now)
  }

  /** A call that takes the announcement back: consumed, closed by hand, restored or opened again. */
  ghost predicate Silences(cfg: Config, log: seq<Call>, i: int)
    requires 0 <= i < |log|
  {
    log[i].Consume? || log[i].Close? || log[i].Restore? || Opening(cfg, log, i)
  }

  /** The expiry noticed at `j` is still to be announced. */
  ghost predicate Unannounced(cfg: Config, log: seq<Call>, j: int)
    requires 0 <= j < |log|
  {
    Notices(cfg, log, j) && forall k :: j < k < |log| ==> !Silences(cfg, log, k)
  }

  lemma AnnouncedStep(cfg: Config, log: seq<Call>)
    requires log != [] && ClockOrdered(log)
    ensures var n := |log| - 1;
            Run(cfg, log).announced <==>
            Notices(cfg, log, n) || (Run(cfg, log[..n]).announced && !Silences(cfg, log, n))
  {
    var n := |log| - 1;
    RunRefinesLog(cfg, log[..n]);
    LastOpens(cfg, log);
    if log[n].IsOpen? { RanOutIsExpired(cfg, log[..n], log[n].now); }
    hide Opening, RanOut, Kept, Decided, Trips;
  }

  lemma UnannouncedStep(cfg: Config, log: seq<Call>, j: int)
    requires 0 <= j < |log| - 1
    ensures var n := |log| - 1;
            Unannounced(cfg, log, j) <==> Unannounced(cfg, log[..n], j) && !Silences(cfg, log, n)
  {
    var n := |log| - 1;
    assert log[..n][..j] == log[..j];
    hide Opening, RanOut;
    forall k | j < k < n ensures Silences(cfg, log, k) == Silences(cfg, log[..n], k) {
      SameCalls(cfg, log, k);
    }
  }

  /**
   A key is in the recently-closed set exactly when some `is_open` noticed an expired opening and
   nothing since consumed the notice, closed, restored or opened the breaker.
   */
  lemma {:induction false} AnnouncedIff(cfg: Config, log: seq<Call>)
    requires ClockOrdered(log)
    ensures Run(cfg, log).announced <==> exists j :: 0 <= j < |log| && Unannounced(cfg, log, j)
    decreases |log|
  {
    if log != [] {
      var n := |log| - 1;
      AnnouncedIff(cfg, log[..n]);
      AnnouncedStep(cfg, log);
      forall j | 0 <= j < n
        ensures Unannounced(cfg, log, j) <==> Unannounced(cfg, log[..n], j) && !Silences(cfg, log, n)
      {
        UnannouncedStep(cfg, log, j);
      }
      assert Unannounced(cfg, log, n) <==> Notices(cfg, log, n);
    }
  }

  /** A call that leaves a reason behind. */
  ghost predicate Names(call: Call) {
    call.Open? || call.Fail? || (call.Restore? && call.until > call.now)
  }

  /** The reason given at `j` still stands. */
  ghost predicate Stands(cfg: Config, log: seq<Call>, j: int)
    requires 0 <= j < |log|
  {
    Names(log[j]) && forall k :: j < k < |log| ==> !Names(log[k]) && !Closing(cfg, log, k)
  }

  lemma ReasonStep(cfg: Config, log: seq<Call>)
    requires log != [] && ClockOrdered(log)
    ensures var n := |log| - 1;
            Run(cfg, log).reason
            == if Names(log[n]) then log[n].reason else if Closing(cfg, log, n) then "" else Run(cfg, log[..n]).reason
  {
    RunRefinesLog(cfg, log[..|log| - 1]);
    LastCloses(cfg, log);
    hide Closing, Kept, Decided, Trips;
  }

  /** The reason kept is the latest one given since the breaker last closed, whoever gave it; none is empty. */
  lemma {:induction false} ReasonIsLatest(cfg: Config, log: seq<Call>)
    requires ClockOrdered(log)
    ensures forall j :: 0 <= j < |log| && Stands(cfg, log, j) ==> Run(cfg, log).reason == log[j].reason
    ensures (forall j :: 0 <= j < |log| ==> !Stands(cfg, log, j)) ==> Run(cfg, log).reason == ""
    decreases |log|
  {
    if log != [] {
      var n := |log| - 1;
      ReasonIsLatest(cfg, log[..n]);
      ReasonStep(cfg, log);
      forall j | 0 <= j < n
        ensures Stands(cfg, log, j) <==> Stands(cfg, log[..n], j) && !Names(log[n]) && !Closing(cfg, log, n)
      {
        StandsStep(cfg, log, j);
      }
      assert Stands(cfg, log, n) <==> Names(log[n]);
      hide Closing, Run, Stands, Names;
    }
  }

  lemma StandsStep(cfg: Config, log: seq<Call>, j: int)
    requires 0 <= j < |log| - 1
    ensures var n := |log| - 1;
            Stands(cfg, log, j) <==> Stands(cfg, log[..n], j) && !Names(log[n]) && !Closing(cfg, log, n)
  {
    var n := |log| - 1;
    hide Closing;
    forall k | j < k < n ensures Closing(cfg, log, k) == Closing(cfg, log[..n], k) {
      SameCalls(cfg, log, k);
    }
  }
}
