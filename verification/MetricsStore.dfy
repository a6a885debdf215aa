/** The metrics store: each record reads the latest row of its partition and appends the next one. */
module MetricsStore {
  import opened Common
  import opened Pnl

  /** User, account, strategy, symbol and execution mode. */
  datatype Partition = Partition(user: string, account: int, strategy: string, symbol: string, mode: string)

  /** The rest of a metric's economic identity. */
  datatype Origin = Origin(executionId: Option<string>, broker: string, signalId: string, runId: string)

  datatype MetricRow<S> = MetricRow(id: string, part: Partition, origin: Origin, createdAt: int, state: S)

  /** A row the latest-first query may return: no row of the partition was created later. */
  ghost predicate IsLatest<S(!new)>(rows: seq<MetricRow<S>>, part: Partition, r: MetricRow<S>) {
    r in rows && r.part == part && forall q :: q in rows && q.part == part ==> q.createdAt <= r.createdAt
  }

  ghost predicate HasRow<S(!new)>(rows: seq<MetricRow<S>>, part: Partition) {
    exists r :: r in rows && r.part == part
  }

  /** The row carries the partition's latest state forward by one input. */
  ghost predicate CarriesForward<S(!new), I>(step: (S, I) -> S, start: S, rows: seq<MetricRow<S>>, m: MetricRow<S>,
      x: I) {
    if HasRow(rows, m.part)
    then exists prev :: IsLatest(rows, m.part, prev) && m.state == step(prev.state, x)
    else m.state == step(start, x)
  }

  class ExecutionMetricsStore {
    var rows: seq<MetricRow<Position>>

    /** The input each row was recorded with. */
    ghost var inputs: seq<Input>

    /** Metric ids are a primary key, and every row carries its partition forward. */
    ghost predicate Valid()
      reads this
    {
      && (forall i, j :: 0 <= i < j < |rows| ==> rows[i].id != rows[j].id)
      && Recorded(Step, FLAT, rows, inputs)
    }

    constructor ()
      ensures Valid() && rows == [] && inputs == []
    {
      rows, inputs := [], [];
    }

    /** The latest row of the partition, found in one pass. */
    method Previous(part: Partition) returns (prev: Option<MetricRow<Position>>)
      ensures prev.None? <==> !HasRow(rows, part)
      ensures prev.Some? ==> IsLatest(rows, part, prev.value)
    {
      prev := None;
      var i := 0;
      while i < |rows|
        invariant 0 <= i <= |rows|
        invariant prev.None? <==> forall j :: 0 <= j < i ==> rows[j].part != part
        invariant prev.Some? ==> prev.value in rows && prev.value.part == part
        invariant prev.Some? ==> forall j :: 0 <= j < i && rows[j].part == part ==>
                  rows[j].createdAt <= prev.value.createdAt
      {
        if rows[i].part == part && (prev.None? || prev.value.createdAt < rows[i].createdAt) {
          prev := Some(rows[i]);
        }
        i := i + 1;
      }
    }

    /**
     Appends the partition's next row; a replay of a stored metric id appends nothing, and is
     refused exactly when its economic identity is another one.
     */
    method Record(id: string, part: Partition, origin: Origin, createdAt: int, in_: Input) returns (ok: bool)
      requires Valid()
      modifies this
      ensures Valid()
      ensures ok <==> forall r :: r in old(rows) && r.id == id ==> r.part == part && r.origin == origin
      ensures (exists r :: r in old(rows) && r.id == id) ==> rows == old(rows) && inputs == old(inputs)
      ensures !(exists r :: r in old(rows) && r.id == id) ==>
                && inputs == old(inputs) + [in_] && |rows| == |old(rows)| + 1 && rows[..|old(rows)|] == old(rows)
                && rows[|old(rows)|].id == id && rows[|old(rows)|].part == part
                && rows[|old(rows)|].origin == origin && rows[|old(rows)|].createdAt == createdAt
                && CarriesForward(Step, FLAT, old(rows), rows[|old(rows)|], in_)
    {
      hide Recorded, Step, IsLatest, HasRow;
      if exists r :: r in rows && r.id == id {
        var i := 0;
        while rows[i].id != id
          invariant 0 <= i < |rows| && exists j :: i <= j < |rows| && rows[j].id == id
          decreases |rows| - i
        {
          i := i + 1;
        }
        assert forall r :: r in rows && r.id == id ==> r == rows[i];
        return rows[i].part == part && rows[i].origin == origin;
      }
      var prev := Previous(part);
      var state := ComputeState(if prev.Some? then prev.value.state else FLAT, in_);
      var row := MetricRow(id, part, origin, createdAt, state);
      assert CarriesForward(Step, FLAT, rows, row, in_);
      RecordedSnoc(Step, FLAT, rows, inputs, row, in_);
      rows, inputs := rows + [row], inputs + [in_];
      return true;
    }
  }

  /** Books a profit or loss in the totals and counters. */
  method BookTrade(p: Position, pnl: real) returns (r: Position)
    ensures r == Booked(p, pnl)
  {
    var wins, losses, breakevens, grossProfit, grossLoss := p.wins, p.losses, p.breakevens, p.grossProfit, p.grossLoss;
    if pnl > 0.0 {
      wins, grossProfit := wins + 1, grossProfit + pnl;
    } else if pnl < 0.0 {
      losses, grossLoss := losses + 1, grossLoss + Abs(pnl);
    } else {
      breakevens := breakevens + 1;
    }
    r := Position(p.qty, p.avg, p.realized + pnl, wins, losses, breakevens, grossProfit, grossLoss, p.turnover, p.fees);
  }

  method ClosePosition(p: Position, t: Trade) returns (r: Position)
    ensures r == Close(p, t)
  {
    r := p;
    var c := Min(t.qty, Abs(p.qty));
    if c > 0.0 {
      var qty, avg := p.qty, p.avg;
      var pnl := if qty > 0.0 then (t.price - avg) * c else (avg - t.price) * c;
      qty := qty - (if qty > 0.0 then c else -c);
      if qty == 0.0 {
        avg := 0.0;
      }
      r := BookTrade(p.(qty := qty, avg := avg), pnl);
    }
  }

  method ReducePosition(p: Position, s: real, price: real) returns (r: Position)
    ensures r == Reduce(p, s, price)
  {
    var qty, avg := p.qty, p.avg;
    var c := Min(Abs(qty), Abs(s));
    var pnl := if qty > 0.0 then (price - avg) * c else (avg - price) * c;
    assert pnl == ReducePnl(p, s, price);
    qty := if qty > 0.0 then qty - c else qty + c;
    var remaining := Abs(s) - c;
    if remaining > 0.0 {
      qty := if s > 0.0 then remaining else -remaining;
      avg := price;
    } else if qty == 0.0 {
      avg := 0.0;
    }
    assert p.(qty := qty, avg := avg) == Reduced(p, s, price);
    r := BookTrade(p.(qty := qty, avg := avg), pnl);
  }

  /** The state update of one record, branch by branch. */
  method ComputeState(p: Position, in_: Input) returns (r: Position)
    ensures r == Step(p, in_)
  {
    var t := in_.trade;
    if in_.authority.Some? {
      r := p.(qty := in_.authority.value.qty, avg := in_.authority.value.avg);
      if t.price > 0.0 && t.qty > 0.0 {
        r := Charged(r, t);
      }
      if in_.realized.Some? && in_.realized.value != p.realized {
        r := BookTrade(r, in_.realized.value - p.realized);
      }
      return;
    }
    r := if in_.realized.Some? then p.(realized := in_.realized.value) else p;
    if t.action != "" && t.price > 0.0 && t.qty > 0.0 {
      if t.action == "close" || t.action == "close_signal" {
        r := ClosePosition(r, t);
      } else {
        var s := if t.action == "long" || t.action == "buy" then t.qty else -t.qty;
        if r.qty == 0.0 || (r.qty > 0.0 && s > 0.0) || (r.qty < 0.0 && s < 0.0) {
          r := Add(r, s, t.price);
        } else {
          r := ReducePosition(r, s, t.price);
        }
      }
      r := Charged(r, t);
    }
  }

  // ---------------------------------------------------------------- sequences of records

  /** A table of any partitions, each row carrying forward what was stored of its own before it. */
  ghost predicate Recorded<S(!new), I>(step: (S, I) -> S, start: S, rows: seq<MetricRow<S>>, xs: seq<I>) {
    && |rows| == |xs|
    && (forall i :: 0 <= i < |rows| ==> CarriesForward(step, start, rows[..i], rows[i], xs[i]))
  }

  lemma RecordedSnoc<S(!new), I>(step: (S, I) -> S, start: S, rows: seq<MetricRow<S>>, xs: seq<I>, m: MetricRow<S>,
      x: I)
    requires Recorded(step, start, rows, xs) && CarriesForward(step, start, rows, m, x)
    ensures Recorded(step, start, rows + [m], xs + [x])
  {
    var rows' := rows + [m];
    forall i | 0 <= i < |rows'| ensures CarriesForward(step, start, rows'[..i], rows'[i], (xs + [x])[i]) {
      assert rows'[..i] == rows[..i];
    }
  }

  lemma RecordedPrefix<S(!new), I>(step: (S, I) -> S, start: S, rows: seq<MetricRow<S>>, xs: seq<I>)
    requires Recorded(step, start, rows, xs) && rows != []
    ensures Recorded(step, start, rows[..|rows| - 1], xs[..|rows| - 1])
  {
    var n := |rows| - 1;
    forall i | 0 <= i < n ensures CarriesForward(step, start, rows[..n][..i], rows[..n][i], xs[..n][i]) {
      assert rows[..n][..i] == rows[..i];
    }
  }

  /** The partition's rows were recorded in the order of their stamps; other partitions may be stamped anyhow. */
  predicate InOrder<S>(rows: seq<MetricRow<S>>, part: Partition) {
    forall i, j :: 0 <= i < j < |rows| && rows[i].part == part && rows[j].part == part ==>
        rows[i].createdAt < rows[j].createdAt
  }

  /** The inputs of one partition. */
  function InputsOf<S, I>(rows: seq<MetricRow<S>>, xs: seq<I>, part: Partition): seq<I>
    requires |rows| == |xs|
  {
    if rows == [] then []
    else
      var n := |rows| - 1;
      InputsOf(rows[..n], xs[..n], part) + if rows[n].part == part then [xs[n]] else []
  }

  /** Row k is the last one of its partition. */
  ghost predicate LastOf<S>(rows: seq<MetricRow<S>>, k: int) {
    0 <= k < |rows| && forall i :: k < i < |rows| ==> rows[i].part != rows[k].part
  }

  /**
   In a table of any partitions, the last row of a partition is the only one the latest-first query
   can return exactly when it is stamped after all other rows of the partition.
   */
  lemma LastIsLatestIffLater<S(!new)>(rows: seq<MetricRow<S>>, k: int)
    requires LastOf(rows, k)
    requires forall i, j :: 0 <= i < j < |rows| ==> rows[i].id != rows[j].id
    ensures (forall r :: IsLatest(rows, rows[k].part, r) ==> r == rows[k])
            <==> (forall i :: 0 <= i < k && rows[i].part == rows[k].part ==> rows[i].createdAt < rows[k].createdAt)
  {
    var part := rows[k].part;
    assert rows[k] in rows;
    if forall r :: IsLatest(rows, part, r) ==> r == rows[k] {
      var m := SomeLatest(rows, part);
      forall i | 0 <= i < k && rows[i].part == part ensures rows[i].createdAt < rows[k].createdAt {
        assert rows[i] in rows;
        if rows[i].createdAt >= rows[k].createdAt { assert IsLatest(rows, part, rows[i]); }
      }
    } else {
      var r :| IsLatest(rows, part, r) && r != rows[k];
      var i :| 0 <= i < |rows| && rows[i] == r;
    }
  }

  lemma {:induction false} SomeLatest<S(!new)>(rows: seq<MetricRow<S>>, part: Partition) returns (m: MetricRow<S>)
    requires HasRow(rows, part)
    ensures IsLatest(rows, part, m)
    decreases |rows|
  {
    var n := |rows| - 1;
    var init := rows[..n];
    assert forall q :: q in rows <==> q in init || q == rows[n];
    if !HasRow(init, part) {
      m := rows[n];
    } else {
      m := SomeLatest(init, part);
      if rows[n].part == part && rows[n].createdAt > m.createdAt { m := rows[n]; }
    }
  }

  /** After rows in order, the next record of a partition builds on its last row. */
  lemma LastCarries<S(!new), I>(step: (S, I) -> S, start: S, rows: seq<MetricRow<S>>, k: int, m: MetricRow<S>, x: I)
    requires LastOf(rows, k) && rows[k].part == m.part && InOrder(rows, m.part)
    requires CarriesForward(step, start, rows, m, x)
    ensures m.state == step(rows[k].state, x)
  {
    assert rows[k] in rows && HasRow(rows, m.part);
    var prev :| IsLatest(rows, m.part, prev) && m.state == step(prev.state, x);
    var i :| 0 <= i < |rows| && rows[i] == prev;
    assert rows[k].createdAt <= prev.createdAt;
  }

  lemma NoRowNoInputs<S(!new), I>(rows: seq<MetricRow<S>>, xs: seq<I>, part: Partition)
    requires |rows| == |xs| && !HasRow(rows, part)
    ensures InputsOf(rows, xs, part) == []
    decreases |rows|
  {
    if rows != [] {
      var n := |rows| - 1;
      assert rows[n] in rows && forall r :: r in rows[..n] ==> r in rows;
      NoRowNoInputs(rows[..n], xs[..n], part);
    }
  }

  lemma {:induction false} SomeLast<S(!new)>(rows: seq<MetricRow<S>>, part: Partition) returns (k: int)
    requires HasRow(rows, part)
    ensures LastOf(rows, k) && rows[k].part == part
    decreases |rows|
  {
    k := |rows| - 1;
    if rows[k].part != part {
      var r :| r in rows && r.part == part;
      assert r in rows[..k];
      k := SomeLast(rows[..k], part);
    }
  }

  /** The last row of the partition holds the fold of all its inputs. */
  ghost predicate Folded<S, I>(step: (S, I) -> S, start: S, rows: seq<MetricRow<S>>, xs: seq<I>, part: Partition)
    requires |rows| == |xs|
  {
    forall k :: LastOf(rows, k) && rows[k].part == part ==> rows[k].state == Fold(step, start, InputsOf(rows, xs, part))
  }

  lemma FoldsOnto<S(!new), I>(step: (S, I) -> S, start: S, rows: seq<MetricRow<S>>, xs: seq<I>, k: int,
      m: MetricRow<S>, x: I)
    requires |rows| == |xs| && LastOf(rows, k) && rows[k].part == m.part && InOrder(rows, m.part)
    requires CarriesForward(step, start, rows, m, x)
    requires rows[k].state == Fold(step, start, InputsOf(rows, xs, m.part))
    ensures m.state == Fold(step, start, InputsOf(rows, xs, m.part) + [x])
  {
    LastCarries(step, start, rows, k, m, x);
    FoldSnoc(step, start, InputsOf(rows, xs, m.part), x);
  }

  lemma FoldsFirst<S(!new), I>(step: (S, I) -> S, start: S, rows: seq<MetricRow<S>>, xs: seq<I>, m: MetricRow<S>, x: I)
    requires |rows| == |xs| && CarriesForward(step, start, rows, m, x) && !HasRow(rows, m.part)
    ensures m.state == Fold(step, start, InputsOf(rows, xs, m.part) + [x])
  {
    NoRowNoInputs(rows, xs, m.part);
    FoldSnoc(step, start, [], x);
  }

  lemma FoldedOther<S(!new), I>(step: (S, I) -> S, start: S, rows: seq<MetricRow<S>>, xs: seq<I>, part: Partition)
    requires rows != [] && |rows| == |xs| && rows[|rows| - 1].part != part
    requires Folded(step, start, rows[..|rows| - 1], xs[..|rows| - 1], part)
    ensures Folded(step, start, rows, xs, part)
  {
    var n := |rows| - 1;
    hide Fold;
    assert InputsOf(rows, xs, part) == InputsOf(rows[..n], xs[..n], part);
    forall k | LastOf(rows, k) && rows[k].part == part ensures LastOf(rows[..n], k) && rows[..n][k] == rows[k] {
    }
  }

  lemma FoldedOwn<S(!new), I>(step: (S, I) -> S, start: S, rows: seq<MetricRow<S>>, xs: seq<I>, m: MetricRow<S>, x: I)
    requires |rows| == |xs| && InOrder(rows, m.part) && CarriesForward(step, start, rows, m, x)
    requires Folded(step, start, rows, xs, m.part)
    ensures m.state == Fold(step, start, InputsOf(rows, xs, m.part) + [x])
  {
    hide Fold, InputsOf, InOrder, CarriesForward;
    if HasRow(rows, m.part) {
      var k := SomeLast(rows, m.part);
      FoldsOnto(step, start, rows, xs, k, m, x);
    } else {
      FoldsFirst(step, start, rows, xs, m, x);
    }
  }

  /**
   Among rows of any other partitions, the rows of a partition recorded in the order of their
   stamps carry one another forward: its last row is the fold of all its inputs.
   */
  lemma {:induction false} InOrderCarries<S(!new), I>(step: (S, I) -> S, start: S, rows: seq<MetricRow<S>>,
      xs: seq<I>, part: Partition)
    requires Recorded(step, start, rows, xs) && InOrder(rows, part)
    ensures Folded(step, start, rows, xs, part)
    decreases |rows|
  {
    if rows != [] {
      var n := |rows| - 1;
      RecordedPrefix(step, start, rows, xs);
      InOrderCarries(step, start, rows[..n], xs[..n], part);
      if rows[n].part == part {
        assert CarriesForward(step, start, rows[..n], rows[n], xs[n]);
        FoldedOwn(step, start, rows[..n], xs[..n], rows[n], xs[n]);
        hide Recorded, CarriesForward, InOrder, Fold;
        assert InputsOf(rows, xs, part) == InputsOf(rows[..n], xs[..n], part) + [xs[n]];
        assert forall k :: LastOf(rows, k) && rows[k].part == part ==> k == n;
      } else {
        FoldedOther(step, start, rows, xs, part);
      }
    }
  }

  lemma FoldSnoc<S, I>(f: (S, I) -> S, s: S, xs: seq<I>, x: I)
    ensures Fold(f, s, xs + [x]) == f(Fold(f, s, xs), x)
  {
    assert (xs + [x])[..|xs|] == xs;
  }

  lemma {:induction false} InputsOfMembers<S, I(!new)>(rows: seq<MetricRow<S>>, xs: seq<I>, part: Partition)
    requires |rows| == |xs|
    ensures forall x :: x in InputsOf(rows, xs, part) ==>
              exists i :: 0 <= i < |rows| && rows[i].part == part && xs[i] == x
    decreases |rows|
  {
    if rows != [] {
      InputsOfMembers(rows[..|rows| - 1], xs[..|rows| - 1], part);
    }
  }

  /**
   The cash law of the store: whatever other partitions it holds, the last row of a partition
   recorded in order by derived inputs tracks the signed cash of exactly that partition's fills.
   */
  lemma StoredCashLaw(store: ExecutionMetricsStore, k: int)
    requires store.Valid() && LastOf(store.rows, k) && InOrder(store.rows, store.rows[k].part)
    requires forall i :: 0 <= i < |store.rows| && store.rows[i].part == store.rows[k].part ==>
              IsDerived(store.inputs[i])
    ensures Tracks(store.rows[k].state, Booking(InputsOf(store.rows, store.inputs, store.rows[k].part)))
  {
    var xs := InputsOf(store.rows, store.inputs, store.rows[k].part);
    InOrderCarries(Step, FLAT, store.rows, store.inputs, store.rows[k].part);
    InputsOfMembers(store.rows, store.inputs, store.rows[k].part);
    CashLaw(xs);
  }
}
