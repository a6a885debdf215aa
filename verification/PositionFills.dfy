/**
 Reading the position ledger back, and the post-fill snapshot that keeps a just-opened position in
 the ledger while the broker's own book has not settled yet.
 */
module PositionFills {
  import opened Common
  import opened Broker
  import opened Positions
  import Results

  // ---------------------------------------------------------------- reading the ledger back

  /** What every stored row satisfies. */
  ghost predicate ValidRow(r: Row) {
    && r.qty != 0.0 && r.avgPrice > 0.0 && r.lastMark > 0.0 && r.grossNotional > 0.0
    && Alphanumeric(r.currency) && |r.currency| <= 10
    && (r.multiplier.Some? ==> r.multiplier.value > 0.0)
    && (r.unit.Contracts? ==> r.multiplier.Some?)
  }

  ghost predicate ValidBook(book: Book) {
    forall i :: i in book ==> i != 0 && ValidRow(book[i])
  }

  /** A stored row as a snapshot entry. */
  function EntryOf(i: int, r: Row, canonical: int -> string): Entry {
    Entry(canonical(i), Some(if r.qty >= 0.0 then Long else Short), Num(Abs(r.qty)), Some(r.unit),
          if r.multiplier.Some? then Num(r.multiplier.value) else Missing,
          Num(r.grossNotional), r.currency, Num(r.avgPrice), Num(r.lastMark))
  }

  /** The order in which the database returns an account's instruments. */
  ghost predicate Enumerates(order: seq<int>, book: Book) {
    && (forall i :: i in order <==> i in book)
    && (forall j, k :: 0 <= j < k < |order| ==> order[j] != order[k])
  }

  /** Canonical symbols resolve to their own instrument. */
  ghost predicate Canonical(book: Book, canonical: int -> string, resolve: string -> Option<int>) {
    forall i :: i in book ==> canonical(i) != "" && resolve(canonical(i)) == Some(i)
  }

  /** A stored row the listing refuses to report. */
  predicate Unreportable(r: Row) {
    r.qty != 0.0 && (r.grossNotional <= 0.0 || r.currency == "")
  }

  /** The non-zero rows in listing order. */
  function Listed(book: Book, order: seq<int>, canonical: int -> string): seq<Entry>
    requires forall i :: i in order ==> i in book
  {
    if order == [] then []
    else
      var i := order[|order| - 1];
      Listed(book, order[..|order| - 1], canonical) + (if book[i].qty == 0.0 then []
          else [EntryOf(i, book[i], canonical)])
  }

  /** Lists an account's positions, or None where a row cannot be reported. */
  method ListPositions(book: Book, order: seq<int>, canonical: int -> string) returns (es: Option<seq<Entry>>)
    requires Enumerates(order, book)
    ensures es.None? <==>
            exists i :: i in book && book[i].qty != 0.0 && (book[i].grossNotional <= 0.0 || book[i].currency == "")
    ensures es.Some? ==> es.value == Listed(book, order, canonical)
  {
    var result := [];
    for n := 0 to |order|
      invariant result == Listed(book, order[..n], canonical)
      invariant forall m :: 0 <= m < n ==> !Unreportable(book[order[m]])
    {
      var i := order[n];
      assert order[..n + 1][..n] == order[..n];
      if Unreportable(book[i]) {
        return None;
      }
      if book[i].qty != 0.0 {
        result := result + [EntryOf(i, book[i], canonical)];
      }
    }
    assert order[..|order|] == order;
    forall i | i in book ensures !Unreportable(book[i]) {
      assert i in order;
    }
    es := Some(result);
  }

  lemma {:induction false} ListedAt(book: Book, order: seq<int>, canonical: int -> string)
    requires ValidBook(book) && forall i :: i in order ==> i in book
    ensures |Listed(book, order, canonical)| == |order|
    ensures forall n :: 0 <= n < |order| ==>
              Listed(book, order, canonical)[n] == EntryOf(order[n], book[order[n]], canonical)
    decreases |order|
  {
    if order != [] {
      ListedAt(book, order[..|order| - 1], canonical);
      assert order[|order| - 1] in order;
    }
  }

  /** Everything an entry writes is a valid row. */
  lemma ProcessWritesValid(e: Entry, resolve: string -> Option<int>)
    ensures Process(e, resolve).Sets? ==> Process(e, resolve).instr != 0 && ValidRow(Process(e, resolve).row)
  {
  }

  /** Syncing keeps every stored row valid. */
  lemma SyncKeepsValid(book: Book, ps: seq<Entry>, resolve: string -> Option<int>, prune: bool, after: Book)
    requires ValidBook(book) && SyncedTo(book, Outcomes(ps, resolve), prune, after)
    ensures ValidBook(after)
  {
    var os := Outcomes(ps, resolve);
    forall i | i in after ensures i != 0 && ValidRow(after[i]) {
      var k := LastExists(os, i);
      if !Untouched(os, i) { ProcessWritesValid(ps[k], resolve); }
    }
  }

  lemma EntryReadsBack(i: int, r: Row, canonical: int -> string, resolve: string -> Option<int>)
    requires ValidRow(r) && i != 0 && canonical(i) != "" && resolve(canonical(i)) == Some(i)
    ensures Process(EntryOf(i, r, canonical), resolve) == Sets(i, r)
  {
  }

  /**
   Listing the positions and syncing the list back changes nothing, in any listing order and with
   pruning on or off.
   */
  lemma ListThenSyncKeeps(book: Book, order: seq<int>, canonical: int -> string, resolve: string -> Option<int>,
                          prune: bool, after: Book)
    requires ValidBook(book) && Enumerates(order, book) && Canonical(book, canonical, resolve)
    requires SyncedTo(book, Outcomes(Listed(book, order, canonical), resolve), prune, after)
    ensures after == book && Fails !in Outcomes(Listed(book, order, canonical), resolve)
  {
    hide Listed, Outcomes, ValidBook, Enumerates, Canonical, SyncedTo;
    ListedOutcomes(book, order, canonical, resolve);
    RowsSyncBack(book, order, Outcomes(Listed(book, order, canonical), resolve), prune, after);
  }

  /** Entry n reports the row of the n-th instrument listed. */
  ghost predicate Reports(book: Book, order: seq<int>, os: seq<Outcome>) {
    && |os| == |order|
    && forall n :: 0 <= n < |os| ==> order[n] in book && os[n] == Sets(order[n], book[order[n]])
  }

  lemma ListedOutcomes(book: Book, order: seq<int>, canonical: int -> string, resolve: string -> Option<int>)
    requires ValidBook(book) && Enumerates(order, book) && Canonical(book, canonical, resolve)
    ensures Reports(book, order, Outcomes(Listed(book, order, canonical), resolve))
  {
    var os := Outcomes(Listed(book, order, canonical), resolve);
    ListedAt(book, order, canonical);
    forall n | 0 <= n < |os| ensures order[n] in book && os[n] == Sets(order[n], book[order[n]]) {
      assert order[n] in order;
      EntryReadsBack(order[n], book[order[n]], canonical, resolve);
    }
  }

  lemma RowsSyncBack(book: Book, order: seq<int>, os: seq<Outcome>, prune: bool, after: Book)
    requires Enumerates(order, book) && Reports(book, order, os) && SyncedTo(book, os, prune, after)
    ensures after == book && Fails !in os
  {
    forall i ensures (i in book <==> i in after) && (i in book ==> after[i] == book[i]) {
      if i in book { RowReported(book, order, os, prune, after, i); }
          else { RowAbsent(book, order, os, prune, after, i); }
    }
  }

  lemma RowReported(book: Book, order: seq<int>, os: seq<Outcome>, prune: bool, after: Book, i: int)
    requires Enumerates(order, book) && Reports(book, order, os) && SyncedTo(book, os, prune, after) && i in book
    ensures i in after && after[i] == book[i]
  {
    assert i in order;
    var n :| 0 <= n < |order| && order[n] == i;
    assert LastAbout(os, i, n);
    assert SetsSome(os);
  }

  lemma RowAbsent(book: Book, order: seq<int>, os: seq<Outcome>, prune: bool, after: Book, i: int)
    requires Reports(book, order, os) && SyncedTo(book, os, prune, after) && i !in book
    ensures i !in after
  {
    assert Untouched(os, i);
  }

  /** The listed entry has the side, size, prices, unit and currency of the snapshot entry. */
  predicate ReadsBack(e: Entry, p: Entry) {
    && e.side == p.side && p.quantity.Num? && e.quantity == Num(Abs(p.quantity.value)) && e.unit == p.unit
    && e.entryPrice == p.entryPrice && e.currentPrice == p.currentPrice && e.currency == p.currency
  }

  /** Where the listed entry of an instrument comes from: its last snapshot entry, or the row that was kept. */
  ghost predicate ListedFrom(book: Book, ps: seq<Entry>, os: seq<Outcome>, prune: bool, i: int, e: Entry,
                             canonical: int -> string)
    requires |os| == |ps|
  {
    && e.symbol == canonical(i)
    && (|| (exists k :: LastAbout(os, i, k) && os[k].Sets? && ReadsBack(e, ps[k]))
        || (Untouched(os, i) && !prune && !SetsSome(os) && i in book && e == EntryOf(i, book[i], canonical)))
  }

  /**
   After a sync of a valid book the listing succeeds in any order. It holds exactly the instruments
   whose last entry is non-zero, or the untouched rows that were kept, each once, with the side and
   quantity of that entry or row.
   */
  lemma SyncThenListReadsBack(book: Book, ps: seq<Entry>, resolve: string -> Option<int>, prune: bool, after: Book,
                              order: seq<int>, canonical: int -> string)
    requires ValidBook(book) && Fails !in Outcomes(ps, resolve) && SyncedTo(book, Outcomes(ps, resolve), prune, after)
    requires Enumerates(order, after)
    ensures forall i :: i in after ==> !Unreportable(after[i])
    ensures var es := Listed(after, order, canonical);
            && |es| == |order|
            && forall n :: 0 <= n < |es| ==> ListedFrom(book, ps, Outcomes(ps, resolve), prune, order[n], es[n],
                 canonical)
    ensures forall i :: i in order <==>
              || LastReportHolds(Outcomes(ps, resolve), i)
              || (Untouched(Outcomes(ps, resolve), i) && !prune && !SetsSome(Outcomes(ps, resolve)) && i in book)
    ensures Canonical(after, canonical, resolve) ==>
              forall m, n :: 0 <= m < n < |order| ==>
                Listed(after, order, canonical)[m].symbol != Listed(after, order, canonical)[n].symbol
  {
    var os := Outcomes(ps, resolve);
    SyncKeepsValid(book, ps, resolve, prune, after);
    ListedAt(after, order, canonical);
    forall i
      ensures i in order <==> LastReportHolds(os, i) || (Untouched(os, i) && !prune && !SetsSome(os) && i in book)
    {
      PresentAfterSync(book, os, prune, after, i);
    }
    forall n | 0 <= n < |order|
      ensures ListedFrom(book, ps, os, prune, order[n], EntryOf(order[n], after[order[n]], canonical), canonical)
    {
      assert order[n] in order;
      SyncedRowReadsBack(book, ps, resolve, prune, after, order[n], canonical);
    }
    hide Outcomes, SyncedTo, ListedFrom, Listed;
    if Canonical(after, canonical, resolve) {
      forall m, n | 0 <= m < n < |order| ensures canonical(order[m]) != canonical(order[n]) {
        assert order[m] in order && order[n] in order;
      }
    }
  }

  lemma SyncedRowReadsBack(book: Book, ps: seq<Entry>, resolve: string -> Option<int>, prune: bool, after: Book, i: int,
                           canonical: int -> string)
    requires Fails !in Outcomes(ps, resolve) && SyncedTo(book, Outcomes(ps, resolve), prune, after) && i in after
    ensures ListedFrom(book, ps, Outcomes(ps, resolve), prune, i, EntryOf(i, after[i], canonical), canonical)
  {
    var os := Outcomes(ps, resolve);
    PresentAfterSync(book, os, prune, after, i);
    if k :| LastAbout(os, i, k) && os[k].Sets? {
      assert SetsSome(os);
      assert after[i] == os[k].row;
      RowReadsBack(ps[k], resolve, canonical);
    }
  }

  lemma RowReadsBack(p: Entry, resolve: string -> Option<int>, canonical: int -> string)
    requires Process(p, resolve).Sets?
    ensures ReadsBack(EntryOf(Process(p, resolve).instr, Process(p, resolve).row, canonical), p)
  {
  }

  /** Syncing the same snapshot twice is syncing it once. */
  lemma SyncTwiceIsOnce(a: Book, os: seq<Outcome>, prune: bool, b: Book, c: Book)
    requires SyncedTo(a, os, prune, b) && SyncedTo(b, os, prune, c)
    ensures b == c
  {
    if prune || SetsSome(os) {
      DescribedBookUnique(os, b, c);
    } else {
      forall i ensures (i in b <==> i in c) && (i in b ==> b[i] == c[i]) {
      }
    }
  }

  // ---------------------------------------------------------------- after a fill

  predicate Opened(r: Results.ExecutionResult, action: string) {
    r.ordersFilled > 0 && r.totalQuantity > 0.0 && action in {"LONG", "SHORT"}
  }

  predicate HasSymbol(snapshot: seq<Entry>, symbol: string) {
    exists k :: 0 <= k < |snapshot| && snapshot[k].symbol == symbol
  }

  /** The position inferred from the fill itself. */
  function FillEntry(symbol: string, action: string, quantity: real, price: real, currency: string): Entry {
    Entry(symbol, Some(if action == "LONG" then Long else Short), Num(quantity), Some(Asset), Missing,
          Num(Abs(quantity * price)), currency, Num(price), Num(price))
  }

  const ASSET_MODES: set<string> := {"paper", "spot"}

  /** The snapshot to sync after a trade and whether it may prune; None where the source raises. */
  function PositionsToPersist(snapshot: seq<Entry>, symbol: string, action: string, r: Results.ExecutionResult,
                              currency: string)
    : Option<(seq<Entry>, bool)>
  {
    var isOpen := Opened(r, action);
    if !isOpen || HasSymbol(snapshot, symbol) || r.mode !in ASSET_MODES then Some((snapshot, !isOpen))
    else if !Alphanumeric(currency) || r.averagePrice <= 0.0 then None
    else Some((snapshot + [FillEntry(symbol, action, r.totalQuantity, r.averagePrice, currency)], false))
  }

  /** A paper or spot trade that opened a long or short position. */
  ghost predicate OpenedOnAsset(r: Results.ExecutionResult, action: string) {
    && r.ordersFilled > 0 && r.totalQuantity > 0.0
    && (action == "LONG" || action == "SHORT") && (r.mode == "paper" || r.mode == "spot")
  }

  /** Persisting raises exactly on an opened position the broker does not show and the fill cannot value. */
  lemma PersistRefusedIff(snapshot: seq<Entry>, symbol: string, action: string, r: Results.ExecutionResult,
                          currency: string)
    ensures PositionsToPersist(snapshot, symbol, action, r, currency).None? <==>
            && OpenedOnAsset(r, action)
            && (forall k :: 0 <= k < |snapshot| ==> snapshot[k].symbol != symbol)
            && (r.averagePrice <= 0.0 || !Alphanumeric(currency))
  {
  }

  /** After anything but an opening fill the ledger becomes exactly what the snapshot describes. */
  lemma OtherwiseMirrors(snapshot: seq<Entry>, symbol: string, action: string, r: Results.ExecutionResult,
                         currency: string, resolve: string -> Option<int>, book: Book, ps: seq<Entry>, prune: bool,
                         after: Book)
    requires r.ordersFilled <= 0 || r.totalQuantity <= 0.0 || (action != "LONG" && action != "SHORT")
    requires PositionsToPersist(snapshot, symbol, action, r, currency) == Some((ps, prune))
    requires SyncedTo(book, Outcomes(ps, resolve), prune, after)
    ensures ps == snapshot && Describes(Outcomes(snapshot, resolve), after)
  {
  }

  lemma ProductPositive(a: real, b: real)
    requires a > 0.0 && b > 0.0
    ensures a * b > 0.0
  {
  }

  /** The inferred position is accepted exactly when its currency fits the column. */
  lemma FillEntryProcesses(symbol: string, action: string, q: real, price: real, currency: string,
                           resolve: string -> Option<int>, i: int)
    requires q > 0.0 && price > 0.0 && Alphanumeric(currency) && symbol != "" && i != 0 && resolve(symbol) == Some(i)
    ensures Process(FillEntry(symbol, action, q, price, currency), resolve)
            == if |currency| <= 10
               then Sets(i, Row(if action == "LONG" then q else -q, price, price, Asset, None, q * price, currency))
               else Fails
  {
    ProductPositive(q, price);
  }

  /** Exactly which instruments hold a position after a sync. */
  lemma PresentAfterSync(book: Book, os: seq<Outcome>, prune: bool, after: Book, i: int)
    requires Fails !in os && SyncedTo(book, os, prune, after)
    ensures i in after <==>
            || (exists k :: LastAbout(os, i, k) && os[k].Sets?)
            || (Untouched(os, i) && !prune && !SetsSome(os) && i in book)
  {
    var k := LastExists(os, i);
    if LastAbout(os, i, k) {
      assert forall j :: LastAbout(os, i, j) ==> j == k;
      assert os[k] in os;
      assert os[k].Sets? ==> SetsSome(os);
    }
  }

  /** Some entry about the symbol's instrument is the last one, and it reports a position. */
  ghost predicate LastReportHolds(os: seq<Outcome>, i: int) {
    exists k :: LastAbout(os, i, k) && os[k].Sets?
  }

  /**
   After a filled paper or spot LONG or SHORT, syncing never prunes on an empty snapshot, and the
   traded instrument is in the ledger exactly when the broker snapshot left its symbol out or the
   last snapshot entry about the instrument is non-zero.
   */
  lemma FilledPositionRecorded(snapshot: seq<Entry>, symbol: string, action: string, r: Results.ExecutionResult,
                               currency: string,
                               resolve: string -> Option<int>, i: int, book: Book, ps: seq<Entry>, prune: bool,
                               after: Book)
    requires OpenedOnAsset(r, action) && resolve(symbol) == Some(i)
    requires PositionsToPersist(snapshot, symbol, action, r, currency) == Some((ps, prune))
    requires Fails !in Outcomes(ps, resolve) && SyncedTo(book, Outcomes(ps, resolve), prune, after)
    ensures !prune
    ensures i in after <==> !HasSymbol(snapshot, symbol) || LastReportHolds(Outcomes(snapshot, resolve), i)
    ensures !HasSymbol(snapshot, symbol) ==>
              after[i] == Row(if action == "LONG" then r.totalQuantity else -r.totalQuantity, r.averagePrice,
                              r.averagePrice, Asset, None, r.totalQuantity * r.averagePrice, currency)
  {
    hide Outcomes, SyncedTo, LastReportHolds, FillEntry, HasSymbol, Alphanumeric;
    if HasSymbol(snapshot, symbol) {
      ShownSymbol(snapshot, symbol, resolve, i, book, after);
    } else {
      UnshownSymbol(snapshot, symbol, action, r.totalQuantity, r.averagePrice, currency, resolve, i, book, after);
    }
  }

  lemma ShownSymbol(snapshot: seq<Entry>, symbol: string, resolve: string -> Option<int>, i: int, book: Book,
                    after: Book)
    requires HasSymbol(snapshot, symbol) && resolve(symbol) == Some(i)
    requires Fails !in Outcomes(snapshot, resolve) && SyncedTo(book, Outcomes(snapshot, resolve), false, after)
    ensures i in after <==> LastReportHolds(Outcomes(snapshot, resolve), i)
  {
    var os := Outcomes(snapshot, resolve);
    PresentAfterSync(book, os, false, after, i);
    var k :| 0 <= k < |snapshot| && snapshot[k].symbol == symbol;
    assert os[k] in os;
    assert Touches(os[k], i);
  }

  lemma UnshownSymbol(snapshot: seq<Entry>, symbol: string, action: string, q: real, price: real, currency: string,
                      resolve: string -> Option<int>, i: int, book: Book, after: Book)
    requires q > 0.0 && price > 0.0 && Alphanumeric(currency) && resolve(symbol) == Some(i)
    requires var os := Outcomes(snapshot + [FillEntry(symbol, action, q, price, currency)], resolve);
             Fails !in os && SyncedTo(book, os, false, after)
    ensures i in after
    ensures after[i] == Row(if action == "LONG" then q else -q, price, price, Asset, None, q * price, currency)
  {
    var os := Outcomes(snapshot + [FillEntry(symbol, action, q, price, currency)], resolve);
    FillEntryLast(snapshot, symbol, action, q, price, currency, resolve, i);
    assert os[|snapshot|] in os;
    var row := os[|snapshot|].row;
    LastRowKept(os, i, row, book, after);
  }

  lemma LastRowKept(os: seq<Outcome>, i: int, row: Row, book: Book, after: Book)
    requires os != [] && os[|os| - 1] == Sets(i, row) && SyncedTo(book, os, false, after)
    ensures i in after && after[i] == row
  {
    assert LastAbout(os, i, |os| - 1);
    assert SetsSome(os);
  }

  /** Against a snapshot of non-zero entries the traded instrument is always recorded. */
  lemma FilledPositionAlwaysPresent(snapshot: seq<Entry>, symbol: string, action: string, r: Results.ExecutionResult,
                                    currency: string,
                                    resolve: string -> Option<int>, i: int, book: Book, ps: seq<Entry>, prune: bool,
                                    after: Book)
    requires OpenedOnAsset(r, action) && resolve(symbol) == Some(i)
    requires PositionsToPersist(snapshot, symbol, action, r, currency) == Some((ps, prune))
    requires Fails !in Outcomes(ps, resolve) && SyncedTo(book, Outcomes(ps, resolve), prune, after)
    requires forall k :: 0 <= k < |snapshot| && snapshot[k].quantity.Num? ==> snapshot[k].quantity.value != 0.0
    ensures i in after
  {
    if HasSymbol(snapshot, symbol) { NonZeroReports(snapshot, symbol, resolve, i); }
    hide Outcomes, SyncedTo, LastReportHolds, HasSymbol;
    FilledPositionRecorded(snapshot, symbol, action, r, currency, resolve, i, book, ps, prune, after);
  }

  lemma NonZeroReports(snapshot: seq<Entry>, symbol: string, resolve: string -> Option<int>, i: int)
    requires HasSymbol(snapshot, symbol) && resolve(symbol) == Some(i) && Fails !in Outcomes(snapshot, resolve)
    requires forall k :: 0 <= k < |snapshot| && snapshot[k].quantity.Num? ==> snapshot[k].quantity.value != 0.0
    ensures LastReportHolds(Outcomes(snapshot, resolve), i)
  {
    var os := Outcomes(snapshot, resolve);
    var j :| 0 <= j < |snapshot| && snapshot[j].symbol == symbol;
    assert os[j] in os && Touches(os[j], i);
    var k := LastExists(os, i);
    NonZeroSets(snapshot[k], resolve);
  }

  lemma NonZeroSets(e: Entry, resolve: string -> Option<int>)
    requires e.quantity.Num? ==> e.quantity.value != 0.0
    ensures !Process(e, resolve).Removes?
  {
  }

  lemma FillEntryLast(snapshot: seq<Entry>, symbol: string, action: string, q: real, price: real, currency: string,
                      resolve: string -> Option<int>, i: int)
    requires q > 0.0 && price > 0.0 && Alphanumeric(currency) && resolve(symbol) == Some(i)
    ensures var last := Outcomes(snapshot + [FillEntry(symbol, action, q, price, currency)], resolve)[|snapshot|];
            !last.Fails? ==>
              last == Sets(i, Row(if action == "LONG" then q else -q, price, price, Asset, None, q * price, currency))
  {
    if symbol != "" && i != 0 {
      FillEntryProcesses(symbol, action, q, price, currency, resolve, i);
    }
  }

  /** Whoever syncs it, an empty snapshot without the prune flag leaves the book as it was. */
  lemma EmptySnapshotKeepsBook(resolve: string -> Option<int>, book: Book, after: Book)
    requires SyncedTo(book, Outcomes([], resolve), false, after)
    ensures after == book
  {
    assert !SetsSome(Outcomes([], resolve));
    forall i ensures (i in after <==> i in book) && (i in after ==> after[i] == book[i]) {
      assert Untouched(Outcomes([], resolve), i);
    }
  }

  /** So a derivative fill the broker does not show yet leaves the book as it was. */
  lemma UnshownDerivativeKeepsBook(symbol: string, action: string, r: Results.ExecutionResult, currency: string,
                                   resolve: string -> Option<int>, book: Book, ps: seq<Entry>, prune: bool, after: Book)
    requires r.ordersFilled > 0 && r.totalQuantity > 0.0 && (action == "LONG" || action == "SHORT")
    requires r.mode != "paper" && r.mode != "spot"
    requires PositionsToPersist([], symbol, action, r, currency) == Some((ps, prune))
    requires SyncedTo(book, Outcomes(ps, resolve), prune, after)
    ensures after == book
  {
    EmptySnapshotKeepsBook(resolve, book, after);
  }

  /** A zero entry for the traded symbol hides the fill: nothing is inferred and the row is deleted. */
  lemma ZeroEntryHidesFill(book: Book, after: Book)
    requires var e := Entry("BTC-USD", Some(Long), Num(0.0), None, Missing, Missing, "", Missing, Missing);
             SyncedTo(book, Outcomes([e], s => Some(7)), false, after)
    ensures var e := Entry("BTC-USD", Some(Long), Num(0.0), None, Missing, Missing, "", Missing, Missing);
            var r := Results.ExecutionResult(true, "spot", 1, 1, 2.0, 100.0, 0.0, "");
            && Opened(r, "LONG")
            && PositionsToPersist([e], "BTC-USD", "LONG", r, "USD") == Some(([e], false))
            && 7 !in after
  {
    var e := Entry("BTC-USD", Some(Long), Num(0.0), None, Missing, Missing, "", Missing, Missing);
    var os := Outcomes([e], s => Some(7));
    assert [e][0].symbol == "BTC-USD";
    assert os[0] == Removes(7);
    assert LastAbout(os, 7, 0);
  }
}
