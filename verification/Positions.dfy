/**
 The position ledger: mirroring a broker snapshot into the account's rows, reading the rows back,
 and the post-fill snapshot that keeps a just-opened position in the ledger.
 */
module Positions {
  import opened Common
  import opened Broker

  datatype Side = Long | Short
  datatype Unit = Asset | Contracts | QuoteNotional

  /** A numeric field of a snapshot entry. */
  datatype Field = Missing | Unparsable | Num(value: real)

  /** One snapshot entry; the currency is stripped and upper-cased. */
  datatype Entry = Entry(
    symbol: string,
    side: Option<Side>,
    quantity: Field,
    unit: Option<Unit>,
    multiplier: Field,
    grossNotional: Field,
    currency: string,
    entryPrice: Field,
    currentPrice: Field
  )

  datatype Row = Row(
    qty: real,
    avgPrice: real,
    lastMark: real,
    unit: Unit,
    multiplier: Option<real>,
    grossNotional: real,
    currency: string
  )

  predicate Positive(f: Field) {
    f.Num? && f.value > 0.0
  }

  predicate IsAlnum(c: char) {
    'A' <= c <= 'Z' || 'a' <= c <= 'z' || '0' <= c <= '9'
  }

  predicate Alphanumeric(s: string) {
    s != "" && forall i :: 0 <= i < |s| ==> IsAlnum(s[i])
  }

  /** The gross notional of a non-zero entry, or None where the source refuses to value it. */
  function GrossNotional(e: Entry): Option<real> {
    if !e.quantity.Num? || e.unit.None? then None
    else if !e.grossNotional.Missing? then
      (if Positive(e.grossNotional) then Some(e.grossNotional.value) else None)
    else if e.unit.value != Asset then None
    else
      var price := if e.currentPrice.Missing? then e.entryPrice else e.currentPrice;
      if Positive(price) then Some(Abs(e.quantity.value) * price.value) else None
  }

  /** What processing one entry does. */
  datatype Outcome = Fails | Removes(instr: int) | Sets(instr: int, row: Row)

  function SignedQuantity(e: Entry): real
    requires e.quantity.Num? && e.side.Some?
  {
    if e.side.value.Short? then -Abs(e.quantity.value) else Abs(e.quantity.value)
  }

  function Valued(e: Entry): Option<Row>
    requires e.quantity.Num? && e.side.Some?
  {
    var gross := GrossNotional(e);
    if e.unit.None? then None
    else if e.multiplier.Unparsable? || (e.multiplier.Num? && e.multiplier.value <= 0.0) then None
    else if e.unit.value.Contracts? && e.multiplier.Missing? then None
    else if gross.None? || gross.value <= 0.0 then None
    else if !Alphanumeric(e.currency) || |e.currency| > 10 then None
    else if !Positive(e.entryPrice) || !Positive(e.currentPrice) then None
    else Some(Row(SignedQuantity(e), e.entryPrice.value, e.currentPrice.value, e.unit.value,
                  if e.multiplier.Num? then Some(e.multiplier.value) else None, gross.value, e.currency))
  }

  function Process(e: Entry, resolve: string -> Option<int>): Outcome {
    if e.symbol == "" then Fails
    else match resolve(e.symbol)
      case None => Fails
      case Some(instr) =>
        if instr == 0 || !e.quantity.Num? || e.side.None? then Fails
        else if SignedQuantity(e) == 0.0 then Removes(instr)
        else match Valued(e)
          case None => Fails
          case Some(row) => Sets(instr, row)
  }

  function Outcomes(ps: seq<Entry>, resolve: string -> Option<int>): (os: seq<Outcome>)
    ensures |os| == |ps|
    ensures forall i :: 0 <= i < |ps| ==> os[i] == Process(ps[i], resolve)
  {
    seq(|ps|, i requires 0 <= i < |ps| => Process(ps[i], resolve))
  }

  /** An amount present and above zero. */
  ghost predicate Above(f: Field) {
    f != Missing && f != Unparsable && f.value > 0.0
  }

  /** What an entry with a position must report besides its symbol, side and quantity. */
  ghost predicate Complete(e: Entry) {
    && e.unit != None && Above(e.entryPrice) && Above(e.currentPrice)
    && (if e.unit == Some(Contracts) then Above(e.multiplier) else e.multiplier == Missing || Above(e.multiplier))
    && (Above(e.grossNotional) || (e.grossNotional == Missing && e.unit == Some(Asset)))
    && 1 <= |e.currency| <= 10
    && forall j :: 0 <= j < |e.currency| ==>
         || 'A' <= e.currency[j] <= 'Z' || 'a' <= e.currency[j] <= 'z' || '0' <= e.currency[j] <= '9'
  }

  lemma CompleteValued(e: Entry)
    requires e.quantity.Num? && e.side.Some? && e.quantity.value != 0.0
    ensures Valued(e).Some? <==> Complete(e)
  {
    if e.unit == Some(Asset) && e.grossNotional == Missing && Above(e.currentPrice) {
      NotionalPositive(e.quantity.value, e.currentPrice.value);
    }
  }

  lemma NotionalPositive(q: real, price: real)
    requires q != 0.0 && price > 0.0
    ensures Abs(q) * price > 0.0
  {
  }

  /**
   Exactly which entries delete a row, which write one and which fail the sync, and every column of
   the row written: short positions are negative whatever sign the broker reports.
   */
  lemma EntryMeans(e: Entry, resolve: string -> Option<int>)
    ensures var named := e.symbol != "" && resolve(e.symbol) != None && resolve(e.symbol) != Some(0) && e.side != None;
            var o := Process(e, resolve);
            && (o.Removes? <==> named && e.quantity == Num(0.0))
            && (o.Sets? <==> named && e.quantity.Num? && e.quantity.value != 0.0 && Complete(e))
            && (!o.Fails? ==> resolve(e.symbol) == Some(o.instr))
            && (o.Sets? ==> RowOf(e, o.row))
  {
    if e.quantity.Num? && e.side.Some? && e.quantity.value != 0.0 { CompleteValued(e); }
    hide Complete;
  }

  /** The columns of the row of an entry. */
  ghost predicate RowOf(e: Entry, row: Row) {
    && e.quantity.Num? && Complete(e)
    && var size := if e.quantity.value < 0.0 then -e.quantity.value else e.quantity.value;
    && row.qty == (if e.side == Some(Long) then size else -size)
    && row.avgPrice == e.entryPrice.value && row.lastMark == e.currentPrice.value
    && Some(row.unit) == e.unit && row.currency == e.currency
    && row.multiplier == (if e.multiplier == Missing then None else Some(e.multiplier.value))
    && row.grossNotional
       == if e.grossNotional == Missing then size * e.currentPrice.value else e.grossNotional.value
  }

  // ---------------------------------------------------------------- what a snapshot means

  type Book = map<int, Row>

  /** The entries applied in order to a book. */
  function Overlay(book: Book, os: seq<Outcome>): Book {
    if os == [] then book else Applied(Overlay(book, os[..|os| - 1]), os[|os| - 1])
  }

  function Applied(book: Book, o: Outcome): Book {
    match o
    case Fails => book
    case Removes(i) => book - {i}
    case Sets(i, row) => book[i := row]
  }

  lemma OverlaySnoc(book: Book, os: seq<Outcome>, o: Outcome)
    ensures Overlay(book, os + [o]) == Applied(Overlay(book, os), o)
  {
    assert (os + [o])[..|os|] == os;
  }

  predicate Touches(o: Outcome, i: int) {
    !o.Fails? && o.instr == i
  }

  /** Entry k is the last one about this instrument. */
  ghost predicate LastAbout(os: seq<Outcome>, i: int, k: int) {
    && 0 <= k < |os| && Touches(os[k], i)
    && forall j :: k < j < |os| ==> !Touches(os[j], i)
  }

  ghost predicate Untouched(os: seq<Outcome>, i: int) {
    forall j :: 0 <= j < |os| ==> !Touches(os[j], i)
  }

  /** The book the snapshot alone describes: an instrument has the row of its last entry. */
  ghost predicate Describes(os: seq<Outcome>, book: Book) {
    && (forall i, k :: LastAbout(os, i, k) ==>
          if os[k].Sets? then i in book && book[i] == os[k].row else i !in book)
    && (forall i :: Untouched(os, i) ==> i !in book)
  }

  predicate SetsSome(os: seq<Outcome>) {
    exists k :: 0 <= k < |os| && os[k].Sets?
  }

  /**
   The account's book after a sync: the snapshot's own book when it holds a non-zero position or
   the caller may prune, else the old book without the instruments reported as zero.
   */
  ghost predicate SyncedTo(old': Book, os: seq<Outcome>, prune: bool, new': Book) {
    if prune || SetsSome(os) then Describes(os, new')
    else
      && (forall i :: i in new' <==> i in old' && Untouched(os, i))
      && (forall i :: i in new' ==> new'[i] == old'[i])
  }

  lemma {:induction false} OverlayUntouched(book: Book, os: seq<Outcome>, i: int)
    requires Untouched(os, i)
    ensures i in Overlay(book, os) <==> i in book
    ensures i in book ==> Overlay(book, os)[i] == book[i]
    decreases |os|
  {
    if os != [] {
      var last := os[|os| - 1];
      OverlayUntouched(book, os[..|os| - 1], i);
      assert !Touches(last, i);
    }
  }

  lemma {:induction false} OverlayLast(book: Book, os: seq<Outcome>, i: int, k: int)
    requires LastAbout(os, i, k)
    ensures if os[k].Sets? then i in Overlay(book, os) && Overlay(book, os)[i] == os[k].row else i !in Overlay(book, os)
    decreases |os|
  {
    if k < |os| - 1 {
      var last := os[|os| - 1];
      OverlayLast(book, os[..|os| - 1], i, k);
      assert !Touches(last, i);
    }
  }

  /** Every instrument is untouched or has a last entry. */
  lemma {:induction false} LastExists(os: seq<Outcome>, i: int) returns (k: int)
    ensures Untouched(os, i) || LastAbout(os, i, k)
    decreases |os|
  {
    k := -1;
    if os != [] {
      if Touches(os[|os| - 1], i) {
        k := |os| - 1;
      } else {
        k := LastExists(os[..|os| - 1], i);
      }
    }
  }

  /** A snapshot describes exactly one book. */
  lemma DescribedBookUnique(os: seq<Outcome>, a: Book, b: Book)
    requires Describes(os, a) && Describes(os, b)
    ensures a == b
  {
    forall i ensures (i in a <==> i in b) && (i in a ==> a[i] == b[i]) {
      var k := LastExists(os, i);
    }
  }

  // ---------------------------------------------------------------- the store

  type Ledger = map<(int, int), Row>

  /** The rows of one account by instrument. */
  function View(ledger: Ledger, account: int): (v: Book)
    ensures forall i :: i in v <==> (account, i) in ledger
    ensures forall i :: i in v ==> v[i] == ledger[(account, i)]
  {
    map k | k in ledger && k.0 == account :: k.1 := ledger[k]
  }

  /** Rows of other accounts are the same. */
  ghost predicate OthersKept(a: Ledger, b: Ledger, account: int) {
    forall k :: k in a.Keys + b.Keys && k.0 != account ==> k in a && k in b && a[k] == b[k]
  }

  lemma OneRowChanges(ledger: Ledger, account: int, o: Outcome)
    requires !o.Fails?
    ensures View(RowApplied(ledger, account, o), account) == Applied(View(ledger, account), o)
    ensures OthersKept(ledger, RowApplied(ledger, account, o), account)
  {
  }

  /** The row an entry writes or deletes. */
  function RowApplied(ledger: Ledger, account: int, o: Outcome): Ledger
    requires !o.Fails?
  {
    match o
    case Removes(i) => ledger - {(account, i)}
    case Sets(i, row) => ledger[(account, i) := row]
  }

  /** Deletes the account's rows outside `keep`. */
  function KeepOnly(ledger: Ledger, account: int, keep: set<int>): Ledger {
    map k | k in ledger && (k.0 != account || k.1 in keep) :: ledger[k]
  }

  class ExecutionPositionStore {
    var ledger: Ledger

    constructor ()
      ensures ledger == map[]
    {
      ledger := map[];
    }

    /**
     Mirrors a snapshot. It fails, changing nothing, exactly when the route is not a connected
     account or some entry cannot be processed.
     */
    method SyncPositions(routeOk: bool, account: int, ps: seq<Entry>, prune: bool,
                         resolve: string -> Option<int>) returns (ok: bool)
      modifies this
      ensures ok <==> routeOk && Fails !in Outcomes(ps, resolve)
      ensures !ok ==> ledger == old(ledger)
      ensures ok ==> SyncedTo(View(old(ledger), account), Outcomes(ps, resolve), prune, View(ledger, account))
      ensures OthersKept(old(ledger), ledger, account)
    {
      hide Process, Mirrored, SyncedTo, OthersKept;
      OthersKeptSelf(ledger, account);
      if !routeOk {
        return false;
      }
      ghost var os := Outcomes(ps, resolve);
      var rows := ledger;
      var seen: set<int> := {};
      MirroredStart(ledger, account, os);
      for n := 0 to |ps|
        invariant ledger == old(ledger)
        invariant Mirrored(ledger, rows, account, os, n, seen)
      {
        var o := Process(ps[n], resolve);
        if o.Fails? {
          assert os[n] in os;
          return false;
        }
        MirroredStep(ledger, rows, account, os, n, seen);
        if o.Removes? {
          rows := rows - {(account, o.instr)};
        } else {
          seen := seen + {o.instr};
          rows := rows[(account, o.instr) := o.row];
        }
      }
      MirroredEnd(ledger, rows, account, os, seen, prune);
      if seen != {} {
        rows := KeepOnly(rows, account, seen);
      } else if prune {
        rows := KeepOnly(rows, account, {});
      }
      ledger := rows;
      ok := true;
    }
  }

  /** The working rows and the instruments seen after the first n entries. */
  ghost predicate Mirrored(base: Ledger, rows: Ledger, account: int, os: seq<Outcome>, n: nat, seen: set<int>)
    requires n <= |os|
  {
    && Fails !in os[..n]
    && View(rows, account) == Overlay(View(base, account), os[..n])
    && OthersKept(base, rows, account)
    && seen == SetInstruments(os[..n])
  }

  lemma OthersKeptSelf(ledger: Ledger, account: int)
    ensures OthersKept(ledger, ledger, account)
  {
  }

  lemma MirroredStart(base: Ledger, account: int, os: seq<Outcome>)
    ensures Mirrored(base, base, account, os, 0, {})
  {
  }

  lemma MirroredStep(base: Ledger, rows: Ledger, account: int, os: seq<Outcome>, n: nat, seen: set<int>)
    requires n < |os| && !os[n].Fails? && Mirrored(base, rows, account, os, n, seen)
    ensures Mirrored(base, RowApplied(rows, account, os[n]), account, os, n + 1,
                     if os[n].Sets? then seen + {os[n].instr} else seen)
  {
    hide Overlay, Applied, OthersKept, View, RowApplied, SetInstruments;
    var o := os[n];
    assert os[..n + 1] == os[..n] + [o];
    OneRowChanges(rows, account, o);
    OverlaySnoc(View(base, account), os[..n], o);
    SetInstrumentsSnoc(os[..n], o);
    OthersKeptTrans(base, rows, RowApplied(rows, account, o), account);
  }

  lemma OthersKeptTrans(a: Ledger, b: Ledger, c: Ledger, account: int)
    requires OthersKept(a, b, account) && OthersKept(b, c, account)
    ensures OthersKept(a, c, account)
  {
  }

  /** The final prune: to the instruments seen, or to nothing where the caller may prune. */
  function Kept(rows: Ledger, account: int, seen: set<int>, prune: bool): Ledger {
    if seen != {} then KeepOnly(rows, account, seen)
    else if prune then KeepOnly(rows, account, {})
    else rows
  }

  lemma MirroredEnd(base: Ledger, rows: Ledger, account: int, os: seq<Outcome>, seen: set<int>, prune: bool)
    requires Mirrored(base, rows, account, os, |os|, seen)
    ensures Fails !in os
    ensures var after := Kept(rows, account, seen, prune);
            SyncedTo(View(base, account), os, prune, View(after, account)) && OthersKept(base, after, account)
  {
    assert os[..|os|] == os;
    var after := Kept(rows, account, seen, prune);
    PruneIsSync(View(base, account), os, prune, seen, View(after, account));
    OthersKeptTrans(base, rows, after, account);
  }

  ghost predicate SetsIn(os: seq<Outcome>, i: int) {
    exists k :: 0 <= k < |os| && os[k].Sets? && os[k].instr == i
  }

  /** The instruments some entry gives a position. */
  ghost function SetInstruments(os: seq<Outcome>): (r: set<int>) {
    if os == [] then {}
    else
      var last := os[|os| - 1];
      SetInstruments(os[..|os| - 1]) + (if last.Sets? then {last.instr} else {})
  }

  lemma SetInstrumentsSnoc(os: seq<Outcome>, o: Outcome)
    ensures SetInstruments(os + [o]) == SetInstruments(os) + (if o.Sets? then {o.instr} else {})
  {
    assert (os + [o])[..|os|] == os;
  }

  lemma {:induction false} SetInstrumentsAre(os: seq<Outcome>)
    ensures SetInstruments(os) == {} <==> !SetsSome(os)
    ensures forall i :: i in SetInstruments(os) <==> SetsIn(os, i)
    decreases |os|
  {
    if os != [] {
      var before, last := os[..|os| - 1], os[|os| - 1];
      SetInstrumentsAre(before);
      if last.Sets? { assert last.instr in SetInstruments(os); }
      forall i ensures SetsIn(os, i) <==> SetsIn(before, i) || (last.Sets? && last.instr == i) {
        assert forall k :: 0 <= k < |before| ==> before[k] == os[k];
      }
    }
  }

  /** What remains of the overlaid book after the final prune is the synced book. */
  lemma PruneIsSync(before: Book, os: seq<Outcome>, prune: bool, seen: set<int>, after: Book)
    requires Fails !in os && seen == SetInstruments(os)
    requires forall i :: i in after <==> i in Overlay(before, os) && (if seen != {} then i in seen else !prune)
    requires forall i :: i in after ==> after[i] == Overlay(before, os)[i]
    ensures SyncedTo(before, os, prune, after)
  {
    SetInstrumentsAre(os);
    if prune || SetsSome(os) {
      forall i, k | LastAbout(os, i, k)
        ensures if os[k].Sets? then i in after && after[i] == os[k].row else i !in after
      {
        OverlayLast(before, os, i, k);
        assert os[k].Sets? ==> SetsIn(os, i);
      }
      forall i | Untouched(os, i) ensures i !in after {
        NotSet(os, i);
      }
    } else {
      forall i ensures i in after <==> i in before && Untouched(os, i) {
        var k := LastExists(os, i);
        if Untouched(os, i) { OverlayUntouched(before, os, i); } else { OverlayLast(before, os, i, k); }
      }
      forall i | i in after ensures after[i] == before[i] {
        OverlayUntouched(before, os, i);
      }
    }
  }

  lemma NotSet(os: seq<Outcome>, i: int)
    requires Untouched(os, i)
    ensures !SetsIn(os, i)
  {
    assert forall k :: 0 <= k < |os| ==> !Touches(os[k], i);
  }
}
