/**
 The fills blotter: keyset pagination on (fill time, execution id) against the full list sorted
 newest first, with and without fills arriving between pages.
 */
module FillPages {
  import opened Common

  datatype Fill = Fill(ts: int, id: nat, account: int)

  /** A position in the blotter: fill time and execution id. */
  datatype Cursor = Cursor(ts: int, id: nat)

  function CursorOf(f: Fill): Cursor {
    Cursor(f.ts, f.id)
  }

  /** The keyset condition of the query. */
  predicate Before(f: Fill, c: Cursor) {
    f.ts < c.ts || (f.ts == c.ts && f.id < c.id)
  }

  predicate Selected(f: Fill, accounts: set<int>, before: Option<Cursor>) {
    f.account in accounts && (before.Some? ==> Before(f, before.value))
  }

  function Filter(rows: seq<Fill>, accounts: set<int>, before: Option<Cursor>): (r: seq<Fill>)
    ensures forall f :: f in r <==> f in rows && Selected(f, accounts, before)
  {
    if rows == [] then []
    else (if Selected(rows[0], accounts, before) then [rows[0]] else []) + Filter(rows[1..], accounts, before)
  }

  /** Places a fill before every older one. */
  function Insert(sorted: seq<Fill>, f: Fill): (r: seq<Fill>)
    ensures forall g :: g in r <==> g in sorted || g == f
  {
    if sorted == [] then [f]
    else if Before(sorted[0], CursorOf(f)) then [f] + sorted
    else [sorted[0]] + Insert(sorted[1..], f)
  }

  /** Newest first by fill time; the execution id only breaks ties. */
  function Sort(rows: seq<Fill>): (r: seq<Fill>)
    ensures forall f :: f in r <==> f in rows
  {
    if rows == [] then [] else Insert(Sort(rows[1..]), rows[0])
  }

  function Take(rows: seq<Fill>, n: nat): seq<Fill> {
    if |rows| <= n then rows else rows[..n]
  }

  function Query(rows: seq<Fill>, accounts: set<int>, limit: nat, before: Option<Cursor>): seq<Fill> {
    Take(Sort(Filter(rows, accounts, before)), limit)
  }

  datatype Page = Page(fills: seq<Fill>, next: Option<Cursor>)

  /** One page: a row more than the limit is fetched to learn whether there is another page. */
  function PageOf(rows: seq<Fill>, accounts: set<int>, limit: nat, before: Option<Cursor>): Page {
    var fetched := Query(rows, accounts, limit + 1, before);
    var page := Take(fetched, limit);
    Page(page, if |fetched| > limit && page != [] then Some(CursorOf(page[|page| - 1])) else None)
  }

  /** The full list the pages are cut from. */
  function Full(rows: seq<Fill>, accounts: set<int>): seq<Fill> {
    Sort(Filter(rows, accounts, None))
  }

  // ---------------------------------------------------------------- sorted lists

  /** Execution ids are a primary key. */
  ghost predicate DistinctIds(rows: seq<Fill>) {
    forall i, j :: 0 <= i < j < |rows| ==> rows[i].id != rows[j].id
  }

  /** Strictly newest first. */
  ghost predicate Descending(s: seq<Fill>) {
    forall i, j :: 0 <= i < j < |s| ==> Before(s[j], CursorOf(s[i]))
  }

  lemma {:induction false} InsertDescending(s: seq<Fill>, f: Fill)
    requires Descending(s) && forall g :: g in s ==> g.id != f.id
    ensures Descending(Insert(s, f))
    decreases |s|
  {
    if s != [] && !Before(s[0], CursorOf(f)) {
      InsertDescending(s[1..], f);
      var r := Insert(s[1..], f);
      forall j | 0 <= j < |r| ensures Before(r[j], CursorOf(s[0])) {
        assert r[j] in r;
        assert r[j] in s[1..] || r[j] == f;
        assert s[0] in s;
      }
    }
  }

  lemma {:induction false} SortDescending(rows: seq<Fill>)
    requires DistinctIds(rows)
    ensures Descending(Sort(rows))
    decreases |rows|
  {
    if rows != [] {
      SortDescending(rows[1..]);
      InsertDescending(Sort(rows[1..]), rows[0]);
    }
  }

  lemma {:induction false} FilterDistinct(rows: seq<Fill>, accounts: set<int>, before: Option<Cursor>)
    requires DistinctIds(rows)
    ensures DistinctIds(Filter(rows, accounts, before))
    decreases |rows|
  {
    if rows != [] {
      FilterDistinct(rows[1..], accounts, before);
      var r := Filter(rows[1..], accounts, before);
      forall j | 0 <= j < |r| ensures r[j].id != rows[0].id {
        assert r[j] in rows[1..];
      }
    }
  }

  lemma SomeMember(s: seq<Fill>)
    ensures s == [] || exists f :: f in s
  {
    if s != [] { assert s[0] in s; }
  }

  /** A strictly sorted list is determined by its members. */
  lemma {:induction false} DescendingUnique(a: seq<Fill>, b: seq<Fill>)
    requires Descending(a) && Descending(b) && forall f :: f in a <==> f in b
    ensures a == b
    decreases |a|
  {
    if a == [] || b == [] {
      SomeMember(a);
      SomeMember(b);
    } else {
      assert a[0] in b;
      assert b[0] in a;
      assert a[0] == b[0];
      forall f ensures f in a[1..] <==> f in b[1..] {
        assert f in a[1..] <==> f in a && f != a[0];
        assert f in b[1..] <==> f in b && f != b[0];
      }
      DescendingUnique(a[1..], b[1..]);
    }
  }

  /** What one page is: a descending run of selected fills, everything older than it left for later. */
  lemma PageSplits(rows: seq<Fill>, accounts: set<int>, limit: nat, before: Option<Cursor>)
    requires DistinctIds(rows)
    ensures var p := PageOf(rows, accounts, limit, before);
            && Descending(p.fills) && |p.fills| <= limit
            && (forall f :: f in p.fills ==> f in rows && Selected(f, accounts, before))
            && (p.next.Some? ==> p.fills != [] && p.next.value == CursorOf(p.fills[|p.fills| - 1]))
            && (p.next.Some? ==> forall f :: f in rows && Selected(f, accounts, before) && f !in p.fills ==>
                 Before(f, p.next.value))
            && (p.next.None? && limit > 0 ==> forall f :: f in rows && Selected(f, accounts, before) ==> f in p.fills)
  {
    FilterDistinct(rows, accounts, before);
    SortDescending(Filter(rows, accounts, before));
    var all := Sort(Filter(rows, accounts, before));
    var p := PageOf(rows, accounts, limit, before);
    assert p.fills == Take(all, limit);
    if p.next.Some? {
      forall f | f in rows && Selected(f, accounts, before) && f !in p.fills ensures Before(f, p.next.value) {
        assert f in all;
        var k :| 0 <= k < |all| && all[k] == f;
        assert forall i :: 0 <= i < limit ==> p.fills[i] == all[i];
        assert k >= limit;
      }
    }
  }

  // ---------------------------------------------------------------- following the cursor

  /** How many selected fills are still to come. */
  function Remaining(rows: seq<Fill>, accounts: set<int>, before: Option<Cursor>): nat {
    |Filter(rows, accounts, before)|
  }

  lemma {:induction false} FilterShrinks(rows: seq<Fill>, accounts: set<int>, before: Option<Cursor>, c: Cursor)
    requires before.Some? ==> c.ts < before.value.ts || (c.ts == before.value.ts && c.id <= before.value.id)
    ensures Remaining(rows, accounts, Some(c)) <= Remaining(rows, accounts, before)
    ensures forall f :: f in rows && Selected(f, accounts, before) && !Before(f, c)
              ==> Remaining(rows, accounts, Some(c)) < Remaining(rows, accounts, before)
    decreases |rows|
  {
    if rows != [] {
      FilterShrinks(rows[1..], accounts, before, c);
      forall f | f in rows && Selected(f, accounts, before) && !Before(f, c)
        ensures Remaining(rows, accounts, Some(c)) < Remaining(rows, accounts, before)
      {
        if f != rows[0] { assert f in rows[1..]; }
      }
    }
  }

  lemma NextShrinks(rows: seq<Fill>, accounts: set<int>, limit: nat, before: Option<Cursor>)
    requires PageOf(rows, accounts, limit, before).next.Some?
    ensures var next := PageOf(rows, accounts, limit, before).next;
            Remaining(rows, accounts, next) < Remaining(rows, accounts, before)
  {
    var all := Sort(Filter(rows, accounts, before));
    var p := PageOf(rows, accounts, limit, before);
    var last := p.fills[|p.fills| - 1];
    assert last in all;
    assert last in rows && Selected(last, accounts, before) && !Before(last, CursorOf(last));
    hide Filter, Sort;
    FilterShrinks(rows, accounts, before, CursorOf(last));
  }

  /** Every page from a cursor on, concatenated; following the cursor always ends. */
  function Pages(rows: seq<Fill>, accounts: set<int>, limit: nat, before: Option<Cursor>): seq<Fill>
    decreases Remaining(rows, accounts, before)
  {
    var p := PageOf(rows, accounts, limit, before);
    if p.next.None? then p.fills
    else
      NextShrinks(rows, accounts, limit, before);
      p.fills + Pages(rows, accounts, limit, p.next)
  }

  lemma JoinDescending(a: seq<Fill>, b: seq<Fill>)
    requires Descending(a) && Descending(b) && a != [] && forall f :: f in b ==> Before(f, CursorOf(a[|a| - 1]))
    ensures Descending(a + b)
  {
    var s := a + b;
    forall i, j | 0 <= i < j < |s| ensures Before(s[j], CursorOf(s[i])) {
      if j >= |a| { assert s[j] in b; }
    }
  }

  lemma {:induction false} PagesAre(rows: seq<Fill>, accounts: set<int>, limit: nat, before: Option<Cursor>)
    requires DistinctIds(rows) && limit > 0
    ensures Descending(Pages(rows, accounts, limit, before))
    ensures forall f :: f in Pages(rows, accounts, limit, before) <==> f in rows && Selected(f, accounts, before)
    decreases Remaining(rows, accounts, before)
  {
    PageSplits(rows, accounts, limit, before);
    var p := PageOf(rows, accounts, limit, before);
    if p.next.Some? {
      NextShrinks(rows, accounts, limit, before);
      PagesAre(rows, accounts, limit, p.next);
      JoinDescending(p.fills, Pages(rows, accounts, limit, p.next));
      assert p.fills[|p.fills| - 1] in p.fills;
      forall f | f in Pages(rows, accounts, limit, p.next) ensures Selected(f, accounts, before) {
        assert Before(f, p.next.value);
      }
    }
  }

  /** The full list: the accounts' fills, latest first, the higher execution id first at the same instant. */
  lemma FullIs(rows: seq<Fill>, accounts: set<int>)
    requires DistinctIds(rows)
    ensures var full := Full(rows, accounts);
            && (forall f :: f in full <==> f in rows && f.account in accounts)
            && (forall i, j :: 0 <= i < j < |full| ==>
                  full[i].ts > full[j].ts || (full[i].ts == full[j].ts && full[i].id > full[j].id))
  {
    FilterDistinct(rows, accounts, None);
    SortDescending(Filter(rows, accounts, None));
    hide Filter, Sort;
  }

  lemma {:induction false} SortLength(rows: seq<Fill>)
    ensures |Sort(rows)| == |rows|
  {
    if rows != [] {
      SortLength(rows[1..]);
      InsertLength(Sort(rows[1..]), rows[0]);
    }
  }

  lemma {:induction false} InsertLength(s: seq<Fill>, f: Fill)
    ensures |Insert(s, f)| == |s| + 1
  {
    if s != [] { InsertLength(s[1..], f); }
  }

  /** A page is full, with a cursor to the rest, exactly while more fills remain than it may hold. */
  lemma PageSize(rows: seq<Fill>, accounts: set<int>, limit: nat, before: Option<Cursor>)
    ensures var p := PageOf(rows, accounts, limit, before); var left := Remaining(rows, accounts, before);
            && (p.next.Some? <==> 0 < limit < left)
            && |p.fills| == if left > limit then limit else left
  {
    SortLength(Filter(rows, accounts, before));
  }

  /**
   Following the cursor from the first page yields exactly the full list sorted newest first,
   if and only if the page size is positive or there is nothing to list.
   */
  lemma PagesAreFullList(rows: seq<Fill>, accounts: set<int>, limit: nat)
    requires DistinctIds(rows)
    ensures Pages(rows, accounts, limit, None) == Full(rows, accounts) <==> limit > 0 || Full(rows, accounts) == []
    ensures var full := Full(rows, accounts);
            && (forall f :: f in full <==> f in rows && f.account in accounts)
            && (forall i, j :: 0 <= i < j < |full| ==>
                  full[i].ts > full[j].ts || (full[i].ts == full[j].ts && full[i].id > full[j].id))
  {
    FullIs(rows, accounts);
    if limit > 0 {
      PagesAre(rows, accounts, limit, None);
      FilterDistinct(rows, accounts, None);
      SortDescending(Filter(rows, accounts, None));
      DescendingUnique(Pages(rows, accounts, limit, None), Full(rows, accounts));
    }
  }

  // ---------------------------------------------------------------- fills arriving between pages

  /** The table as it stands at each page request: rows are only ever added. */
  ghost predicate Growing(tables: seq<seq<Fill>>) {
    && (forall i :: 0 <= i < |tables| ==> DistinctIds(tables[i]))
    && (forall i, j, f :: 0 <= i < j < |tables| && f in tables[i] ==> f in tables[j])
  }

  /** The pages seen while the table grows, and whether the last of them had no successor. */
  function Walk(tables: seq<seq<Fill>>, accounts: set<int>, limit: nat, before: Option<Cursor>): (seq<Fill>, bool) {
    if tables == [] then ([], false)
    else
      var p := PageOf(tables[0], accounts, limit, before);
      if p.next.None? then (p.fills, true)
      else
        var (rest, done) := Walk(tables[1..], accounts, limit, p.next);
        (p.fills + rest, done)
  }

  lemma {:induction false} WalkDescends(tables: seq<seq<Fill>>, accounts: set<int>, limit: nat, before: Option<Cursor>)
    requires Growing(tables)
    ensures Descending(Walk(tables, accounts, limit, before).0)
    ensures forall f :: f in Walk(tables, accounts, limit, before).0 ==> Selected(f, accounts, before)
    decreases |tables|
  {
    if tables != [] {
      PageSplits(tables[0], accounts, limit, before);
      var p := PageOf(tables[0], accounts, limit, before);
      if p.next.Some? {
        WalkDescends(tables[1..], accounts, limit, p.next);
        var rest := Walk(tables[1..], accounts, limit, p.next).0;
        JoinDescending(p.fills, rest);
        assert p.fills[|p.fills| - 1] in p.fills;
        forall f | f in rest ensures Selected(f, accounts, before) {
          assert Before(f, p.next.value);
        }
      }
    }
  }

  lemma {:induction false} WalkCovers(tables: seq<seq<Fill>>, accounts: set<int>, limit: nat, before: Option<Cursor>,
                                      f: Fill)
    requires Growing(tables) && limit > 0 && Walk(tables, accounts, limit, before).1
    requires f in tables[0] && Selected(f, accounts, before)
    ensures f in Walk(tables, accounts, limit, before).0
    decreases |tables|
  {
    PageSplits(tables[0], accounts, limit, before);
    var p := PageOf(tables[0], accounts, limit, before);
    if p.next.Some? && f !in p.fills {
      assert |tables| > 1;
      assert f in tables[1];
      assert tables[1] == tables[1..][0];
      WalkCovers(tables[1..], accounts, limit, p.next, f);
    }
  }

  /**
   However many fills arrive between pages, no fill is seen twice, and every fill present at the
   start is seen exactly once by a walk that reached the end.
   */
  lemma WalkSeesEachOnce(tables: seq<seq<Fill>>, accounts: set<int>, limit: nat, f: Fill)
    requires tables != [] && Growing(tables) && limit > 0
    ensures var (seen, done) := Walk(tables, accounts, limit, None);
            && (forall i, j :: 0 <= i < j < |seen| ==> seen[i] != seen[j])
            && (done && f in tables[0] && f.account in accounts ==> f in seen)
  {
    WalkDescends(tables, accounts, limit, None);
    if Walk(tables, accounts, limit, None).1 && f in tables[0] && f.account in accounts {
      WalkCovers(tables, accounts, limit, None, f);
    }
  }

  /** Every page but the last of a walk shows a fill, and all of them come from the tables. */
  lemma {:induction false} WalkShows(tables: seq<seq<Fill>>, accounts: set<int>, limit: nat, before: Option<Cursor>)
    requires Growing(tables)
    ensures !Walk(tables, accounts, limit, before).1 ==> |Walk(tables, accounts, limit, before).0| >= |tables|
    ensures forall f :: f in Walk(tables, accounts, limit, before).0 ==> tables != [] && f in tables[|tables| - 1]
    decreases |tables|
  {
    if tables != [] {
      PageSplits(tables[0], accounts, limit, before);
      var p := PageOf(tables[0], accounts, limit, before);
      if p.next.Some? {
        WalkShows(tables[1..], accounts, limit, p.next);
      }
    }
  }

  /** Distinct members of a list are no more than the list is long. */
  lemma {:induction false} NoMoreThan(s: seq<Fill>, rows: seq<Fill>)
    requires (forall i, j :: 0 <= i < j < |s| ==> s[i] != s[j]) && forall f :: f in s ==> f in rows
    ensures |s| <= |rows|
    decreases |s|
  {
    if s != [] {
      var n := |s| - 1;
      assert s[n] in s;
      var k :| 0 <= k < |rows| && rows[k] == s[n];
      var rest := rows[..k] + rows[k + 1..];
      forall f | f in s[..n] ensures f in rest {
        assert f in s;
        var m :| 0 <= m < |rows| && rows[m] == f;
        assert m < k ==> rest[m] == f;
        assert m > k ==> rest[m - 1] == f;
      }
      NoMoreThan(s[..n], rest);
    }
  }

  /** A walk ends before it has asked for more pages than the table has fills in the end. */
  lemma WalkEnds(tables: seq<seq<Fill>>, accounts: set<int>, limit: nat)
    requires Growing(tables) && tables != [] && |tables| > |tables[|tables| - 1]|
    ensures Walk(tables, accounts, limit, None).1
  {
    var seen := Walk(tables, accounts, limit, None).0;
    WalkDescends(tables, accounts, limit, None);
    WalkShows(tables, accounts, limit, None);
    NoMoreThan(seen, tables[|tables| - 1]);
  }

  /**
   So with pages asked for until the end, over a table that grows in between, every fill present at
   the start is seen exactly once.
   */
  lemma WholeWalkSeesAll(tables: seq<seq<Fill>>, accounts: set<int>, limit: nat, f: Fill)
    requires Growing(tables) && limit > 0 && tables != [] && |tables| > |tables[|tables| - 1]|
    requires f in tables[0] && f.account in accounts
    ensures var seen := Walk(tables, accounts, limit, None).0;
            f in seen && forall i, j :: 0 <= i < j < |seen| ==> seen[i] != seen[j]
  {
    WalkEnds(tables, accounts, limit);
    WalkSeesEachOnce(tables, accounts, limit, f);
  }

  // ---------------------------------------------------------------- the cursor as text

  function Digit(n: nat): char
    requires n < 10
  {
    '0' + n as char
  }

  function PrintNat(n: nat): (s: string)
    ensures s != "" && forall i :: 0 <= i < |s| ==> '0' <= s[i] <= '9'
  {
    if n < 10 then [Digit(n)] else PrintNat(n / 10) + [Digit(n % 10)]
  }

  predicate IsDigits(s: string) {
    s != "" && forall i :: 0 <= i < |s| ==> '0' <= s[i] <= '9'
  }

  function ParseNat(s: string): nat
    requires forall i :: 0 <= i < |s| ==> '0' <= s[i] <= '9'
  {
    if s == "" then 0 else ParseNat(s[..|s| - 1]) * 10 + (s[|s| - 1] - '0') as nat
  }

  lemma {:induction false} ParsePrintNat(n: nat)
    ensures ParseNat(PrintNat(n)) == n
  {
    if n < 10 {
      assert PrintNat(n)[..0] == "";
    } else {
      ParsePrintNat(n / 10);
      assert PrintNat(n)[..|PrintNat(n)| - 1] == PrintNat(n / 10);
    }
  }

  /** Digits count in tens, the last one in units. */
  lemma ReadsDecimal(s: string, c: char)
    requires '0' <= c <= '9' && forall i :: 0 <= i < |s| ==> '0' <= s[i] <= '9'
    ensures ParseNat("") == 0 && ParseNat(s + [c]) == 10 * ParseNat(s) + (c as int - 48)
  {
    assert (s + [c])[..|s|] == s;
  }

  /** The position of the last separator. */
  function LastSeparator(s: string): (r: Option<nat>)
    ensures r.Some? ==> r.value < |s| && s[r.value] == '_' && forall i :: r.value < i < |s| ==> s[i] != '_'
    ensures r.None? ==> '_' !in s
  {
    if s == "" then None
    else if s[|s| - 1] == '_' then Some(|s| - 1)
    else LastSeparator(s[..|s| - 1])
  }

  /** The cursor printed after a row; `iso` prints the fill time. */
  function PrintCursor<T>(moment: T, id: nat, iso: T -> string): string {
    iso(moment) + "_" + PrintNat(id)
  }

  datatype Parsed<T> = Absent | Malformed | Parsed(moment: T, id: nat)

  /** Decodes a cursor; `fromIso` reads a time, or gives None on text it does not accept. */
  function ParseCursor<T>(text: Option<string>, fromIso: string -> Option<T>): Parsed<T> {
    if text.None? then Absent
    else
      var s := text.value;
      match LastSeparator(s)
      case None => Malformed
      case Some(k) =>
        var id := s[k + 1..];
        if !IsDigits(id) then Malformed
        else match fromIso(s[..k])
          case None => Malformed
          case Some(moment) => Parsed(moment, ParseNat(id))
  }

  /** The cursor parser inverts the cursor printer, even when the printed time contains separators. */
  lemma ParseInvertsPrint<T>(moment: T, id: nat, iso: T -> string, fromIso: string -> Option<T>)
    requires fromIso(iso(moment)) == Some(moment)
    ensures ParseCursor(Some(PrintCursor(moment, id, iso)), fromIso) == Parsed(moment, id)
  {
    SeparatorAt(iso(moment), PrintNat(id));
    ParsePrintNat(id);
  }

  lemma SeparatorAt(a: string, b: string)
    requires '_' !in b
    ensures var s := a + "_" + b; LastSeparator(s) == Some(|a|) && s[..|a|] == a && s[|a| + 1..] == b
  {
    var s := a + "_" + b;
    assert s[|a|] == '_';
    assert forall i :: |a| < i < |s| ==> s[i] == b[i - |a| - 1];
  }

  /** A cursor is read exactly from a time, the last underscore of the text, and an id in decimal digits. */
  lemma CursorReadIff<T(!new)>(s: string, fromIso: string -> Option<T>, time: string, id: string)
    requires s == time + "_" + id && '_' !in id
    ensures ParseCursor(Some(s), fromIso).Parsed? <==>
            fromIso(time).Some? && id != "" && forall i :: 0 <= i < |id| ==> '0' <= id[i] <= '9'
    ensures ParseCursor(Some(s), fromIso).Parsed? ==>
              && ParseCursor(Some(s), fromIso).moment == fromIso(time).value
              && ParseCursor(Some(s), fromIso).id == ParseNat(id)
    ensures !ParseCursor(Some(s), fromIso).Absent?
  {
    SeparatorAt(time, id);
  }

  /** Text without an underscore is malformed; only a cursor left out is absent. */
  lemma CursorRefused<T(!new)>(s: string, fromIso: string -> Option<T>)
    requires '_' !in s
    ensures ParseCursor(Some(s), fromIso) == Malformed && ParseCursor(None, fromIso) == Absent
  {
  }
}
