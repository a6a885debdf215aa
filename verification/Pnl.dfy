/**
 Position and profit-and-loss carry-forward: how each recorded fill moves quantity, average
 price, realized total and the win and loss counters, against a plain book of signed cash.
 */
module Pnl {
  import opened Common

  datatype Position = Position(
    qty: real,
    avg: real,
    realized: real,
    wins: nat,
    losses: nat,
    breakevens: nat,
    grossProfit: real,
    grossLoss: real,
    turnover: real,
    fees: real
  )

  const FLAT := Position(0.0, 0.0, 0.0, 0, 0, 0, 0.0, 0.0, 0.0, 0.0)

  /** A fill as recorded; the action is trimmed and lower case, empty when absent. */
  datatype Trade = Trade(action: string, price: real, qty: real, commission: real)

  /** Broker-authoritative quantity and average price. */
  datatype Authority = Authority(qty: real, avg: real)

  datatype Input = Input(trade: Trade, realized: Option<real>, authority: Option<Authority>)

  predicate Closes(action: string) { action == "close" || action == "close_signal" }

  /** Everything that is neither a close nor a buy sells. */
  function Signed(t: Trade): real {
    if t.action == "long" || t.action == "buy" then t.qty else -t.qty
  }

  /** The derived path takes a fill with an action, a price and a quantity. */
  predicate Effective(t: Trade) {
    t.action != "" && t.price > 0.0 && t.qty > 0.0
  }

  /** Books a closed trade's profit or loss. */
  function Booked(p: Position, pnl: real): Position {
    var p' := p.(realized := p.realized + pnl);
    if pnl > 0.0 then p'.(wins := p.wins + 1, grossProfit := p.grossProfit + pnl)
    else if pnl < 0.0 then p'.(losses := p.losses + 1, grossLoss := p.grossLoss + Abs(pnl))
    else p'.(breakevens := p.breakevens + 1)
  }

  function Close(p: Position, t: Trade): Position {
    var c := Min(t.qty, Abs(p.qty));
    if c <= 0.0 then p
    else
      var qty' := p.qty - (if p.qty > 0.0 then c else -c);
      Booked(p.(qty := qty', avg := if qty' == 0.0 then 0.0 else p.avg),
             if p.qty > 0.0 then (t.price - p.avg) * c else (p.avg - t.price) * c)
  }

  function Add(p: Position, s: real, price: real): Position {
    var qty' := p.qty + s;
    p.(qty := qty', avg := if qty' != 0.0 then (p.avg * Abs(p.qty) + price * Abs(s)) / Abs(qty') else p.avg)
  }

  /** Profit of the part of an opposite fill that closes. */
  function ReducePnl(p: Position, s: real, price: real): real {
    var c := Min(Abs(p.qty), Abs(s));
    if p.qty > 0.0 then (price - p.avg) * c else (p.avg - price) * c
  }

  /** The position an opposite fill leaves: smaller, flat, or flipped at the fill price. */
  function Reduced(p: Position, s: real, price: real): Position {
    var c := Min(Abs(p.qty), Abs(s));
    var qty' := if p.qty > 0.0 then p.qty - c else p.qty + c;
    var remaining := Abs(s) - c;
    if remaining > 0.0 then p.(qty := if s > 0.0 then remaining else -remaining, avg := price)
    else p.(qty := qty', avg := if qty' == 0.0 then 0.0 else p.avg)
  }

  function Reduce(p: Position, s: real, price: real): Position {
    Booked(Reduced(p, s, price), ReducePnl(p, s, price))
  }

  function Charged(p: Position, t: Trade): Position {
    p.(turnover := p.turnover + t.price * t.qty, fees := p.fees + t.commission)
  }

  predicate SameDirection(q: real, s: real) {
    q == 0.0 || (q > 0.0 && s > 0.0) || (q < 0.0 && s < 0.0)
  }

  /** Quantity, average price and totals after a fill, before turnover and fees. */
  function Filled(p: Position, t: Trade): Position {
    if Closes(t.action) then Close(p, t)
    else if SameDirection(p.qty, Signed(t)) then Add(p, Signed(t), t.price)
    else Reduce(p, Signed(t), t.price)
  }

  /** The derived path: quantity and average price follow from the fill. */
  function Derived(p: Position, t: Trade): Position {
    if Effective(t) then Charged(Filled(p, t), t) else p
  }

  /** The authoritative path: quantity and average price are the broker's. */
  function Adopted(p: Position, in_: Input): Position
    requires in_.authority.Some?
  {
    var t := in_.trade;
    var p1 := if t.price > 0.0 && t.qty > 0.0 then Charged(p, t) else p;
    var p2 := p1.(qty := in_.authority.value.qty, avg := in_.authority.value.avg);
    if in_.realized.Some? && in_.realized.value != p.realized
    then Booked(p2, in_.realized.value - p.realized)
    else p2
  }

  /** The state stored by one record. */
  function Step(p: Position, in_: Input): Position {
    if in_.authority.Some? then Adopted(p, in_)
    else Derived(if in_.realized.Some? then p.(realized := in_.realized.value) else p, in_.trade)
  }

  // ---------------------------------------------------------------- the reference book

  /** Signed quantity held and net signed cash: what was sold for minus what was paid. */
  datatype Book = Book(qty: real, cash: real)

  /** The signed quantity a fill moves: buys add, closes move at most the open quantity, the rest sells. */
  ghost function Moved(qty: real, t: Trade): real {
    if t.action == "close" || t.action == "close_signal" then
      if qty > 0.0 then -(if t.qty < qty then t.qty else qty)
      else if t.qty < -qty then t.qty
      else -qty
    else if t.action == "long" || t.action == "buy" then t.qty
    else -t.qty
  }

  ghost function Trading(b: Book, t: Trade): Book {
    Book(b.qty + Moved(b.qty, t), b.cash - Moved(b.qty, t) * t.price)
  }

  /** The cash locked up in the open position at its average price, against the realized total. */
  function Equity(p: Position): real {
    p.realized - p.qty * p.avg
  }

  /** The realized total is gross profit minus gross loss. */
  predicate Balanced(p: Position) {
    p.realized == p.grossProfit - p.grossLoss && p.grossProfit >= 0.0 && p.grossLoss >= 0.0
  }

  /** A flat position carries no average price. */
  predicate Clean(p: Position) {
    p.qty == 0.0 ==> p.avg == 0.0
  }

  lemma Distribute(a: real, b: real, c: real)
    ensures (a + b) * c == a * c + b * c && (a - b) * c == a * c - b * c && c * (a - b) == c * a - c * b
  {
  }

  lemma Cancel(x: real, y: real)
    requires y != 0.0
    ensures (x / y) * y == x
  {
  }

  lemma AddKeepsEquity(p: Position, s: real, price: real)
    requires s != 0.0 && SameDirection(p.qty, s)
    ensures Equity(Add(p, s, price)) == Equity(p) - s * price && Add(p, s, price).qty == p.qty + s
  {
    var q, v := p.qty + s, p.avg * Abs(p.qty) + price * Abs(s);
    Cancel(v, Abs(q));
    var avg := v / Abs(q);
    assert Add(p, s, price).avg == avg && avg * Abs(q) == v;
    if s > 0.0 {
      assert q * avg == p.avg * p.qty + price * s;
    } else {
      assert p.avg * Abs(p.qty) == -(p.avg * p.qty) && price * Abs(s) == -(price * s);
      assert q * avg == -(avg * Abs(q));
    }
  }

  lemma ReduceKeepsEquity(p: Position, s: real, price: real)
    requires s != 0.0 && !SameDirection(p.qty, s)
    ensures Equity(Reduce(p, s, price)) == Equity(p) - s * price && Reduce(p, s, price).qty == p.qty + s
  {
    var c := Min(Abs(p.qty), Abs(s));
    Distribute(price, p.avg, c);
    Distribute(p.avg, price, c);
    Distribute(p.qty, c, p.avg);
    Distribute(p.qty, -c, p.avg);
    Distribute(p.qty, s, price);
  }

  lemma CloseKeepsEquity(p: Position, t: Trade)
    requires Effective(t) && Closes(t.action)
    ensures Equity(Close(p, t)) == Equity(p) - Moved(p.qty, t) * t.price && Close(p, t).qty == p.qty + Moved(p.qty, t)
  {
    var c := Min(t.qty, Abs(p.qty));
    Distribute(t.price, p.avg, c);
    Distribute(p.avg, t.price, c);
    Distribute(p.qty, c, p.avg);
    Distribute(p.qty, -c, p.avg);
  }

  /** One fill moves quantity and equity as the book does, whatever branch books it. */
  lemma FilledMoves(p: Position, t: Trade)
    requires Effective(t)
    ensures Filled(p, t).qty == p.qty + Moved(p.qty, t)
    ensures Equity(Filled(p, t)) == Equity(p) - Moved(p.qty, t) * t.price
  {
    if Closes(t.action) {
      CloseKeepsEquity(p, t);
    } else if SameDirection(p.qty, Signed(t)) {
      AddKeepsEquity(p, Signed(t), t.price);
    } else {
      ReduceKeepsEquity(p, Signed(t), t.price);
    }
  }

  lemma FilledBalanced(p: Position, t: Trade)
    requires Balanced(p)
    ensures Balanced(Filled(p, t))
  {
  }

  lemma FilledClean(p: Position, t: Trade)
    requires Clean(p)
    ensures Clean(Filled(p, t))
  {
  }

  /** The carried state agrees with the book. */
  predicate Tracks(p: Position, b: Book) {
    p.qty == b.qty && Equity(p) == b.cash && Balanced(p) && Clean(p)
  }

  lemma TracksVia(p: Position, b: Book, p': Position, moved: real, paid: real)
    requires Tracks(p, b) && Balanced(p') && Clean(p')
    requires p'.qty == p.qty + moved && Equity(p') == Equity(p) - paid
    ensures Tracks(p', Book(b.qty + moved, b.cash - paid))
  {
  }

  lemma TracksFilled(p: Position, b: Book, t: Trade)
    requires Tracks(p, b) && Effective(t)
    ensures Tracks(Filled(p, t), Trading(b, t))
  {
    hide Filled, Moved, Close, Add, Reduce;
    FilledMoves(p, t);
    FilledBalanced(p, t);
    FilledClean(p, t);
    TracksVia(p, b, Filled(p, t), Moved(p.qty, t), Moved(p.qty, t) * t.price);
  }

  lemma ChargedTracks(p: Position, b: Book, t: Trade)
    requires Tracks(p, b)
    ensures Tracks(Charged(p, t), b)
  {
  }

  /** A record on the derived path: no authoritative position, no supplied realized figure. */
  predicate IsDerived(in_: Input) {
    in_.authority.None? && in_.realized.None?
  }

  lemma TracksStep(p: Position, b: Book, in_: Input)
    requires Tracks(p, b) && IsDerived(in_)
    ensures Tracks(Step(p, in_), TradingInput(b, in_))
  {
    var t := in_.trade;
    if Effective(t) {
      TracksFilled(p, b, t);
      ChargedTracks(Filled(p, t), Trading(b, t), t);
    }
  }

  /** A fill counts when it has an action, a price and a quantity. */
  ghost function TradingInput(b: Book, in_: Input): Book {
    if in_.trade.action != "" && in_.trade.price > 0.0 && in_.trade.qty > 0.0 then Trading(b, in_.trade) else b
  }

  // ---------------------------------------------------------------- sequences of records

  ghost function Fold<S, I>(f: (S, I) -> S, s: S, xs: seq<I>): S {
    if xs == [] then s else f(Fold(f, s, xs[..|xs| - 1]), xs[|xs| - 1])
  }

  /** A relation kept by every step is kept by every fold. */
  lemma {:induction false} FoldKeeps<S(!new), B(!new), I(!new)>(
      f: (S, I) -> S, g: (B, I) -> B, related: (S, B) -> bool, ok: I -> bool, s: S, b: B, xs: seq<I>)
    requires related(s, b) && forall x :: x in xs ==> ok(x)
    requires forall s', b', x :: related(s', b') && ok(x) ==> related(f(s', x), g(b', x))
    ensures related(Fold(f, s, xs), Fold(g, b, xs))
    decreases |xs|
  {
    if xs != [] {
      FoldKeeps(f, g, related, ok, s, b, xs[..|xs| - 1]);
    }
  }

  /** The state after a whole sequence of records, and the book of the same fills. */
  ghost function Carried(xs: seq<Input>): Position {
    Fold(Step, FLAT, xs)
  }

  ghost function Booking(xs: seq<Input>): Book {
    Fold(TradingInput, Book(0.0, 0.0), xs)
  }

  lemma FlatTracksEmptyBook()
    ensures Tracks(FLAT, Book(0.0, 0.0))
  {
  }

  /**
   For every sequence of fills, through adds, partial and full closes and flips, realized total
   minus quantity times average price is the net signed cash, and realized total is gross profit
   minus gross loss.
   */
  lemma CashLaw(xs: seq<Input>)
    requires forall x :: x in xs ==> IsDerived(x)
    ensures Tracks(Carried(xs), Booking(xs))
  {
    FlatTracksEmptyBook();
    hide Step, TradingInput, Tracks;
    forall p, b, x | Tracks(p, b) && IsDerived(x) ensures Tracks(Step(p, x), TradingInput(b, x)) {
      TracksStep(p, b, x);
    }
    FoldKeeps(Step, TradingInput, Tracks, IsDerived, FLAT, Book(0.0, 0.0), xs);
  }

  /** Once the position is flat, everything realized is the cash that changed hands. */
  lemma FlatMeansRealizedIsCash(xs: seq<Input>)
    requires (forall x :: x in xs ==> IsDerived(x)) && Carried(xs).qty == 0.0
    ensures Carried(xs).realized == Booking(xs).cash
  {
    CashLaw(xs);
    FlatTracks(Carried(xs), Booking(xs));
  }

  lemma FlatTracks(p: Position, b: Book)
    requires Tracks(p, b) && p.qty == 0.0
    ensures p.realized == b.cash
  {
  }

  /**
   Over all inputs, a record keeps realized total equal to gross profit minus gross loss exactly
   unless it supplies a different realized figure without an authoritative position.
   */
  lemma StepBalanced(p: Position, in_: Input)
    requires Balanced(p)
    ensures Balanced(Step(p, in_)) <==> in_.authority.Some? || in_.realized.None? || in_.realized.value == p.realized
  {
    var p1 := if in_.realized.Some? then p.(realized := in_.realized.value) else p;
    hide Derived, Adopted;
    if in_.authority.Some? {
      AuthorityAdopted(p, in_);
    } else if Effective(in_.trade) {
      FillScored(p1, in_.trade);
    } else {
      NoFillNoChange(p, in_);
    }
  }

  // ---------------------------------------------------------------- direction, counters and totals

  /** Buys raise the quantity by the fill; everything else that does not close lowers it. */
  lemma FillDirection(p: Position, t: Trade)
    requires t.action != "" && t.price > 0.0 && t.qty > 0.0
    ensures t.action == "long" || t.action == "buy" ==> Derived(p, t).qty == p.qty + t.qty
    ensures t.action !in {"long", "buy", "close", "close_signal"} ==> Derived(p, t).qty == p.qty - t.qty
    ensures t.action == "close" || t.action == "close_signal" ==>
              && (p.qty > 0.0 ==> Derived(p, t).qty == if t.qty < p.qty then p.qty - t.qty else 0.0)
              && (p.qty < 0.0 ==> Derived(p, t).qty == if t.qty < -p.qty then p.qty + t.qty else 0.0)
              && (p.qty == 0.0 ==> Derived(p, t).qty == 0.0)
  {
    hide Filled;
    FilledMoves(p, t);
  }

  /** A buy from flat and a full close realize the price difference, a sale and a full close its opposite. */
  lemma RoundTrip(action: string, close: string, q: real, a: real, b: real, fees: real)
    requires q > 0.0 && a > 0.0 && b > 0.0 && action in {"long", "buy", "short", "sell"}
    requires close in {"close", "close_signal"}
    ensures var p := Derived(Derived(FLAT, Trade(action, a, q, fees)), Trade(close, b, q, fees));
            && p.qty == 0.0 && p.avg == 0.0
            && p.realized == (if action in {"long", "buy"} then (b - a) * q else (a - b) * q)
            && p.turnover == a * q + b * q && p.fees == fees + fees
            && p.wins + p.losses + p.breakevens == 1 && p.grossProfit - p.grossLoss == p.realized
  {
    var t, u := Trade(action, a, q, fees), Trade(close, b, q, fees);
    var s := if action in {"long", "buy"} then q else -q;
    assert Signed(t) == s;
    OpenFlat(s, a);
    assert Filled(FLAT, t) == FLAT.(qty := s, avg := a);
  }

  lemma OpenFlat(s: real, price: real)
    requires s != 0.0
    ensures Add(FLAT, s, price) == FLAT.(qty := s, avg := price)
  {
    Cancel(price * Abs(s), Abs(s));
    var avg := (FLAT.avg * Abs(FLAT.qty) + price * Abs(s)) / Abs(s);
    assert avg * Abs(s) == price * Abs(s);
    SameFactor(avg, price, Abs(s));
  }

  lemma SameFactor(x: real, y: real, c: real)
    requires x * c == y * c && c > 0.0
    ensures x == y
  {
    Cancel(x, c);
    assert (x - y) * c == 0.0;
  }

  /** The part of a trade that is a gain, and the part that is a loss. */
  ghost predicate Scored(p: Position, p': Position, closed: bool) {
    var pnl := p'.realized - p.realized;
    && p'.wins == p.wins + (if pnl > 0.0 then 1 else 0)
    && p'.losses == p.losses + (if pnl < 0.0 then 1 else 0)
    && p'.breakevens == p.breakevens + (if closed && pnl == 0.0 then 1 else 0)
    && p'.grossProfit == p.grossProfit + (if pnl > 0.0 then pnl else 0.0)
    && p'.grossLoss == p.grossLoss + (if pnl < 0.0 then -pnl else 0.0)
  }

  /**
   The counters by the sign of what a fill realizes: one win for a profit, one loss for a loss, one
   breakeven for a fill that closes something at cost, and none for a fill that only opens or adds.
   */
  lemma FillScored(p: Position, t: Trade)
    requires t.action != "" && t.price > 0.0 && t.qty > 0.0
    ensures Scored(p, Derived(p, t), Opposes(p.qty, Moved(p.qty, t)))
    ensures Derived(p, t).turnover == p.turnover + t.price * t.qty && Derived(p, t).fees == p.fees + t.commission
  {
    hide Booked, Add;
    if Closes(t.action) {
      CloseScored(p, t);
    } else if SameDirection(p.qty, Signed(t)) {
      AddScored(p, Signed(t), t.price);
    } else {
      BookedScored(Reduced(p, Signed(t), t.price), p, ReducePnl(p, Signed(t), t.price));
    }
  }

  lemma CloseScored(p: Position, t: Trade)
    requires t.action == "close" || t.action == "close_signal"
    requires t.qty > 0.0
    ensures Scored(p, Close(p, t), Opposes(p.qty, Moved(p.qty, t)))
    ensures Close(p, t).turnover == p.turnover && Close(p, t).fees == p.fees
  {
  }

  /** The fill goes against the position. */
  predicate Opposes(qty: real, moved: real) {
    (qty > 0.0 && moved < 0.0) || (qty < 0.0 && moved > 0.0)
  }

  lemma AddScored(p: Position, s: real, price: real)
    ensures Scored(p, Add(p, s, price), false)
    ensures Add(p, s, price).turnover == p.turnover && Add(p, s, price).fees == p.fees
  {
  }

  /** Booking scores the profit on whatever position it is booked to. */
  lemma BookedScored(moved: Position, p: Position, pnl: real)
    ensures moved == p.(qty := moved.qty, avg := moved.avg) ==> Scored(p, Booked(moved, pnl), true)
    ensures Booked(moved, pnl).turnover == moved.turnover && Booked(moved, pnl).fees == moved.fees
  {
  }

  /** A record without an effective fill, without authority and without a figure changes nothing. */
  lemma NoFillNoChange(p: Position, in_: Input)
    requires in_.authority.None? && !(in_.trade.action != "" && in_.trade.price > 0.0 && in_.trade.qty > 0.0)
    ensures Step(p, in_) == if in_.realized.Some? then p.(realized := in_.realized.value) else p
  {
  }

  /** A figure supplied without authority replaces the realized total before the fill is booked. */
  lemma SuppliedFigureFirst(p: Position, in_: Input)
    requires in_.authority.None? && in_.realized.Some?
    ensures Step(p, in_) == Step(p.(realized := in_.realized.value), in_.(realized := None))
  {
  }

  /**
   With an authoritative position quantity and average price are the broker's, the realized total
   is the supplied one if any, the change is scored, and a priced fill adds to turnover and fees.
   */
  lemma AuthorityAdopted(p: Position, in_: Input)
    requires in_.authority.Some?
    ensures var p' := Step(p, in_); var t := in_.trade;
            && p'.qty == in_.authority.value.qty && p'.avg == in_.authority.value.avg
            && p'.realized == (if in_.realized.Some? then in_.realized.value else p.realized)
            && Scored(p, p', false)
            && p'.turnover == p.turnover + (if t.price > 0.0 && t.qty > 0.0 then t.price * t.qty else 0.0)
            && p'.fees == p.fees + (if t.price > 0.0 && t.qty > 0.0 then t.commission else 0.0)
  {
  }
}
