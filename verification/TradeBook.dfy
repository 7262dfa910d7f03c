/** The trades table, its audit log, and the execution service that moves trades through their life. */
module TradeBook {
  import opened Prelude
  import opened Rounding
  import opened Conviction

  datatype Status = Open | Closed

  datatype Trade = Trade(
    symbol: string,
    strategy: string,
    side: Side,
    qty: int,
    entryPrice: real,
    stopLoss: real,
    target: Option<real>,
    status: Status,
    exitPrice: Option<real>,
    pnl: real,
    orderId: string)

  datatype Cause = Manual | StopLossHit | TargetHit | SquareOff

  datatype Audit =
    | TradeOpened(symbol: string, qty: int)
    | TradeClosed(id: nat, exitPrice: real, pnl: real, cause: Cause)

  /** Primary keys are assigned 1, 2, 3, ... and rows are never deleted. */
  datatype Book = Book(trades: seq<Trade>, audit: seq<Audit>)

  datatype Row = Row(id: nat, trade: Trade)
  datatype Exit = Exit(price: real, cause: Cause)
  datatype Fill = Fill(avgPrice: real, orderId: string)

  // ---- Specification -------------------------------------------------------

  function Gain(side: Side, entryPrice: real, exitPrice: real, qty: int): real {
    (if side.Buy? then 1.0 else -1.0) * (exitPrice - entryPrice) * qty as real
  }

  function Pnl(side: Side, entryPrice: real, exitPrice: real, qty: int): real {
    Round2(Gain(side, entryPrice, exitPrice, qty))
  }

  function BreachReason(side: Side, last: real, stopLoss: real, target: Option<real>): Option<Cause> {
    if side.Buy? then
      if last <= stopLoss then Some(StopLossHit)
      else if HasTarget(target) && last >= target.value then Some(TargetHit)
      else None
    else
      if last >= stopLoss then Some(StopLossHit)
      else if HasTarget(target) && last <= target.value then Some(TargetHit)
      else None
  }

  function NewTrade(sig: Signal, qty: int, fill: Fill): Trade {
    Trade(sig.symbol, sig.strategy, sig.side, qty,
          if fill.avgPrice != 0.0 then fill.avgPrice else sig.entry,
          sig.stop, sig.target, Open, None, 0.0, fill.orderId)
  }

  function CloseAt(t: Trade, exit: Exit): Trade {
    t.(status := Closed, exitPrice := Some(exit.price), pnl := Pnl(t.side, t.entryPrice, exit.price, t.qty))
  }

  function CloseAudit(id: nat, t: Trade, exit: Exit): Audit {
    TradeClosed(id, exit.price, Pnl(t.side, t.entryPrice, exit.price, t.qty), exit.cause)
  }

  function ExecuteOn(book: Book, sig: Signal, qty: int, fill: Fill): Book {
    Book(book.trades + [NewTrade(sig, qty, fill)], book.audit + [TradeOpened(sig.symbol, qty)])
  }

  predicate IsOpen(book: Book, id: nat) {
    1 <= id <= |book.trades| && book.trades[id - 1].status.Open?
  }

  function CloseOn(book: Book, id: nat, exit: Exit): Book {
    if IsOpen(book, id) then
      Book(book.trades[id - 1 := CloseAt(book.trades[id - 1], exit)],
           book.audit + [CloseAudit(id, book.trades[id - 1], exit)])
    else book
  }

  function OpenRows(trades: seq<Trade>): seq<Row> {
    if trades == [] then []
    else
      var n := |trades| - 1;
      if trades[n].status.Open? then OpenRows(trades[..n]) + [Row(n + 1, trades[n])] else OpenRows(trades[..n])
  }

  /** How a sweep over the open trades decides: stay, or leave at a price for a cause. */
  type Sweep = Trade -> Option<Exit>

  function MarkedToMarket(prices: map<string, real>): Sweep {
    (t: Trade) =>
      if t.symbol !in prices then None
      else
        match BreachReason(t.side, prices[t.symbol], t.stopLoss, t.target)
        case None => None
        case Some(cause) => Some(Exit(prices[t.symbol], cause))
  }

  function SquaredOff(prices: map<string, real>): Sweep {
    (t: Trade) => Some(Exit(if t.symbol in prices then prices[t.symbol] else t.entryPrice, SquareOff))
  }

  predicate Leaves(sweep: Sweep, t: Trade) {
    t.status.Open? && sweep(t).Some?
  }

  function Swept(sweep: Sweep, t: Trade): Trade {
    if Leaves(sweep, t) then CloseAt(t, sweep(t).value) else t
  }

  function SweepAudits(sweep: Sweep, trades: seq<Trade>): seq<Audit> {
    if trades == [] then []
    else
      var n := |trades| - 1;
      var before := SweepAudits(sweep, trades[..n]);
      if Leaves(sweep, trades[n]) then before + [CloseAudit(n + 1, trades[n], sweep(trades[n]).value)] else before
  }

  function SweepOn(book: Book, sweep: Sweep): Book {
    Book(seq(|book.trades|, i requires 0 <= i < |book.trades| => Swept(sweep, book.trades[i])),
         book.audit + SweepAudits(sweep, book.trades))
  }

  lemma {:induction false} OpenRowsCorrect(trades: seq<Trade>)
    ensures forall r :: r in OpenRows(trades) <==>
              1 <= r.id <= |trades| && r.trade == trades[r.id - 1] && r.trade.status.Open?
    ensures forall i, j :: 0 <= i < j < |OpenRows(trades)| ==> OpenRows(trades)[i].id < OpenRows(trades)[j].id
  {
    if trades != [] {
      var n := |trades| - 1;
      OpenRowsCorrect(trades[..n]);
      forall i | 0 <= i < |OpenRows(trades[..n])|
        ensures OpenRows(trades[..n])[i].id <= n
      {
        assert OpenRows(trades[..n])[i] in OpenRows(trades[..n]);
      }
    }
  }

  /** The ids a sweep reports as closed, in table order. */
  function LeavingIds(sweep: Sweep, rows: seq<Row>): seq<nat> {
    if rows == [] then []
    else
      var n := |rows| - 1;
      LeavingIds(sweep, rows[..n]) + if sweep(rows[n].trade).Some? then [rows[n].id] else []
  }

  // ---- Runs ----------------------------------------------------------------

  datatype Op =
    | Execute(sig: Signal, qty: int, fill: Fill)
    | CloseTrade(id: nat, price: real)
    | MarkToMarket(prices: map<string, real>)
    | ForceCloseAll(prices: map<string, real>)

  function Apply(book: Book, op: Op): Book {
    match op
    case Execute(sig, qty, fill) => ExecuteOn(book, sig, qty, fill)
    case CloseTrade(id, price) => CloseOn(book, id, Exit(price, Manual))
    case MarkToMarket(prices) => SweepOn(book, MarkedToMarket(prices))
    case ForceCloseAll(prices) => SweepOn(book, SquaredOff(prices))
  }

  ghost function Run(book: Book, ops: seq<Op>): Book {
    if ops == [] then book else Apply(Run(book, ops[..|ops| - 1]), ops[|ops| - 1])
  }

  /** What a row may become: an open row may close once, at the profit of its own terms; nothing else changes. */
  ghost predicate Evolves(t: Trade, t': Trade) {
    t' == t || (t.status.Open? && exists exit :: t' == CloseAt(t, exit))
  }

  lemma ApplyEvolves(book: Book, op: Op)
    ensures |book.trades| <= |Apply(book, op).trades|
    ensures forall i :: 0 <= i < |book.trades| ==> Evolves(book.trades[i], Apply(book, op).trades[i])
    ensures book.audit <= Apply(book, op).audit
  {
  }

  /** Over any further operations a CLOSED row keeps its status, price and profit, and an OPEN row its terms;
      no row and no audit entry disappears. */
  lemma {:induction false} RunEvolves(book: Book, ops: seq<Op>)
    ensures |book.trades| <= |Run(book, ops).trades|
    ensures forall i :: 0 <= i < |book.trades| ==> Evolves(book.trades[i], Run(book, ops).trades[i])
    ensures book.audit <= Run(book, ops).audit
  {
    if ops != [] {
      var before := Run(book, ops[..|ops| - 1]);
      RunEvolves(book, ops[..|ops| - 1]);
      ApplyEvolves(before, ops[|ops| - 1]);
    }
  }

  function Openings(audit: seq<Audit>): seq<Audit> {
    Filter(audit, (a: Audit) => a.TradeOpened?)
  }

  function ClosingsOf(audit: seq<Audit>, id: nat): seq<Audit> {
    Filter(audit, (a: Audit) => a.TradeClosed? && a.id == id)
  }

  /** One opening entry per row; one closing entry, with the row's own price and profit, per CLOSED row; none per OPEN row. */
  ghost predicate Balanced(book: Book) {
    && |Openings(book.audit)| == |book.trades|
    && (forall i :: 0 <= i < |book.trades| ==> RowBalanced(book, i))
    && (forall id: nat :: id == 0 || id > |book.trades| ==> ClosingsOf(book.audit, id) == [])
  }

  ghost predicate RowBalanced(book: Book, i: nat)
    requires i < |book.trades|
  {
    var t, closings := book.trades[i], ClosingsOf(book.audit, i + 1);
    match t.status
    case Open => closings == [] && t.exitPrice == None && t.pnl == 0.0
    case Closed =>
      && |closings| == 1 && closings[0].TradeClosed? && t.exitPrice.Some?
      && closings[0].exitPrice == t.exitPrice.value && closings[0].pnl == t.pnl
      && t.pnl == Pnl(t.side, t.entryPrice, t.exitPrice.value, t.qty)
  }

  lemma ExecuteBalanced(book: Book, sig: Signal, qty: int, fill: Fill)
    requires Balanced(book)
    ensures Balanced(ExecuteOn(book, sig, qty, fill))
  {
    var after := ExecuteOn(book, sig, qty, fill);
    var entry := TradeOpened(sig.symbol, qty);
    FilterAppend(book.audit, entry, (a: Audit) => a.TradeOpened?);
    forall id: nat ensures ClosingsOf(after.audit, id) == ClosingsOf(book.audit, id) {
      FilterAppend(book.audit, entry, (a: Audit) => a.TradeClosed? && a.id == id);
    }
    forall i | 0 <= i < |after.trades| ensures RowBalanced(after, i) {
      if i < |book.trades| {
        assert RowBalanced(book, i);
      }
    }
  }

  lemma CloseBalanced(book: Book, id: nat, exit: Exit)
    requires Balanced(book)
    ensures Balanced(CloseOn(book, id, exit))
  {
    if IsOpen(book, id) {
      var after := CloseOn(book, id, exit);
      var entry := CloseAudit(id, book.trades[id - 1], exit);
      FilterAppend(book.audit, entry, (a: Audit) => a.TradeOpened?);
      forall k: nat ensures ClosingsOf(after.audit, k) == ClosingsOf(book.audit, k) + if k == id then [entry] else [] {
        FilterAppend(book.audit, entry, (a: Audit) => a.TradeClosed? && a.id == k);
      }
      forall i | 0 <= i < |after.trades| ensures RowBalanced(after, i) {
        assert RowBalanced(book, i);
      }
    }
  }

  /** A sweep as one-row closes, in the order of the table. */
  ghost function CloseUpTo(book: Book, sweep: Sweep, n: nat): Book
    requires n <= |book.trades|
  {
    if n == 0 then book
    else
      var before, t := CloseUpTo(book, sweep, n - 1), book.trades[n - 1];
      if Leaves(sweep, t) then CloseOn(before, n, sweep(t).value) else before
  }

  lemma CloseUpToNext(book: Book, sweep: Sweep, n: nat)
    requires 1 <= n <= |book.trades|
    ensures CloseUpTo(book, sweep, n) ==
            if Leaves(sweep, book.trades[n - 1])
            then CloseOn(CloseUpTo(book, sweep, n - 1), n, sweep(book.trades[n - 1]).value)
            else CloseUpTo(book, sweep, n - 1)
  {
  }

  lemma {:induction false} CloseUpToState(book: Book, sweep: Sweep, n: nat)
    requires n <= |book.trades|
    ensures var after := CloseUpTo(book, sweep, n);
            && |after.trades| == |book.trades|
            && (forall i :: 0 <= i < n ==> after.trades[i] == Swept(sweep, book.trades[i]))
            && (forall i :: n <= i < |book.trades| ==> after.trades[i] == book.trades[i])
            && after.audit == book.audit + SweepAudits(sweep, book.trades[..n])
  {
    if n > 0 {
      CloseUpToState(book, sweep, n - 1);
      assert book.trades[..n][..n - 1] == book.trades[..n - 1];
    }
  }

  lemma SweepIsCloses(book: Book, sweep: Sweep)
    ensures SweepOn(book, sweep) == CloseUpTo(book, sweep, |book.trades|)
  {
    CloseUpToState(book, sweep, |book.trades|);
    assert book.trades[..|book.trades|] == book.trades;
    assert SweepOn(book, sweep).trades == CloseUpTo(book, sweep, |book.trades|).trades;
  }

  /** What `CloseWithAudit` does to an OPEN row is one close of the specification. */
  lemma ClosedRow(book: Book, id: nat, t: Trade, exit: Exit, pnl: real)
    requires IsOpen(book, id) && t == book.trades[id - 1] && pnl == Pnl(t.side, t.entryPrice, exit.price, t.qty)
    ensures CloseOn(book, id, exit) ==
            Book(book.trades[id - 1 := t.(status := Closed, exitPrice := Some(exit.price), pnl := pnl)],
                 book.audit + [TradeClosed(id, exit.price, pnl, exit.cause)])
  {
  }

  lemma {:induction false} CloseUpToGap(book: Book, sweep: Sweep, m: nat, n: nat)
    requires m <= n <= |book.trades|
    requires forall i :: m <= i < n ==> !book.trades[i].status.Open?
    ensures CloseUpTo(book, sweep, n) == CloseUpTo(book, sweep, m)
  {
    if m < n {
      CloseUpToGap(book, sweep, m, n - 1);
    }
  }

  /** The table between two consecutive open rows holds no open trade. */
  lemma OpenRowsGap(trades: seq<Trade>, k: nat)
    requires k <= |OpenRows(trades)|
    ensures var rows := OpenRows(trades);
            var lo := if k == 0 then 0 else rows[k - 1].id;
            var hi := if k == |rows| then |trades| else rows[k].id - 1;
            lo <= hi <= |trades| && forall i :: lo <= i < hi ==> !trades[i].status.Open?
  {
  }

  lemma {:induction false} CloseUpToBalanced(book: Book, sweep: Sweep, n: nat)
    requires n <= |book.trades| && Balanced(book)
    ensures Balanced(CloseUpTo(book, sweep, n))
  {
    if n > 0 {
      CloseUpToBalanced(book, sweep, n - 1);
      if Leaves(sweep, book.trades[n - 1]) {
        CloseBalanced(CloseUpTo(book, sweep, n - 1), n, sweep(book.trades[n - 1]).value);
      }
    }
  }

  lemma SweepBalanced(book: Book, sweep: Sweep)
    requires Balanced(book)
    ensures Balanced(SweepOn(book, sweep))
  {
    SweepIsCloses(book, sweep);
    CloseUpToBalanced(book, sweep, |book.trades|);
  }

  /** Table and audit log agree after every sequence of operations on a fresh database. */
  lemma {:induction false} RunBalanced(ops: seq<Op>)
    ensures Balanced(Run(Book([], []), ops))
  {
    if ops != [] {
      var before := Run(Book([], []), ops[..|ops| - 1]);
      RunBalanced(ops[..|ops| - 1]);
      match ops[|ops| - 1]
      case Execute(sig, qty, fill) => ExecuteBalanced(before, sig, qty, fill);
      case CloseTrade(id, price) => CloseBalanced(before, id, Exit(price, Manual));
      case MarkToMarket(prices) => SweepBalanced(before, MarkedToMarket(prices));
      case ForceCloseAll(prices) => SweepBalanced(before, SquaredOff(prices));
    } else {
      assert Openings([]) == [];
    }
  }

  /** The row t closed at a price: its terms stay, the profit is that of the price move on its side, to the cent. */
  predicate ClosedFor(t: Trade, t': Trade, price: real) {
    && t' == t.(status := Closed, exitPrice := Some(price), pnl := t'.pnl)
    && t'.pnl == if t.side.Buy? then Round2((price - t.entryPrice) * t.qty as real)
                 else Round2((t.entryPrice - price) * t.qty as real)
  }

  lemma GainFormula(entryPrice: real, exitPrice: real, qty: int)
    ensures Gain(Buy, entryPrice, exitPrice, qty) == (exitPrice - entryPrice) * qty as real
    ensures Gain(Sell, entryPrice, exitPrice, qty) == (entryPrice - exitPrice) * qty as real
  {
  }

  lemma CloseAtIsClosedFor(t: Trade, exit: Exit)
    ensures ClosedFor(t, CloseAt(t, exit), exit.price)
  {
    GainFormula(t.entryPrice, exit.price, t.qty);
  }

  lemma SweepAuditsNext(sweep: Sweep, trades: seq<Trade>, id: nat)
    requires trades != []
    ensures var n := |trades| - 1;
            ClosingsOf(SweepAudits(sweep, trades), id) ==
            ClosingsOf(SweepAudits(sweep, trades[..n]), id) +
            if Leaves(sweep, trades[n]) && id == n + 1 then [CloseAudit(id, trades[n], sweep(trades[n]).value)] else []
  {
    var n := |trades| - 1;
    if Leaves(sweep, trades[n]) {
      var entry := CloseAudit(n + 1, trades[n], sweep(trades[n]).value);
      assert entry.TradeClosed? && entry.id == n + 1;
      hide CloseAudit;
      FilterAppend(SweepAudits(sweep, trades[..n]), entry, (a: Audit) => a.TradeClosed? && a.id == id);
    }
  }

  lemma {:induction false} SweepAuditsAbove(sweep: Sweep, trades: seq<Trade>, id: nat)
    requires id > |trades|
    ensures ClosingsOf(SweepAudits(sweep, trades), id) == []
  {
    if trades != [] {
      SweepAuditsAbove(sweep, trades[..|trades| - 1], id);
      SweepAuditsNext(sweep, trades, id);
    }
  }

  /** A sweep writes one closing entry for each row it closes, and no other. */
  lemma {:induction false} SweepAuditsOf(sweep: Sweep, trades: seq<Trade>, i: nat)
    requires i < |trades|
    ensures ClosingsOf(SweepAudits(sweep, trades), i + 1) ==
            if Leaves(sweep, trades[i]) then [CloseAudit(i + 1, trades[i], sweep(trades[i]).value)] else []
  {
    hide ClosingsOf;
    hide SweepAudits;
    hide CloseAudit;
    var n := |trades| - 1;
    SweepAuditsNext(sweep, trades, i + 1);
    if i < n {
      SweepAuditsOf(sweep, trades[..n], i);
    } else {
      SweepAuditsAbove(sweep, trades[..n], i + 1);
    }
  }

  /** The entries an operation adds to the log for one row. */
  function AddedFor(before: Book, after: Book, id: nat): seq<Audit>
    requires |before.audit| <= |after.audit|
  {
    ClosingsOf(after.audit[|before.audit|..], id)
  }

  /** Row i left at `price` for `cause`, with one audit entry saying so. */
  ghost predicate LeftAt(before: Book, after: Book, i: nat, price: real, cause: Cause)
    requires i < |before.trades| == |after.trades| && |before.audit| <= |after.audit|
  {
    && ClosedFor(before.trades[i], after.trades[i], price)
    && AddedFor(before, after, i + 1) == [TradeClosed(i + 1, price, after.trades[i].pnl, cause)]
  }

  ghost predicate Unaffected(before: Book, after: Book, i: nat)
    requires i < |before.trades| == |after.trades| && |before.audit| <= |after.audit|
  {
    after.trades[i] == before.trades[i] && AddedFor(before, after, i + 1) == []
  }

  lemma SweptRow(book: Book, sweep: Sweep, i: nat)
    requires i < |book.trades|
    ensures var after := SweepOn(book, sweep);
            && |after.trades| == |book.trades| && book.audit <= after.audit
            && if Leaves(sweep, book.trades[i])
               then LeftAt(book, after, i, sweep(book.trades[i]).value.price, sweep(book.trades[i]).value.cause)
               else Unaffected(book, after, i)
  {
    var after, t := SweepOn(book, sweep), book.trades[i];
    assert after.audit[|book.audit|..] == SweepAudits(sweep, book.trades);
    SweepAuditsOf(sweep, book.trades, i);
    if Leaves(sweep, t) {
      CloseAtIsClosedFor(t, sweep(t).value);
    }
    hide Pnl;
    hide Round2;
    hide SweepAudits;
  }

  predicate StopReached(t: Trade, last: real) {
    if t.side.Buy? then last <= t.stopLoss else last >= t.stopLoss
  }

  /** A target of zero is none. */
  predicate TargetReached(t: Trade, last: real) {
    t.target.Some? && t.target.value != 0.0 && if t.side.Buy? then last >= t.target.value else last <= t.target.value
  }

  /** Marking to market closes an OPEN trade exactly when its last price is known and has reached its stop or, failing
      that, its target; at that price and for that reason. Every other row stays as it is. */
  lemma MarkToMarketExact(book: Book, prices: map<string, real>, i: nat)
    requires i < |book.trades|
    ensures var after := Apply(book, MarkToMarket(prices));
            var t := book.trades[i];
            && |after.trades| == |book.trades| && book.audit <= after.audit
            && if t.status.Closed? || t.symbol !in prices then Unaffected(book, after, i)
               else
                 var last := prices[t.symbol];
                 if StopReached(t, last) then LeftAt(book, after, i, last, StopLossHit)
                 else if TargetReached(t, last) then LeftAt(book, after, i, last, TargetHit)
                 else Unaffected(book, after, i)
  {
    hide LeftAt;
    hide Unaffected;
    hide SweepOn;
    SweptRow(book, MarkedToMarket(prices), i);
  }

  /** A forced close closes every OPEN trade at its last price, or at its entry price if none is known, and touches no
      other row. */
  lemma ForceCloseExact(book: Book, prices: map<string, real>, i: nat)
    requires i < |book.trades|
    ensures var after := Apply(book, ForceCloseAll(prices));
            var t := book.trades[i];
            && |after.trades| == |book.trades| && book.audit <= after.audit
            && if t.status.Open?
               then LeftAt(book, after, i, if t.symbol in prices then prices[t.symbol] else t.entryPrice, SquareOff)
               else Unaffected(book, after, i)
  {
    hide LeftAt;
    hide Unaffected;
    hide SweepOn;
    SweptRow(book, SquaredOff(prices), i);
  }

  /** An execution appends one OPEN row with the signal's terms, priced at the fill, or at the signal's entry if the
      fill is zero, and one opening entry. */
  lemma ExecuteExact(book: Book, sig: Signal, qty: int, fill: Fill)
    ensures var after := Apply(book, Execute(sig, qty, fill));
            && |after.trades| == |book.trades| + 1 && after.trades[..|book.trades|] == book.trades
            && after.audit == book.audit + [TradeOpened(sig.symbol, qty)]
            && var t := after.trades[|book.trades|];
               && t.symbol == sig.symbol && t.strategy == sig.strategy && t.side == sig.side && t.qty == qty
               && t.entryPrice == (if fill.avgPrice != 0.0 then fill.avgPrice else sig.entry)
               && t.stopLoss == sig.stop && t.target == sig.target && t.orderId == fill.orderId
               && t.status == Open && t.exitPrice == None && t.pnl == 0.0
  {
  }

  /** A manual close of an OPEN trade closes it at the given price; any other id leaves the book alone. */
  lemma CloseTradeExact(book: Book, id: nat, price: real)
    ensures var after := Apply(book, CloseTrade(id, price));
            if 1 <= id <= |book.trades| && book.trades[id - 1].status.Open? then
              && |after.trades| == |book.trades| && book.audit <= after.audit
              && LeftAt(book, after, id - 1, price, Manual)
              && forall j :: 0 <= j < |book.trades| && j != id - 1 ==> Unaffected(book, after, j)
            else after == book
  {
    hide Round2;
    if IsOpen(book, id) {
      var after, t := Apply(book, CloseTrade(id, price)), book.trades[id - 1];
      var entry := CloseAudit(id, t, Exit(price, Manual));
      CloseAtIsClosedFor(t, Exit(price, Manual));
      assert after.audit[|book.audit|..] == [entry];
      forall k: nat ensures ClosingsOf([entry], k) == if k == id then [entry] else [] {
        assert [] + [entry] == [entry];
        FilterAppend([], entry, (a: Audit) => a.TradeClosed? && a.id == k);
      }
    }
  }

  lemma {:induction false} LeavingIdsExact(sweep: Sweep, rows: seq<Row>, id: nat)
    ensures id in LeavingIds(sweep, rows) <==> exists r :: r in rows && r.id == id && sweep(r.trade).Some?
  {
    if rows != [] {
      var n := |rows| - 1;
      LeavingIdsExact(sweep, rows[..n], id);
      assert rows == rows[..n] + [rows[n]];
    }
  }

  /** The ids reported as closed are those of the OPEN rows whose last price reaches their stop or target. */
  lemma MarkReportsClosed(book: Book, prices: map<string, real>, id: nat)
    ensures id in LeavingIds(MarkedToMarket(prices), OpenRows(book.trades)) <==>
            && 1 <= id <= |book.trades|
            && var t := book.trades[id - 1];
               t.status.Open? && t.symbol in prices
               && (StopReached(t, prices[t.symbol]) || TargetReached(t, prices[t.symbol]))
  {
    OpenRowsCorrect(book.trades);
    LeavingIdsExact(MarkedToMarket(prices), OpenRows(book.trades), id);
    hide OpenRows;
    hide LeavingIds;
    if 1 <= id <= |book.trades| {
      var row := Row(id, book.trades[id - 1]);
      assert row in OpenRows(book.trades) <==> row.trade.status.Open?;
    }
  }

  lemma {:induction false} NoOpenRows(trades: seq<Trade>)
    ensures OpenRows(trades) == [] <==> forall t :: t in trades ==> !t.status.Open?
  {
    if trades != [] {
      var n := |trades| - 1;
      NoOpenRows(trades[..n]);
      assert trades == trades[..n] + [trades[n]];
    }
  }

  lemma ForceCloseLeavesNoneOpen(book: Book, prices: map<string, real>)
    ensures OpenRows(Apply(book, ForceCloseAll(prices)).trades) == []
  {
    NoOpenRows(Apply(book, ForceCloseAll(prices)).trades);
  }

  // ---- The repository and the service --------------------------------------

  class TradeDAL {
    var trades: seq<Trade>
    var audit: seq<Audit>

    constructor ()
      ensures trades == [] && audit == []
    {
      trades, audit := [], [];
    }

    ghost function View(): Book
      reads this
    {
      Book(trades, audit)
    }

    method FindById(id: nat) returns (t: Option<Trade>)
      ensures t == if 1 <= id <= |trades| then Some(trades[id - 1]) else None
    {
      t := if 1 <= id <= |trades| then Some(trades[id - 1]) else None;
    }

    method FindOpen() returns (rows: seq<Row>)
      ensures rows == OpenRows(trades)
    {
      rows := [];
      for i := 0 to |trades|
        invariant rows == OpenRows(trades[..i])
      {
        assert trades[..i + 1][..i] == trades[..i];
        if trades[i].status.Open? {
          rows := rows + [Row(i + 1, trades[i])];
        }
      }
      assert trades[..|trades|] == trades;
    }

    method ListOpenSymbols() returns (symbols: set<string>)
      ensures forall x :: x in symbols <==> exists r :: r in OpenRows(trades) && r.trade.symbol == x
    {
      var rows := FindOpen();
      symbols := set r | r in rows :: r.trade.symbol;
    }

    method OpenWithAudit(trade: Trade, entry: Audit) returns (id: nat)
      modifies this
      ensures trades == old(trades) + [trade] && audit == old(audit) + [entry]
      ensures id == |trades|
    {
      trades := trades + [trade];
      audit := audit + [entry];
      id := |trades|;
    }

    /** Only an OPEN row is touched; otherwise the row is handed back as it is. */
    method CloseWithAudit(id: nat, exitPrice: real, pnl: real, entry: Audit) returns (t: Option<Trade>)
      modifies this
      ensures if IsOpen(old(View()), id)
              then trades == old(trades)[id - 1 := old(trades)[id - 1].(status := Closed, exitPrice := Some(exitPrice),
                                                                        pnl := pnl)]
                   && audit == old(audit) + [entry]
              else View() == old(View())
      ensures t == if 1 <= id <= |trades| then Some(trades[id - 1]) else None
    {
      if !(1 <= id <= |trades|) {
        return None;
      }
      var trade := trades[id - 1];
      if !trade.status.Open? {
        return Some(trade);
      }
      trade := trade.(exitPrice := Some(exitPrice));
      trade := trade.(pnl := pnl);
      trade := trade.(status := Closed);
      trades := trades[id - 1 := trade];
      audit := audit + [entry];
      t := Some(trade);
    }
  }

  class ExecutionService {
    const dal: TradeDAL

    constructor (dal: TradeDAL)
      ensures this.dal == dal
    {
      this.dal := dal;
    }

    method Execute(sig: Signal, qty: int, fill: Fill)
      modifies dal
      ensures dal.View() == Apply(old(dal.View()), Op.Execute(sig, qty, fill))
    {
      var price := if fill.avgPrice != 0.0 then fill.avgPrice else sig.entry;
      var _ := dal.OpenWithAudit(
        Trade(sig.symbol, sig.strategy, sig.side, qty, price, sig.stop, sig.target, Open, None, 0.0, fill.orderId),
        TradeOpened(sig.symbol, qty));
    }

    method CloseTrade(id: nat, exitPrice: real) returns (t: Option<Trade>)
      modifies dal
      ensures dal.View() == Apply(old(dal.View()), Op.CloseTrade(id, exitPrice))
      ensures t == if 1 <= id <= |dal.trades| then Some(dal.trades[id - 1]) else None
    {
      var probe := dal.FindById(id);
      if probe.None? || !probe.value.status.Open? {
        return probe;
      }
      var pnl := Pnl(probe.value.side, probe.value.entryPrice, exitPrice, probe.value.qty);
      t := dal.CloseWithAudit(id, exitPrice, pnl, TradeClosed(id, exitPrice, pnl, Manual));
    }

    /** Snapshot the open rows, then close those in breach one transaction at a time. */
    method MarkToMarket(prices: map<string, real>) returns (closed: seq<nat>)
      modifies dal
      ensures dal.View() == Apply(old(dal.View()), Op.MarkToMarket(prices))
      ensures closed == LeavingIds(MarkedToMarket(prices), OpenRows(old(dal.trades)))
    {
      hide Pnl;
      hide SweepOn;
      hide OpenRows;
      hide BreachReason;
      ghost var sweep := MarkedToMarket(prices);
      ghost var book := dal.View();
      assert CloseUpTo(book, sweep, 0) == book;
      hide CloseUpTo;
      hide CloseOn;
      var rows := dal.FindOpen();
      closed := [];
      ghost var upTo := 0;
      for k := 0 to |rows|
        invariant upTo == if k == 0 then 0 else rows[k - 1].id
        invariant upTo <= |book.trades|
        invariant dal.View() == CloseUpTo(book, sweep, upTo)
        invariant closed == LeavingIds(sweep, rows[..k])
      {
        var id, t := NextRow(book, sweep, rows, k);
        CloseUpToNext(book, sweep, id);
        assert rows[..k + 1][..k] == rows[..k];
        if t.symbol in prices {
          var last := prices[t.symbol];
          var reason := BreachReason(t.side, last, t.stopLoss, t.target);
          if reason.Some? {
            var pnl := Pnl(t.side, t.entryPrice, last, t.qty);
            ClosedRow(dal.View(), id, t, Exit(last, reason.value), pnl);
            var updated := dal.CloseWithAudit(id, last, pnl, TradeClosed(id, last, pnl, reason.value));
            if updated.Some? {
              closed := closed + [id];
            }
          }
        }
        upTo := id;
      }
      assert rows[..|rows|] == rows;
      OpenRowsGap(book.trades, |rows|);
      CloseUpToGap(book, sweep, upTo, |book.trades|);
      SweepIsCloses(book, sweep);
    }

    method ForceCloseAll(prices: map<string, real>) returns (closed: seq<nat>)
      modifies dal
      ensures dal.View() == Apply(old(dal.View()), Op.ForceCloseAll(prices))
      ensures closed == LeavingIds(SquaredOff(prices), OpenRows(old(dal.trades)))
    {
      hide Pnl;
      hide SweepOn;
      hide OpenRows;
      ghost var sweep := SquaredOff(prices);
      ghost var book := dal.View();
      assert CloseUpTo(book, sweep, 0) == book;
      hide CloseUpTo;
      hide CloseOn;
      var rows := dal.FindOpen();
      closed := [];
      ghost var upTo := 0;
      for k := 0 to |rows|
        invariant upTo == if k == 0 then 0 else rows[k - 1].id
        invariant upTo <= |book.trades|
        invariant dal.View() == CloseUpTo(book, sweep, upTo)
        invariant closed == LeavingIds(sweep, rows[..k])
      {
        var id, t := NextRow(book, sweep, rows, k);
        CloseUpToNext(book, sweep, id);
        assert rows[..k + 1][..k] == rows[..k];
        var last := if t.symbol in prices then prices[t.symbol] else t.entryPrice;
        var pnl := Pnl(t.side, t.entryPrice, last, t.qty);
        ClosedRow(dal.View(), id, t, Exit(last, SquareOff), pnl);
        var updated := dal.CloseWithAudit(id, last, pnl, TradeClosed(id, last, pnl, SquareOff));
        if updated.Some? {
          closed := closed + [id];
        }
        upTo := id;
      }
      assert rows[..|rows|] == rows;
      OpenRowsGap(book.trades, |rows|);
      CloseUpToGap(book, sweep, upTo, |book.trades|);
      SweepIsCloses(book, sweep);
    }

    /** Reads the k-th row of the snapshot; it is still open, because earlier closes touched earlier rows. */
    method NextRow(ghost book: Book, ghost sweep: Sweep, rows: seq<Row>, k: nat) returns (id: nat, t: Trade)
      requires rows == OpenRows(book.trades) && k < |rows|
      requires var upTo := if k == 0 then 0 else rows[k - 1].id;
               upTo <= |book.trades| && dal.View() == CloseUpTo(book, sweep, upTo)
      ensures id == rows[k].id && t == rows[k].trade
      ensures 1 <= id <= |book.trades| && t == book.trades[id - 1] && t.status.Open?
      ensures dal.View() == CloseUpTo(book, sweep, id - 1)
      ensures IsOpen(dal.View(), id) && dal.trades[id - 1] == t
    {
      id, t := rows[k].id, rows[k].trade;
      OpenRowsCorrect(book.trades);
      assert rows[k] in rows;
      OpenRowsGap(book.trades, k);
      CloseUpToGap(book, sweep, if k == 0 then 0 else rows[k - 1].id, id - 1);
      CloseUpToState(book, sweep, id - 1);
    }
  }
}
