/**
 Where the money goes: what the engine books as PnL is the cash its trades moved
 (bot/hypertrade/engine/runner.py, bot/hypertrade/reconcile/fills.py).
 */
module MoneyLaws {
  import opened Common
  import opened Traces
  import opened Book
  import opened Reconcile
  import opened ReconcileLaws
  import opened Signals
  import opened SignalLaws
  import opened BookLaws
  import PnlLaws
  import Fills

  // ----- Cash -------------------------------------------------------------

  /** What an order moves: a buy pays, a sell receives. */
  function CashOf(t: Trade): real {
    CashFlow(t.side, t.price, t.size)
  }

  /** What opening `size` at the row's entry moved. */
  function Staked(r: Row, size: real): real {
    if r.side.Long? then CashFlow(Buy, r.entry, size) else CashFlow(Sell, r.entry, size)
  }

  /** The trade that closes `size` of a row books what it moved and what opening the
      same size had, less its fee, on the row's strategy and coin. */
  predicate Closes(t: Trade, r: Row) {
    && t.strategy == r.strategy && t.coin == r.coin && t.side == (if r.side.Long? then Sell else Buy)
    && t.pnl.Some? && t.pnl.value + t.fee == CashOf(t) + Staked(r, t.size)
  }

  lemma StakedIs(r: Row, exit: real, size: real)
    ensures RoundTrip(r.side, r.entry, exit, size)
         == CashFlow(if r.side.Long? then Sell else Buy, exit, size) + Staked(r, size)
  {
  }

  /** A row closed at a price decided by reconcile. */
  lemma RowTradeCloses(db: Db, x: Planned)
    requires Honest(x)
    ensures Closes(ReconcileTrade(db, x.row, x.priced), x.row)
    ensures ReconcileTrade(db, x.row, x.priced).size == x.row.size
  {
    StakedIs(x.row, x.priced.exit, x.row.size);
  }

  /** The trade of a booked close. */
  function FillTrade(c: Config, row: Row, w: CloseWorld): Trade
    requires w.reply.Answered?
  {
    var price, size := FillPrice(w.reply), w.reply.size;
    var fee := TakerFee(price, size, c.takerFee);
    Trade(Exchange(w.reply.id), row.strategy, row.coin, ClosingSide(row.side), size, price, fee,
          Some(RealizedPnl(row.side, row.entry, price, size, fee)))
  }

  lemma FillTradeCloses(c: Config, row: Row, w: CloseWorld)
    requires w.reply.Answered?
    ensures var t := FillTrade(c, row, w);
            && Closes(t, row) && t.size == w.reply.size && (w.reply.price.Some? ==> t.price == w.reply.price.value)
            && t.fee == t.price * t.size * c.takerFee
  {
    var t := FillTrade(c, row, w);
    RealizedIsRoundTrip(row.side, row.entry, t.price, t.size, t.fee);
    StakedIs(row, t.price, t.size);
  }

  /** A booked close books that trade and leaves the rest on the row. */
  lemma BookCloseTrade(c: Config, d: Desk, row: Row, requested: real, w: CloseWorld)
    requires w.reply.Answered? && HoldsRow(d, row)
    ensures var (d2, out) := BookClose(c, d, row.strategy, row.coin, row.side, requested, w);
            var rest := Unfilled(requested, w.reply.size, w.step);
            if out.Finished? then
              d2.db.trades == d.db.trades + [FillTrade(c, row, w)]
              && d2.db.open == if rest > 0.0 then Resize(d.db.open, row.id, rest) else Without(d.db.open, row.id)
            else d2.db == d.db
  {
  }

  // ----- What a strategy's trades add up to ---------------------------------

  function Cash(trades: seq<Trade>, strategy: string): real {
    if trades == [] then 0.0
    else
      var n := |trades| - 1;
      Cash(trades[..n], strategy) + if trades[n].strategy == strategy then CashOf(trades[n]) else 0.0
  }

  /** The PnL its trades carry, before the fees of the trades that carry one. */
  function Earned(trades: seq<Trade>, strategy: string): real {
    if trades == [] then 0.0
    else
      var n := |trades| - 1;
      Earned(trades[..n], strategy) + if trades[n].strategy == strategy then EarnedBy(trades[n]) else 0.0
  }

  function EarnedBy(t: Trade): real {
    if t.pnl.Some? then t.pnl.value + t.fee else 0.0
  }

  /** What its open rows have cost or brought so far. */
  function Invested(open: seq<Row>, strategy: string): real {
    if open == [] then 0.0
    else (if open[0].strategy == strategy then Staked(open[0], open[0].size) else 0.0) + Invested(open[1..], strategy)
  }

  /** The cash a strategy's trades moved is what it earned and what its open rows
      hold. */
  predicate Accounted(db: Db, strategy: string) {
    Cash(db.trades, strategy) == Earned(db.trades, strategy) + Invested(db.open, strategy)
  }

  lemma TradesSnoc(trades: seq<Trade>, t: Trade, strategy: string)
    ensures Cash(trades + [t], strategy) == Cash(trades, strategy) + if t.strategy == strategy then CashOf(t) else 0.0
    ensures Earned(trades + [t], strategy)
         == Earned(trades, strategy) + if t.strategy == strategy then EarnedBy(t) else 0.0
  {
    assert (trades + [t])[..|trades|] == trades;
  }

  function Part(r: Row, strategy: string): real {
    if r.strategy == strategy then Staked(r, r.size) else 0.0
  }

  lemma InvestedHead(open: seq<Row>, strategy: string)
    requires open != []
    ensures Invested(open, strategy) == Part(open[0], strategy) + Invested(open[1..], strategy)
  {
  }

  lemma {:induction false} InvestedSnoc(open: seq<Row>, r: Row, strategy: string)
    ensures Invested(open + [r], strategy) == Invested(open, strategy) + Part(r, strategy)
  {
    var more := open + [r];
    InvestedHead(more, strategy);
    if open == [] {
      assert more[1..] == [];
    } else {
      assert more[1..] == open[1..] + [r];
      InvestedSnoc(open[1..], r, strategy);
      InvestedHead(open, strategy);
    }
  }

  lemma {:induction false} InvestedWithout(open: seq<Row>, row: Row, strategy: string)
    requires DistinctIds(open) && row in open
    ensures Invested(Without(open, row.id), strategy) == Invested(open, strategy) - Part(row, strategy)
  {
    InvestedHead(open, strategy);
    var left := Without(open, row.id);
    if open[0] == row {
      PnlLaws.WithoutAbsent(open[1..], row.id);
      assert left == open[1..];
    } else {
      var i :| 0 <= i < |open| && open[i] == row;
      InvestedWithout(open[1..], row, strategy);
      assert left == [open[0]] + Without(open[1..], row.id);
      assert left[1..] == Without(open[1..], row.id);
      InvestedHead(left, strategy);
    }
  }

  lemma {:induction false} InvestedResize(open: seq<Row>, row: Row, size: real, strategy: string)
    requires DistinctIds(open) && row in open
    ensures Invested(Resize(open, row.id, size), strategy)
         == Invested(open, strategy) - Part(row, strategy) + Part(row.(size := size), strategy)
  {
    InvestedHead(open, strategy);
    var resized := Resize(open, row.id, size);
    InvestedHead(resized, strategy);
    assert resized[1..] == Resize(open[1..], row.id, size);
    if open[0] == row {
      ResizeAbsent(open[1..], row.id, size);
    } else {
      var i :| 0 <= i < |open| && open[i] == row;
      InvestedResize(open[1..], row, size, strategy);
    }
  }

  lemma ResizeAbsent(open: seq<Row>, id: nat, size: real)
    requires forall i :: 0 <= i < |open| ==> open[i].id != id
    ensures Resize(open, id, size) == open
  {
  }

  // ----- What each write keeps --------------------------------------------

  lemma OpeningAccounts(db: Db, orderId: OrderId, s: string, coin: string, side: Side, size: real, price: real,
                        fee: real, atMs: int, strategy: string)
    requires Accounted(db, strategy)
    ensures var r := OpenPosition(db, orderId, s, coin, side, size, price, fee, atMs);
            r.Some? ==> Accounted(r.value, strategy)
  {
    TradesSnoc(db.trades, Trade(orderId, s, coin, OpeningSide(side), size, price, fee, None), strategy);
    InvestedSnoc(db.open, Row(db.nextRow, s, coin, side, size, price, atMs), strategy);
  }

  /** What a fill and the rest it leaves differ by from the row, at entry. */
  function Lost(row: Row, filled: real, rest: real): real {
    Staked(row, filled + rest - row.size)
  }

  lemma StakedAdds(row: Row, filled: real, rest: real)
    ensures Staked(row, filled) + Staked(row, rest) == Staked(row, row.size) + Lost(row, filled, rest)
  {
    Fills.Distribute(row.entry, filled, rest);
    Fills.Distribute(row.entry, row.size, filled + rest - row.size);
  }

  /** One close, with `t` its trade and `rest` what it leaves: the account is off by
      just what trade and rest together miss of the row. */
  lemma ClosingAccounts(db: Db, db': Db, row: Row, t: Trade, rest: real, strategy: string)
    requires DistinctIds(db.open) && row in db.open && Closes(t, row) && db'.trades == db.trades + [t]
    requires db'.open == if rest > 0.0 then Resize(db.open, row.id, rest) else Without(db.open, row.id)
    requires 0.0 <= rest
    ensures Cash(db'.trades, strategy) - Earned(db'.trades, strategy) - Invested(db'.open, strategy)
         == Cash(db.trades, strategy) - Earned(db.trades, strategy) - Invested(db.open, strategy)
            - if row.strategy == strategy then Lost(row, t.size, rest) else 0.0
  {
    TradesSnoc(db.trades, t, strategy);
    StakedAdds(row, t.size, rest);
    if rest > 0.0 {
      InvestedResize(db.open, row, rest, strategy);
    } else {
      InvestedWithout(db.open, row, strategy);
      StakedNothing(row);
    }
  }

  lemma StakedNothing(row: Row)
    ensures Staked(row, 0.0) == 0.0
  {
  }

  // ----- What each event keeps ---------------------------------------------

  /** What a close filled and what it leaves make up the row. */
  predicate WholeClose(d: Desk, strategy: string, coin: string, w: CloseWorld) {
    var found := Find(d.db.open, strategy, coin);
    found.OneRow? && Executes(w) ==>
      w.reply.size + Unfilled(CloseSize(found.row, w.position), w.reply.size, w.step) == found.row.size
  }

  /** A booked close of a row keeps its strategy's account exactly when what it
      filled and what it leaves make up the row, at its entry. */
  lemma BookCloseAccountsIff(c: Config, d: Desk, row: Row, requested: real, w: CloseWorld)
    requires Sound(d) && HoldsRow(d, row) && w.reply.Answered? && Accounted(d.db, row.strategy)
    requires BookClose(c, d, row.strategy, row.coin, row.side, requested, w).1.Finished?
    ensures Accounted(BookClose(c, d, row.strategy, row.coin, row.side, requested, w).0.db, row.strategy)
       <==> Lost(row, w.reply.size, Unfilled(requested, w.reply.size, w.step)) == 0.0
  {
    var d2 := BookClose(c, d, row.strategy, row.coin, row.side, requested, w).0;
    FoundRow(d.db.open, row.strategy, row.coin);
    BookCloseTrade(c, d, row, requested, w);
    FillTradeCloses(c, row, w);
    ClosingAccounts(d.db, d2.db, row, FillTrade(c, row, w), Unfilled(requested, w.reply.size, w.step), row.strategy);
  }

  lemma BookCloseAccounts(c: Config, d: Desk, row: Row, requested: real, w: CloseWorld, strategy: string)
    requires Sound(d) && HoldsRow(d, row) && w.reply.Answered? && Accounted(d.db, strategy)
    requires row.strategy == strategy ==> w.reply.size + Unfilled(requested, w.reply.size, w.step) == row.size
    ensures Accounted(BookClose(c, d, row.strategy, row.coin, row.side, requested, w).0.db, strategy)
  {
    var (d2, out) := BookClose(c, d, row.strategy, row.coin, row.side, requested, w);
    FoundRow(d.db.open, row.strategy, row.coin);
    BookCloseTrade(c, d, row, requested, w);
    if out.Finished? {
      var rest := Unfilled(requested, w.reply.size, w.step);
      FillTradeCloses(c, row, w);
      StakedNothing(row);
      ClosingAccounts(d.db, d2.db, row, FillTrade(c, row, w), rest, strategy);
    }
  }

  /** A row closed at a price reconcile decided. */
  lemma CloseRowAccounts(db: Db, x: Planned, strategy: string)
    requires DistinctIds(db.open) && x.row in db.open && Honest(x) && Accounted(db, strategy)
    ensures Accounted(CloseRow(db, x.row.id, x.priced), strategy)
  {
    ByIdFinds(db.open, x.row);
    RowTradeCloses(db, x);
    StakedNothing(x.row);
    ClosingAccounts(db, CloseRow(db, x.row.id, x.priced), x.row, ReconcileTrade(db, x.row, x.priced), 0.0, strategy);
  }

  lemma CloseLeftOpenAccounts(d: Desk, row: Row, unknown: bool, w: CloseWorld, strategy: string)
    requires Sound(d) && row in d.db.open && Accounted(d.db, strategy)
    ensures Accounted(CloseLeftOpen(d, row, unknown, w).0.db, strategy)
  {
    var p := ExternalPrice(d, row, w);
    if p.Some? {
      PriceHonest(row, PassLedger(d.db, w.books), w.books);
      CloseRowAccounts(d.db, Planned(row, p.value), strategy);
    }
  }

  lemma ExecuteCloseAccounts(c: Config, d: Desk, other: string, coin: string, side: Side, w: CloseWorld,
                             strategy: string)
    requires Sound(d) && Accounted(d.db, strategy) && (other == strategy ==> WholeClose(d, other, coin, w))
    ensures Accounted(ExecuteClose(c, d, other, coin, side, w).0.db, strategy)
  {
    var d2, read := ExecuteClose(c, d, other, coin, side, w).0, GetRow(d.db.open, other, coin, w.rowRead);
    ExecuteCloseEnds(c, d, other, coin, side, w, d2);
    if read.Answer? && read.row.Some? && read.row.value.side == side && w.reply.Answered? {
      var row := read.row.value;
      FoundRow(d.db.open, other, coin);
      var d1 := Send(d, Order(coin, ClosingSide(side), CloseSize(row, w.position), true));
      if Executes(w) {
        BookCloseAccounts(c, d1, row, CloseSize(row, w.position), w, strategy);
      } else {
        CloseLeftOpenAccounts(d1, row, w.reply.unknown, w, strategy);
      }
    }
  }

  lemma SendOpenAccounts(c: Config, d: Desk, s: OpenSignal, flipped: bool, w: OpenWorld, strategy: string)
    requires Accounted(d.db, strategy)
    ensures Accounted(SendOpen(c, d, s, flipped, w).0.db, strategy)
  {
    if w.reply.Answered? {
      var price, size := FillPrice(w.reply), w.reply.size;
      OpeningAccounts(d.db, Exchange(w.reply.id), s.strategy, s.coin, s.side, size, price,
                      TakerFee(price, size, c.takerFee), s.atMs, strategy);
    }
  }

  lemma ExecuteOpenAccounts(c: Config, d: Desk, s: OpenSignal, w: OpenWorld, strategy: string)
    requires Sound(d) && Accounted(d.db, strategy)
    requires s.strategy == strategy ==> WholeClose(d, s.strategy, s.coin, w.close)
    ensures Accounted(ExecuteOpen(c, d, s, w).0.db, strategy)
  {
    var read := GetRow(d.db.open, s.strategy, s.coin, w.rowRead);
    if read == Answer(None) {
      SendOpenAccounts(c, d, s, false, w, strategy);
    } else if read.Answer? {
      var row := read.row.value;
      FoundRow(d.db.open, s.strategy, s.coin);
      var d1 := FlipClose(c, d, row, w).0;
      assert Accounted(d1.db, strategy) by {
        ExecuteCloseAccounts(c, d, row.strategy, row.coin, row.side, w.close, strategy);
      }
      SendOpenAccounts(c, d1, s, true, w, strategy);
    }
  }

  // ----- Flat-all -----------------------------------------------------------

  /** The trade of one row's part of a flat-all fill: on the side of the exchange
      position's close, whatever the row's. */
  function FlatTrade(c: Config, r: Row, p: Position, reply: Reply): Trade
    requires reply.Answered?
  {
    var price := FillPrice(reply);
    var fee := TakerFee(price, r.size, c.takerFee);
    Trade(Exchange(reply.id), r.strategy, p.coin, ClosingSide(p.side), r.size, price, fee,
          Some(RealizedPnl(r.side, r.entry, price, r.size, fee)))
  }

  /** It closes the row exactly when both are on one side. */
  lemma FlatTradeCloses(c: Config, r: Row, p: Position, reply: Reply)
    requires reply.Answered? && r.coin == p.coin
    ensures Closes(FlatTrade(c, r, p, reply), r) <==> r.side == p.side
    ensures FlatTrade(c, r, p, reply).size == r.size
  {
    var t := FlatTrade(c, r, p, reply);
    RealizedIsRoundTrip(r.side, r.entry, t.price, t.size, t.fee);
    StakedIs(r, t.price, t.size);
  }

  lemma FlatRowIs(c: Config, d: Desk, r: Row, p: Position, reply: Reply)
    requires reply.Answered? && Find(d.db.open, r.strategy, p.coin) == OneRow(r)
    ensures var next := FlatRow(c, d, r, p, reply);
            next.Some? ==> next.value.db.trades == d.db.trades + [FlatTrade(c, r, p, reply)]
                           && next.value.db.open == Without(d.db.open, r.id)
  {
  }

  /** Only the first row of a coin is ever booked: all would take its order id. */
  lemma FlatRowsIs(c: Config, d: Desk, rows: seq<Row>, p: Position, reply: Reply, writes: nat)
    requires reply.Answered? && rows != [] && Find(d.db.open, rows[0].strategy, p.coin) == OneRow(rows[0])
    ensures var d', first := FlatRows(c, d, rows, p, reply, writes).0, FlatRow(c, d, rows[0], p, reply);
            d' == if writes > 0 && first.Some? then first.value else d
  {
    var write := FlatWrite(c, p, reply);
    if writes > 0 && write(d, rows[0]).Some? {
      assert Exchange(reply.id) !in OrderIds(d.db.trades);
      PnlLaws.FlatRowBooks(c, d, rows[0], p, reply);
      PnlLaws.EachFirst(write, d, rows, writes);
      PnlLaws.FlatTakenId(c, write(d, rows[0]).value, rows[1..], p, reply, writes - 1);
    }
  }

  lemma FlatRowAccounts(c: Config, d: Desk, r: Row, p: Position, reply: Reply, strategy: string)
    requires Sound(d) && reply.Answered? && Accounted(d.db, strategy) && r in d.db.open && r.coin == p.coin
    requires Find(d.db.open, r.strategy, p.coin) == OneRow(r) && (r.strategy == strategy ==> r.side == p.side)
    ensures var next := FlatRow(c, d, r, p, reply); next.Some? ==> Accounted(next.value.db, strategy)
  {
    var next := FlatRow(c, d, r, p, reply);
    if next.Some? {
      FlatRowIs(c, d, r, p, reply);
      if r.strategy == strategy {
        FlatTradeCloses(c, r, p, reply);
        StakedNothing(r);
        ClosingAccounts(d.db, next.value.db, r, FlatTrade(c, r, p, reply), 0.0, strategy);
      } else {
        TradesSnoc(d.db.trades, FlatTrade(c, r, p, reply), strategy);
        InvestedWithout(d.db.open, r, strategy);
      }
    }
  }

  /** Names under which positions without a row are booked. */
  const NOBODY := {"manual_flat", "reconcile"}

  lemma FlatCoinAccounts(c: Config, d: Desk, p: Position, rowsRead: bool, reply: Reply, writes: nat, strategy: string)
    requires Sound(d) && Accounted(d.db, strategy) && strategy !in NOBODY
    requires forall r :: r in d.db.open && r.strategy == strategy && r.coin == p.coin ==> r.side == p.side
    ensures Accounted(FlatCoin(c, d, p, rowsRead, reply, writes).0.db, strategy)
  {
    var d1, rows := Send(d, CloseOrder(p)), RowsOn(d.db.open, p.coin);
    if reply.Answered? && rows != [] {
      assert rows[0] in rows;
      FindExact(d.db.open, rows[0].strategy, p.coin);
      FlatRowsIs(c, d1, rows, p, reply, writes);
      FlatRowAccounts(c, d1, rows[0], p, reply, strategy);
    } else if reply.Answered? {
      var price := FillPrice(reply);
      var fee := TakerFee(price, reply.size, c.takerFee);
      TradesSnoc(d.db.trades, Trade(Exchange(reply.id), "manual_flat", p.coin, ClosingSide(p.side), reply.size,
                                    price, fee, Some(RealizedPnl(p.side, p.entry, price, reply.size, fee))), strategy);
    }
  }

  // ----- Reconcile ----------------------------------------------------------

  lemma {:induction false} ApplyAccounts(db: Db, plan: seq<Planned>, strategy: string)
    requires DistinctIds(db.open) && Accounted(db, strategy)
    requires forall x :: x in plan ==> x.row in db.open && Honest(x)
    requires forall i, j :: 0 <= i < j < |plan| ==> plan[i].row.id != plan[j].row.id
    ensures Accounted(Apply(db, plan), strategy)
    decreases plan
  {
    if plan != [] {
      var x := plan[0];
      assert x in plan;
      ByIdFinds(db.open, x.row);
      WithoutKeepsIds(db.open, x.row.id);
      CloseRowAccounts(db, x, strategy);
      ApplyAccounts(CloseRow(db, x.row.id, x.priced), plan[1..], strategy);
    }
  }

  lemma {:induction false} OrphansAccount(db: Db, orphans: seq<Position>, count: nat, confirmed: bool, a: Args,
                                          w: World, res: Result, strategy: string)
    requires Accounted(db, strategy) && strategy !in NOBODY
    ensures Accounted(CloseOrphans(db, orphans, count, confirmed, a, w, res).0, strategy)
    decreases orphans
  {
    if orphans != [] {
      var p := orphans[0];
      var (next, res') := CloseOrphan(db, p, count, confirmed, a, w, res);
      if AnswerTo(p, w).Filled? {
        TradesSnoc(db.trades, OrphanTrade(p, AnswerTo(p, w), w), strategy);
      }
      OrphansAccount(next, orphans[1..], count, confirmed, a, w, res', strategy);
    }
  }

  lemma PassAccounts(db: Db, a: Args, w: World, strategy: string)
    requires Consistent(db) && Accounted(db, strategy) && strategy !in NOBODY
    ensures Accounted(Pass(db, a, w).0, strategy)
  {
    var plan := PassPlan(db, a, w);
    PassPlanExact(db, a, w);
    ApplyAccounts(db, plan, strategy);
    if Completes(db, a, w) && a.closeOrphans {
      var ex := Acted(db.open, w).value;
      var res := NOTHING.(told := Told(plan), leftOpen := Planning(db, w, ex).1);
      assert Pass(db, a, w) == PassTwo(Apply(db, plan), ex, a, w, res) by {
        PassRunsBoth(db, a, w, Apply(db, plan), res);
      }
      PassTwoAccounts(Apply(db, plan), ex, a, w, res, strategy);
    } else {
      PassWithoutPassTwo(db, a, w);
    }
  }

  lemma PassTwoAccounts(db: Db, ex: seq<Position>, a: Args, w: World, res: Result, strategy: string)
    requires Accounted(db, strategy) && strategy !in NOBODY
    ensures Accounted(PassTwo(db, ex, a, w, res).0, strategy)
  {
    var orphans := Orphans(db.open, ex);
    var count := TradedCount(orphans, a.traded);
    OrphansAccount(db, orphans, count, true, a, w, res, strategy);
    OrphansAccount(db, orphans, count, false, a, w, res, strategy);
  }

  // ----- Whole runs ---------------------------------------------------------

  /** The event's closes of the strategy's rows are whole, and a flat-all meets them
      on the side the exchange has. */
  predicate Even(d: Desk, e: Event, strategy: string) {
    match e
    case Open(s, w) => s.strategy == strategy ==> WholeClose(d, strategy, s.coin, w.close)
    case Close(other, coin, _, w) => other == strategy ==> WholeClose(d, strategy, coin, w)
    case Flat(p, _, _, _) =>
      forall r :: r in d.db.open && r.strategy == strategy && r.coin == p.coin ==> r.side == p.side
    case Reconcile(_, _) => true
  }

  lemma NextAccounts(c: Config, d: Desk, e: Event, strategy: string)
    requires Sound(d) && Accounted(d.db, strategy) && strategy !in NOBODY && Even(d, e, strategy)
    ensures Accounted(Next(c, d, e).db, strategy)
  {
    match e
    case Open(s, w) => ExecuteOpenAccounts(c, EmitOpen(d, s), s, w, strategy);
    case Close(other, coin, side, w) => ExecuteCloseAccounts(c, Reset(d, other), other, coin, side, w, strategy);
    case Flat(p, ok, reply, writes) => FlatCoinAccounts(c, d, p, ok, reply, writes, strategy);
    case Reconcile(a, w) =>
      PassAccounts(d.db, a, w, strategy);
      var (db, res) := Pass(d.db, a, w);
      TellAllKeeps(d.(db := db, sent := d.sent + res.sent), res.told);
  }

  ghost predicate SoundAndAccounted(d: Desk, strategy: string) {
    Sound(d) && Accounted(d.db, strategy)
  }

  lemma {:induction false} NothingInvested(open: seq<Row>, strategy: string)
    requires forall r :: r in open ==> r.strategy != strategy
    ensures Invested(open, strategy) == 0.0
  {
    if open != [] {
      assert open[0] in open;
      NothingInvested(open[1..], strategy);
    }
  }

  /** Over every run, the cash a strategy's trades moved is what they earned before
      closing fees and what its open rows hold; so once it is flat, the PnL booked for
      it is its net cash less closing fees. */
  lemma CashIsAccounted(c: Config, d: Desk, es: seq<Event>, i: nat, strategy: string)
    requires SoundAndAccounted(d, strategy) && i <= |es| && strategy !in NOBODY
    requires forall j :: 0 <= j < i ==> Even(Before(Engine(c), d, es, j), es[j], strategy)
    ensures var db := Before(Engine(c), d, es, i).db;
            && Cash(db.trades, strategy) == Earned(db.trades, strategy) + Invested(db.open, strategy)
            && ((forall r :: r in db.open ==> r.strategy != strategy) ==>
                  Cash(db.trades, strategy) == Earned(db.trades, strategy))
  {
    var inv, even := (x: Desk) => SoundAndAccounted(x, strategy), (x: Desk, e: Event) => Even(x, e, strategy);
    forall x, e | inv(x) && even(x, e) ensures inv(Engine(c)(x, e)) {
      NextSound(c, x, e);
      NextAccounts(c, x, e, strategy);
    }
    Always(Engine(c), d, es, inv, even, i);
    var db := Before(Engine(c), d, es, i).db;
    if forall r :: r in db.open ==> r.strategy != strategy {
      NothingInvested(db.open, strategy);
    }
  }
}
