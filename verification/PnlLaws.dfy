/**
 The PnL the daily counter is given is the PnL the book holds; and what flat-all
 does to a coin several strategies share (bot/hypertrade/engine/runner.py).
 */
module PnlLaws {
  import opened Common
  import opened Traces
  import opened Book
  import opened Reconcile
  import opened ReconcileLaws
  import opened Signals
  import opened SignalLaws
  import opened BookLaws

  function PnlOf(t: Trade): real {
    if t.pnl.Some? then t.pnl.value else 0.0
  }

  function TotalPnl(trades: seq<Trade>): real {
    if trades == [] then 0.0 else TotalPnl(trades[..|trades| - 1]) + PnlOf(trades[|trades| - 1])
  }

  lemma TotalAppend(trades: seq<Trade>, t: Trade)
    ensures TotalPnl(trades + [t]) == TotalPnl(trades) + PnlOf(t)
  {
    assert (trades + [t])[..|trades|] == trades;
  }

  /** The counter was given what the trades say was realised. */
  predicate Balanced(d: Desk) {
    d.recorded == TotalPnl(d.db.trades)
  }

  /** Trades are only ever added. */
  predicate Grows(trades: seq<Trade>, trades': seq<Trade>) {
    |trades| <= |trades'| && trades'[..|trades|] == trades
  }

  lemma GrowsTransitive(a: seq<Trade>, b: seq<Trade>, c: seq<Trade>)
    requires Grows(a, b) && Grows(b, c)
    ensures Grows(a, c)
  {
    assert c[..|a|] == c[..|b|][..|a|];
  }

  /** A change adds trades, and books as much PnL as it records. */
  predicate Balances(d: Desk, d': Desk) {
    && Grows(d.db.trades, d'.db.trades)
    && d'.recorded - d.recorded == TotalPnl(d'.db.trades) - TotalPnl(d.db.trades)
  }

  lemma BalancesTransitive(a: Desk, b: Desk, c: Desk)
    requires Balances(a, b) && Balances(b, c)
    ensures Balances(a, c)
  {
    GrowsTransitive(a.db.trades, b.db.trades, c.db.trades);
  }

  lemma CloseRowBalances(d: Desk, row: Row, p: Priced)
    requires ById(d.db.open, row.id).Some?
    ensures Grows(d.db.trades, CloseRow(d.db, row.id, p).trades)
    ensures TotalPnl(CloseRow(d.db, row.id, p).trades) == TotalPnl(d.db.trades) + p.pnl
  {
    TotalAppend(d.db.trades, ReconcileTrade(d.db, ById(d.db.open, row.id).value, p));
  }

  lemma CloseLeftOpenBalances(d: Desk, row: Row, unknown: bool, w: CloseWorld)
    ensures Balances(d, CloseLeftOpen(d, row, unknown, w).0)
  {
    var p := ExternalPrice(d, row, w);
    if p.Some? {
      CloseRowBalances(d, row, p.value);
    }
  }

  lemma ClosePositionBalances(db: Db, orderId: OrderId, strategy: string, coin: string, tradeSide: OrderSide,
                              size: real, price: real, fee: real, pnl: real, remaining: real)
    ensures var r := ClosePosition(db, orderId, strategy, coin, tradeSide, size, price, fee, pnl, remaining);
            r.Some? ==> Grows(db.trades, r.value.trades) && TotalPnl(r.value.trades) == TotalPnl(db.trades) + pnl
  {
    TotalAppend(db.trades, Trade(orderId, strategy, coin, tradeSide, size, price, fee, Some(pnl)));
  }

  lemma BookCloseBalances(c: Config, d: Desk, strategy: string, coin: string, side: Side, requested: real,
                          w: CloseWorld)
    requires w.reply.Answered?
    ensures Balances(d, BookClose(c, d, strategy, coin, side, requested, w).0)
  {
    var price, size := FillPrice(w.reply), w.reply.size;
    var fee := TakerFee(price, size, c.takerFee);
    var read := GetRow(d.db.open, strategy, coin, w.reread);
    if read.Answer? {
      var pnl := if read.row.Some? then RealizedPnl(read.row.value.side, read.row.value.entry, price, size, fee)
                 else 0.0;
      ClosePositionBalances(d.db, Exchange(w.reply.id), strategy, coin, ClosingSide(side), size, price, fee, pnl,
                            Unfilled(requested, size, w.step));
    }
  }

  lemma ExecuteCloseBalances(c: Config, d: Desk, strategy: string, coin: string, side: Side, w: CloseWorld)
    ensures Balances(d, ExecuteClose(c, d, strategy, coin, side, w).0)
  {
    var d2, read := ExecuteClose(c, d, strategy, coin, side, w).0, GetRow(d.db.open, strategy, coin, w.rowRead);
    ExecuteCloseEnds(c, d, strategy, coin, side, w, d2);
    if read.Answer? && read.row.Some? && read.row.value.side == side && w.reply.Answered? {
      var row := read.row.value;
      var d1 := Send(d, Order(coin, ClosingSide(side), CloseSize(row, w.position), true));
      assert Balances(d1, d2) by {
        ClosedBalances(c, d1, row, strategy, coin, side, CloseSize(row, w.position), w, d2);
      }
    }
  }

  lemma ClosedBalances(c: Config, d: Desk, row: Row, strategy: string, coin: string, side: Side, size: real,
                       w: CloseWorld, d2: Desk)
    requires w.reply.Answered?
    requires d2 == if Executes(w) then BookClose(c, d, strategy, coin, side, size, w).0
                   else CloseLeftOpen(d, row, w.reply.unknown, w).0
    ensures Balances(d, d2)
  {
    if Executes(w) {
      BookCloseBalances(c, d, strategy, coin, side, size, w);
    } else {
      CloseLeftOpenBalances(d, row, w.reply.unknown, w);
    }
  }

  lemma SendOpenBalances(c: Config, d: Desk, s: OpenSignal, flipped: bool, w: OpenWorld)
    ensures Balances(d, SendOpen(c, d, s, flipped, w).0)
  {
    if w.reply.Answered? {
      var price, size := FillPrice(w.reply), w.reply.size;
      TotalAppend(d.db.trades, Trade(Exchange(w.reply.id), s.strategy, s.coin, OpeningSide(s.side), size, price,
                                     TakerFee(price, size, c.takerFee), None));
    }
  }

  lemma ExecuteOpenBalances(c: Config, d: Desk, s: OpenSignal, w: OpenWorld)
    ensures Balances(d, ExecuteOpen(c, d, s, w).0)
  {
    var read := GetRow(d.db.open, s.strategy, s.coin, w.rowRead);
    if read == Answer(None) {
      assert Balances(d, SendOpen(c, d, s, false, w).0) by { SendOpenBalances(c, d, s, false, w); }
    } else if read.Answer? {
      FlipBalances(c, d, s, w, read.row.value);
    }
  }

  lemma FlipBalances(c: Config, d: Desk, s: OpenSignal, w: OpenWorld, row: Row)
    ensures Balances(d, FlipOut(c, d, row, w).0) && Balances(d, FlipOpen(c, d, s, row, w).0)
  {
    var d1 := FlipClose(c, d, row, w).0;
    assert Balances(d, d1) by { ExecuteCloseBalances(c, d, row.strategy, row.coin, row.side, w.close); }
    var d2 := SendOpen(c, d1, s, true, w).0;
    assert Balances(d1, d2) by { SendOpenBalances(c, d1, s, true, w); }
    BalancesTransitive(d, d1, d2);
  }

  lemma FlatRowBalances(c: Config, d: Desk, r: Row, p: Position, reply: Reply)
    requires reply.Answered?
    ensures var next := FlatRow(c, d, r, p, reply); next.Some? ==> Balances(d, next.value)
  {
    var price, id := FillPrice(reply), Exchange(reply.id);
    var fee := TakerFee(price, r.size, c.takerFee);
    var pnl := RealizedPnl(r.side, r.entry, price, r.size, fee);
    ClosePositionBalances(d.db, id, r.strategy, p.coin, ClosingSide(p.side), r.size, price, fee, pnl, 0.0);
  }

  lemma FlatRowsBalances(c: Config, d: Desk, rows: seq<Row>, p: Position, reply: Reply, writes: nat)
    requires reply.Answered?
    ensures Balances(d, FlatRows(c, d, rows, p, reply, writes).0)
  {
    var write := FlatWrite(c, p, reply);
    forall x, r | write(x, r).Some? ensures Balances(x, write(x, r).value) { FlatRowBalances(c, x, r, p, reply); }
    forall x, y, z | Balances(x, y) && Balances(y, z) ensures Balances(x, z) { BalancesTransitive(x, y, z); }
    EachRelates(write, d, rows, writes, Balances);
  }

  lemma FlatCoinBalances(c: Config, d: Desk, p: Position, rowsRead: bool, reply: Reply, writes: nat)
    ensures Balances(d, FlatCoin(c, d, p, rowsRead, reply, writes).0)
  {
    if reply.Answered? {
      FlatRowsBalances(c, Send(d, CloseOrder(p)), RowsOn(d.db.open, p.coin), p, reply, writes);
      var price := FillPrice(reply);
      var fee := TakerFee(price, reply.size, c.takerFee);
      TotalAppend(d.db.trades, Trade(Exchange(reply.id), "manual_flat", p.coin, ClosingSide(p.side), reply.size,
                                     price, fee, Some(RealizedPnl(p.side, p.entry, price, reply.size, fee))));
    }
  }

  // ----- A reconcile pass -------------------------------------------------

  function ToldPnl(told: seq<(string, real)>): real {
    if told == [] then 0.0 else told[0].1 + ToldPnl(told[1..])
  }

  lemma {:induction false} TellAllRecords(d: Desk, told: seq<(string, real)>)
    ensures TellAll(d, told).recorded == d.recorded + ToldPnl(told)
    decreases told
  {
    if told != [] {
      TellAllRecords(Tell(d, told[0].0, told[0].1), told[1..]);
    }
  }

  lemma {:induction false} ApplyBooksPnl(db: Db, plan: seq<Planned>)
    requires DistinctIds(db.open)
    requires forall x :: x in plan ==> x.row in db.open
    requires forall i, j :: 0 <= i < j < |plan| ==> plan[i].row.id != plan[j].row.id
    ensures Grows(db.trades, Apply(db, plan).trades)
    ensures TotalPnl(Apply(db, plan).trades) == TotalPnl(db.trades) + ToldPnl(Told(plan))
    decreases plan
  {
    if plan != [] {
      var x := plan[0];
      var next := CloseRow(db, x.row.id, x.priced);
      ByIdFinds(db.open, x.row);
      WithoutKeepsIds(db.open, x.row.id);
      TotalAppend(db.trades, ReconcileTrade(db, x.row, x.priced));
      ApplyBooksPnl(next, plan[1..]);
      GrowsTransitive(db.trades, next.trades, Apply(next, plan[1..]).trades);
      assert Told(plan)[1..] == Told(plan[1..]);
    }
  }

  /** Orphan closes book no PnL: they have no entry price. */
  lemma {:induction false} CloseOrphansBooksNoPnl(db: Db, orphans: seq<Position>, count: nat, confirmed: bool, a: Args,
                                                  w: World, res: Result)
    ensures Grows(db.trades, CloseOrphans(db, orphans, count, confirmed, a, w, res).0.trades)
    ensures TotalPnl(CloseOrphans(db, orphans, count, confirmed, a, w, res).0.trades) == TotalPnl(db.trades)
    decreases orphans
  {
    if orphans != [] {
      var p := orphans[0];
      var ans := if p.coin in w.answers then w.answers[p.coin] else Raises;
      if ans.Filled? {
        TotalAppend(db.trades, OrphanTrade(p, ans, w));
      }
      var (next, res') := CloseOrphan(db, p, count, confirmed, a, w, res);
      CloseOrphansBooksNoPnl(next, orphans[1..], count, confirmed, a, w, res');
      GrowsTransitive(db.trades, next.trades, CloseOrphans(next, orphans[1..], count, confirmed, a, w, res').0.trades);
    }
  }

  lemma PassTwoBooksNoPnl(booked: Db, ex: seq<Position>, a: Args, w: World, res: Result)
    ensures Grows(booked.trades, PassTwo(booked, ex, a, w, res).0.trades)
    ensures TotalPnl(PassTwo(booked, ex, a, w, res).0.trades) == TotalPnl(booked.trades)
  {
    var orphans := Orphans(booked.open, ex);
    var count := TradedCount(orphans, a.traded);
    CloseOrphansBooksNoPnl(booked, orphans, count, true, a, w, res);
    CloseOrphansBooksNoPnl(booked, orphans, count, false, a, w, res);
  }

  lemma PassPnl(db: Db, a: Args, w: World)
    requires Consistent(db)
    ensures Grows(db.trades, Pass(db, a, w).0.trades)
    ensures TotalPnl(Pass(db, a, w).0.trades) == TotalPnl(db.trades) + ToldPnl(Pass(db, a, w).1.told)
  {
    var plan := PassPlan(db, a, w);
    assert Grows(db.trades, Apply(db, plan).trades)
        && TotalPnl(Apply(db, plan).trades) == TotalPnl(db.trades) + ToldPnl(Told(plan)) by {
      PassPlanExact(db, a, w);
      ApplyBooksPnl(db, plan);
    }
    assert Pass(db, a, w).1.told == Told(plan) by { PassReports(db, a, w); }
    if Completes(db, a, w) && a.closeOrphans {
      var ex := Acted(db.open, w).value;
      var res := NOTHING.(told := Told(plan), leftOpen := Planning(db, w, ex).1);
      assert Pass(db, a, w) == PassTwo(Apply(db, plan), ex, a, w, res) by {
        PassRunsBoth(db, a, w, Apply(db, plan), res);
      }
      PassTwoBooksNoPnl(Apply(db, plan), ex, a, w, res);
      GrowsTransitive(db.trades, Apply(db, plan).trades, Pass(db, a, w).0.trades);
    } else {
      assert Pass(db, a, w).0 == Apply(db, plan);
    }
  }

  lemma NextBalances(c: Config, d: Desk, e: Event)
    requires Sound(d)
    ensures Balances(d, Next(c, d, e))
  {
    match e
    case Open(s, w) => ExecuteOpenBalances(c, EmitOpen(d, s), s, w);
    case Close(strategy, coin, side, w) => ExecuteCloseBalances(c, Reset(d, strategy), strategy, coin, side, w);
    case Flat(p, ok, reply, writes) => FlatCoinBalances(c, d, p, ok, reply, writes);
    case Reconcile(a, w) =>
      PassPnl(d.db, a, w);
      var (db, res) := Pass(d.db, a, w);
      TellAllRecords(d.(db := db, sent := d.sent + res.sent), res.told);
      TellAllKeeps(d.(db := db, sent := d.sent + res.sent), res.told);
  }

  ghost predicate SoundAndBalanced(d: Desk) {
    Sound(d) && Balanced(d)
  }

  /** In every reachable state the daily counter has been given exactly the PnL
      of the trades in the book, whichever path closed each position. */
  lemma CounterMatchesBook(c: Config, d: Desk, es: seq<Event>, i: nat)
    requires SoundAndBalanced(d) && i <= |es|
    ensures Balanced(Before(Engine(c), d, es, i))
  {
    var any := (x: Desk, e: Event) => true;
    forall x, e | SoundAndBalanced(x) && any(x, e) ensures SoundAndBalanced(Engine(c)(x, e)) {
      NextSound(c, x, e);
      NextBalances(c, x, e);
    }
    Always(Engine(c), d, es, SoundAndBalanced, any, i);
  }

  // ----- Flat-all on a shared coin ----------------------------------------

  lemma FlatRowBooks(c: Config, d: Desk, r: Row, p: Position, reply: Reply)
    requires reply.Answered? && Exchange(reply.id) !in OrderIds(d.db.trades)
    requires Find(d.db.open, r.strategy, p.coin) == OneRow(r)
    ensures var next := FlatRow(c, d, r, p, reply);
            next.Some? && next.value.db.open == Without(d.db.open, r.id)
            && Exchange(reply.id) in OrderIds(next.value.db.trades)
  {
    var trades := FlatRow(c, d, r, p, reply).value.db.trades;
    OrderIdsSnoc(d.db.trades, trades[|d.db.trades|]);
  }

  lemma FlatFirstRow(c: Config, d: Desk, p: Position, reply: Reply, writes: nat, rows: seq<Row>, d': Desk, ok: bool)
    requires Sound(d) && reply.Answered? && Exchange(reply.id) !in OrderIds(d.db.trades) && writes > 0
    requires rows == RowsOn(d.db.open, p.coin) != [] && (d', ok) == FlatRows(c, d, rows, p, reply, writes)
    ensures ok <==> |rows| == 1
    ensures d'.db.open == Without(d.db.open, rows[0].id)
  {
    var r, write := rows[0], FlatWrite(c, p, reply);
    assert r in rows;
    FindExact(d.db.open, r.strategy, p.coin);
    FlatRowBooks(c, d, r, p, reply);
    EachFirst(write, d, rows, writes);
    FlatTakenId(c, write(d, r).value, rows[1..], p, reply, writes - 1);
  }

  lemma EachFirst(write: (Desk, Row) -> Option<Desk>, d: Desk, rows: seq<Row>, writes: nat)
    requires rows != [] && writes > 0 && write(d, rows[0]).Some?
    ensures Each(write, d, rows, writes) == Each(write, write(d, rows[0]).value, rows[1..], writes - 1)
  {
  }

  /** Once the order id is booked, no further row can be. */
  lemma FlatTakenId(c: Config, d: Desk, rows: seq<Row>, p: Position, reply: Reply, writes: nat)
    requires reply.Answered? && Exchange(reply.id) in OrderIds(d.db.trades)
    ensures FlatRows(c, d, rows, p, reply, writes) == (d, rows == [])
  {
  }

  /** Flat-all books one coin's fill under one order id, which only one trade
      can carry: it succeeds exactly when the database takes the write and the
      coin has at most one row, and never closes more than the first. */
  lemma FlatCoinClosesAllIff(c: Config, d: Desk, p: Position, reply: Reply, writes: nat)
    requires Sound(d) && reply.Answered? && reply.filled && Exchange(reply.id) !in OrderIds(d.db.trades)
    ensures var (d', ok) := FlatCoin(c, d, p, true, reply, writes);
            var rows, left := RowsOn(d.db.open, p.coin), RowsOn(d'.db.open, p.coin);
            && (ok <==> writes > 0 && |rows| <= 1)
            && left == if writes > 0 && rows != [] then rows[1..] else rows
  {
    var rows := RowsOn(d.db.open, p.coin);
    if rows != [] && writes > 0 {
      var d1 := Send(d, CloseOrder(p));
      var (d', ok) := FlatRows(c, d1, rows, p, reply, writes);
      FlatFirstRow(c, d1, p, reply, writes, rows, d', ok);
      RowsOnWithout(d.db.open, p.coin, rows);
    }
  }

  /** A coin counts as flattened exactly when its rows could be read, the order filled
      under a fresh id, the database took the write, and at most one row was on it. */
  lemma FlatCoinSucceedsIff(c: Config, d: Desk, p: Position, rowsRead: bool, reply: Reply, writes: nat)
    requires Sound(d)
    ensures FlatCoin(c, d, p, rowsRead, reply, writes).1
       <==> && rowsRead && reply.Answered? && reply.filled && writes > 0
            && (forall t :: t in d.db.trades ==> t.orderId != Exchange(reply.id))
            && (forall r, s :: r in d.db.open && s in d.db.open && r.coin == p.coin && s.coin == p.coin ==> r == s)
  {
    var rows, d1 := RowsOn(d.db.open, p.coin), Send(d, CloseOrder(p));
    LoneRowIff(d.db.open, p.coin);
    if rowsRead && reply.Answered? && reply.filled {
      if Exchange(reply.id) !in OrderIds(d.db.trades) {
        FlatCoinClosesAllIff(c, d, p, reply, writes);
      } else {
        FlatTakenId(c, d1, rows, p, reply, writes);
      }
    }
  }

  lemma LoneRowIff(open: seq<Row>, coin: string)
    requires DistinctIds(open)
    ensures |RowsOn(open, coin)| <= 1
       <==> forall r, s :: r in open && s in open && r.coin == coin && s.coin == coin ==> r == s
  {
    var on := (r: Row) => r.coin == coin;
    var rows := RowsOn(open, coin);
    KeepDistinctIds(open, on);
    forall r | r in open && r.coin == coin ensures r in rows { KeepMember(open, on, r); }
    if |rows| > 1 {
      assert rows[0] in rows && rows[1] in rows && rows[0].id != rows[1].id;
    }
  }

  lemma RowsOnWithout(open: seq<Row>, coin: string, rows: seq<Row>)
    requires DistinctIds(open) && rows == RowsOn(open, coin) != []
    ensures RowsOn(Without(open, rows[0].id), coin) == rows[1..]
  {
    var id := rows[0].id;
    var both := (r: Row) => r.id != id && r.coin == coin;
    KeepKeep(open, (r: Row) => r.id != id, (r: Row) => r.coin == coin, both);
    KeepKeep(open, (r: Row) => r.coin == coin, (r: Row) => r.id != id, both);
    KeepDistinctIds(open, (r: Row) => r.coin == coin);
    KeepTail(rows, id);
  }

  lemma KeepTail(rows: seq<Row>, id: nat)
    requires DistinctIds(rows) && rows != [] && rows[0].id == id
    ensures Without(rows, id) == rows[1..]
  {
    WithoutAbsent(rows[1..], id);
  }

  lemma {:induction false} WithoutAbsent(rows: seq<Row>, id: nat)
    requires forall i :: 0 <= i < |rows| ==> rows[i].id != id
    ensures Without(rows, id) == rows
  {
    if rows != [] {
      WithoutAbsent(rows[1..], id);
    }
  }
}
