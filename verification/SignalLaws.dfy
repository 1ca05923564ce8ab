/**
 What executing signals, flips, flat-all and reconcile passes keep, in any
 order (bot/hypertrade/engine/runner.py).
 */
module SignalLaws {
  import opened Common
  import opened Traces
  import opened Book
  import opened Reconcile
  import opened ReconcileLaws
  import opened Signals
  import opened BookLaws

  // ----- Every operation but an open only shrinks the book -----------------

  ghost predicate Keeps(db: Db, db': Db) {
    Shrinks(db.open, db'.open) && (Consistent(db) ==> Consistent(db'))
  }

  lemma SameKeeps(db: Db)
    ensures Keeps(db, db)
  {
    SubsetShrinks(db.open, db.open);
  }

  lemma KeepsTransitive(a: Db, b: Db, c: Db)
    requires Keeps(a, b) && Keeps(b, c)
    ensures Keeps(a, c)
  {
    ShrinksTransitive(a.open, b.open, c.open);
  }

  lemma ClosePositionKeeps(db: Db, orderId: OrderId, strategy: string, coin: string, tradeSide: OrderSide,
                           size: real, price: real, fee: real, pnl: real, remaining: real)
    requires orderId.Exchange?
    ensures var r := ClosePosition(db, orderId, strategy, coin, tradeSide, size, price, fee, pnl, remaining);
            r.Some? ==> Keeps(db, r.value)
  {
    ClosePositionShrinks(db, orderId, strategy, coin, tradeSide, size, price, fee, pnl, remaining);
    if Consistent(db) {
      CloseKeepsConsistent(db, orderId, strategy, coin, tradeSide, size, price, fee, pnl, remaining);
    }
  }

  lemma CloseRowKeeps(db: Db, id: nat, p: Priced)
    ensures Keeps(db, CloseRow(db, id, p))
  {
    CloseRowShrinks(db, id, p);
    if Consistent(db) {
      CloseRowKeepsConsistent(db, id, p);
    }
  }

  lemma CloseLeftOpenKeeps(d: Desk, row: Row, unknown: bool, w: CloseWorld)
    ensures Keeps(d.db, CloseLeftOpen(d, row, unknown, w).0.db)
  {
    SameKeeps(d.db);
    var p := ExternalPrice(d, row, w);
    if p.Some? {
      CloseRowKeeps(d.db, row.id, p.value);
    }
  }

  lemma BookCloseKeeps(c: Config, d: Desk, strategy: string, coin: string, side: Side, requested: real, w: CloseWorld)
    requires w.reply.Answered?
    ensures Keeps(d.db, BookClose(c, d, strategy, coin, side, requested, w).0.db)
  {
    SameKeeps(d.db);
    var price, size := FillPrice(w.reply), w.reply.size;
    var fee := TakerFee(price, size, c.takerFee);
    var read := GetRow(d.db.open, strategy, coin, w.reread);
    if read.Answer? {
      var pnl := if read.row.Some? then RealizedPnl(read.row.value.side, read.row.value.entry, price, size, fee)
                 else 0.0;
      ClosePositionKeeps(d.db, Exchange(w.reply.id), strategy, coin, ClosingSide(side), size, price, fee, pnl,
                         Unfilled(requested, size, w.step));
    }
  }

  /** A close changes the book by booking its fill or by classifying its refusal, or
      not at all. */
  lemma ExecuteCloseEnds(c: Config, d: Desk, strategy: string, coin: string, side: Side, w: CloseWorld, d2: Desk)
    requires d2 == ExecuteClose(c, d, strategy, coin, side, w).0
    ensures var read := GetRow(d.db.open, strategy, coin, w.rowRead);
            if read.Answer? && read.row.Some? && read.row.value.side == side && w.reply.Answered? then
              var row := read.row.value;
              var d1 := Send(d, Order(coin, ClosingSide(side), CloseSize(row, w.position), true));
              d2 == if Executes(w) then BookClose(c, d1, strategy, coin, side, CloseSize(row, w.position), w).0
                    else CloseLeftOpen(d1, row, w.reply.unknown, w).0
            else d2.db == d.db && d2.recorded == d.recorded
  {
  }

  lemma ExecuteCloseKeeps(c: Config, d: Desk, strategy: string, coin: string, side: Side, w: CloseWorld)
    ensures Keeps(d.db, ExecuteClose(c, d, strategy, coin, side, w).0.db)
  {
    var d2, read := ExecuteClose(c, d, strategy, coin, side, w).0, GetRow(d.db.open, strategy, coin, w.rowRead);
    ExecuteCloseEnds(c, d, strategy, coin, side, w, d2);
    if read.Answer? && read.row.Some? && read.row.value.side == side && w.reply.Answered? {
      var row := read.row.value;
      var d1 := Send(d, Order(coin, ClosingSide(side), CloseSize(row, w.position), true));
      ClosedKeeps(c, d1, row, strategy, coin, side, CloseSize(row, w.position), w, d2);
    } else {
      SameKeeps(d.db);
    }
  }

  lemma ClosedKeeps(c: Config, d: Desk, row: Row, strategy: string, coin: string, side: Side, size: real, w: CloseWorld,
                    d2: Desk)
    requires w.reply.Answered?
    requires d2 == if Executes(w) then BookClose(c, d, strategy, coin, side, size, w).0
                   else CloseLeftOpen(d, row, w.reply.unknown, w).0
    ensures Keeps(d.db, d2.db)
  {
    if Executes(w) {
      BookCloseKeeps(c, d, strategy, coin, side, size, w);
    } else {
      CloseLeftOpenKeeps(d, row, w.reply.unknown, w);
    }
  }

  lemma FlipCloseKeeps(c: Config, d: Desk, existing: Row, w: OpenWorld)
    ensures Keeps(d.db, FlipClose(c, d, existing, w).0.db)
  {
    ExecuteCloseKeeps(c, d, existing.strategy, existing.coin, existing.side, w.close);
  }

  lemma FlatRowKeeps(c: Config, d: Desk, r: Row, p: Position, reply: Reply)
    requires reply.Answered?
    ensures var next := FlatRow(c, d, r, p, reply); next.Some? ==> Keeps(d.db, next.value.db)
  {
    var price, id := FillPrice(reply), Exchange(reply.id);
    var fee := TakerFee(price, r.size, c.takerFee);
    var pnl := RealizedPnl(r.side, r.entry, price, r.size, fee);
    ClosePositionKeeps(d.db, id, r.strategy, p.coin, ClosingSide(p.side), r.size, price, fee, pnl, 0.0);
  }

  /** What each single write keeps, a sequence of them keeps. */
  lemma {:induction false} EachRelates(write: (Desk, Row) -> Option<Desk>, d: Desk, rows: seq<Row>, writes: nat,
                                       rel: (Desk, Desk) -> bool)
    requires forall x :: rel(x, x)
    requires forall x, y, z :: rel(x, y) && rel(y, z) ==> rel(x, z)
    requires forall x, r :: r in rows && write(x, r).Some? ==> rel(x, write(x, r).value)
    ensures rel(d, Each(write, d, rows, writes).0)
    decreases rows
  {
    if rows != [] && writes > 0 && write(d, rows[0]).Some? {
      EachRelates(write, write(d, rows[0]).value, rows[1..], writes - 1, rel);
    }
  }

  lemma FlatRowsKeeps(c: Config, d: Desk, rows: seq<Row>, p: Position, reply: Reply, writes: nat)
    requires reply.Answered?
    ensures Keeps(d.db, FlatRows(c, d, rows, p, reply, writes).0.db)
  {
    var write, rel := FlatWrite(c, p, reply), (x: Desk, y: Desk) => Keeps(x.db, y.db);
    forall x, r | write(x, r).Some? ensures rel(x, write(x, r).value) { FlatRowKeeps(c, x, r, p, reply); }
    forall x ensures rel(x, x) { SameKeeps(x.db); }
    forall x, y, z | rel(x, y) && rel(y, z) ensures rel(x, z) { KeepsTransitive(x.db, y.db, z.db); }
    EachRelates(write, d, rows, writes, rel);
  }

  lemma FlatCoinKeeps(c: Config, d: Desk, p: Position, rowsRead: bool, reply: Reply, writes: nat)
    ensures Keeps(d.db, FlatCoin(c, d, p, rowsRead, reply, writes).0.db)
  {
    SameKeeps(d.db);
    if reply.Answered? {
      var d1 := Send(d, CloseOrder(p));
      FlatRowsKeeps(c, d1, RowsOn(d.db.open, p.coin), p, reply, writes);
      FlatOrphanKeeps(c, d1, p, reply);
    }
  }

  lemma FlatOrphanKeeps(c: Config, d: Desk, p: Position, reply: Reply)
    requires reply.Answered?
    ensures Keeps(d.db, FlatOrphan(c, d, p, reply).0.db)
  {
    SameKeeps(d.db);
    var price := FillPrice(reply);
    var fee := TakerFee(price, reply.size, c.takerFee);
    var pnl := RealizedPnl(p.side, p.entry, price, reply.size, fee);
    if TradesUnique(d.db) {
      AddTradeKeepsUnique(d.db, Trade(Exchange(reply.id), "manual_flat", p.coin, ClosingSide(p.side), reply.size,
                                      price, fee, Some(pnl)));
    }
  }

  lemma {:induction false} TellAllKeeps(d: Desk, told: seq<(string, real)>)
    ensures TellAll(d, told).db == d.db && TellAll(d, told).sent == d.sent
    decreases told
  {
    if told != [] {
      TellAllKeeps(Tell(d, told[0].0, told[0].1), told[1..]);
    }
  }

  lemma RunPassKeeps(d: Desk, a: Args, w: World)
    requires Consistent(d.db)
    ensures Keeps(d.db, RunPass(d, a, w).db)
  {
    var (db, res) := Pass(d.db, a, w);
    TellAllKeeps(d.(db := db, sent := d.sent + res.sent), res.told);
    PassExtendsApply(d.db, a, w);
    ApplyShrinks(d.db, PassPlan(d.db, a, w));
  }

  // ----- What a close does to the row and the belief ------------------------

  /** The side of the strategy's open row, if it has one. */
  function RowSide(open: seq<Row>, strategy: string, coin: string): Option<Side> {
    match Find(open, strategy, coin)
    case OneRow(r) => Some(r.side)
    case _ => None
  }

  /** The strategy believes in the position the book holds. */
  predicate Aligned(d: Desk, strategy: string, coin: string) {
    Belief(d, strategy) == RowSide(d.db.open, strategy, coin)
  }

  predicate HoldsRow(d: Desk, row: Row) {
    Find(d.db.open, row.strategy, row.coin) == OneRow(row)
  }

  /** A booked close closes the row, or leaves on it what was not filled, with
      the strategy back on it; a failed one changes neither. */
  lemma BookCloseOutcome(c: Config, d: Desk, row: Row, requested: real, w: CloseWorld, d2: Desk, out: Outcome,
                         rest: real)
    requires w.reply.Answered? && HoldsRow(d, row) && rest == Unfilled(requested, w.reply.size, w.step)
    requires (d2, out) == BookClose(c, d, row.strategy, row.coin, row.side, requested, w)
    ensures d2.sent == d.sent && (out.Failed? <==> !w.reread)
    ensures out.Finished? ==> OrderIds(d2.db.trades) == OrderIds(d.db.trades) + {Exchange(w.reply.id)}
    ensures !out.Finished? ==> d2.db == d.db && d2.beliefs == d.beliefs
    ensures out.Finished? && rest == 0.0 ==>
              d2.db.open == Without(d.db.open, row.id) && d2.beliefs == d.beliefs
              && out.ok == ParityOk(d2.db.open, row.coin, w)
    ensures out.Finished? && rest != 0.0 ==>
              d2.db.open == Resize(d.db.open, row.id, rest) && Belief(d2, row.strategy) == Some(row.side) && !out.ok
  {
    if out.Finished? {
      FoundRow(d.db.open, row.strategy, row.coin);
      var t := d2.db.trades[|d.db.trades|];
      assert d2.db.trades == d.db.trades + [t];
      OrderIdsSnoc(d.db.trades, t);
    }
  }

  lemma OrderIdsSnoc(trades: seq<Trade>, t: Trade)
    ensures OrderIds(trades + [t]) == OrderIds(trades) + {t.orderId}
  {
    assert forall x :: x in trades + [t] <==> x in trades || x == t;
  }

  lemma CloseLeftOpenOutcome(d: Desk, row: Row, unknown: bool, w: CloseWorld, d2: Desk, settled: Settled)
    requires Orderly(d.db.open) && HoldsRow(d, row) && (d2, settled) == CloseLeftOpen(d, row, unknown, w)
    ensures d2.sent == d.sent
    ensures settled.Unsettled? ==> d2 == d
    ensures !settled.Unsettled? ==> Aligned(d2, row.strategy, row.coin)
  {
    FindAfterClose(d.db.open, row, row.strategy, row.coin);
    FoundRow(d.db.open, row.strategy, row.coin);
  }

  /** The one order a close may send. */
  function CloseOf(row: Row, w: CloseWorld): Order {
    Order(row.coin, ClosingSide(row.side), CloseSize(row, w.position), true)
  }

  predicate Executes(w: CloseWorld) {
    w.reply.Answered? && w.reply.filled && w.reply.size > 0.0
  }

  /** What a close attempt on `row` leaves: the row gone with the belief
      untouched, the strategy aligned, or nothing changed. */
  lemma CloseOutcome(c: Config, d: Desk, row: Row, w: CloseWorld, d2: Desk, out: Outcome, settled: Settled)
    requires Orderly(d.db.open) && HoldsRow(d, row)
    requires (d2, out, settled) == ExecuteClose(c, d, row.strategy, row.coin, row.side, w)
    ensures d2.sent == d.sent + if w.rowRead then [CloseOf(row, w)] else []
    ensures out == Finished(true) ==>
              Executes(w) && Find(d2.db.open, row.strategy, row.coin) == NoRow && d2.beliefs == d.beliefs
              && Unfilled(CloseSize(row, w.position), w.reply.size, w.step) == 0.0 && ParityOk(d2.db.open, row.coin, w)
    ensures out == Finished(false) && settled.Unsettled? ==>
              || (!Executes(w) && HoldsRow(d2, row) && d2.beliefs == d.beliefs)
              || (Executes(w) && Aligned(d2, row.strategy, row.coin)
                  && RowSide(d2.db.open, row.strategy, row.coin) == Some(row.side))
              || (Executes(w) && Find(d2.db.open, row.strategy, row.coin) == NoRow && d2.beliefs == d.beliefs
                  && !ParityOk(d2.db.open, row.coin, w))
    ensures !out.Finished? ==> HoldsRow(d2, row) && d2.beliefs == d.beliefs
    ensures !settled.Unsettled? ==> Aligned(d2, row.strategy, row.coin)
  {
    if w.rowRead && Executes(w) {
      FilledOutcome(c, d, row, w, d2, out, settled, Unfilled(CloseSize(row, w.position), w.reply.size, w.step));
    } else {
      UnfilledOutcome(c, d, row, w, d2, out, settled);
    }
  }

  lemma FilledOutcome(c: Config, d: Desk, row: Row, w: CloseWorld, d2: Desk, out: Outcome, settled: Settled, rest: real)
    requires Orderly(d.db.open) && HoldsRow(d, row) && w.rowRead && Executes(w)
    requires rest == Unfilled(CloseSize(row, w.position), w.reply.size, w.step)
    requires (d2, out, settled) == ExecuteClose(c, d, row.strategy, row.coin, row.side, w)
    ensures d2.sent == d.sent + [CloseOf(row, w)] && settled.Unsettled?
    ensures !out.Finished? ==> HoldsRow(d2, row) && d2.beliefs == d.beliefs
    ensures out.Finished? && rest == 0.0 ==>
              Find(d2.db.open, row.strategy, row.coin) == NoRow && d2.beliefs == d.beliefs
              && out.ok == ParityOk(d2.db.open, row.coin, w)
    ensures out.Finished? && rest != 0.0 ==>
              !out.ok && Aligned(d2, row.strategy, row.coin)
                  && RowSide(d2.db.open, row.strategy, row.coin) == Some(row.side)
  {
    FoundRow(d.db.open, row.strategy, row.coin);
    var size := CloseSize(row, w.position);
    var d1 := Send(d, Order(row.coin, ClosingSide(row.side), size, true));
    var (d3, out3) := BookClose(c, d1, row.strategy, row.coin, row.side, size, w);
    BookCloseOutcome(c, d1, row, size, w, d3, out3, rest);
    FindAfterClose(d.db.open, row, row.strategy, row.coin);
    FindAfterResize(d.db.open, row, row.strategy, row.coin, rest);
  }

  lemma UnfilledOutcome(c: Config, d: Desk, row: Row, w: CloseWorld, d2: Desk, out: Outcome, settled: Settled)
    requires Orderly(d.db.open) && HoldsRow(d, row) && !(w.rowRead && Executes(w))
    requires (d2, out, settled) == ExecuteClose(c, d, row.strategy, row.coin, row.side, w)
    ensures d2.sent == d.sent + if w.rowRead then [CloseOf(row, w)] else []
    ensures out != Finished(true) && !out.Diverged?
    ensures settled.Unsettled? ==> HoldsRow(d2, row) && d2.beliefs == d.beliefs
    ensures !settled.Unsettled? ==> out.Finished? && Aligned(d2, row.strategy, row.coin)
    ensures !w.rowRead ==> out.Failed?
  {
    FoundRow(d.db.open, row.strategy, row.coin);
    var d1 := Send(d, Order(row.coin, ClosingSide(row.side), CloseSize(row, w.position), true));
    if w.reply.Answered? {
      var (d3, settled3) := CloseLeftOpen(d1, row, w.reply.unknown, w);
      CloseLeftOpenOutcome(d1, row, w.reply.unknown, w, d3, settled3);
    }
  }

  // ----- Flips ----------------------------------------------------------------

  /** A fill can be booked. */
  predicate Bookable(d: Desk, w: CloseWorld)
    requires w.reply.Answered?
  {
    w.reread && w.write && Exchange(w.reply.id) !in OrderIds(d.db.trades)
  }

  /** The close half filled in full and was booked. */
  predicate ClosedInFull(d: Desk, row: Row, w: CloseWorld) {
    && w.rowRead && Executes(w) && Bookable(d, w)
    && Unfilled(CloseSize(row, w.position), w.reply.size, w.step) == 0.0
  }

  /** And then the exchange agreed with the book, or could not be asked. */
  predicate ClosedVerified(d: Desk, row: Row, w: CloseWorld) {
    ClosedInFull(d, row, w) && ParityOk(Without(d.db.open, row.id), row.coin, w)
  }

  /** Or the exchange showed another size than the book. */
  predicate ClosedUnverified(d: Desk, row: Row, w: CloseWorld) {
    ClosedInFull(d, row, w) && !ParityOk(Without(d.db.open, row.id), row.coin, w)
  }

  lemma FilledCloseExact(c: Config, d: Desk, row: Row, w: CloseWorld, d2: Desk, out: Outcome, settled: Settled,
                         rest: real)
    requires HoldsRow(d, row) && w.rowRead && Executes(w)
    requires rest == Unfilled(CloseSize(row, w.position), w.reply.size, w.step)
    requires (d2, out, settled) == ExecuteClose(c, d, row.strategy, row.coin, row.side, w)
    ensures settled.Unsettled? && (out.Finished? <==> Bookable(d, w)) && (out.Failed? <==> !w.reread)
    ensures Bookable(d, w) ==> OrderIds(d2.db.trades) == OrderIds(d.db.trades) + {Exchange(w.reply.id)}
    ensures Bookable(d, w) ==>
              out == Finished(rest == 0.0 && ParityOk(d2.db.open, row.coin, w))
              && d2.db.open == if rest == 0.0 then Without(d.db.open, row.id) else Resize(d.db.open, row.id, rest)
  {
    FoundRow(d.db.open, row.strategy, row.coin);
    var size := CloseSize(row, w.position);
    var d1 := Send(d, Order(row.coin, ClosingSide(row.side), size, true));
    var (d3, out3) := BookClose(c, d1, row.strategy, row.coin, row.side, size, w);
    BookCloseOutcome(c, d1, row, size, w, d3, out3, rest);
  }

  /** Which closes let a flip go on, and which end it with the row gone. */
  lemma ClosedIff(c: Config, d: Desk, row: Row, w: CloseWorld, d2: Desk, out: Outcome, settled: Settled)
    requires Orderly(d.db.open) && HoldsRow(d, row)
    requires (d2, out, settled) == ExecuteClose(c, d, row.strategy, row.coin, row.side, w)
    ensures ClosedVerified(d, row, w) <==> out == Finished(true)
    ensures ClosedUnverified(d, row, w)
       <==> out == Finished(false) && settled.Unsettled? && Find(d2.db.open, row.strategy, row.coin) == NoRow
  {
    if w.rowRead && Executes(w) {
      var rest := Unfilled(CloseSize(row, w.position), w.reply.size, w.step);
      FilledCloseExact(c, d, row, w, d2, out, settled, rest);
      FindAfterClose(d.db.open, row, row.strategy, row.coin);
      FindAfterResize(d.db.open, row, row.strategy, row.coin, rest);
    } else {
      CloseOutcome(c, d, row, w, d2, out, settled);
    }
  }

  /** A flip's close half either closes the row and lets the flip go on, or
      leaves the strategy aligned, unless the row was closed unverified and the
      re-read that would tell failed, or the trade could not be booked. */
  lemma FlipCloseOutcome(c: Config, d: Desk, row: Row, w: OpenWorld, d1: Desk, out: Outcome)
    requires Orderly(d.db.open) && HoldsRow(d, row) && Belief(d, row.strategy).Some?
    requires Belief(d, row.strategy) != Some(row.side) && (d1, out) == FlipClose(c, d, row, w)
    ensures d1.sent == d.sent + if w.close.rowRead then [CloseOf(row, w.close)] else []
    ensures out == Finished(true) ==>
              Find(d1.db.open, row.strategy, row.coin) == NoRow && Belief(d1, row.strategy) == Belief(d, row.strategy)
    ensures out != Finished(true) ==>
              (Aligned(d1, row.strategy, row.coin)
               <==> !out.Diverged? && (w.alignRead || !ClosedUnverified(d, row, w.close)))
  {
    FoundRow(d.db.open, row.strategy, row.coin);
    var (d2, out2, settled) := ExecuteClose(c, d, row.strategy, row.coin, row.side, w.close);
    CloseOutcome(c, d, row, w.close, d2, out2, settled);
    ClosedIff(c, d, row, w.close, d2, out2, settled);
    FlipCloseAligns(d2, row, w.alignRead);
  }

  /** Re-reading the row aligns the strategy; without an answer the old row is
      taken to be still there. */
  lemma FlipCloseAligns(d: Desk, row: Row, readOk: bool)
    ensures var f := Find(d.db.open, row.strategy, row.coin);
            !f.Ambiguous? && (f.OneRow? ==> f.row.side == row.side) ==>
            (Aligned(Align(d, row, readOk), row.strategy, row.coin)
             <==> readOk || f.OneRow?)
    ensures Align(d, row, readOk).db == d.db && Align(d, row, readOk).sent == d.sent
    ensures var f := Find(d.db.open, row.strategy, row.coin);
            Belief(Align(d, row, readOk), row.strategy)
            == if !readOk || f.Ambiguous? || (f.OneRow? && f.row.side == row.side) then Some(row.side) else None
  {
    if Find(d.db.open, row.strategy, row.coin).OneRow? {
      FoundRow(d.db.open, row.strategy, row.coin);
    }
  }

  predicate OpenFills(w: OpenWorld) {
    w.reply.Answered? && w.reply.filled
  }

  /** The fill of an open can be booked beside the order ids `taken`. */
  predicate OpenBooks(taken: set<OrderId>, w: OpenWorld)
    requires w.reply.Answered?
  {
    w.write && Exchange(w.reply.id) !in taken
  }

  lemma SendOpenOutcome(c: Config, d: Desk, s: OpenSignal, flipped: bool, w: OpenWorld, d2: Desk, out: Outcome)
    requires Find(d.db.open, s.strategy, s.coin) == NoRow && Belief(d, s.strategy) == Some(s.side)
    requires (d2, out) == SendOpen(c, d, s, flipped, w)
    ensures d2.sent == d.sent + [Order(s.coin, OpeningSide(s.side), s.size, false)]
    ensures Aligned(d2, s.strategy, s.coin)
       <==> !out.Diverged? && (flipped || (w.reply.Answered? && w.reply.filled))
    ensures out.Diverged? <==> OpenFills(w) && !OpenBooks(OrderIds(d.db.trades), w)
  {
    if d2.db.open != d.db.open {
      FindAppended(d.db.open, d2.db.open[|d.db.open|], s.strategy, s.coin);
    }
  }

  lemma FindAppended(open: seq<Row>, row: Row, strategy: string, coin: string)
    requires Find(open, strategy, coin) == NoRow && Holds(row, strategy, coin)
    ensures Find(open + [row], strategy, coin) == OneRow(row)
  {
    KeepAppend(open, [row], (r: Row) => Holds(r, strategy, coin));
    assert [row][1..] == [];
  }

  /** The flip reaches its close half. */
  predicate ReachesClose(c: Config, d: Desk, s: OpenSignal, w: OpenWorld) {
    !w.riskOk || (w.gateRead && !Refused(c, d.db.open, s, w.allowMulti) && w.leverageOk)
  }

  /** The close half filled, and the fill cannot be booked. */
  predicate CloseUnbookable(d: Desk, w: CloseWorld) {
    w.rowRead && Executes(w) && w.reread && !Bookable(d, w)
  }

  /** The open half is sent and fills, and the fill cannot be booked: its write
      fails, or its order id is taken, by an earlier trade or by the close. */
  predicate OpenUnbookable(d: Desk, row: Row, w: OpenWorld) {
    && w.riskOk && ClosedVerified(d, row, w.close) && OpenFills(w)
    && !OpenBooks(OrderIds(d.db.trades) + {Exchange(w.close.reply.id)}, w)
  }

  /** What can leave a strategy misaligned after a flip: the close half reached,
      and a fill that cannot be booked, or the row closed in full, parity
      failed, and the re-read of the row failed too. */
  predicate FlipMisleads(c: Config, d: Desk, s: OpenSignal, row: Row, w: OpenWorld) {
    ReachesClose(c, d, s, w) &&
    (CloseUnbookable(d, w.close) || OpenUnbookable(d, row, w) || (!w.alignRead && ClosedUnverified(d, row, w.close)))
  }

  /** Belief alignment. After a flip attempt, however it ends, the strategy
      believes in exactly the position the book holds, if and only if its row
      could be read at first and nothing of the above happened. */
  lemma FlipLeavesAligned(c: Config, d: Desk, s: OpenSignal, row: Row, w: OpenWorld, d2: Desk)
    requires Orderly(d.db.open)
    requires Find(d.db.open, s.strategy, s.coin) == OneRow(row) && row.side != s.side
    requires d2 == ExecuteOpen(c, EmitOpen(d, s), s, w).0
    ensures Aligned(d2, s.strategy, s.coin) <==> w.rowRead && !FlipMisleads(c, d, s, row, w)
  {
    FoundRow(d.db.open, s.strategy, s.coin);
    var d0 := EmitOpen(d, s);
    if w.rowRead && ReachesClose(c, d, s, w) {
      var (d1, out1) := FlipClose(c, d0, row, w);
      FlipCloseOutcome(c, d0, row, w, d1, out1);
      FlipCloseIds(c, d0, row, w, d1, out1);
      if w.riskOk && out1 == Finished(true) {
        SendOpenOutcome(c, d1, s, true, w, d2, SendOpen(c, d1, s, true, w).1);
      }
    }
  }

  /** When the close half cannot be booked, when it lets the flip go on, and the
      order id it then takes. */
  lemma FlipCloseIds(c: Config, d: Desk, row: Row, w: OpenWorld, d1: Desk, out: Outcome)
    requires Orderly(d.db.open) && HoldsRow(d, row) && (d1, out) == FlipClose(c, d, row, w)
    ensures out.Diverged? <==> CloseUnbookable(d, w.close)
    ensures out == Finished(true) <==> ClosedVerified(d, row, w.close)
    ensures out == Finished(true) ==>
              OrderIds(d1.db.trades) == OrderIds(d.db.trades) + {Exchange(w.close.reply.id)}
  {
    FlipVerified(c, d, row, w);
    FoundRow(d.db.open, row.strategy, row.coin);
    var (d2, out2, settled) := ExecuteClose(c, d, row.strategy, row.coin, row.side, w.close);
    if w.close.rowRead && Executes(w.close) {
      FilledCloseExact(c, d, row, w.close, d2, out2, settled,
                       Unfilled(CloseSize(row, w.close.position), w.close.reply.size, w.close.step));
    } else {
      UnfilledOutcome(c, d, row, w.close, d2, out2, settled);
    }
  }

  lemma FlipVerified(c: Config, d: Desk, row: Row, w: OpenWorld)
    requires Orderly(d.db.open) && HoldsRow(d, row)
    ensures FlipClose(c, d, row, w).1 == Finished(true) <==> ClosedVerified(d, row, w.close)
  {
    FoundRow(d.db.open, row.strategy, row.coin);
    var (d2, out2, settled) := ExecuteClose(c, d, row.strategy, row.coin, row.side, w.close);
    ClosedIff(c, d, row, w.close, d2, out2, settled);
  }

  /** The flip protocol. A flip sends nothing, its reduce-only close, or that
      and then its open; and the open exactly when the risk gate, every other
      gate and the leverage push passed and the close was verified. */
  lemma FlipProtocol(c: Config, d: Desk, s: OpenSignal, row: Row, w: OpenWorld, d2: Desk)
    requires Orderly(d.db.open) && w.rowRead
    requires Find(d.db.open, s.strategy, s.coin) == OneRow(row) && row.side != s.side
    requires d2 == ExecuteOpen(c, EmitOpen(d, s), s, w).0
    ensures !ReachesClose(c, d, s, w) ==> d2.sent == d.sent && d2.db == d.db
    ensures ReachesClose(c, d, s, w) ==>
              d2.sent == d.sent + (if w.close.rowRead then [CloseOf(row, w.close)] else [])
                         + (if w.riskOk && ClosedVerified(d, row, w.close)
                            then [Order(s.coin, OpeningSide(s.side), s.size, false)] else [])
  {
    FoundRow(d.db.open, s.strategy, s.coin);
    var d0 := EmitOpen(d, s);
    assert ClosedVerified(d0, row, w.close) == ClosedVerified(d, row, w.close);
    if ReachesClose(c, d, s, w) {
      var (d1, out1) := FlipClose(c, d0, row, w);
      FlipCloseOutcome(c, d0, row, w, d1, out1);
      FlipVerified(c, d0, row, w);
      if w.riskOk && out1 == Finished(true) {
        SendOpenOutcome(c, d1, s, true, w, d2, SendOpen(c, d1, s, true, w).1);
      }
    }
  }

  /** The row could be read, and the open was refused before anything was sent, or
      filled and could be booked. */
  predicate PlainOpenAligns(c: Config, d: Desk, s: OpenSignal, w: OpenWorld) {
    w.rowRead &&
    (!w.riskOk ||
     (w.gateRead && (Refused(c, d.db.open, s, w.allowMulti) || !w.leverageOk ||
                     (OpenFills(w) && OpenBooks(OrderIds(d.db.trades), w)))))
  }

  /** A plain open leaves the strategy aligned exactly then: an order that raises or
      comes back unfilled leaves it believing in a position it does not have. */
  lemma PlainOpenAligned(c: Config, d: Desk, s: OpenSignal, w: OpenWorld, d2: Desk)
    requires Find(d.db.open, s.strategy, s.coin) == NoRow && d2 == ExecuteOpen(c, EmitOpen(d, s), s, w).0
    ensures Aligned(d2, s.strategy, s.coin) <==> PlainOpenAligns(c, d, s, w)
  {
    var d0 := EmitOpen(d, s);
    SendOpenOutcome(c, d0, s, false, w, SendOpen(c, d0, s, false, w).0, SendOpen(c, d0, s, false, w).1);
  }

  /** A vanished position's close can be priced: unspent fills cover the row, or
      its coin has a mid price. */
  predicate Priceable(d: Desk, row: Row, w: World) {
    FillsCover(PassLedger(d.db, w), row) || Mid(w, row.coin) > 0.0
  }

  /** A look at the exchange that found nothing on the side, or dust. */
  predicate FoundNothing(seen: Seen, side: Side) {
    seen.Saw? && (seen.position.None? || seen.position.value.side != side || seen.position.value.size <= 0.000000001)
  }

  /** The open rows could be read on the first or the second try, and no other is on the
      coin. */
  predicate Alone(open: seq<Row>, row: Row, w: CloseWorld) {
    (w.siblingRead || w.siblingRetry) && forall r :: r in open && r.coin == row.coin ==> r.id == row.id
  }

  /** A refused or empty close that can be classified: no other row shares the coin; and
      the refusal is definite, or the position is gone on two looks, its close can be
      priced and the write works. */
  predicate Classifiable(d: Desk, row: Row, w: CloseWorld)
    requires w.reply.Answered?
  {
    Alone(d.db.open, row, w) &&
    if FoundNothing(w.after, row.side) && FoundNothing(w.afterAgain, row.side)
    then w.bookWrite && Priceable(d, row, w.books)
    else !w.reply.unknown
  }

  /** There is no row, or it is on the side to close, could be read, and the fill can
      be booked or the refusal classified. */
  predicate PlainCloseAligns(d: Desk, strategy: string, coin: string, side: Side, w: CloseWorld) {
    match Find(d.db.open, strategy, coin)
    case NoRow => true
    case OneRow(row) =>
      row.side == side && w.rowRead && w.reply.Answered?
      && if Executes(w) then Bookable(d, w) else Classifiable(d, row, w)
    case Ambiguous => false
  }

  /** A plain close leaves the strategy aligned exactly then. */
  lemma PlainCloseAligned(c: Config, d: Desk, strategy: string, coin: string, side: Side, w: CloseWorld, d2: Desk)
    requires Orderly(d.db.open) && d2 == ExecuteClose(c, Reset(d, strategy), strategy, coin, side, w).0
    ensures Aligned(d2, strategy, coin) <==> PlainCloseAligns(d, strategy, coin, side, w)
  {
    FindExact(d.db.open, strategy, coin);
    var found := Find(d.db.open, strategy, coin);
    if found.OneRow? {
      FoundRow(d.db.open, strategy, coin);
      if found.row.side == side {
        CloseAlignment(c, Reset(d, strategy), found.row, w);
      }
    }
  }

  lemma CloseAlignment(c: Config, d: Desk, row: Row, w: CloseWorld)
    requires Orderly(d.db.open) && HoldsRow(d, row) && Belief(d, row.strategy).None?
    ensures Aligned(ExecuteClose(c, d, row.strategy, row.coin, row.side, w).0, row.strategy, row.coin)
       <==> w.rowRead && w.reply.Answered? && if Executes(w) then Bookable(d, w) else Classifiable(d, row, w)
  {
    var (d2, out, settled) := ExecuteClose(c, d, row.strategy, row.coin, row.side, w);
    FoundRow(d.db.open, row.strategy, row.coin);
    if w.rowRead && Executes(w) {
      var rest := Unfilled(CloseSize(row, w.position), w.reply.size, w.step);
      FilledOutcome(c, d, row, w, d2, out, settled, rest);
      FilledCloseExact(c, d, row, w, d2, out, settled, rest);
    } else {
      UnfilledOutcome(c, d, row, w, d2, out, settled);
      if w.rowRead && w.reply.Answered? {
        SettledIff(Send(d, CloseOf(row, w)), row, w);
      }
    }
  }

  lemma SettledIff(d: Desk, row: Row, w: CloseWorld)
    requires w.reply.Answered? && row in d.db.open && DistinctIds(d.db.open)
    ensures !CloseLeftOpen(d, row, w.reply.unknown, w).1.Unsettled? <==> Classifiable(d, row, w)
  {
    assert SharesCoin(d.db.open, row, w) == Some(false) <==> Alone(d.db.open, row, w);
    HeldIff(row.side, w);
    assert ExternalPrice(d, row, w).Some? <==> w.bookWrite && Priceable(d, row, w.books) by {
      ByIdFinds(d.db.open, row);
      PricedIff(row, PassLedger(d.db, w.books), w.books);
    }
  }

  lemma HeldIff(side: Side, w: CloseWorld)
    ensures HeldAfterClose(side, w) <==> !(FoundNothing(w.after, side) && FoundNothing(w.afterAgain, side))
  {
  }

  /** Nothing but reduce-only orders has been added. */
  predicate OnlyReduces(sent: seq<Order>, sent': seq<Order>) {
    |sent| <= |sent'| && forall o :: o in sent'[|sent|..] ==> o.reduceOnly
  }

  lemma CloseOnlyReduces(c: Config, d: Desk, strategy: string, coin: string, side: Side, w: CloseWorld)
    ensures OnlyReduces(d.sent, ExecuteClose(c, d, strategy, coin, side, w).0.sent)
  {
  }

  lemma FlatRowsSendNothing(c: Config, d: Desk, rows: seq<Row>, p: Position, reply: Reply, writes: nat)
    requires reply.Answered?
    ensures FlatRows(c, d, rows, p, reply, writes).0.sent == d.sent
  {
    EachRelates(FlatWrite(c, p, reply), d, rows, writes, (x: Desk, y: Desk) => y.sent == x.sent);
  }

  lemma FlatCoinOnlyReduces(c: Config, d: Desk, p: Position, rowsRead: bool, reply: Reply, writes: nat)
    ensures OnlyReduces(d.sent, FlatCoin(c, d, p, rowsRead, reply, writes).0.sent)
  {
    if reply.Answered? {
      FlatRowsSendNothing(c, Send(d, CloseOrder(p)), RowsOn(d.db.open, p.coin), p, reply, writes);
    }
  }

  lemma RunPassOnlyReduces(d: Desk, a: Args, w: World)
    ensures OnlyReduces(d.sent, RunPass(d, a, w).sent)
  {
    var (db, res) := Pass(d.db, a, w);
    TellAllKeeps(d.(db := db, sent := d.sent + res.sent), res.told);
    forall o | o in res.sent ensures o.reduceOnly {
      OrphanCloseSafety(d.db, a, w, o);
    }
    assert (d.sent + res.sent)[|d.sent|..] == res.sent;
  }

  /** Whatever is not an open sends reduce-only orders alone. */
  lemma NextOnlyReduces(c: Config, d: Desk, e: Event)
    requires !e.Open?
    ensures OnlyReduces(d.sent, Next(c, d, e).sent)
  {
    match e
    case Close(strategy, coin, side, w) => CloseOnlyReduces(c, Reset(d, strategy), strategy, coin, side, w);
    case Flat(p, ok, reply, writes) => FlatCoinOnlyReduces(c, d, p, ok, reply, writes);
    case Reconcile(a, w) => RunPassOnlyReduces(d, a, w);
    case _ =>
  }

  lemma FlipCloseOnlyReduces(c: Config, d: Desk, existing: Row, w: OpenWorld)
    ensures OnlyReduces(d.sent, FlipClose(c, d, existing, w).0.sent)
  {
    var d1 := ExecuteClose(c, d, existing.strategy, existing.coin, existing.side, w.close).0;
    CloseOnlyReduces(c, d, existing.strategy, existing.coin, existing.side, w.close);
    FlipCloseAligns(d1, existing, w.alignRead);
  }

  /** With the risk gate shut, an open sends at most reduce-only closes. */
  lemma RefusedOpenOnlyReduces(c: Config, d: Desk, s: OpenSignal, w: OpenWorld)
    requires !w.riskOk
    ensures OnlyReduces(d.sent, ExecuteOpen(c, d, s, w).0.sent)
  {
    var read := GetRow(d.db.open, s.strategy, s.coin, w.rowRead);
    if read.Answer? && read.row.Some? {
      FlipCloseOnlyReduces(c, d, read.row.value, w);
    }
  }

  // ----- The book over whole runs ---------------------------------------------

  ghost predicate Sound(d: Desk) {
    Consistent(d.db) && Orderly(d.db.open)
  }

  lemma KeepsSound(c: Config, d: Desk, d': Desk)
    requires Sound(d) && Keeps(d.db, d'.db)
    ensures Sound(d') && (Exclusive(c, d.db.open) ==> Exclusive(c, d'.db.open))
  {
    ShrinkingKeepsOrder(c, d.db.open, d'.db.open);
  }

  /** An open sent after its checks passed on `checked`, on a book that has
      only shrunk since. */
  lemma SendOpenSound(c: Config, d: Desk, s: OpenSignal, flipped: bool, w: OpenWorld, checked: seq<Row>)
    requires Sound(d) && Shrinks(checked, d.db.open) && !Refused(c, checked, s, w.allowMulti)
    requires Find(d.db.open, s.strategy, s.coin) == NoRow
    ensures var d' := SendOpen(c, d, s, flipped, w).0;
            Sound(d') && (!w.allowMulti && Exclusive(c, d.db.open) ==> Exclusive(c, d'.db.open))
  {
    FindExact(d.db.open, s.strategy, s.coin);
    forall r | r in d.db.open ensures Compatible(c, r, s, w.allowMulti) {
      var r0 :| r0 in checked && SameHolding(r0, r);
      NotRefusedCompatible(c, checked, s, w.allowMulti, r0);
    }
    if w.reply.Answered? {
      var price, size := FillPrice(w.reply), w.reply.size;
      OpenKeepsConsistent(d.db, Exchange(w.reply.id), s.strategy, s.coin, s.side, size, price,
                          TakerFee(price, size, c.takerFee), s.atMs);
      OpeningKeepsOrder(c, d.db.open, s, w.allowMulti,
                        Row(d.db.nextRow, s.strategy, s.coin, s.side, size, price, s.atMs));
    }
  }

  lemma ExecuteOpenSound(c: Config, d: Desk, s: OpenSignal, w: OpenWorld)
    requires Sound(d)
    ensures var d' := ExecuteOpen(c, d, s, w).0;
            Sound(d') && (!w.allowMulti && Exclusive(c, d.db.open) ==> Exclusive(c, d'.db.open))
  {
    var read := GetRow(d.db.open, s.strategy, s.coin, w.rowRead);
    if read == Answer(None) && w.riskOk && w.gateRead && !Refused(c, d.db.open, s, w.allowMulti) && w.leverageOk {
      SubsetShrinks(d.db.open, d.db.open);
      SendOpenSound(c, d, s, false, w, d.db.open);
    } else if read.Answer? && read.row.Some? && read.row.value.side != s.side && ReachesClose(c, d, s, w) {
      FlipSound(c, d, s, w, read.row.value);
    }
  }

  lemma FlipSound(c: Config, d: Desk, s: OpenSignal, w: OpenWorld, row: Row)
    requires Sound(d) && Find(d.db.open, s.strategy, s.coin) == OneRow(row) && ReachesClose(c, d, s, w)
    ensures Sound(FlipClose(c, d, row, w).0)
    ensures Exclusive(c, d.db.open) ==> Exclusive(c, FlipClose(c, d, row, w).0.db.open)
    ensures w.riskOk ==>
              var d' := FlipOpen(c, d, s, row, w).0;
              Sound(d') && (!w.allowMulti && Exclusive(c, d.db.open) ==> Exclusive(c, d'.db.open))
  {
    FoundRow(d.db.open, s.strategy, s.coin);
    var (d1, out1) := FlipClose(c, d, row, w);
    FlipCloseKeeps(c, d, row, w);
    KeepsSound(c, d, d1);
    if w.riskOk && out1 == Finished(true) {
      FlipGone(c, d, row, w);
      SendOpenSound(c, d1, s, true, w, d.db.open);
    }
  }

  lemma FlipGone(c: Config, d: Desk, row: Row, w: OpenWorld)
    requires Orderly(d.db.open) && HoldsRow(d, row) && FlipClose(c, d, row, w).1 == Finished(true)
    ensures Find(FlipClose(c, d, row, w).0.db.open, row.strategy, row.coin) == NoRow
  {
    FoundRow(d.db.open, row.strategy, row.coin);
    var (d2, out2, settled) := ExecuteClose(c, d, row.strategy, row.coin, row.side, w.close);
    CloseOutcome(c, d, row, w.close, d2, out2, settled);
  }

  /** Whether an event lets several rows share a coin. */
  predicate Stacks(e: Event) {
    e.Open? && e.ow.allowMulti
  }

  lemma NextSound(c: Config, d: Desk, e: Event)
    requires Sound(d)
    ensures Sound(Next(c, d, e))
    ensures !Stacks(e) && Exclusive(c, d.db.open) ==> Exclusive(c, Next(c, d, e).db.open)
  {
    match e
    case Open(s, w) => ExecuteOpenSound(c, EmitOpen(d, s), s, w);
    case Close(strategy, coin, side, w) =>
      ExecuteCloseKeeps(c, Reset(d, strategy), strategy, coin, side, w);
      KeepsSound(c, d, Next(c, d, e));
    case Flat(p, ok, reply, writes) =>
      FlatCoinKeeps(c, d, p, ok, reply, writes);
      KeepsSound(c, d, Next(c, d, e));
    case Reconcile(a, w) =>
      RunPassKeeps(d, a, w);
      KeepsSound(c, d, Next(c, d, e));
  }

  function Engine(c: Config): (Desk, Event) -> Desk {
    (d: Desk, e: Event) => Next(c, d, e)
  }

  /** In every reachable state, however signals, flips, short fills, flat-all
      and reconcile interleave: order ids are unique, a strategy has at most
      one open row on a coin, and no coin has rows on both sides. */
  lemma BookStaysOrderly(c: Config, d: Desk, es: seq<Event>, i: nat)
    requires Sound(d) && i <= |es|
    ensures Sound(Before(Engine(c), d, es, i))
  {
    var any := (x: Desk, e: Event) => true;
    forall x, e | Sound(x) && any(x, e) ensures Sound(Engine(c)(x, e)) { NextSound(c, x, e); }
    Always(Engine(c), d, es, Sound, any, i);
  }

  ghost predicate SoundAndExclusive(c: Config, d: Desk) {
    Sound(d) && Exclusive(c, d.db.open)
  }

  /** And with allow_multi_coin off throughout: at most one row per coin, and
      one holding strategy per family. */
  lemma BookStaysExclusive(c: Config, d: Desk, es: seq<Event>, i: nat)
    requires SoundAndExclusive(c, d) && i <= |es|
    requires forall j :: 0 <= j < i ==> !Stacks(es[j])
    ensures SoundAndExclusive(c, Before(Engine(c), d, es, i))
  {
    var inv := (x: Desk) => SoundAndExclusive(c, x);
    var single := (x: Desk, e: Event) => !Stacks(e);
    forall x, e | inv(x) && single(x, e) ensures inv(Engine(c)(x, e)) { NextSound(c, x, e); }
    Always(Engine(c), d, es, inv, single, i);
  }
}
