/**
 The trading database as an object, and the reconcile pass it runs step by step
 (bot/hypertrade/db/repo.py). Every write is one transaction.
 */
module Repositories {
  import opened Common
  import opened Book
  import opened Reconcile
  import Fills
  import FillLedgers
  import ReconcileLaws

  /** The pricing loop at row `i`: what is planned, and what still will be. */
  ghost predicate Pricing(rows: seq<Row>, i: nat, start: seq<Fills.Entry>, now: seq<Fills.Entry>, w: World,
                          plan: seq<Planned>, leftOpen: seq<Row>) {
    && i <= |rows| && Fills.Wf(start) && Fills.Wf(now)
    && Plan(rows, start, w) == plan + Plan(rows[i..], now, w)
    && Unpriceable(rows, start, w) == leftOpen + Unpriceable(rows[i..], now, w)
  }

  lemma PricingNext(rows: seq<Row>, i: nat, start: seq<Fills.Entry>, now: seq<Fills.Entry>, w: World,
                    plan: seq<Planned>, leftOpen: seq<Row>, left: seq<Fills.Entry>,
                    planned: seq<Planned>, unpriced: seq<Row>)
    requires Pricing(rows, i, start, now, w, plan, leftOpen) && i < |rows| && Fills.Wf(left)
    requires Plan(rows[i..], now, w) == planned + Plan(rows[i..][1..], left, w)
    requires Unpriceable(rows[i..], now, w) == unpriced + Unpriceable(rows[i..][1..], left, w)
    ensures Pricing(rows, i + 1, start, left, w, plan + planned, leftOpen + unpriced)
  {
    assert rows[i..][1..] == rows[i + 1..];
    Chain(Plan(rows, start, w), plan, Plan(rows[i..], now, w), planned, Plan(rows[i + 1..], left, w));
    Chain(Unpriceable(rows, start, w), leftOpen, Unpriceable(rows[i..], now, w), unpriced,
          Unpriceable(rows[i + 1..], left, w));
  }

  lemma PricingStep(rows: seq<Row>, i: nat, start: seq<Fills.Entry>, now: seq<Fills.Entry>, w: World,
                    plan: seq<Planned>, leftOpen: seq<Row>, p: Option<Priced>, left: seq<Fills.Entry>)
    requires Pricing(rows, i, start, now, w, plan, leftOpen) && i < |rows| && (p, left) == Price(rows[i], now, w)
    ensures Pricing(rows, i + 1, start, left, w, plan + (if p.Some? then [Planned(rows[i], p.value)] else []),
                    leftOpen + (if p.None? then [rows[i]] else []))
  {
    PricingHead(rows[i..], now, w, p, left);
    PricingNext(rows, i, start, now, w, plan, leftOpen, left,
                if p.Some? then [Planned(rows[i], p.value)] else [], if p.None? then [rows[i]] else []);
  }

  lemma OrphansNext(db: Db, orphans: seq<Position>, i: nat, count: nat, confirmed: bool, a: Args, w: World, res: Result,
                    next: Db, res': Result)
    requires i < |orphans| && (next, res') == CloseOrphan(db, orphans[i], count, confirmed, a, w, res)
    ensures CloseOrphans(db, orphans[i..], count, confirmed, a, w, res)
         == CloseOrphans(next, orphans[i + 1..], count, confirmed, a, w, res')
  {
    assert orphans[i..][1..] == orphans[i + 1..];
  }

  class Repository {
    var open: seq<Row>
    var closed: seq<ClosedRow>
    var trades: seq<Trade>
    var nextRow: nat
    var nextSynthetic: nat

    ghost function Snapshot(): Db
      reads this
    {
      Db(open, closed, trades, nextRow, nextSynthetic)
    }

    constructor ()
      ensures Snapshot() == Db([], [], [], 0, 0)
    {
      open, closed, trades, nextRow, nextSynthetic := [], [], [], 0, 0;
    }

    /** False when the transaction fails: the order id is taken. */
    method RecordTrade(t: Trade) returns (ok: bool)
      modifies this`trades
      ensures var r := AddTrade(old(Snapshot()), t);
              ok == r.Some? && Snapshot() == if ok then r.value else old(Snapshot())
    {
      ok := t.orderId !in OrderIds(trades);
      if ok {
        trades := trades + [t];
      }
    }

    method RecordTradeAndOpenPosition(orderId: OrderId, strategy: string, coin: string, side: Side,
                                      size: real, price: real, fee: real, openedMs: int) returns (ok: bool)
      modifies this
      ensures var r := OpenPosition(old(Snapshot()), orderId, strategy, coin, side, size, price, fee, openedMs);
              ok == r.Some? && Snapshot() == if ok then r.value else old(Snapshot())
    {
      ok := RecordTrade(Trade(orderId, strategy, coin, OpeningSide(side), size, price, fee, None));
      if ok {
        open := open + [Row(nextRow, strategy, coin, side, size, price, openedMs)];
        nextRow := nextRow + 1;
      }
    }

    method RecordTradeAndClosePosition(orderId: OrderId, strategy: string, coin: string, tradeSide: OrderSide,
                                       size: real, price: real, fee: real, pnl: real, remaining: real)
      returns (ok: bool)
      modifies this
      ensures var r := ClosePosition(old(Snapshot()), orderId, strategy, coin, tradeSide, size, price, fee, pnl,
                                     remaining);
              ok == r.Some? && Snapshot() == if ok then r.value else old(Snapshot())
    {
      var found := Find(open, strategy, coin);
      if found.Ambiguous? {
        return false;
      }
      ok := RecordTrade(Trade(orderId, strategy, coin, tradeSide, size, price, fee, Some(pnl)));
      if ok && found.OneRow? {
        if remaining > 0.0 {
          open := Resize(open, found.row.id, remaining);
        } else {
          open := Without(open, found.row.id);
          closed := closed + [ClosedRow(found.row, price, pnl)];
        }
      }
    }

    /** `_insert_reconcile_trade`: a taken fill id falls back to a generated one. */
    method InsertReconcileTrade(row: Row, p: Priced)
      modifies this`trades, this`nextSynthetic
      ensures var t := ReconcileTrade(old(Snapshot()), row, p);
              Snapshot() == old(Snapshot()).(trades := old(trades) + [t],
                nextSynthetic := if t.orderId.Synthetic? then old(nextSynthetic) + 1 else old(nextSynthetic))
    {
      var id := Synthetic(nextSynthetic);
      if p.orderId.Some? && p.orderId.value != "" && Exchange(p.orderId.value) !in OrderIds(trades) {
        id := Exchange(p.orderId.value);
      } else {
        nextSynthetic := nextSynthetic + 1;
      }
      trades := trades + [Trade(id, row.strategy, row.coin, ClosingSide(row.side), row.size, p.exit, p.fee,
                                Some(p.pnl))];
    }

    /** `_close_row_priced`: None when the row is gone. */
    method CloseRowPriced(id: nat, p: Priced) returns (r: Option<Row>)
      modifies this
      ensures r == ById(old(open), id) && Snapshot() == CloseRow(old(Snapshot()), id, p)
    {
      r := ById(open, id);
      match r {
        case None =>
        case Some(row) =>
          open := Without(open, id);
          closed := closed + [ClosedRow(row, p.exit, p.pnl)];
          InsertReconcileTrade(row, p);
      }
    }

    /** `_price_orphan_close`; mid prices are read once per coin. */
    method PriceClose(row: Row, ledger: FillLedgers.FillLedger, cache: map<string, real>, w: World)
      returns (r: Option<Priced>, cache': map<string, real>)
      requires ledger.Valid() && forall c :: c in cache ==> cache[c] == Mid(w, c)
      modifies ledger.entries
      ensures ledger.Valid() && ledger.entries == old(ledger.entries)
      ensures forall c :: c in cache' ==> cache'[c] == Mid(w, c)
      ensures (r, ledger.State()) == Price(row, old(ledger.State()), w)
    {
      cache' := cache;
      var summary := ledger.Take(Fills.Key(row.coin, row.side, Some(row.openedMs)), row.size);
      if summary.Some? {
        var s := summary.value;
        return Some(Priced(s.price, s.fee, RealizedPnl(row.side, row.entry, s.price, row.size, s.fee),
                           s.orderId, false)), cache';
      }
      if row.coin !in cache' {
        cache' := cache'[row.coin := if row.coin in w.mids then w.mids[row.coin] else 0.0];
      }
      var mid := cache'[row.coin];
      if mid > 0.0 {
        var fee := TakerFee(mid, row.size, w.takerFee);
        return Some(Priced(mid, fee, RealizedPnl(row.side, row.entry, mid, row.size, fee), None, true)), cache';
      }
      return None, cache';
    }

    /** Price the rows one after the other from one ledger. */
    method PriceRows(rows: seq<Row>, ledger: FillLedgers.FillLedger, w: World)
      returns (plan: seq<Planned>, leftOpen: seq<Row>)
      requires ledger.Valid()
      modifies ledger.entries
      ensures plan == Plan(rows, old(ledger.State()), w) && leftOpen == Unpriceable(rows, old(ledger.State()), w)
    {
      plan, leftOpen := [], [];
      ghost var start, now := ledger.State(), ledger.State();
      var cache: map<string, real> := map[];
      var i := 0;
      while i < |rows|
        invariant i <= |rows| && ledger.Valid() && ledger.entries == old(ledger.entries)
        invariant forall c :: c in cache ==> cache[c] == Mid(w, c)
        invariant now == ledger.State() && Pricing(rows, i, start, now, w, plan, leftOpen)
      {
        var priced;
        priced, cache := PriceClose(rows[i], ledger, cache, w);
        PricingStep(rows, i, start, now, w, plan, leftOpen, priced, ledger.State());
        plan := plan + if priced.Some? then [Planned(rows[i], priced.value)] else [];
        leftOpen := leftOpen + if priced.None? then [rows[i]] else [];
        now := ledger.State();
        i := i + 1;
      }
    }

    /** Price every close before anything is written. */
    method PlanCloses(rows: seq<Row>, w: World) returns (plan: seq<Planned>, leftOpen: seq<Row>)
      ensures plan == Plan(rows, PassLedger(Snapshot(), w), w)
      ensures leftOpen == Unpriceable(rows, PassLedger(Snapshot(), w), w)
    {
      var fills := if w.fills.Some? then w.fills.value else [];
      var ledger := new FillLedgers.FillLedger(fills, ExchangeIds(trades));
      plan, leftOpen := PriceRows(rows, ledger, w);
    }

    /** Close the planned rows; who is to be told of which PnL. */
    method ApplyPlan(plan: seq<Planned>) returns (told: seq<(string, real)>)
      requires forall x :: x in plan ==> x.row in open
      requires DistinctIds(open)
      requires forall i, j :: 0 <= i < j < |plan| ==> plan[i].row.id != plan[j].row.id
      modifies this
      ensures Snapshot() == Apply(old(Snapshot()), plan)
      ensures told == Told(plan)
    {
      told := [];
      var i := 0;
      assert plan[0..] == plan;
      while i < |plan|
        invariant i <= |plan| && told == Told(plan[..i])
        invariant Apply(old(Snapshot()), plan) == Apply(Snapshot(), plan[i..])
        invariant forall j :: i <= j < |plan| ==> plan[j].row in open
        invariant DistinctIds(open)
      {
        ByIdFinds(open, plan[i].row);
        WithoutKeepsIds(open, plan[i].row.id);
        assert plan[i..][1..] == plan[i + 1..];
        assert plan[..i + 1] == plan[..i] + [plan[i]];
        var r := CloseRowPriced(plan[i].row.id, plan[i].priced);
        if r.Some? {
          told := told + [(r.value.strategy, plan[i].priced.pnl)];
        }
        i := i + 1;
      }
      assert plan[..i] == plan;
    }

    /** `close_row_externally`: no order is placed; None when nothing was
        written. */
    method CloseRowExternally(row: Row, w: World, commits: bool) returns (r: Option<Priced>)
      modifies this
      ensures r == if commits && ById(old(open), row.id).Some?
                    then Price(row, PassLedger(old(Snapshot()), w), w).0 else None
      ensures Snapshot() == if r.Some? then CloseRow(old(Snapshot()), row.id, r.value) else old(Snapshot())
    {
      var fills := if w.fills.Some? then w.fills.value else [];
      var ledger := new FillLedgers.FillLedger(fills, ExchangeIds(trades));
      var cache: map<string, real> := map[];
      r, cache := PriceClose(row, ledger, cache, w);
      if r.None? || !commits {
        return None;
      }
      var closedRow := CloseRowPriced(row.id, r.value);
      if closedRow.None? {
        return None;
      }
    }

    /** One orphan: held, deferred, or closed by one reduce-only order. */
    method CloseOneOrphan(p: Position, count: nat, confirmed: bool, a: Args, w: World, res: Result)
        returns (res': Result)
      modifies this
      ensures (Snapshot(), res') == CloseOrphan(old(Snapshot()), p, count, confirmed, a, w, res)
    {
      if HeldBack(p, count, a) {
        return res.(held := res.held + [p.coin]);
      }
      if !confirmed {
        return res.(unresolved := res.unresolved + [p.coin]);
      }
      var sent := res.sent + [CloseOrder(p)];
      var ans := if p.coin in w.answers then w.answers[p.coin] else Raises;
      if !ans.Filled? {
        return res.(sent := sent, unresolved := res.unresolved + [p.coin]);
      }
      if w.tradeWrites {
        var _ := RecordTrade(OrphanTrade(p, ans, w));
      }
      return res.(sent := sent, filled := res.filled + [p.coin]);
    }

    method CloseEach(orphans: seq<Position>, count: nat, confirmed: bool, a: Args, w: World, res: Result)
      returns (res': Result)
      modifies this
      ensures (Snapshot(), res') == CloseOrphans(old(Snapshot()), orphans, count, confirmed, a, w, res)
    {
      res' := res;
      var i := 0;
      ghost var whole := CloseOrphans(Snapshot(), orphans, count, confirmed, a, w, res);
      assert orphans[0..] == orphans;
      while i < |orphans|
        invariant i <= |orphans| && whole == CloseOrphans(Snapshot(), orphans[i..], count, confirmed, a, w, res')
      {
        ghost var db, was := Snapshot(), res';
        res' := CloseOneOrphan(orphans[i], count, confirmed, a, w, res');
        OrphansNext(db, orphans, i, count, confirmed, a, w, was, Snapshot(), res');
        i := i + 1;
      }
    }

    method ClosePassTwo(ex: seq<Position>, a: Args, w: World, res: Result) returns (res': Result)
      modifies this
      ensures (Snapshot(), res') == PassTwo(old(Snapshot()), ex, a, w, res)
    {
      var orphans := Orphans(open, ex);
      var count := TradedCount(orphans, a.traded);
      var confirmed := (forall p :: p in orphans ==> HeldBack(p, count, a))
                       || SameOrphans(open, orphans, count, a, w.reread);
      res' := CloseEach(orphans, count, confirmed, a, w, res);
    }

    /** `reconcile_positions`. */
    method ReconcilePositions(a: Args, w: World) returns (res: Result)
      requires RowsUnique(Snapshot())
      modifies this
      ensures (Snapshot(), res) == Pass(old(Snapshot()), a, w)
    {
      if w.first.Unreadable? {
        return NOTHING.(skipped := true);
      }
      var ex := ByCoin(w.first.ps);
      var toClose := Classify(open, ex);
      if toClose != [] {
        if w.confirm.Unreadable? {
          return NOTHING.(skipped := true);
        }
        ex := ByCoin(w.confirm.ps);
        toClose := Classify(open, ex);
      }
      assert Acted(open, w) == Some(ex) && toClose == ToClose(open, w, ex);
      if a.dryRun {
        return NOTHING.(wouldClose := toClose);
      }
      var plan, leftOpen := PlanCloses(toClose, w);
      if plan != [] && !w.commits {
        return NOTHING.(raised := true);
      }
      ReconcileLaws.ClassifyExact(open, ex);
      ReconcileLaws.PlanExact(toClose, PassLedger(Snapshot(), w), w);
      var told := ApplyPlan(plan);
      res := NOTHING.(told := told, leftOpen := leftOpen);
      if a.closeOrphans {
        if plan != [] && !w.rowsAgain {
          return NOTHING.(raised := true, told := told);
        }
        res := ClosePassTwo(ex, a, w, res);
      }
    }
  }
}
