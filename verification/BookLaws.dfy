/**
 Invariants of the open rows: what every write of the book keeps
 (bot/hypertrade/db/repo.py).
 */
module BookLaws {
  import opened Common
  import opened Book
  import opened Reconcile
  import opened ReconcileLaws
  import opened Signals

  /** At most one open row per strategy and coin, and never both sides of one
      coin. */
  ghost predicate Orderly(open: seq<Row>) {
    && DistinctIds(open)
    && forall r, s :: r in open && s in open && r.id != s.id && r.coin == s.coin ==>
         r.strategy != s.strategy && r.side == s.side
  }

  predicate SameFamily(c: Config, a: string, b: string) {
    c.family(a).Some? && c.family(a).value != "" && c.family(a) == c.family(b)
  }

  /** At most one row per coin and one holding strategy per family. */
  ghost predicate Exclusive(c: Config, open: seq<Row>) {
    forall r, s :: r in open && s in open && r.id != s.id ==>
      r.coin != s.coin && (SameFamily(c, r.strategy, s.strategy) ==> r.strategy == s.strategy)
  }

  predicate SameHolding(r: Row, s: Row) {
    r.id == s.id && r.strategy == s.strategy && r.coin == s.coin && r.side == s.side
  }

  predicate Kept(open: seq<Row>, r: Row) {
    exists s :: s in open && SameHolding(s, r)
  }

  /** Rows may have gone or changed size; none has appeared or turned. */
  ghost predicate Shrinks(open: seq<Row>, open': seq<Row>) {
    && (DistinctIds(open) ==> DistinctIds(open'))
    && forall r :: r in open' ==> Kept(open, r)
  }

  lemma ShrinksTransitive(a: seq<Row>, b: seq<Row>, c: seq<Row>)
    requires Shrinks(a, b) && Shrinks(b, c)
    ensures Shrinks(a, c)
  {
    forall r | r in c ensures Kept(a, r) {
      var s :| s in b && SameHolding(s, r);
      var t :| t in a && SameHolding(t, s);
      assert SameHolding(t, r);
    }
  }

  lemma SubsetShrinks(open: seq<Row>, open': seq<Row>)
    requires (DistinctIds(open) ==> DistinctIds(open')) && forall r :: r in open' ==> r in open
    ensures Shrinks(open, open')
  {
    forall r | r in open' ensures Kept(open, r) {
      assert SameHolding(r, r);
    }
  }

  lemma WithoutShrinks(open: seq<Row>, id: nat)
    ensures Shrinks(open, Without(open, id))
  {
    if DistinctIds(open) {
      WithoutKeepsIds(open, id);
    }
    SubsetShrinks(open, Without(open, id));
  }

  lemma ResizeShrinks(open: seq<Row>, id: nat, size: real)
    ensures Shrinks(open, Resize(open, id, size))
  {
    var resized := Resize(open, id, size);
    forall r | r in resized ensures Kept(open, r) {
      var i :| 0 <= i < |resized| && resized[i] == r;
      assert open[i] in open && SameHolding(open[i], r);
    }
  }

  lemma ClosePositionShrinks(db: Db, orderId: OrderId, strategy: string, coin: string, tradeSide: OrderSide,
                             size: real, price: real, fee: real, pnl: real, remaining: real)
    ensures var r := ClosePosition(db, orderId, strategy, coin, tradeSide, size, price, fee, pnl, remaining);
            r.Some? ==> Shrinks(db.open, r.value.open)
  {
    var found := Find(db.open, strategy, coin);
    SubsetShrinks(db.open, db.open);
    if found.OneRow? {
      WithoutShrinks(db.open, found.row.id);
      ResizeShrinks(db.open, found.row.id, remaining);
    }
  }

  lemma CloseRowShrinks(db: Db, id: nat, p: Priced)
    ensures Shrinks(db.open, CloseRow(db, id, p).open)
  {
    SubsetShrinks(db.open, db.open);
    WithoutShrinks(db.open, id);
  }

  lemma {:induction false} ApplyShrinks(db: Db, plan: seq<Planned>)
    ensures Shrinks(db.open, Apply(db, plan).open)
    decreases plan
  {
    if plan == [] {
      SubsetShrinks(db.open, db.open);
    } else {
      var next := CloseRow(db, plan[0].row.id, plan[0].priced);
      CloseRowShrinks(db, plan[0].row.id, plan[0].priced);
      ApplyShrinks(next, plan[1..]);
      ShrinksTransitive(db.open, next.open, Apply(next, plan[1..]).open);
    }
  }

  lemma ShrinkingKeepsOrder(c: Config, open: seq<Row>, open': seq<Row>)
    requires Shrinks(open, open')
    ensures Orderly(open) ==> Orderly(open')
    ensures Exclusive(c, open) ==> Exclusive(c, open')
  {
    forall r, s | r in open' && s in open' && r.id != s.id
      ensures exists r0, s0 :: r0 in open && s0 in open && SameHolding(r0, r) && SameHolding(s0, s)
    {
      assert Kept(open, r) && Kept(open, s);
    }
  }

  // ----- Finding a strategy's row -----------------------------------------

  /** A strategy's row is found exactly when it has one: the lookup never hits
      two. */
  lemma FindExact(open: seq<Row>, strategy: string, coin: string)
    requires Orderly(open)
    ensures !Find(open, strategy, coin).Ambiguous?
    ensures Find(open, strategy, coin).NoRow? <==> forall r :: r in open ==> !Holds(r, strategy, coin)
    ensures forall r :: r in open && Holds(r, strategy, coin) ==> Find(open, strategy, coin) == OneRow(r)
  {
    var p := (r: Row) => Holds(r, strategy, coin);
    var rows := RowsOf(open, strategy, coin);
    KeepDistinctIds(open, p);
    if rows != [] {
      assert rows[0] in rows && rows[|rows| - 1] in rows;
    }
    forall r | r in open && Holds(r, strategy, coin) ensures r in rows {
      KeepMember(open, p, r);
    }
  }

  lemma FoundRow(open: seq<Row>, strategy: string, coin: string)
    requires Find(open, strategy, coin).OneRow?
    ensures var r := Find(open, strategy, coin).row; r in open && Holds(r, strategy, coin)
  {
    var rows := RowsOf(open, strategy, coin);
    assert rows[0] in rows;
  }

  /** After the row is closed there is none. */
  lemma FindAfterClose(open: seq<Row>, row: Row, strategy: string, coin: string)
    requires Orderly(open) && Find(open, strategy, coin) == OneRow(row)
    ensures Orderly(Without(open, row.id)) && Find(Without(open, row.id), strategy, coin) == NoRow
  {
    FoundRow(open, strategy, coin);
    WithoutShrinks(open, row.id);
    ShrinkingKeepsOrder(NO_FAMILIES, open, Without(open, row.id));
    WithoutKeepsIds(open, row.id);
    FindExact(open, strategy, coin);
    FindExact(Without(open, row.id), strategy, coin);
  }

  /** After it is resized it is still the one. */
  lemma FindAfterResize(open: seq<Row>, row: Row, strategy: string, coin: string, size: real)
    requires Orderly(open) && Find(open, strategy, coin) == OneRow(row)
    ensures Orderly(Resize(open, row.id, size))
    ensures Find(Resize(open, row.id, size), strategy, coin) == OneRow(row.(size := size))
  {
    FoundRow(open, strategy, coin);
    var resized := Resize(open, row.id, size);
    assert Orderly(resized) by {
      ResizeShrinks(open, row.id, size);
      ShrinkingKeepsOrder(NO_FAMILIES, open, resized);
    }
    FindExact(resized, strategy, coin);
    assert row.(size := size) in resized by {
      var i :| 0 <= i < |open| && open[i] == row;
      assert resized[i] == row.(size := size);
    }
  }

  const NO_FAMILIES := Config(0.0, 0.0, 0.0, 0.0, (s: string) => None)

  // ----- What the writes record -------------------------------------------

  /** The trade of a reconciled close takes the fill's order id when there is one that no
      trade has, and else a generated one no trade has. */
  lemma ReconcileIdIs(db: Db, row: Row, p: Priced)
    requires TradesUnique(db)
    ensures var id := ReconcileTrade(db, row, p).orderId;
            var own := p.orderId.Some? && p.orderId.value != ""
                       && forall t :: t in db.trades ==> t.orderId != Exchange(p.orderId.value);
            && (forall t :: t in db.trades ==> t.orderId != id)
            && (if own then id == Exchange(p.orderId.value) else id.Synthetic?)
  {
  }

  /** A booked close moves the row to the closed ones with its price and PnL, unless it
      leaves a rest, which stays open. */
  lemma ClosedRowsAre(db: Db, orderId: OrderId, strategy: string, coin: string, tradeSide: OrderSide, size: real,
                      price: real, fee: real, pnl: real, remaining: real)
    ensures var r, found := ClosePosition(db, orderId, strategy, coin, tradeSide, size, price, fee, pnl, remaining),
                            Find(db.open, strategy, coin);
            r.Some? ==>
              r.value.closed == db.closed + if found.OneRow? && remaining <= 0.0
                                            then [ClosedRow(found.row, price, pnl)] else []
  {
  }

  // ----- A new row --------------------------------------------------------

  /** An open row `r` that a new row of `s` may stand beside. */
  predicate Compatible(c: Config, r: Row, s: OpenSignal, allowMulti: bool) {
    && (r.coin == s.coin ==> r.strategy != s.strategy && r.side == s.side)
    && (!allowMulti ==>
          r.coin != s.coin && (SameFamily(c, r.strategy, s.strategy) ==> r.strategy == s.strategy))
  }

  lemma NotRefusedCompatible(c: Config, open: seq<Row>, s: OpenSignal, allowMulti: bool, r: Row)
    requires !Refused(c, open, s, allowMulti) && r in open && !Holds(r, s.strategy, s.coin)
    ensures Compatible(c, r, s, allowMulti)
  {
    if r.strategy != s.strategy {
      KeepMember(open, (x: Row) => x.strategy != s.strategy, r);
    }
  }

  /** A row whose checks passed keeps the book orderly, and exclusive when
      several rows on a coin are not allowed. */
  lemma OpeningKeepsOrder(c: Config, base: seq<Row>, s: OpenSignal, allowMulti: bool, row: Row)
    requires Orderly(base)
    requires forall r :: r in base ==> Compatible(c, r, s, allowMulti) && r.id != row.id
    requires row.strategy == s.strategy && row.coin == s.coin && row.side == s.side
    ensures Orderly(base + [row])
    ensures !allowMulti && Exclusive(c, base) ==> Exclusive(c, base + [row])
  {
    assert forall i :: 0 <= i < |base| ==> base[i] in base;
    forall x, y | x in base + [row] && y in base + [row] && x.id != y.id && x.coin == y.coin
      ensures x.strategy != y.strategy && x.side == y.side
    {
    }
  }
}
