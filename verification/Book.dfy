/**
 The trading book as the database holds it: open rows, closed rows, trades
 (bot/hypertrade/db/repo.py, bot/hypertrade/db/models.py).

 Each function here is one transaction: it gives the new book, or None when the
 transaction is rolled back.
 */
module Book {
  import opened Common

  /** `Synthetic` ids are the generated ones; they are never reused. */
  datatype OrderId = Exchange(oid: string) | Synthetic(n: nat)

  datatype Row = Row(id: nat, strategy: string, coin: string, side: Side, size: real, entry: real,
                     openedMs: int)

  datatype ClosedRow = ClosedRow(row: Row, exit: real, pnl: real)

  datatype Trade = Trade(orderId: OrderId, strategy: string, coin: string, side: OrderSide,
                         size: real, price: real, fee: real, pnl: Option<real>)

  /** `open` are the rows flagged open, in table order. */
  datatype Db = Db(open: seq<Row>, closed: seq<ClosedRow>, trades: seq<Trade>,
                   nextRow: nat, nextSynthetic: nat)

  function OrderIds(trades: seq<Trade>): set<OrderId> {
    set t | t in trades :: t.orderId
  }

  /** `trades.order_id` is unique, and generated ids are fresh. */
  ghost predicate TradesUnique(db: Db) {
    && (forall i, j :: 0 <= i < j < |db.trades| ==> db.trades[i].orderId != db.trades[j].orderId)
    && (forall t :: t in db.trades && t.orderId.Synthetic? ==> t.orderId.n < db.nextSynthetic)
  }

  ghost predicate DistinctIds(rows: seq<Row>) {
    forall i, j :: 0 <= i < j < |rows| ==> rows[i].id != rows[j].id
  }

  /** Row ids are a primary key. */
  ghost predicate RowsUnique(db: Db) {
    && DistinctIds(db.open)
    && (forall r :: r in db.open ==> r.id < db.nextRow)
  }

  ghost predicate Consistent(db: Db) {
    TradesUnique(db) && RowsUnique(db)
  }

  // ----- Reads ------------------------------------------------------------

  datatype Lookup = NoRow | OneRow(row: Row) | Ambiguous

  predicate Holds(r: Row, strategy: string, coin: string) {
    r.strategy == strategy && r.coin == coin
  }

  function RowsOf(open: seq<Row>, strategy: string, coin: string): seq<Row> {
    Keep(open, (r: Row) => Holds(r, strategy, coin))
  }

  /** `scalar_one_or_none`: two matching rows are an error. */
  function Find(open: seq<Row>, strategy: string, coin: string): Lookup {
    var rows := RowsOf(open, strategy, coin);
    if rows == [] then NoRow else if |rows| == 1 then OneRow(rows[0]) else Ambiguous
  }

  function Without(open: seq<Row>, id: nat): seq<Row> {
    Keep(open, (r: Row) => r.id != id)
  }

  function Resize(open: seq<Row>, id: nat, size: real): (r: seq<Row>)
    ensures |r| == |open|
    ensures forall i :: 0 <= i < |open| ==>
              r[i] == if open[i].id == id then open[i].(size := size) else open[i]
  {
    seq(|open|, i requires 0 <= i < |open| =>
      if open[i].id == id then open[i].(size := size) else open[i])
  }

  // ----- Writes -----------------------------------------------------------

  /** A bare trade insert; a taken order id fails it. */
  function AddTrade(db: Db, t: Trade): Option<Db> {
    if t.orderId in OrderIds(db.trades) then None
    else Some(db.(trades := db.trades + [t]))
  }

  /** `record_trade_and_open_position`. */
  function OpenPosition(db: Db, orderId: OrderId, strategy: string, coin: string, side: Side,
                        size: real, price: real, fee: real, openedMs: int): Option<Db>
  {
    var t := Trade(orderId, strategy, coin, OpeningSide(side), size, price, fee, None);
    match AddTrade(db, t)
    case None => None
    case Some(d) =>
      var row := Row(db.nextRow, strategy, coin, side, size, price, openedMs);
      Some(d.(open := db.open + [row], nextRow := db.nextRow + 1))
  }

  /** `record_trade_and_close_position`: the row found, if any, is shrunk to
      what the close left unfilled, or closed. */
  function ClosePosition(db: Db, orderId: OrderId, strategy: string, coin: string, tradeSide: OrderSide,
                         size: real, price: real, fee: real, pnl: real, remaining: real): Option<Db>
  {
    var found := Find(db.open, strategy, coin);
    var t := Trade(orderId, strategy, coin, tradeSide, size, price, fee, Some(pnl));
    if found.Ambiguous? then None
    else
      match AddTrade(db, t)
      case None => None
      case Some(d) =>
        if found.NoRow? then Some(d)
        else if remaining > 0.0 then Some(d.(open := Resize(db.open, found.row.id, remaining)))
        else Some(d.(open := Without(db.open, found.row.id),
                     closed := db.closed + [ClosedRow(found.row, price, pnl)]))
  }

  /** What reconcile decided a vanished position closed at. */
  datatype Priced = Priced(exit: real, fee: real, pnl: real, orderId: Option<string>, estimated: bool)

  /** The id a reconcile trade gets: the fill's own, unless it is taken. */
  function ReconcileId(db: Db, preferred: Option<string>): OrderId {
    if preferred.Some? && preferred.value != "" && Exchange(preferred.value) !in OrderIds(db.trades)
    then Exchange(preferred.value)
    else Synthetic(db.nextSynthetic)
  }

  function ReconcileTrade(db: Db, row: Row, p: Priced): Trade {
    Trade(ReconcileId(db, p.orderId), row.strategy, row.coin, ClosingSide(row.side),
          row.size, p.exit, p.fee, Some(p.pnl))
  }

  function ById(open: seq<Row>, id: nat): Option<Row> {
    var rows := Keep(open, (r: Row) => r.id == id);
    if rows == [] then None else Some(rows[0])
  }

  /** `_close_row_priced`: close one row by id with its trade. A row that is
      gone writes nothing. */
  function CloseRow(db: Db, id: nat, p: Priced): Db {
    match ById(db.open, id)
    case None => db
    case Some(row) =>
      var t := ReconcileTrade(db, row, p);
      Db(Without(db.open, id), db.closed + [ClosedRow(row, p.exit, p.pnl)], db.trades + [t],
         db.nextRow, if t.orderId.Synthetic? then db.nextSynthetic + 1 else db.nextSynthetic)
  }

  // ----- What the writes keep ---------------------------------------------

  lemma AddTradeKeepsUnique(db: Db, t: Trade)
    requires TradesUnique(db) && (t.orderId.Synthetic? ==> t.orderId.n < db.nextSynthetic)
    ensures AddTrade(db, t).Some? ==> TradesUnique(AddTrade(db, t).value)
  {
    if t.orderId !in OrderIds(db.trades) {
      forall i | 0 <= i < |db.trades| ensures db.trades[i].orderId != t.orderId {
        assert db.trades[i] in db.trades;
      }
    }
  }

  lemma {:induction false} WithoutKeepsIds(open: seq<Row>, id: nat)
    requires DistinctIds(open)
    ensures var r := Without(open, id);
            && DistinctIds(r)
            && (forall x :: x in r <==> x in open && x.id != id)
  {
    if open != [] {
      WithoutKeepsIds(open[1..], id);
      var rest := Without(open[1..], id);
      forall j | 0 <= j < |rest| ensures rest[j].id != open[0].id {
        assert rest[j] in open[1..];
      }
    }
  }

  lemma OpenKeepsConsistent(db: Db, orderId: OrderId, strategy: string, coin: string, side: Side,
                            size: real, price: real, fee: real, openedMs: int)
    requires Consistent(db) && orderId.Exchange?
    ensures var r := OpenPosition(db, orderId, strategy, coin, side, size, price, fee, openedMs);
            r.Some? ==> Consistent(r.value)
  {
    AddTradeKeepsUnique(db, Trade(orderId, strategy, coin, OpeningSide(side), size, price, fee, None));
    forall i | 0 <= i < |db.open| ensures db.open[i].id < db.nextRow {
      assert db.open[i] in db.open;
    }
  }

  lemma CloseKeepsConsistent(db: Db, orderId: OrderId, strategy: string, coin: string, tradeSide: OrderSide,
                             size: real, price: real, fee: real, pnl: real, remaining: real)
    requires Consistent(db) && orderId.Exchange?
    ensures var r := ClosePosition(db, orderId, strategy, coin, tradeSide, size, price, fee, pnl, remaining);
            r.Some? ==> Consistent(r.value)
  {
    AddTradeKeepsUnique(db, Trade(orderId, strategy, coin, tradeSide, size, price, fee, Some(pnl)));
    var found := Find(db.open, strategy, coin);
    if found.OneRow? {
      WithoutKeepsIds(db.open, found.row.id);
      ResizeKeepsIds(db.open, found.row.id, remaining, db.nextRow);
    }
  }

  lemma ResizeKeepsIds(open: seq<Row>, id: nat, size: real, below: nat)
    requires forall r :: r in open ==> r.id < below
    ensures forall r :: r in Resize(open, id, size) ==> r.id < below
  {
    var resized := Resize(open, id, size);
    forall r | r in resized ensures r.id < below {
      var i :| 0 <= i < |resized| && resized[i] == r;
      assert open[i] in open;
    }
  }

  lemma CloseRowKeepsConsistent(db: Db, id: nat, p: Priced)
    requires Consistent(db)
    ensures Consistent(CloseRow(db, id, p))
  {
    if ById(db.open, id).Some? {
      var t := ReconcileTrade(db, ById(db.open, id).value, p);
      WithoutKeepsIds(db.open, id);
      forall i | 0 <= i < |db.trades| ensures db.trades[i].orderId != t.orderId {
        assert db.trades[i] in db.trades;
      }
    }
  }

  lemma ByIdFinds(open: seq<Row>, row: Row)
    requires row in open && DistinctIds(open)
    ensures ById(open, row.id) == Some(row)
  {
    KeepMember(open, (r: Row) => r.id == row.id, row);
    var rows := Keep(open, (r: Row) => r.id == row.id);
    assert rows[0] in open && rows[0].id == row.id;
    var i :| 0 <= i < |open| && open[i] == rows[0];
    var j :| 0 <= j < |open| && open[j] == row;
  }
}
