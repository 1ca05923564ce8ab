/**
 One reconcile pass as a function of the book, the caller's arguments and
 everything the exchange answers (bot/hypertrade/db/repo.py).
 */
module Reconcile {
  import opened Common
  import opened Book
  import Fills

  /** Positions smaller than this are rounding artefacts. */
  const DUST: real := 0.000001

  datatype Position = Position(coin: string, side: Side, size: real, entry: real)

  /** A failed read is not an empty one. */
  datatype Read = Unreadable | Positions(ps: seq<Position>)

  datatype Order = Order(coin: string, side: OrderSide, size: real, reduceOnly: bool)

  datatype Answer = Raises | NotFilled | Filled(id: string, size: real, price: Option<real>)

  /** What the outside world answers during one pass. Every read is chosen on
      its own. `mids` lacks the coins whose price cannot be read; `commits` and
      `tradeWrites` say which database writes work, and `rowsAgain` whether the
      open rows can be read once more after closing some. */
  datatype World = World(first: Read, confirm: Read, fills: Option<seq<Fills.Fill>>, mids: map<string, real>,
                         reread: Read, answers: map<string, Answer>, commits: bool, rowsAgain: bool,
                         tradeWrites: bool, takerFee: real)

  datatype Args = Args(closeOrphans: bool, dryRun: bool, hold: bool, traded: set<string>)

  /** What a pass reports. `told` are the close callbacks, `sent` the orders. */
  datatype Result = Result(raised: bool, skipped: bool, told: seq<(string, real)>, leftOpen: seq<Row>,
                           wouldClose: seq<Row>, held: seq<string>, unresolved: seq<string>,
                           filled: seq<string>, sent: seq<Order>)

  const NOTHING := Result(false, false, [], [], [], [], [], [], [])

  // ----- Positions by coin ------------------------------------------------

  /** A keyed store in insertion order: the last position on a coin wins. */
  function Put(d: seq<Position>, p: Position): seq<Position> {
    if d == [] then [p]
    else if d[0].coin == p.coin then [p] + d[1..]
    else [d[0]] + Put(d[1..], p)
  }

  function ByCoin(ps: seq<Position>): seq<Position> {
    if ps == [] then [] else Put(ByCoin(ps[..|ps| - 1]), ps[|ps| - 1])
  }

  function Get(d: seq<Position>, coin: string): Option<Position> {
    if d == [] then None else if d[0].coin == coin then Some(d[0]) else Get(d[1..], coin)
  }

  function Coins(d: seq<Position>): (r: seq<string>)
    ensures |r| == |d| && forall i :: 0 <= i < |d| ==> r[i] == d[i].coin
  {
    seq(|d|, i requires 0 <= i < |d| => d[i].coin)
  }

  predicate OnePerCoin(d: seq<Position>) {
    forall i, j :: 0 <= i < j < |d| ==> d[i].coin != d[j].coin
  }

  lemma {:induction false} PutOnePerCoin(d: seq<Position>, p: Position)
    requires OnePerCoin(d)
    ensures OnePerCoin(Put(d, p))
    ensures forall q :: q in Put(d, p) ==> q == p || (q in d && q.coin != p.coin)
  {
    if d != [] {
      PutOnePerCoin(d[1..], p);
      if d[0].coin == p.coin {
        assert forall q :: q in d[1..] ==> q in d;
      } else {
        var rest := Put(d[1..], p);
        forall j | 0 <= j < |rest| ensures rest[j].coin != d[0].coin {
          assert rest[j] in rest;
        }
      }
    }
  }

  lemma {:induction false} ByCoinOnePerCoin(ps: seq<Position>)
    ensures OnePerCoin(ByCoin(ps))
    ensures forall p :: p in ByCoin(ps) ==> p in ps
  {
    if ps != [] {
      ByCoinOnePerCoin(ps[..|ps| - 1]);
      PutOnePerCoin(ByCoin(ps[..|ps| - 1]), ps[|ps| - 1]);
    }
  }

  lemma {:induction false} GetMember(d: seq<Position>, p: Position)
    requires OnePerCoin(d) && p in d
    ensures Get(d, p.coin) == Some(p)
  {
    if p != d[0] {
      GetMember(d[1..], p);
    }
  }

  // ----- Which rows the exchange does not back ----------------------------

  predicate Unbacked(r: Row, ex: seq<Position>) {
    match Get(ex, r.coin)
    case None => true
    case Some(p) => p.side != r.side
  }

  /** Rows grouped by coin, in order of first appearance. */
  function Grouped(rows: seq<Row>): seq<Row>
    decreases |rows|
  {
    if rows == [] then []
    else
      var coin := rows[0].coin;
      var others := Keep(rows[1..], (r: Row) => r.coin != coin);
      [rows[0]] + Keep(rows[1..], (r: Row) => r.coin == coin) + Grouped(others)
  }

  function Classify(open: seq<Row>, ex: seq<Position>): seq<Row> {
    Keep(Grouped(open), (r: Row) => Unbacked(r, ex))
  }

  // ----- Pricing ----------------------------------------------------------

  function Mid(w: World, coin: string): real {
    if coin in w.mids then w.mids[coin] else 0.0
  }

  function TakerFee(price: real, size: real, rate: real): real {
    price * size * rate
  }

  /** The exchange's own fills, else the mid marked as an estimate, else
      nothing: no close is fabricated. */
  function Price(r: Row, ledger: seq<Fills.Entry>, w: World): (Option<Priced>, seq<Fills.Entry>)
    requires Fills.Wf(ledger)
  {
    var (summary, left) := Fills.Take(ledger, Fills.Key(r.coin, r.side, Some(r.openedMs)), r.size);
    match summary
    case Some(s) =>
      (Some(Priced(s.price, s.fee, RealizedPnl(r.side, r.entry, s.price, r.size, s.fee), s.orderId, false)), left)
    case None =>
      var mid := Mid(w, r.coin);
      if mid > 0.0 then
        var fee := TakerFee(mid, r.size, w.takerFee);
        (Some(Priced(mid, fee, RealizedPnl(r.side, r.entry, mid, r.size, fee), None, true)), left)
      else (None, left)
  }

  lemma PriceKeepsWf(r: Row, ledger: seq<Fills.Entry>, w: World)
    requires Fills.Wf(ledger)
    ensures Fills.Wf(Price(r, ledger, w).1)
  {
    Fills.TakeKeepsWf(ledger, Fills.Key(r.coin, r.side, Some(r.openedMs)), r.size);
  }

  datatype Planned = Planned(row: Row, priced: Priced)

  /** Price the rows one after the other from the pass's one ledger. */
  function Plan(rows: seq<Row>, ledger: seq<Fills.Entry>, w: World): seq<Planned>
    requires Fills.Wf(ledger)
    decreases rows
  {
    if rows == [] then []
    else
      var (p, left) := Price(rows[0], ledger, w);
      assert Fills.Wf(left) by { PriceKeepsWf(rows[0], ledger, w); }
      (if p.Some? then [Planned(rows[0], p.value)] else []) + Plan(rows[1..], left, w)
  }

  function Unpriceable(rows: seq<Row>, ledger: seq<Fills.Entry>, w: World): seq<Row>
    requires Fills.Wf(ledger)
    decreases rows
  {
    if rows == [] then []
    else
      var (p, left) := Price(rows[0], ledger, w);
      assert Fills.Wf(left) by { PriceKeepsWf(rows[0], ledger, w); }
      (if p.None? then [rows[0]] else []) + Unpriceable(rows[1..], left, w)
  }

  /** Pricing goes row by row. */
  lemma PricingHead(rows: seq<Row>, now: seq<Fills.Entry>, w: World, p: Option<Priced>, left: seq<Fills.Entry>)
    requires rows != [] && Fills.Wf(now) && (p, left) == Price(rows[0], now, w)
    ensures Fills.Wf(left)
    ensures Plan(rows, now, w) == (if p.Some? then [Planned(rows[0], p.value)] else []) + Plan(rows[1..], left, w)
    ensures Unpriceable(rows, now, w) == (if p.None? then [rows[0]] else []) + Unpriceable(rows[1..], left, w)
  {
    Fills.TakeKeepsWf(now, Fills.Key(rows[0].coin, rows[0].side, Some(rows[0].openedMs)), rows[0].size);
  }

  function ExchangeIds(trades: seq<Trade>): set<string> {
    set t | t in trades && t.orderId.Exchange? :: t.orderId.oid
  }

  /** The pass's ledger; empty when the fills cannot be fetched. */
  function PassLedger(db: Db, w: World): (r: seq<Fills.Entry>)
    ensures Fills.Wf(r)
  {
    Fills.Ledger(if w.fills.Some? then w.fills.value else [], ExchangeIds(db.trades))
  }

  // ----- Pass 1 -----------------------------------------------------------

  /** Close the planned rows, one trade each, in one transaction. */
  function Apply(db: Db, plan: seq<Planned>): Db
    decreases plan
  {
    if plan == [] then db else Apply(CloseRow(db, plan[0].row.id, plan[0].priced), plan[1..])
  }

  function Told(plan: seq<Planned>): (r: seq<(string, real)>)
    ensures |r| == |plan|
    ensures forall i :: 0 <= i < |plan| ==> r[i] == (plan[i].row.strategy, plan[i].priced.pnl)
  {
    seq(|plan|, i requires 0 <= i < |plan| => (plan[i].row.strategy, plan[i].priced.pnl))
  }

  /** The reads pass 1 acts on: None when one of them failed. */
  function Acted(open: seq<Row>, w: World): Option<seq<Position>> {
    match w.first
    case Unreadable => None
    case Positions(ps) =>
      if Classify(open, ByCoin(ps)) == [] then Some(ByCoin(ps))
      else match w.confirm
           case Unreadable => None
           case Positions(again) => Some(ByCoin(again))
  }

  function ToClose(open: seq<Row>, w: World, ex: seq<Position>): seq<Row> {
    if w.first.Positions? && Classify(open, ByCoin(w.first.ps)) == [] then [] else Classify(open, ex)
  }

  // ----- Pass 2 -----------------------------------------------------------

  predicate Covered(open: seq<Row>, coin: string) {
    exists r :: r in open && r.coin == coin
  }

  function Orphans(open: seq<Row>, ex: seq<Position>): seq<Position> {
    Keep(ex, (p: Position) => !Covered(open, p.coin) && p.size >= DUST)
  }

  function TradedCount(orphans: seq<Position>, traded: set<string>): nat {
    |Keep(orphans, (p: Position) => p.coin in traded)|
  }

  /** Why pass 2 must not close this orphan: a hold, a coin nobody here
      trades, or several orphans on traded coins. */
  predicate HeldBack(p: Position, count: nat, a: Args) {
    a.hold || p.coin !in a.traded || count > 1
  }

  predicate SameWithinDust(p: Position, q: Position) {
    p.side == q.side && Abs(p.size - q.size) < DUST
  }

  /** The re-read shows exactly these orphans, and each one to close on the
      same side and size. */
  predicate SameOrphans(open: seq<Row>, orphans: seq<Position>, count: nat, a: Args, reread: Read) {
    reread.Positions? &&
    var now := Orphans(open, ByCoin(reread.ps));
    && (set c | c in Coins(now)) == (set c | c in Coins(orphans))
    && forall p :: p in orphans && !HeldBack(p, count, a) ==>
         Get(now, p.coin).Some? && SameWithinDust(Get(now, p.coin).value, p)
  }

  /** The order that closes an orphan. */
  function CloseOrder(p: Position): Order {
    Order(p.coin, ClosingSide(p.side), p.size, true)
  }

  /** The trade of a filled orphan close: no row, so no PnL. */
  function OrphanTrade(p: Position, ans: Answer, w: World): Trade
    requires ans.Filled?
  {
    var price := if ans.price.Some? && ans.price.value != 0.0 then ans.price.value else p.entry;
    Trade(Exchange(ans.id), "reconcile", p.coin, ClosingSide(p.side), ans.size, price,
          TakerFee(price, ans.size, w.takerFee), None)
  }

  function BookOrphan(db: Db, t: Trade, w: World): Db {
    var r := AddTrade(db, t);
    if w.tradeWrites && r.Some? then r.value else db
  }

  /** One orphan: held, deferred, or closed by one order. */
  function CloseOrphan(db: Db, p: Position, count: nat, confirmed: bool, a: Args, w: World, res: Result): (Db, Result) {
    if HeldBack(p, count, a) then (db, res.(held := res.held + [p.coin]))
    else if !confirmed then (db, res.(unresolved := res.unresolved + [p.coin]))
    else
      var ans := if p.coin in w.answers then w.answers[p.coin] else Raises;
      var sent := res.sent + [CloseOrder(p)];
      if ans.Filled? then
        (BookOrphan(db, OrphanTrade(p, ans, w), w), res.(sent := sent, filled := res.filled + [p.coin]))
      else (db, res.(sent := sent, unresolved := res.unresolved + [p.coin]))
  }

  function CloseOrphans(db: Db, orphans: seq<Position>, count: nat, confirmed: bool, a: Args, w: World,
                        res: Result): (Db, Result)
    decreases orphans
  {
    if orphans == [] then (db, res)
    else
      var (db', res') := CloseOrphan(db, orphans[0], count, confirmed, a, w, res);
      CloseOrphans(db', orphans[1..], count, confirmed, a, w, res')
  }

  function PassTwo(db: Db, ex: seq<Position>, a: Args, w: World, res: Result): (Db, Result) {
    var orphans := Orphans(db.open, ex);
    var count := TradedCount(orphans, a.traded);
    var confirmed := (forall p :: p in orphans ==> HeldBack(p, count, a))
                     || SameOrphans(db.open, orphans, count, a, w.reread);
    CloseOrphans(db, orphans, count, confirmed, a, w, res)
  }

  // ----- The whole pass ---------------------------------------------------

  /** The closes the pass has planned, and the rows it could not price. */
  function Planning(db: Db, w: World, ex: seq<Position>): (seq<Planned>, seq<Row>) {
    var rows, ledger := ToClose(db.open, w, ex), PassLedger(db, w);
    (Plan(rows, ledger, w), Unpriceable(rows, ledger, w))
  }

  /** A failed read or a failed commit ends the pass; a dry run only reports.
      When rows were closed, pass 2 reads the open rows again: if that fails,
      the pass raises with its closes already booked and told. */
  function Pass(db: Db, a: Args, w: World): (Db, Result) {
    match Acted(db.open, w)
    case None => (db, NOTHING.(skipped := true))
    case Some(ex) =>
      var (plan, leftOpen) := Planning(db, w, ex);
      if a.dryRun then (db, NOTHING.(wouldClose := ToClose(db.open, w, ex)))
      else if plan != [] && !w.commits then (db, NOTHING.(raised := true))
      else
        var res := NOTHING.(told := Told(plan), leftOpen := leftOpen);
        if !a.closeOrphans then (Apply(db, plan), res)
        else if plan != [] && !w.rowsAgain then (Apply(db, plan), NOTHING.(raised := true, told := Told(plan)))
        else PassTwo(Apply(db, plan), ex, a, w, res)
  }
}
