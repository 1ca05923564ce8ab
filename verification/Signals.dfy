/**
 Executing one strategy signal: checks, orders, book, and what the strategy is
 left believing (bot/hypertrade/engine/runner.py). Value-level steps; everything
 the exchange, the database and the network answer is a parameter.
 */
module Signals {
  import opened Common
  import opened Book
  import opened Reconcile

  /** Sizes this close to nothing are read as nothing. */
  const TINY: real := 0.000000001

  /** A coin's smallest size step. */
  type Step = x: real | 0.0 < x witness 1.0

  datatype Config = Config(takerFee: real, exposureCap: real, sizeMultiplier: real, maxPosition: real,
                           family: string -> Option<string>)

  /**
   What a signal can change. A strategy absent from `beliefs` believes it is
   flat. `sent` are the orders sent, `recorded` the PnL the daily counter was
   given.
   */
  datatype Desk = Desk(db: Db, beliefs: map<string, Side>, sent: seq<Order>, recorded: real, paused: bool)

  datatype Outcome = Finished(ok: bool) | Failed | Diverged

  // ----- Strategies -------------------------------------------------------

  function Belief(d: Desk, strategy: string): Option<Side> {
    if strategy in d.beliefs then Some(d.beliefs[strategy]) else None
  }

  function Reset(d: Desk, strategy: string): Desk {
    d.(beliefs := d.beliefs - {strategy})
  }

  function Resync(d: Desk, row: Row): Desk {
    d.(beliefs := d.beliefs[row.strategy := row.side])
  }

  // ----- Rounding ---------------------------------------------------------

  /** To the nearest integer, ties to even. */
  function Nearest(x: real): int {
    var f := x.Floor;
    var frac := x - f as real;
    if frac < 0.5 || (frac == 0.5 && f % 2 == 0) then f else f + 1
  }

  function RoundTo(x: real, step: Step): real {
    Nearest(x / step) as real * step
  }

  /** What a close left unfilled, in whole size steps. */
  function Unfilled(requested: real, filled: real, step: Step): real {
    if filled >= requested then 0.0 else Max(0.0, RoundTo(RoundTo(requested, step) - filled, step))
  }

  // ----- What one order meets ---------------------------------------------

  datatype Reply = Raised | Answered(filled: bool, unknown: bool, id: string, size: real, price: Option<real>)

  datatype Seen = NotSeen | Saw(position: Option<Position>)

  /** Everything a close can meet. The booleans say which database reads and
      writes work; `books` prices an external close. */
  datatype CloseWorld = CloseWorld(rowRead: bool, position: Seen, reply: Reply, step: Step,
                                   reread: bool, write: bool,
                                   siblingRead: bool, siblingRetry: bool, after: Seen, afterAgain: Seen,
                                   books: World, bookWrite: bool,
                                   parityRows: bool, parity: Read)

  function FillPrice(r: Reply): real
    requires r.Answered?
  {
    if r.price.Some? then r.price.value else 0.0
  }

  function HeldOn(p: Option<Position>, side: Side): real {
    if p.Some? && p.value.side == side then p.value.size else 0.0
  }

  function Send(d: Desk, o: Order): Desk {
    d.(sent := d.sent + [o])
  }

  // ----- Parity -----------------------------------------------------------

  function Signed(side: Side, size: real): real {
    if side.Long? then size else -size
  }

  function DbNet(open: seq<Row>, coin: string): real {
    if open == [] then 0.0
    else (if open[0].coin == coin then Signed(open[0].side, open[0].size) else 0.0) + DbNet(open[1..], coin)
  }

  function ExNet(ps: seq<Position>, coin: string): real {
    if ps == [] then 0.0
    else if ps[0].coin == coin then Signed(ps[0].side, ps[0].size)
    else ExNet(ps[1..], coin)
  }

  function ParityTolerance(dbNet: real, exNet: real, step: Step): real {
    var expected := Max(Abs(dbNet), Abs(exNet));
    if expected > 0.0 then Min(10.0 * step, 0.005 * expected) else 10.0 * step
  }

  /** A parity that cannot be read does not stop a trade. */
  predicate ParityOk(open: seq<Row>, coin: string, w: CloseWorld) {
    w.parityRows && w.parity.Positions? ==>
      var dbNet, exNet := DbNet(open, coin), ExNet(w.parity.ps, coin);
      Abs(dbNet - exNet) <= ParityTolerance(dbNet, exNet, w.step)
  }

  // ----- Closing ----------------------------------------------------------

  datatype RowRead = NoAnswer | Answer(row: Option<Row>)

  /** `get_open_position`: two rows raise like a failed read. */
  function GetRow(open: seq<Row>, strategy: string, coin: string, readOk: bool): RowRead {
    if !readOk then NoAnswer
    else match Find(open, strategy, coin)
         case NoRow => Answer(None)
         case OneRow(r) => Answer(Some(r))
         case Ambiguous => NoAnswer
  }

  /** How much of `row` to close: never more than the exchange holds, when that
      can be read. */
  function CloseSize(row: Row, position: Seen): real {
    if position.NotSeen? then row.size
    else
      var held := HeldOn(position.position, row.side);
      if held > TINY && row.size > held + TINY then held else row.size
  }

  /** How a refused or empty close was classified. */
  datatype Settled = Unsettled | External | StillOpen

  /** Another open row shares the coin; None when two reads cannot tell. */
  function SharesCoin(open: seq<Row>, row: Row, w: CloseWorld): Option<bool> {
    if w.siblingRead || w.siblingRetry then Some(exists r :: r in open && r.coin == row.coin && r.id != row.id)
    else None
  }

  /** "Nothing" needs two reads to agree. */
  predicate HeldAfterClose(side: Side, w: CloseWorld) {
    || w.after.NotSeen? || HeldOn(w.after.position, side) > TINY
    || w.afterAgain.NotSeen? || HeldOn(w.afterAgain.position, side) > TINY
  }

  /** The row the exchange no longer holds, priced as reconcile prices it. */
  function ExternalPrice(d: Desk, row: Row, w: CloseWorld): Option<Priced> {
    if w.bookWrite && ById(d.db.open, row.id).Some? then Price(row, PassLedger(d.db, w.books), w.books).0 else None
  }

  /** `_on_reconcile_close`. */
  function Tell(d: Desk, strategy: string, pnl: real): Desk {
    Reset(d, strategy).(recorded := d.recorded + pnl)
  }

  /** `_close_left_open`: a close came back refused or empty. */
  function CloseLeftOpen(d: Desk, row: Row, unknown: bool, w: CloseWorld): (Desk, Settled) {
    if SharesCoin(d.db.open, row, w) != Some(false) then (d, Unsettled)
    else if !HeldAfterClose(row.side, w) then
      match ExternalPrice(d, row, w)
      case None => (d, Unsettled)
      case Some(p) => (Tell(d.(db := CloseRow(d.db, row.id, p)), row.strategy, p.pnl), External)
    else if unknown then (d, Unsettled)
    else (Resync(d, row), StillOpen)
  }

  /** The trade and row writes of a filled close, and what the strategy is told
      when it filled short. */
  function BookFill(d: Desk, strategy: string, coin: string, side: Side, price: real, size: real, fee: real, pnl: real,
                    remaining: real, row: Option<Row>, w: CloseWorld): (Desk, Outcome)
    requires w.reply.Answered?
  {
    var db := ClosePosition(d.db, Exchange(w.reply.id), strategy, coin, ClosingSide(side), size, price, fee, pnl,
                            remaining);
    if !w.write || db.None? then (d.(paused := true), Diverged)
    else
      var d1 := d.(db := db.value, recorded := d.recorded + pnl);
      var d2 := if remaining > 0.0 && row.Some? then Resync(d1, row.value) else d1;
      (d2, Finished(ParityOk(d2.db.open, coin, w) && remaining == 0.0))
  }

  /** A filled close: its price, size and PnL, and their booking. */
  function BookClose(c: Config, d: Desk, strategy: string, coin: string, side: Side, requested: real, w: CloseWorld):
    (Desk, Outcome)
    requires w.reply.Answered?
  {
    var price, size := FillPrice(w.reply), w.reply.size;
    var remaining := Unfilled(requested, size, w.step);
    var fee := TakerFee(price, size, c.takerFee);
    match GetRow(d.db.open, strategy, coin, w.reread)
    case NoAnswer => (d, Failed)
    case Answer(row) =>
      var pnl := if row.Some? then RealizedPnl(row.value.side, row.value.entry, price, size, fee) else 0.0;
      BookFill(d, strategy, coin, side, price, size, fee, pnl, remaining, row, w)
  }

  /** `_execute_signal` on CLOSE. */
  function ExecuteClose(c: Config, d: Desk, strategy: string, coin: string, side: Side, w: CloseWorld):
    (Desk, Outcome, Settled)
  {
    match GetRow(d.db.open, strategy, coin, w.rowRead)
    case NoAnswer => (d, Failed, Unsettled)
    case Answer(None) => (Reset(d, strategy), Finished(false), Unsettled)
    case Answer(Some(row)) =>
      if row.side != side then (d, Finished(false), Unsettled)
      else
        var size := CloseSize(row, w.position);
        var d1 := Send(d, Order(coin, ClosingSide(side), size, true));
        if w.reply.Raised? then (d1, Failed, Unsettled)
        else if !w.reply.filled || w.reply.size <= 0.0 then
          var (d2, settled) := CloseLeftOpen(d1, row, w.reply.unknown, w);
          (d2, Finished(false), settled)
        else
          var (d2, out) := BookClose(c, d1, strategy, coin, side, size, w);
          (d2, out, Unsettled)
  }

  // ----- Opening ----------------------------------------------------------

  datatype OpenSignal = OpenSignal(strategy: string, coin: string, side: Side, size: real, sized: bool,
                                   price: real, leverage: int, atMs: int)

  /** Everything an open can meet; `close` is for the close half of a flip. */
  datatype OpenWorld = OpenWorld(rowRead: bool, riskOk: bool, gateRead: bool, allowMulti: bool, leverageOk: bool,
                                 close: CloseWorld, alignRead: bool,
                                 reply: Reply, write: bool, parity: CloseWorld)

  function Others(open: seq<Row>, strategy: string): seq<Row> {
    Keep(open, (r: Row) => r.strategy != strategy)
  }

  predicate CoinHeld(open: seq<Row>, s: OpenSignal) {
    exists r :: r in Others(open, s.strategy) && r.coin == s.coin
  }

  predicate FamilyExposed(c: Config, open: seq<Row>, s: OpenSignal) {
    var f := c.family(s.strategy);
    f.Some? && f.value != "" && exists r :: r in Others(open, s.strategy) && c.family(r.strategy) == f
  }

  predicate OppositeHeld(open: seq<Row>, s: OpenSignal) {
    exists r :: r in Others(open, s.strategy) && r.coin == s.coin && r.side != s.side
  }

  function Notional(size: real, price: real): real {
    size * price
  }

  function Exposure(open: seq<Row>): real {
    if open == [] then 0.0 else Notional(open[0].size, open[0].entry) + Exposure(open[1..])
  }

  /** The rows counted against the cap: all but the position a flip closes. */
  function Counted(open: seq<Row>, s: OpenSignal): seq<Row> {
    Keep(open, (r: Row) => !Holds(r, s.strategy, s.coin))
  }

  predicate OverCap(c: Config, open: seq<Row>, s: OpenSignal) {
    c.exposureCap > 0.0 && Exposure(Counted(open, s)) + Notional(s.size, s.price) > c.exposureCap
  }

  predicate OverCeiling(c: Config, s: OpenSignal) {
    s.sized && Notional(s.size, s.price) / (if s.leverage > 1 then s.leverage else 1) as real
               > c.sizeMultiplier * c.maxPosition
  }

  /** `_open_refusal`. */
  predicate Refused(c: Config, open: seq<Row>, s: OpenSignal, allowMulti: bool) {
    || (!allowMulti && (CoinHeld(open, s) || FamilyExposed(c, open, s)))
    || OppositeHeld(open, s) || OverCap(c, open, s) || OverCeiling(c, s)
  }

  /** `_align_strategy_after_failed_flip_close`. */
  function Align(d: Desk, existing: Row, readOk: bool): Desk {
    var read := GetRow(d.db.open, existing.strategy, existing.coin, readOk);
    var row := if read.NoAnswer? then Some(existing) else read.row;
    if row.Some? && row.value.side == existing.side then Resync(d, row.value) else Reset(d, existing.strategy)
  }

  /** `_flip_close`: the first half of a flip. */
  function FlipClose(c: Config, d: Desk, existing: Row, w: OpenWorld): (Desk, Outcome) {
    var (d1, out, settled) := ExecuteClose(c, d, existing.strategy, existing.coin, existing.side, w.close);
    if out.Failed? || (out == Finished(false) && settled.Unsettled?) then (Align(d1, existing, w.alignRead), out)
    else (d1, out)
  }

  /** The opening order, its row, and the parity check. */
  function SendOpen(c: Config, d: Desk, s: OpenSignal, flipped: bool, w: OpenWorld): (Desk, Outcome) {
    var d1 := Send(d, Order(s.coin, OpeningSide(s.side), s.size, false));
    if w.reply.Raised? then (if flipped then Reset(d1, s.strategy) else d1, Failed)
    else if !w.reply.filled then (if flipped then Reset(d1, s.strategy) else d1, Finished(false))
    else
      var price, size := FillPrice(w.reply), w.reply.size;
      var db := OpenPosition(d1.db, Exchange(w.reply.id), s.strategy, s.coin, s.side, size, price,
                             TakerFee(price, size, c.takerFee), s.atMs);
      if !w.write || db.None? then (d1.(paused := true), Diverged)
      else (d1.(db := db.value), Finished(ParityOk(db.value.open, s.coin, w.parity)))
  }

  /** The flip with every check passed. */
  function FlipOpen(c: Config, d: Desk, s: OpenSignal, existing: Row, w: OpenWorld): (Desk, Outcome) {
    var (d1, out) := FlipClose(c, d, existing, w);
    if out == Finished(true) then SendOpen(c, d1, s, true, w) else (d1, out)
  }

  /** The open half refused by the risk gate: only the close half goes out. */
  function FlipOut(c: Config, d: Desk, existing: Row, w: OpenWorld): (Desk, Outcome) {
    var (d1, out) := FlipClose(c, d, existing, w);
    if out == Finished(true) then (Reset(d1, existing.strategy), Finished(false)) else (d1, out)
  }

  /** `_execute_signal` on OPEN. */
  function ExecuteOpen(c: Config, d: Desk, s: OpenSignal, w: OpenWorld): (Desk, Outcome) {
    match GetRow(d.db.open, s.strategy, s.coin, w.rowRead)
    case NoAnswer => (d, Failed)
    case Answer(None) =>
      if !w.riskOk then (Reset(d, s.strategy), Finished(false))
      else if !w.gateRead then (d, Failed)
      else if Refused(c, d.db.open, s, w.allowMulti) || !w.leverageOk then (Reset(d, s.strategy), Finished(false))
      else SendOpen(c, d, s, false, w)
    case Answer(Some(existing)) =>
      if existing.side == s.side then (d, Finished(false))
      else if !w.riskOk then FlipOut(c, d, existing, w)
      else if !w.gateRead || Refused(c, d.db.open, s, w.allowMulti) || !w.leverageOk then
        (Resync(d, existing), Finished(false))
      else FlipOpen(c, d, s, existing, w)
  }

  /** A strategy switches to the side it asks for when it emits the signal. */
  function EmitOpen(d: Desk, s: OpenSignal): Desk {
    d.(beliefs := d.beliefs[s.strategy := s.side])
  }

  // ----- Flat-all ---------------------------------------------------------

  /** Book one row's part of a coin's flat-all fill; None when the write fails. */
  function FlatRow(c: Config, d: Desk, r: Row, p: Position, reply: Reply): Option<Desk>
    requires reply.Answered?
  {
    var price, id := FillPrice(reply), Exchange(reply.id);
    var fee := TakerFee(price, r.size, c.takerFee);
    var pnl := RealizedPnl(r.side, r.entry, price, r.size, fee);
    match ClosePosition(d.db, id, r.strategy, p.coin, ClosingSide(p.side), r.size, price, fee, pnl, 0.0)
    case None => None
    case Some(db) => Some(Tell(d.(db := db), r.strategy, pnl))
  }

  /** `write` on the rows one after the other; a write that fails leaves the
      rest. False when one did. `writes` is how many writes the database takes
      before it fails. */
  function Each(write: (Desk, Row) -> Option<Desk>, d: Desk, rows: seq<Row>, writes: nat): (Desk, bool)
    decreases rows
  {
    if rows == [] then (d, true)
    else if writes == 0 then (d, false)
    else match write(d, rows[0])
         case None => (d, false)
         case Some(next) => Each(write, next, rows[1..], writes - 1)
  }

  function FlatWrite(c: Config, p: Position, reply: Reply): (Desk, Row) -> Option<Desk>
    requires reply.Answered?
  {
    (d: Desk, r: Row) => FlatRow(c, d, r, p, reply)
  }

  function FlatRows(c: Config, d: Desk, rows: seq<Row>, p: Position, reply: Reply, writes: nat): (Desk, bool)
    requires reply.Answered?
  {
    Each(FlatWrite(c, p, reply), d, rows, writes)
  }

  function FlatOrphan(c: Config, d: Desk, p: Position, reply: Reply): (Desk, bool)
    requires reply.Answered?
  {
    var price := FillPrice(reply);
    var fee := TakerFee(price, reply.size, c.takerFee);
    var pnl := RealizedPnl(p.side, p.entry, price, reply.size, fee);
    var t := Trade(Exchange(reply.id), "manual_flat", p.coin, ClosingSide(p.side), reply.size, price, fee, Some(pnl));
    match AddTrade(d.db, t)
    case None => (d, false)
    case Some(db) => (d.(db := db, recorded := d.recorded + pnl), true)
  }

  function RowsOn(open: seq<Row>, coin: string): seq<Row> {
    Keep(open, (r: Row) => r.coin == coin)
  }

  /** Flat one exchange position: one order, then its rows. */
  function FlatCoin(c: Config, d: Desk, p: Position, rowsRead: bool, reply: Reply, writes: nat): (Desk, bool) {
    if !rowsRead then (d, false)
    else
      var d1 := Send(d, CloseOrder(p));
      var rows := RowsOn(d.db.open, p.coin);
      if reply.Raised? || !reply.filled then (d1, false)
      else if rows != [] then FlatRows(c, d1, rows, p, reply, writes)
      else if writes == 0 then (d1, false)
      else FlatOrphan(c, d1, p, reply)
  }

  // ----- A reconcile pass, as the runner takes it -------------------------

  function TellAll(d: Desk, told: seq<(string, real)>): Desk
    decreases told
  {
    if told == [] then d else TellAll(Tell(d, told[0].0, told[0].1), told[1..])
  }

  function RunPass(d: Desk, a: Args, w: World): Desk {
    var (db, res) := Pass(d.db, a, w);
    TellAll(d.(db := db, sent := d.sent + res.sent), res.told)
  }

  // ----- Runs -------------------------------------------------------------

  datatype Event =
    | Open(s: OpenSignal, ow: OpenWorld)
    | Close(strategy: string, coin: string, side: Side, cw: CloseWorld)
    | Flat(p: Position, rowsRead: bool, reply: Reply, writes: nat)
    | Reconcile(a: Args, w: World)

  function Next(c: Config, d: Desk, e: Event): Desk {
    match e
    case Open(s, w) => ExecuteOpen(c, EmitOpen(d, s), s, w).0
    case Close(strategy, coin, side, w) => ExecuteClose(c, Reset(d, strategy), strategy, coin, side, w).0
    case Flat(p, ok, reply, writes) => FlatCoin(c, d, p, ok, reply, writes).0
    case Reconcile(a, w) => RunPass(d, a, w)
  }
}
