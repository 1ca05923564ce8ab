/**
 Whose beliefs an event changes: a strategy's own signals, and what closes its row
 from outside; no other strategy's signal does (bot/hypertrade/engine/runner.py).
 */
module AlignmentLaws {
  import opened Common
  import opened Book
  import opened Reconcile
  import opened ReconcileLaws
  import opened Signals
  import opened SignalLaws
  import opened BookLaws

  // ----- A strategy's own signals -----------------------------------------

  /** An open leaves its strategy aligned. */
  predicate OpenAligns(c: Config, d: Desk, s: OpenSignal, w: OpenWorld) {
    match Find(d.db.open, s.strategy, s.coin)
    case NoRow => PlainOpenAligns(c, d, s, w)
    case OneRow(row) => row.side == s.side || (w.rowRead && !FlipMisleads(c, d, s, row, w))
    case Ambiguous => false
  }

  lemma OpenAligned(c: Config, d: Desk, s: OpenSignal, w: OpenWorld)
    requires Orderly(d.db.open)
    ensures Aligned(Next(c, d, Open(s, w)), s.strategy, s.coin) <==> OpenAligns(c, d, s, w)
  {
    var d2 := Next(c, d, Open(s, w));
    FindExact(d.db.open, s.strategy, s.coin);
    var found := Find(d.db.open, s.strategy, s.coin);
    if found.NoRow? {
      PlainOpenAligned(c, d, s, w, d2);
    } else if found.row.side != s.side {
      FlipLeavesAligned(c, d, s, found.row, w, d2);
    }
  }

  /** A signal, and the strategy that emits it. */
  predicate Own(e: Event, strategy: string) {
    (e.Open? && e.s.strategy == strategy) || (e.Close? && e.strategy == strategy)
  }

  function CoinOf(e: Event): string
    requires e.Open? || e.Close?
  {
    if e.Open? then e.s.coin else e.coin
  }

  /** Whether the strategy that emits a signal is aligned afterwards: decided by
      the book it meets and by what the signal meets. */
  predicate SignalAligns(c: Config, d: Desk, e: Event)
    requires e.Open? || e.Close?
  {
    match e
    case Open(s, w) => OpenAligns(c, d, s, w)
    case Close(strategy, coin, side, w) => PlainCloseAligns(d, strategy, coin, side, w)
  }

  lemma SignalAligned(c: Config, d: Desk, e: Event, strategy: string)
    requires Orderly(d.db.open) && Own(e, strategy)
    ensures Aligned(Next(c, d, e), strategy, CoinOf(e)) <==> SignalAligns(c, d, e)
  {
    match e
    case Open(s, w) => OpenAligned(c, d, s, w);
    case Close(_, coin, side, w) => PlainCloseAligned(c, d, strategy, coin, side, w, Next(c, d, e));
    case _ =>
  }

  // ----- What leaves a strategy alone --------------------------------------

  ghost predicate Untouched(open: seq<Row>, open': seq<Row>, strategy: string) {
    forall r: Row :: r.strategy == strategy ==> (r in open <==> r in open')
  }

  ghost predicate LeavesAlone(d: Desk, d': Desk, strategy: string) {
    Belief(d', strategy) == Belief(d, strategy) && Untouched(d.db.open, d'.db.open, strategy)
  }

  /** Then its alignment stands as it was. */
  lemma AloneKeepsAlignment(d: Desk, d': Desk, strategy: string, coin: string)
    requires LeavesAlone(d, d', strategy) && Orderly(d.db.open) && Orderly(d'.db.open)
    ensures Find(d'.db.open, strategy, coin) == Find(d.db.open, strategy, coin)
    ensures Aligned(d', strategy, coin) <==> Aligned(d, strategy, coin)
  {
    FindExact(d.db.open, strategy, coin);
    FindExact(d'.db.open, strategy, coin);
    if Find(d.db.open, strategy, coin).OneRow? {
      FoundRow(d.db.open, strategy, coin);
    }
  }

  lemma WithoutUntouched(open: seq<Row>, row: Row, strategy: string)
    requires DistinctIds(open) && row in open && row.strategy != strategy
    ensures Untouched(open, Without(open, row.id), strategy)
  {
    WithoutKeepsIds(open, row.id);
    forall r | r in open && r.id == row.id ensures r == row { SameIdSameRow(open, r, row); }
  }

  lemma ResizeUntouched(open: seq<Row>, row: Row, size: real, strategy: string)
    requires DistinctIds(open) && row in open && row.strategy != strategy
    ensures Untouched(open, Resize(open, row.id, size), strategy)
  {
    var resized := Resize(open, row.id, size);
    forall i | 0 <= i < |open| ensures open[i] == resized[i] || (open[i] == row && resized[i].strategy != strategy) {
      if open[i].id == row.id { SameIdSameRow(open, open[i], row); }
    }
    forall r: Row | r.strategy == strategy ensures r in open <==> r in resized {
      if r in open {
        var i :| 0 <= i < |open| && open[i] == r;
        assert resized[i] == r;
      }
      if r in resized {
        var i :| 0 <= i < |open| && resized[i] == r;
        assert open[i] == r;
      }
    }
  }

  lemma ClosePositionUntouched(db: Db, orderId: OrderId, other: string, coin: string, tradeSide: OrderSide, size: real,
                               price: real, fee: real, pnl: real, remaining: real, strategy: string)
    requires DistinctIds(db.open) && other != strategy
    ensures var r := ClosePosition(db, orderId, other, coin, tradeSide, size, price, fee, pnl, remaining);
            r.Some? ==> Untouched(db.open, r.value.open, strategy)
  {
    var found := Find(db.open, other, coin);
    if found.OneRow? {
      FoundRow(db.open, other, coin);
      WithoutUntouched(db.open, found.row, strategy);
      ResizeUntouched(db.open, found.row, remaining, strategy);
    }
  }

  lemma CloseLeftOpenAlone(d: Desk, row: Row, unknown: bool, w: CloseWorld, strategy: string)
    requires DistinctIds(d.db.open) && row in d.db.open && row.strategy != strategy
    ensures LeavesAlone(d, CloseLeftOpen(d, row, unknown, w).0, strategy)
  {
    WithoutUntouched(d.db.open, row, strategy);
    ByIdFinds(d.db.open, row);
  }

  lemma BookCloseAlone(c: Config, d: Desk, row: Row, requested: real, w: CloseWorld, strategy: string)
    requires DistinctIds(d.db.open) && HoldsRow(d, row) && row.strategy != strategy && w.reply.Answered?
    ensures LeavesAlone(d, BookClose(c, d, row.strategy, row.coin, row.side, requested, w).0, strategy)
  {
    FoundRow(d.db.open, row.strategy, row.coin);
    var (d2, out) := BookClose(c, d, row.strategy, row.coin, row.side, requested, w);
    var rest := Unfilled(requested, w.reply.size, w.step);
    BookCloseOutcome(c, d, row, requested, w, d2, out, rest);
    WithoutUntouched(d.db.open, row, strategy);
    ResizeUntouched(d.db.open, row, rest, strategy);
  }

  lemma ExecuteCloseAlone(c: Config, d: Desk, other: string, coin: string, side: Side, w: CloseWorld, strategy: string)
    requires DistinctIds(d.db.open) && other != strategy
    ensures LeavesAlone(d, ExecuteClose(c, d, other, coin, side, w).0, strategy)
  {
    var read := GetRow(d.db.open, other, coin, w.rowRead);
    if read.Answer? && read.row.Some? && read.row.value.side == side && w.reply.Answered? {
      var row := read.row.value;
      FoundRow(d.db.open, other, coin);
      var d1 := Send(d, Order(coin, ClosingSide(side), CloseSize(row, w.position), true));
      if Executes(w) {
        BookCloseAlone(c, d1, row, CloseSize(row, w.position), w, strategy);
      } else {
        CloseLeftOpenAlone(d1, row, w.reply.unknown, w, strategy);
      }
    }
  }

  lemma FlipCloseAlone(c: Config, d: Desk, row: Row, w: OpenWorld, strategy: string)
    requires DistinctIds(d.db.open) && row.strategy != strategy
    ensures LeavesAlone(d, FlipClose(c, d, row, w).0, strategy)
  {
    var d1 := ExecuteClose(c, d, row.strategy, row.coin, row.side, w.close).0;
    ExecuteCloseAlone(c, d, row.strategy, row.coin, row.side, w.close, strategy);
    AlignAlone(d1, row, w.alignRead, strategy);
  }

  lemma AlignAlone(d: Desk, row: Row, readOk: bool, strategy: string)
    requires row.strategy != strategy
    ensures LeavesAlone(d, Align(d, row, readOk), strategy)
  {
    if Find(d.db.open, row.strategy, row.coin).OneRow? {
      FoundRow(d.db.open, row.strategy, row.coin);
    }
  }

  lemma SendOpenAlone(c: Config, d: Desk, s: OpenSignal, flipped: bool, w: OpenWorld, strategy: string)
    requires s.strategy != strategy
    ensures LeavesAlone(d, SendOpen(c, d, s, flipped, w).0, strategy)
  {
  }

  lemma ExecuteOpenAlone(c: Config, d: Desk, s: OpenSignal, w: OpenWorld, strategy: string)
    requires DistinctIds(d.db.open) && s.strategy != strategy
    ensures LeavesAlone(d, ExecuteOpen(c, d, s, w).0, strategy)
  {
    SendOpenAlone(c, d, s, false, w, strategy);
    var read := GetRow(d.db.open, s.strategy, s.coin, w.rowRead);
    if read.Answer? && read.row.Some? {
      var row := read.row.value;
      FoundRow(d.db.open, s.strategy, s.coin);
      FlipCloseAlone(c, d, row, w, strategy);
      SendOpenAlone(c, FlipClose(c, d, row, w).0, s, true, w, strategy);
    }
  }

  /** A signal of another strategy leaves it alone. */
  lemma OthersLeaveAlone(c: Config, d: Desk, e: Event, strategy: string)
    requires DistinctIds(d.db.open) && (e.Open? || e.Close?) && !Own(e, strategy)
    ensures LeavesAlone(d, Next(c, d, e), strategy)
  {
    match e
    case Open(s, w) => ExecuteOpenAlone(c, EmitOpen(d, s), s, w, strategy);
    case Close(other, coin, side, w) => ExecuteCloseAlone(c, Reset(d, other), other, coin, side, w, strategy);
    case _ =>
  }

  // ----- What closes its row from outside ----------------------------------

  /** The strategy trades one coin. */
  ghost predicate OneCoin(open: seq<Row>, strategy: string, coin: string) {
    forall r :: r in open && r.strategy == strategy ==> r.coin == coin
  }

  /** It has no row and believes so. */
  ghost predicate Freed(d: Desk, strategy: string) {
    Belief(d, strategy).None? && forall r :: r in d.db.open ==> r.strategy != strategy
  }

  ghost predicate Tidy(d: Desk, strategy: string, coin: string) {
    Orderly(d.db.open) && OneCoin(d.db.open, strategy, coin)
  }

  /** It is left alone, or freed of its row. */
  ghost predicate Settles(d: Desk, d': Desk, strategy: string, coin: string) {
    Tidy(d, strategy, coin) ==>
      Tidy(d', strategy, coin) && (LeavesAlone(d, d', strategy) || Freed(d', strategy))
  }

  lemma FlatRowAlone(c: Config, d: Desk, r: Row, p: Position, reply: Reply, strategy: string)
    requires reply.Answered? && DistinctIds(d.db.open) && r.strategy != strategy
    ensures var next := FlatRow(c, d, r, p, reply);
            next.Some? ==> LeavesAlone(d, next.value, strategy) && DistinctIds(next.value.db.open)
  {
    var price, id := FillPrice(reply), Exchange(reply.id);
    var fee := TakerFee(price, r.size, c.takerFee);
    var pnl := RealizedPnl(r.side, r.entry, price, r.size, fee);
    ClosePositionUntouched(d.db, id, r.strategy, p.coin, ClosingSide(p.side), r.size, price, fee, pnl, 0.0, strategy);
    FlatRowKeeps(c, d, r, p, reply);
  }

  /** Its own row closed: all rows it has, since it trades one coin. */
  lemma FlatOwnRow(c: Config, d: Desk, r: Row, p: Position, reply: Reply)
    requires reply.Answered? && Tidy(d, r.strategy, p.coin)
    ensures var next := FlatRow(c, d, r, p, reply);
            next.Some? ==> Freed(next.value, r.strategy)
  {
    FindExact(d.db.open, r.strategy, p.coin);
    var found := Find(d.db.open, r.strategy, p.coin);
    if found.OneRow? {
      WithoutKeepsIds(d.db.open, found.row.id);
    }
  }

  lemma FlatRowSettles(c: Config, d: Desk, r: Row, p: Position, reply: Reply, strategy: string, coin: string)
    requires reply.Answered? && (r.strategy == strategy ==> p.coin == coin)
    ensures var next := FlatRow(c, d, r, p, reply); next.Some? ==> Settles(d, next.value, strategy, coin)
  {
    if Tidy(d, strategy, coin) && FlatRow(c, d, r, p, reply).Some? {
      var next := FlatRow(c, d, r, p, reply).value;
      FlatRowKeeps(c, d, r, p, reply);
      ShrinkingKeepsOrder(c, d.db.open, next.db.open);
      ShrinkingKeepsCoin(d.db.open, next.db.open, strategy, coin);
      if r.strategy == strategy {
        FlatOwnRow(c, d, r, p, reply);
      } else {
        FlatRowAlone(c, d, r, p, reply, strategy);
      }
    }
  }

  lemma ShrinkingKeepsCoin(open: seq<Row>, open': seq<Row>, strategy: string, coin: string)
    requires Shrinks(open, open') && OneCoin(open, strategy, coin)
    ensures OneCoin(open', strategy, coin)
  {
    forall r | r in open' && r.strategy == strategy ensures r.coin == coin {
      assert Kept(open, r);
    }
  }

  lemma FlatRowsSettle(c: Config, d: Desk, rows: seq<Row>, p: Position, reply: Reply, writes: nat, strategy: string,
                       coin: string)
    requires reply.Answered? && forall r :: r in rows && r.strategy == strategy ==> p.coin == coin
    ensures Settles(d, FlatRows(c, d, rows, p, reply, writes).0, strategy, coin)
  {
    var write, rel := FlatWrite(c, p, reply), (x: Desk, y: Desk) => Settles(x, y, strategy, coin);
    forall x, r | r in rows && write(x, r).Some? ensures rel(x, write(x, r).value) {
      FlatRowSettles(c, x, r, p, reply, strategy, coin);
    }
    EachRelates(write, d, rows, writes, rel);
  }

  ghost predicate DistinctAlone(d: Desk, d': Desk, strategy: string) {
    DistinctIds(d.db.open) ==> DistinctIds(d'.db.open) && LeavesAlone(d, d', strategy)
  }

  lemma FlatRowsAlone(c: Config, d: Desk, rows: seq<Row>, p: Position, reply: Reply, writes: nat, strategy: string)
    requires reply.Answered? && forall r :: r in rows ==> r.strategy != strategy
    ensures DistinctAlone(d, FlatRows(c, d, rows, p, reply, writes).0, strategy)
  {
    var write, rel := FlatWrite(c, p, reply), (x: Desk, y: Desk) => DistinctAlone(x, y, strategy);
    forall x, r | r in rows && write(x, r).Some? ensures rel(x, write(x, r).value) {
      if DistinctIds(x.db.open) { FlatRowAlone(c, x, r, p, reply, strategy); }
    }
    EachRelates(write, d, rows, writes, rel);
  }

  lemma {:induction false} TellAllBelief(d: Desk, told: seq<(string, real)>, strategy: string)
    ensures Belief(TellAll(d, told), strategy)
         == if exists i :: 0 <= i < |told| && told[i].0 == strategy then None else Belief(d, strategy)
    decreases told
  {
    if told != [] {
      TellAllBelief(Tell(d, told[0].0, told[0].1), told[1..], strategy);
      assert forall i :: 0 < i < |told| ==> told[i] == told[1..][i - 1];
    }
  }

  /** A pass frees the strategy of a row it closes, and otherwise leaves it
      alone. */
  lemma PassSettles(d: Desk, a: Args, w: World, strategy: string, coin: string)
    requires Sound(d) && OneCoin(d.db.open, strategy, coin)
    ensures LeavesAlone(d, RunPass(d, a, w), strategy)
         || (Freed(RunPass(d, a, w), strategy) && exists r :: r in d.db.open && r.strategy == strategy)
  {
    var plan := PassPlan(d.db, a, w);
    var (db, res) := Pass(d.db, a, w);
    var d1 := d.(db := db, sent := d.sent + res.sent);
    PassPlanExact(d.db, a, w);
    assert Leaves(d.db.open, db.open, Ids(plan)) by { PassExtendsApply(d.db, a, w); }
    assert res.told == Told(plan) by { PassReports(d.db, a, w); }
    TellAllKeeps(d1, res.told);
    TellAllBelief(d1, res.told, strategy);
    if i :| 0 <= i < |plan| && plan[i].row.strategy == strategy {
      var row := plan[i].row;
      assert plan[i] in plan && res.told[i].0 == strategy;
      forall r | r in d.db.open && r.strategy == strategy ensures r == row { SameIdSameRow(d.db.open, r, row); }
    } else {
      forall r | r in d.db.open && r.strategy == strategy ensures r.id !in Ids(plan) {
        if r.id in Ids(plan) { NotPlanned(d.db.open, plan, r); }
      }
    }
  }

  lemma NotPlanned(open: seq<Row>, plan: seq<Planned>, r: Row)
    requires DistinctIds(open) && r in open && r.id in Ids(plan) && forall x :: x in plan ==> x.row in open
    ensures exists i :: 0 <= i < |plan| && plan[i].row == r
  {
    var x :| x in plan && x.row.id == r.id;
    SameIdSameRow(open, x.row, r);
    var i :| 0 <= i < |plan| && plan[i] == x;
  }

  // ----- Every event --------------------------------------------------------

  /** The event takes the strategy's row out of the open ones. */
  predicate RowCloses(open: seq<Row>, open': seq<Row>, strategy: string, coin: string) {
    Find(open, strategy, coin).OneRow? && Find(open', strategy, coin).NoRow?
  }

  /** Flat-all and reconcile leave a strategy aligned when they close its row, and
      otherwise as they found it. */
  lemma OutsideAligns(c: Config, d: Desk, e: Event, strategy: string, coin: string)
    requires Sound(d) && OneCoin(d.db.open, strategy, coin) && (e.Flat? || e.Reconcile?)
    ensures var d' := Next(c, d, e);
            Aligned(d', strategy, coin)
            <==> RowCloses(d.db.open, d'.db.open, strategy, coin) || Aligned(d, strategy, coin)
  {
    var d' := Next(c, d, e);
    NextSound(c, d, e);
    FindExact(d.db.open, strategy, coin);
    FindExact(d'.db.open, strategy, coin);
    OutsideSettles(c, d, e, strategy, coin);
    if LeavesAlone(d, d', strategy) {
      AloneKeepsAlignment(d, d', strategy, coin);
    }
  }

  lemma OutsideSettles(c: Config, d: Desk, e: Event, strategy: string, coin: string)
    requires Sound(d) && OneCoin(d.db.open, strategy, coin) && (e.Flat? || e.Reconcile?)
    ensures LeavesAlone(d, Next(c, d, e), strategy)
         || (Freed(Next(c, d, e), strategy) && exists r :: r in d.db.open && r.strategy == strategy)
  {
    match e
    case Reconcile(a, w) => PassSettles(d, a, w, strategy, coin);
    case Flat(p, ok, reply, writes) =>
      if reply.Answered? {
        var d1, rows := Send(d, CloseOrder(p)), RowsOn(d.db.open, p.coin);
        if exists r :: r in d.db.open && r.strategy == strategy {
          FlatRowsSettle(c, d1, rows, p, reply, writes, strategy, coin);
        } else {
          FlatRowsAlone(c, d1, rows, p, reply, writes, strategy);
        }
      }
    case _ =>
  }

  /** A strategy that signals on one coin trades one coin. */
  lemma NextKeepsCoin(c: Config, d: Desk, e: Event, strategy: string, coin: string)
    requires Sound(d) && OneCoin(d.db.open, strategy, coin) && (Own(e, strategy) ==> CoinOf(e) == coin)
    ensures OneCoin(Next(c, d, e).db.open, strategy, coin)
  {
    match e
    case Open(s, w) =>
      if s.strategy == strategy {
        OpenKeepsCoin(c, EmitOpen(d, s), s, w);
      } else {
        OthersLeaveAlone(c, d, e, strategy);
      }
    case Close(other, closed, side, w) =>
      ExecuteCloseKeeps(c, Reset(d, other), other, closed, side, w);
      ShrinkingKeepsCoin(d.db.open, Next(c, d, e).db.open, strategy, coin);
    case Flat(p, ok, reply, writes) =>
      FlatCoinKeeps(c, d, p, ok, reply, writes);
      ShrinkingKeepsCoin(d.db.open, Next(c, d, e).db.open, strategy, coin);
    case Reconcile(a, w) =>
      RunPassKeeps(d, a, w);
      ShrinkingKeepsCoin(d.db.open, Next(c, d, e).db.open, strategy, coin);
  }

  lemma OpenKeepsCoin(c: Config, d: Desk, s: OpenSignal, w: OpenWorld)
    requires OneCoin(d.db.open, s.strategy, s.coin)
    ensures OneCoin(ExecuteOpen(c, d, s, w).0.db.open, s.strategy, s.coin)
  {
    var read := GetRow(d.db.open, s.strategy, s.coin, w.rowRead);
    if read == Answer(None) {
      SendOpenKeepsCoin(c, d, s, false, w);
    } else if read.Answer? {
      var d1 := FlipClose(c, d, read.row.value, w).0;
      assert OneCoin(d1.db.open, s.strategy, s.coin) by {
        FlipCloseKeeps(c, d, read.row.value, w);
        ShrinkingKeepsCoin(d.db.open, d1.db.open, s.strategy, s.coin);
      }
      SendOpenKeepsCoin(c, d1, s, true, w);
    }
  }

  lemma SendOpenKeepsCoin(c: Config, d: Desk, s: OpenSignal, flipped: bool, w: OpenWorld)
    requires OneCoin(d.db.open, s.strategy, s.coin)
    ensures OneCoin(SendOpen(c, d, s, flipped, w).0.db.open, s.strategy, s.coin)
  {
  }
}
