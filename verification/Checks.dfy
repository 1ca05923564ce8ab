/**
 What the checks around an order amount to, in the sizes and prices they are about:
 parity, the size of a close, the refusals of an open
 (bot/hypertrade/engine/runner.py).
 */
module CheckLaws {
  import opened Common
  import opened Traces
  import opened Book
  import opened Reconcile
  import opened ReconcileLaws
  import opened Signals
  import opened SignalLaws
  import opened BookLaws
  import PassLaws
  import ExposureLaws
  import PnlLaws

  // ----- Parity -------------------------------------------------------------

  /** The total size of the open rows on a coin. */
  function RowTotal(open: seq<Row>, coin: string): real {
    if open == [] then 0.0
    else (if open[0].coin == coin then open[0].size else 0.0) + RowTotal(open[1..], coin)
  }

  ghost predicate OneSided(open: seq<Row>, coin: string, side: Side) {
    forall r :: r in open && r.coin == coin ==> r.side == side
  }

  lemma {:induction false} NetIsTotal(open: seq<Row>, coin: string, side: Side)
    requires OneSided(open, coin, side)
    ensures DbNet(open, coin) == if side.Long? then RowTotal(open, coin) else -RowTotal(open, coin)
  {
    if open != [] {
      assert open[0] in open;
      NetIsTotal(open[1..], coin, side);
    }
  }

  lemma {:induction false} TotalNonneg(open: seq<Row>, coin: string)
    requires ExposureLaws.Weighed(open)
    ensures 0.0 <= RowTotal(open, coin)
  {
    if open != [] {
      assert open[0] in open;
      TotalNonneg(open[1..], coin);
    }
  }

  /** The first position a read lists on a coin. */
  function Listed(ps: seq<Position>, coin: string): Option<Position> {
    if ps == [] then None else if ps[0].coin == coin then Some(ps[0]) else Listed(ps[1..], coin)
  }

  lemma {:induction false} ListedIs(ps: seq<Position>, coin: string)
    ensures match Listed(ps, coin)
            case None => forall p :: p in ps ==> p.coin != coin
            case Some(p) =>
              exists i :: 0 <= i < |ps| && ps[i] == p && p.coin == coin && forall j :: 0 <= j < i ==> ps[j].coin != coin
  {
    if ps != [] && ps[0].coin != coin {
      ListedIs(ps[1..], coin);
      if Listed(ps[1..], coin).Some? {
        var i :| 0 <= i < |ps| - 1 && ps[1..][i] == Listed(ps, coin).value
                 && forall j :: 0 <= j < i ==> ps[1..][j].coin != coin;
        assert ps[i + 1] == Listed(ps, coin).value;
        forall j | 0 <= j < i + 1 ensures ps[j].coin != coin {
          if j > 0 { assert ps[j] == ps[1..][j - 1]; }
        }
      }
    }
  }

  lemma {:induction false} ExNetIs(ps: seq<Position>, coin: string)
    ensures ExNet(ps, coin)
         == match Listed(ps, coin)
            case None => 0.0
            case Some(p) => if p.side.Long? then p.size else -p.size
  {
    if ps != [] && ps[0].coin != coin {
      ExNetIs(ps[1..], coin);
    }
  }

  /** Ten size steps, or half a percent of the larger of the two when that is less
      and either is open. */
  predicate Near(diff: real, larger: real, step: Step) {
    diff <= 10.0 * step && (larger > 0.0 ==> diff <= 0.005 * larger)
  }

  /** What parity amounts to. On a book with one side on the coin, of total size
      `total`: when the exchange holds `q` on that side the two must be near each
      other, when it holds `q` on the other side their sum must be near nothing, and a
      flat exchange is held to the same bound. A parity that cannot be read passes. */
  lemma ParityIff(open: seq<Row>, coin: string, side: Side, w: CloseWorld, total: real)
    requires ExposureLaws.Weighed(open) && OneSided(open, coin, side) && total == RowTotal(open, coin)
    requires w.parity.Positions? ==> forall p :: p in w.parity.ps ==> 0.0 <= p.size
    ensures ParityOk(open, coin, w)
       <==> !w.parityRows || w.parity.Unreadable? ||
            match Listed(w.parity.ps, coin)
            case None => Near(total, total, w.step)
            case Some(p) =>
              if p.side == side then Near(if total < p.size then p.size - total else total - p.size,
                                          if total < p.size then p.size else total, w.step)
              else Near(total + p.size, if total < p.size then p.size else total, w.step)
  {
    TotalNonneg(open, coin);
    NetIsTotal(open, coin, side);
    if w.parity.Positions? {
      ExNetIs(w.parity.ps, coin);
      ListedIs(w.parity.ps, coin);
    }
  }

  // ----- The size of a close ------------------------------------------------

  /** A close is for the row's size, or for what the exchange shows on the row's side
      when it can be read, shows something there, and that is less. */
  lemma CloseSizeIs(row: Row, position: Seen)
    ensures var held := if position.Saw? && position.position.Some? && position.position.value.side == row.side
                        then position.position.value.size else 0.0;
            CloseSize(row, position)
            == if 0.000000001 < held && held + 0.000000001 < row.size then held else row.size
  {
  }

  // ----- Refusals -----------------------------------------------------------

  /** The open notional beside the position a flip would close. */
  function NotionalBeside(open: seq<Row>, strategy: string, coin: string): real {
    if open == [] then 0.0
    else
      (if open[0].strategy == strategy && open[0].coin == coin then 0.0 else open[0].size * open[0].entry)
      + NotionalBeside(open[1..], strategy, coin)
  }

  lemma {:induction false} CountedNotional(open: seq<Row>, s: OpenSignal)
    ensures Exposure(Counted(open, s)) == NotionalBeside(open, s.strategy, s.coin)
  {
    if open != [] {
      CountedNotional(open[1..], s);
      var p := (r: Row) => !Holds(r, s.strategy, s.coin);
      assert Keep(open, p) == (if p(open[0]) then [open[0]] else []) + Keep(open[1..], p);
      if p(open[0]) {
        assert Keep(open, p)[1..] == Keep(open[1..], p);
      }
    }
  }

  lemma OthersMember(open: seq<Row>, strategy: string, r: Row)
    ensures r in Others(open, strategy) <==> r in open && r.strategy != strategy
  {
    if r in open && r.strategy != strategy {
      KeepMember(open, (x: Row) => x.strategy != strategy, r);
    }
  }

  /** The margin a sized signal asks for is over its ceiling. */
  predicate TooMuchMargin(c: Config, s: OpenSignal) {
    s.sized
    && s.size * s.price > c.sizeMultiplier * c.maxPosition * (if s.leverage > 1 then s.leverage as real else 1.0)
  }

  lemma MarginIff(notional: real, leverage: real, ceiling: real)
    requires 1.0 <= leverage
    ensures notional / leverage > ceiling <==> notional > ceiling * leverage
  {
    var margin := notional / leverage;
    assert margin * leverage == notional;
    if margin > ceiling {
      assert (margin - ceiling) * leverage > 0.0;
    } else {
      assert (ceiling - margin) * leverage >= 0.0;
    }
  }

  lemma CeilingIff(c: Config, s: OpenSignal)
    ensures OverCeiling(c, s) <==> TooMuchMargin(c, s)
  {
    var leverage := (if s.leverage > 1 then s.leverage else 1) as real;
    MarginIff(s.size * s.price, leverage, c.sizeMultiplier * c.maxPosition);
  }

  /** Another strategy's row refuses the open: it is on the other side of the coin, or,
      without stacking, on the coin at all or of the same family on any coin. */
  predicate StandsInTheWay(c: Config, s: OpenSignal, allowMulti: bool, r: Row) {
    r.strategy != s.strategy &&
    ((r.coin == s.coin && (r.side != s.side || !allowMulti)) ||
     (!allowMulti && SameFamily(c, s.strategy, r.strategy)))
  }

  lemma InTheWayIff(c: Config, open: seq<Row>, s: OpenSignal, allowMulti: bool)
    ensures (!allowMulti && (CoinHeld(open, s) || FamilyExposed(c, open, s))) || OppositeHeld(open, s)
       <==> exists r :: r in open && StandsInTheWay(c, s, allowMulti, r)
  {
    var others := Others(open, s.strategy);
    forall r ensures r in others <==> r in open && r.strategy != s.strategy { OthersMember(open, s.strategy, r); }
    if r :| r in open && StandsInTheWay(c, s, allowMulti, r) {
      assert r in others;
    }
  }

  lemma CapIff(c: Config, open: seq<Row>, s: OpenSignal)
    ensures OverCap(c, open, s)
       <==> c.exposureCap > 0.0 && NotionalBeside(open, s.strategy, s.coin) + s.size * s.price > c.exposureCap
  {
    CountedNotional(open, s);
  }

  /** An open is refused exactly when another strategy's row stands in the way, or the
      open notional with it exceeds a cap that is set, or it is sized and asks for more
      margin than its ceiling. */
  lemma RefusedIff(c: Config, open: seq<Row>, s: OpenSignal, allowMulti: bool)
    ensures Refused(c, open, s, allowMulti)
       <==> || (exists r :: r in open && StandsInTheWay(c, s, allowMulti, r))
            || (c.exposureCap > 0.0 &&
                NotionalBeside(open, s.strategy, s.coin) + s.size * s.price > c.exposureCap)
            || TooMuchMargin(c, s)
  {
    InTheWayIff(c, open, s, allowMulti);
    CapIff(c, open, s);
    CeilingIff(c, s);
  }

  // ----- Opening orders -----------------------------------------------------

  /** Whatever lets an opening order out: nothing stands in its way on the book the
      signal met, and notional and margin are within their limits. */
  predicate Allowed(c: Config, open: seq<Row>, s: OpenSignal, allowMulti: bool) {
    && (forall r :: r in open ==> !StandsInTheWay(c, s, allowMulti, r))
    && (c.exposureCap > 0.0 ==> NotionalBeside(open, s.strategy, s.coin) + s.size * s.price <= c.exposureCap)
    && !TooMuchMargin(c, s)
  }

  /** An open signal sends an order that may open or grow a position only when it was
      allowed, every gate could be read and the leverage push worked; and the order is
      the signal's own. */
  lemma OpeningWasAllowed(c: Config, d: Desk, s: OpenSignal, w: OpenWorld)
    requires !OnlyReduces(d.sent, ExecuteOpen(c, d, s, w).0.sent)
    ensures w.rowRead && w.riskOk && w.gateRead && w.leverageOk && Allowed(c, d.db.open, s, w.allowMulti)
    ensures var sent := ExecuteOpen(c, d, s, w).0.sent;
            |sent| > 0 && sent[|sent| - 1] == Order(s.coin, if s.side.Long? then Buy else Sell, s.size, false)
            && OnlyReduces(d.sent, sent[..|sent| - 1])
  {
    var read := GetRow(d.db.open, s.strategy, s.coin, w.rowRead);
    RefusedIff(c, d.db.open, s, w.allowMulti);
    if read.Answer? && read.row.Some? {
      FlipCloseOnlyReduces(c, d, read.row.value, w);
      SendOpenSends(c, FlipClose(c, d, read.row.value, w).0, s, true, w);
    } else {
      SendOpenSends(c, d, s, false, w);
    }
  }

  lemma SendOpenSends(c: Config, d: Desk, s: OpenSignal, flipped: bool, w: OpenWorld)
    ensures SendOpen(c, d, s, flipped, w).0.sent
         == d.sent + [Order(s.coin, if s.side.Long? then Buy else Sell, s.size, false)]
  {
  }

  // ----- Success ------------------------------------------------------------

  /** A close reports success exactly when there was a row on its side, and it was
      closed in full with parity. */
  lemma CloseSucceedsIff(c: Config, d: Desk, strategy: string, coin: string, side: Side, w: CloseWorld)
    requires Orderly(d.db.open)
    ensures ExecuteClose(c, d, strategy, coin, side, w).1 == Finished(true)
       <==> Find(d.db.open, strategy, coin).OneRow? && Find(d.db.open, strategy, coin).row.side == side
            && ClosedVerified(d, Find(d.db.open, strategy, coin).row, w)
  {
    var (d2, out, settled) := ExecuteClose(c, d, strategy, coin, side, w);
    var found := Find(d.db.open, strategy, coin);
    if found.OneRow? && found.row.side == side {
      FoundRow(d.db.open, strategy, coin);
      ClosedIff(c, d, found.row, w, d2, out, settled);
    }
  }

  /** An open reports success exactly when its order went out and filled, the strategy
      has the row, and parity held. */
  lemma OpenSucceedsIff(c: Config, d: Desk, s: OpenSignal, w: OpenWorld, d2: Desk, out: Outcome)
    requires Orderly(d.db.open) && (d2, out) == ExecuteOpen(c, EmitOpen(d, s), s, w)
    ensures out == Finished(true)
       <==> !OnlyReduces(d.sent, d2.sent) && OpenFills(w) && RowSide(d2.db.open, s.strategy, s.coin) == Some(s.side)
            && ParityOk(d2.db.open, s.coin, w.parity)
  {
    var d0, read := EmitOpen(d, s), GetRow(d.db.open, s.strategy, s.coin, w.rowRead);
    if read == Answer(None) {
      SendOpenReports(c, d0, s, false, w);
    } else if read.Answer? {
      var row := read.row.value;
      FoundRow(d.db.open, s.strategy, s.coin);
      FlipCloseOnlyReduces(c, d0, row, w);
      if row.side != s.side && ReachesClose(c, d, s, w) && FlipClose(c, d0, row, w).1 == Finished(true) {
        FlipGone(c, d0, row, w);
        SendOpenReports(c, FlipClose(c, d0, row, w).0, s, true, w);
        OpeningShows(d.sent, FlipClose(c, d0, row, w).0.sent, Order(s.coin, OpeningSide(s.side), s.size, false));
      }
    }
  }

  lemma OpeningShows(sent: seq<Order>, mid: seq<Order>, o: Order)
    requires |sent| <= |mid| && !o.reduceOnly
    ensures !OnlyReduces(sent, mid + [o])
  {
    assert (mid + [o])[|sent|..][|mid| - |sent|] == o;
  }

  lemma SendOpenReports(c: Config, d: Desk, s: OpenSignal, flipped: bool, w: OpenWorld)
    requires Find(d.db.open, s.strategy, s.coin) == NoRow
    ensures var (d2, out) := SendOpen(c, d, s, flipped, w);
            && (out == Finished(true)
                <==> OpenFills(w) && RowSide(d2.db.open, s.strategy, s.coin) == Some(s.side)
                     && ParityOk(d2.db.open, s.coin, w.parity))
            && d2.sent == d.sent + [Order(s.coin, OpeningSide(s.side), s.size, false)]
  {
    var (d2, out) := SendOpen(c, d, s, flipped, w);
    if d2.db.open != d.db.open {
      FindAppended(d.db.open, d2.db.open[|d.db.open|], s.strategy, s.coin);
    }
  }

  // ----- Pauses -------------------------------------------------------------

  /** A fill came back that could not be booked. */
  predicate Unbooked(c: Config, d: Desk, e: Event) {
    match e
    case Close(strategy, coin, side, w) =>
      var found := Find(d.db.open, strategy, coin);
      found.OneRow? && found.row.side == side && CloseUnbookable(d, w)
    case Open(s, w) =>
      w.rowRead &&
      (match Find(d.db.open, s.strategy, s.coin)
       case NoRow =>
         && w.riskOk && w.gateRead && !Refused(c, d.db.open, s, w.allowMulti) && w.leverageOk
         && OpenFills(w) && !OpenBooks(OrderIds(d.db.trades), w)
       case OneRow(row) =>
         row.side != s.side && ReachesClose(c, d, s, w) && (CloseUnbookable(d, w.close) || OpenUnbookable(d, row, w))
       case Ambiguous => false)
    case _ => false
  }

  lemma ClosePauses(c: Config, d: Desk, row: Row, w: CloseWorld)
    requires Orderly(d.db.open) && HoldsRow(d, row)
    ensures var (d2, out, _) := ExecuteClose(c, d, row.strategy, row.coin, row.side, w);
            && (d2.paused <==> d.paused || CloseUnbookable(d, w)) && (out.Diverged? <==> CloseUnbookable(d, w))
  {
    FoundRow(d.db.open, row.strategy, row.coin);
    var (d2, out, settled) := ExecuteClose(c, d, row.strategy, row.coin, row.side, w);
    if w.rowRead && Executes(w) {
      FilledCloseExact(c, d, row, w, d2, out, settled, Unfilled(CloseSize(row, w.position), w.reply.size, w.step));
      BookFillPauses(c, Send(d, CloseOf(row, w)), row, CloseSize(row, w.position), w);
    } else {
      UnfilledOutcome(c, d, row, w, d2, out, settled);
    }
  }

  lemma BookFillPauses(c: Config, d: Desk, row: Row, requested: real, w: CloseWorld)
    requires w.reply.Answered? && HoldsRow(d, row)
    ensures var (d2, out) := BookClose(c, d, row.strategy, row.coin, row.side, requested, w);
            d2.paused <==> d.paused || out.Diverged?
  {
  }

  lemma SendOpenPauses(c: Config, d: Desk, s: OpenSignal, flipped: bool, w: OpenWorld)
    ensures var (d2, out) := SendOpen(c, d, s, flipped, w);
            && (d2.paused <==> d.paused || out.Diverged?)
            && (out.Diverged? <==> OpenFills(w) && !OpenBooks(OrderIds(d.db.trades), w))
  {
  }

  lemma OpenPauses(c: Config, d: Desk, s: OpenSignal, w: OpenWorld)
    requires Orderly(d.db.open)
    ensures ExecuteOpen(c, EmitOpen(d, s), s, w).0.paused <==> d.paused || Unbooked(c, d, Open(s, w))
  {
    var d0 := EmitOpen(d, s);
    FindExact(d.db.open, s.strategy, s.coin);
    var found := Find(d.db.open, s.strategy, s.coin);
    if found.NoRow? {
      SendOpenPauses(c, d0, s, false, w);
    } else if found.row.side != s.side && w.rowRead && ReachesClose(c, d, s, w) {
      FoundRow(d.db.open, s.strategy, s.coin);
      FlipPauses(c, d0, s, w, found.row);
    }
  }

  lemma FlipPauses(c: Config, d: Desk, s: OpenSignal, w: OpenWorld, row: Row)
    requires Orderly(d.db.open) && HoldsRow(d, row) && s.strategy == row.strategy && s.coin == row.coin
    ensures FlipOut(c, d, row, w).0.paused <==> d.paused || CloseUnbookable(d, w.close)
    ensures w.riskOk ==>
              (FlipOpen(c, d, s, row, w).0.paused
               <==> d.paused || CloseUnbookable(d, w.close) || OpenUnbookable(d, row, w))
  {
    var (d1, out1) := FlipClose(c, d, row, w);
    ClosePauses(c, d, row, w.close);
    FlipCloseIds(c, d, row, w, d1, out1);
    SendOpenPauses(c, d1, s, true, w);
  }

  lemma NextPauses(c: Config, d: Desk, e: Event)
    requires Sound(d)
    ensures Next(c, d, e).paused <==> d.paused || Unbooked(c, d, e)
  {
    match e
    case Open(s, w) => OpenPauses(c, d, s, w);
    case Close(strategy, coin, side, w) =>
      var found := Find(d.db.open, strategy, coin);
      if found.OneRow? && found.row.side == side {
        FoundRow(d.db.open, strategy, coin);
        ClosePauses(c, Reset(d, strategy), found.row, w);
      }
    case Flat(p, ok, reply, writes) =>
      if reply.Answered? {
        EachRelates(FlatWrite(c, p, reply), Send(d, CloseOrder(p)), RowsOn(d.db.open, p.coin), writes,
                    (x: Desk, y: Desk) => y.paused == x.paused);
      }
    case Reconcile(a, w) =>
      var (db, res) := Pass(d.db, a, w);
      TellAllPauses(d.(db := db, sent := d.sent + res.sent), res.told);
  }

  lemma {:induction false} TellAllPauses(d: Desk, told: seq<(string, real)>)
    ensures TellAll(d, told).paused == d.paused
    decreases told
  {
    if told != [] {
      TellAllPauses(Tell(d, told[0].0, told[0].1), told[1..]);
    }
  }

  ghost predicate SomeUnbooked(c: Config, d: Desk, es: seq<Event>) {
    exists k :: 0 <= k < |es| && Unbooked(c, Before(Engine(c), d, es, k), es[k])
  }

  lemma SomeUnbookedSnoc(c: Config, d: Desk, es: seq<Event>, n: nat)
    requires |es| == n + 1
    ensures SomeUnbooked(c, d, es) <==> SomeUnbooked(c, d, es[..n]) || Unbooked(c, Before(Engine(c), d, es, n), es[n])
  {
    BeforeInit(Engine(c), d, es, n);
    if SomeUnbooked(c, d, es[..n]) {
      var k :| 0 <= k < n && Unbooked(c, Before(Engine(c), d, es[..n], k), es[..n][k]);
      assert Unbooked(c, Before(Engine(c), d, es, k), es[k]);
    }
    if k :| 0 <= k < n && Unbooked(c, Before(Engine(c), d, es, k), es[k]) {
      assert Unbooked(c, Before(Engine(c), d, es[..n], k), es[..n][k]);
    }
  }

  /** Over every run the bot has been asked to pause exactly when it had been at first or
      some fill could not be booked. */
  lemma {:induction false} PausedIff(c: Config, d: Desk, es: seq<Event>)
    requires Sound(d)
    ensures Run(Engine(c), d, es).paused <==> d.paused || SomeUnbooked(c, d, es)
  {
    if es != [] {
      var n := |es| - 1;
      PausedIff(c, d, es[..n]);
      BookStaysOrderly(c, d, es, n);
      SomeUnbookedSnoc(c, d, es, n);
      NextPauses(c, Before(Engine(c), d, es, n), es[n]);
    }
  }
}
