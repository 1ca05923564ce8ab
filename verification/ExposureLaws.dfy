/**
 Total exposure over whole runs (bot/hypertrade/engine/runner.py).
 */
module ExposureLaws {
  import opened Common
  import opened Traces
  import opened Book
  import opened Reconcile
  import opened ReconcileLaws
  import opened Signals
  import opened SignalLaws
  import opened BookLaws
  import Fills

  predicate Weighed(open: seq<Row>) {
    forall r :: r in open ==> 0.0 <= r.size && 0.0 <= r.entry
  }

  /** The open notional has not grown. */
  predicate Lightens(open: seq<Row>, open': seq<Row>) {
    Weighed(open) ==> Weighed(open') && Exposure(open') <= Exposure(open)
  }

  lemma NotionalMonotone(size: real, price: real, size': real, price': real)
    requires 0.0 <= size <= size' && 0.0 <= price <= price'
    ensures 0.0 <= Notional(size, price) <= Notional(size', price')
  {
    assert size * price <= size * price' <= size' * price';
  }

  lemma {:induction false} KeepLightens(open: seq<Row>, p: Row -> bool)
    requires Weighed(open)
    ensures Exposure(Keep(open, p)) <= Exposure(open)
  {
    if open != [] {
      KeepLightens(open[1..], p);
      assert open[0] in open;
      NotionalMonotone(open[0].size, open[0].entry, open[0].size, open[0].entry);
      var kept := Keep(open[1..], p);
      assert ([open[0]] + kept)[1..] == kept;
    }
  }

  lemma WithoutLightens(open: seq<Row>, id: nat)
    ensures Lightens(open, Without(open, id))
  {
    if Weighed(open) {
      KeepLightens(open, (r: Row) => r.id != id);
    }
  }

  lemma {:induction false} ResizeLightens(open: seq<Row>, id: nat, size: real)
    requires Weighed(open) && 0.0 <= size && forall r :: r in open && r.id == id ==> size <= r.size
    ensures Lightens(open, Resize(open, id, size))
  {
    var resized := Resize(open, id, size);
    if open != [] {
      ResizeLightens(open[1..], id, size);
      assert resized[1..] == Resize(open[1..], id, size);
      assert open[0] in open;
      NotionalMonotone(resized[0].size, open[0].entry, open[0].size, open[0].entry);
    }
  }

  lemma {:induction false} ExposureAppend(a: seq<Row>, r: Row)
    ensures Exposure(a + [r]) == Exposure(a) + Notional(r.size, r.entry)
  {
    if a == [] {
      assert a + [r] == [r];
      assert [r][1..] == [];
    } else {
      assert (a + [r])[1..] == a[1..] + [r];
      ExposureAppend(a[1..], r);
    }
  }

  // ----- When a short fill leaves no more than was there --------------------

  lemma NearestAtMost(x: real, m: int)
    ensures Nearest(x) <= m <==> x < m as real + 0.5 || (x == m as real + 0.5 && m % 2 == 0)
  {
  }

  lemma Scaled(a: real, x: real, step: Step)
    ensures a * step <= x <==> a <= x / step
  {
    assert x / step * step == x;
    if a <= x / step {
      Fills.MulLe(a, x / step, step);
    } else {
      assert (a - x / step) * step > 0.0;
    }
  }

  lemma LessSteps(rounded: real, n: real, x: real, step: Step)
    requires rounded == n * step
    ensures (rounded - x) / step == n - x / step
  {
    assert x / step * step == x;
    Fills.Distribute(step, n, -(x / step));
  }

  /** In steps: `q` was asked for, `f` of it filled, `n` is `q` rounded. */
  lemma RestInSteps(q: real, f: real, n: int, m: int)
    requires 0.0 <= f && n == Nearest(q) && m == Nearest(n as real - f)
    ensures m as real <= q <==> n as real <= q || f > 0.5 || (f == 0.5 && n % 2 == 1)
  {
    if n as real <= q {
      NearestAtMost(n as real - f, n);
    } else {
      assert n as real - 1.0 <= q;
      NearestAtMost(n as real - f, n - 1);
    }
  }

  /** The rounded rest of a short close is no more than was asked for: the request
      rounds to no more than itself, or more than half a size step filled, or
      exactly half of one where ties round down. */
  predicate LeavesNoMore(requested: real, filled: real, step: Step) {
    || filled >= requested || RoundTo(requested, step) <= requested
    || filled / step > 0.5 || (filled / step == 0.5 && Nearest(requested / step) % 2 == 1)
  }

  lemma RoundToSteps(x: real, step: Step, q: real)
    requires q == x / step
    ensures RoundTo(x, step) == Nearest(q) as real * step
    ensures RoundTo(x, step) <= x <==> Nearest(q) as real <= q
  {
    Scaled(Nearest(q) as real, x, step);
  }

  /** What a close leaves open, in steps. */
  lemma UnfilledSteps(requested: real, filled: real, step: Step, n: int, m: int)
    requires 0.0 <= requested && filled < requested
    requires n == Nearest(requested / step) && m == Nearest(n as real - filled / step)
    ensures Unfilled(requested, filled, step) <= requested <==> m as real <= requested / step
  {
    var rounded := RoundTo(requested, step);
    RestFits(requested, filled, step, rounded, RoundTo(rounded - filled, step), n, m);
  }

  lemma RestFits(requested: real, filled: real, step: Step, rounded: real, rest: real, n: int, m: int)
    requires rounded == n as real * step && rest == RoundTo(rounded - filled, step)
    requires m == Nearest(n as real - filled / step)
    ensures rest <= requested <==> m as real <= requested / step
  {
    RestSteps(rounded, filled, step, n, m);
    RestScales(requested, rest, step, m);
  }

  lemma RestScales(requested: real, rest: real, step: Step, m: int)
    requires rest == m as real * step
    ensures rest <= requested <==> m as real <= requested / step
  {
    Scaled(m as real, requested, step);
  }

  lemma RestSteps(rounded: real, filled: real, step: Step, n: int, m: int)
    requires rounded == n as real * step && m == Nearest(n as real - filled / step)
    ensures RoundTo(rounded - filled, step) == m as real * step
  {
    LessSteps(rounded, n as real, filled, step);
  }

  /** What a close leaves open is at most what it asked for, exactly then. */
  lemma UnfilledShrinksIff(requested: real, filled: real, step: Step)
    requires 0.0 <= requested && 0.0 <= filled
    ensures 0.0 <= Unfilled(requested, filled, step)
    ensures Unfilled(requested, filled, step) <= requested <==> LeavesNoMore(requested, filled, step)
  {
    if filled >= requested {
      assert Unfilled(requested, filled, step) == 0.0 && LeavesNoMore(requested, filled, step);
    } else {
      ShortShrinksIff(requested, filled, step, requested / step, filled / step, RoundTo(requested, step));
    }
  }

  lemma ShortShrinksIff(requested: real, filled: real, step: Step, q: real, f: real, rounded: real)
    requires 0.0 <= requested && 0.0 <= filled < requested
    requires q == requested / step && f == filled / step && rounded == RoundTo(requested, step)
    ensures Unfilled(requested, filled, step) <= requested
       <==> rounded <= requested || f > 0.5 || (f == 0.5 && Nearest(q) % 2 == 1)
  {
    var n := Nearest(q);
    var m := Nearest(n as real - f);
    var left := Unfilled(requested, filled, step);
    assert left <= requested <==> m as real <= q by { UnfilledSteps(requested, filled, step, n, m); }
    assert rounded <= requested <==> n as real <= q by { RoundToSteps(requested, step, q); }
    StepsFilled(filled, step);
    ShortFill(requested, left, rounded, q, f, n, m);
  }

  lemma ShortFill(requested: real, left: real, rounded: real, q: real, f: real, n: int, m: int)
    requires (left <= requested <==> m as real <= q) && (rounded <= requested <==> n as real <= q)
    requires 0.0 <= f && n == Nearest(q) && m == Nearest(n as real - f)
    ensures left <= requested <==> rounded <= requested || f > 0.5 || (f == 0.5 && n % 2 == 1)
  {
    RestInSteps(q, f, n, m);
  }

  lemma StepsFilled(filled: real, step: Step)
    requires 0.0 <= filled
    ensures 0.0 <= filled / step
  {
  }

  /** A fill of at least one size step always does. */
  lemma WholeStepsLeaveNoMore(requested: real, filled: real, step: Step)
    requires step <= filled
    ensures LeavesNoMore(requested, filled, step)
  {
    Scaled(1.0, filled, step);
  }

  /** A smaller one may not: a tenth of a step filled of six tenths leaves one. */
  lemma SubStepFillGrows()
    ensures Unfilled(0.6, 0.1, 1.0) == 1.0 && !LeavesNoMore(0.6, 0.1, 1.0)
  {
    UnfilledShrinksIff(0.6, 0.1, 1.0);
  }

  // ----- Sane fills -------------------------------------------------------

  /** A close that fills leaves no more on its row than it asked for. */
  predicate SaneClose(d: Desk, strategy: string, coin: string, w: CloseWorld) {
    var found := Find(d.db.open, strategy, coin);
    found.OneRow? && Executes(w) ==> LeavesNoMore(CloseSize(found.row, w.position), w.reply.size, w.step)
  }

  /** An open fills no more, and no dearer, than what was checked. */
  predicate NoLargerNoDearer(s: OpenSignal, r: Reply) {
    r.Answered? && r.filled ==> 0.0 <= r.size <= s.size && 0.0 <= FillPrice(r) <= s.price
  }

  predicate SaneEvent(d: Desk, e: Event) {
    match e
    case Open(s, w) => SaneClose(d, s.strategy, s.coin, w.close) && NoLargerNoDearer(s, w.reply)
    case Close(strategy, coin, _, w) => SaneClose(d, strategy, coin, w)
    case _ => true
  }

  // ----- Every operation but an open lightens -----------------------------

  lemma ClosePositionLightens(db: Db, orderId: OrderId, strategy: string, coin: string, tradeSide: OrderSide,
                              size: real, price: real, fee: real, pnl: real, remaining: real)
    requires Orderly(db.open) && 0.0 <= remaining
    requires forall r :: r in db.open && Holds(r, strategy, coin) ==> remaining <= r.size
    ensures var r := ClosePosition(db, orderId, strategy, coin, tradeSide, size, price, fee, pnl, remaining);
            r.Some? ==> Lightens(db.open, r.value.open)
  {
    var found := Find(db.open, strategy, coin);
    if found.OneRow? && Weighed(db.open) {
      FoundRow(db.open, strategy, coin);
      WithoutLightens(db.open, found.row.id);
      forall r | r in db.open && r.id == found.row.id ensures remaining <= r.size {
        SameIdSameRow(db.open, r, found.row);
      }
      ResizeLightens(db.open, found.row.id, remaining);
    }
  }

  lemma {:induction false} ApplyLightens(db: Db, plan: seq<Planned>)
    ensures Lightens(db.open, Apply(db, plan).open)
    decreases plan
  {
    if plan != [] {
      WithoutLightens(db.open, plan[0].row.id);
      ApplyLightens(CloseRow(db, plan[0].row.id, plan[0].priced), plan[1..]);
    }
  }

  lemma CloseSizeBounds(row: Row, position: Seen)
    requires 0.0 <= row.size
    ensures 0.0 <= CloseSize(row, position) <= row.size
  {
  }

  lemma BookCloseLightens(c: Config, d: Desk, row: Row, requested: real, w: CloseWorld)
    requires Orderly(d.db.open) && HoldsRow(d, row) && Executes(w) && 0.0 <= requested <= row.size
    requires LeavesNoMore(requested, w.reply.size, w.step)
    ensures Lightens(d.db.open, BookClose(c, d, row.strategy, row.coin, row.side, requested, w).0.db.open)
  {
    var (d2, out) := BookClose(c, d, row.strategy, row.coin, row.side, requested, w);
    var rest := Unfilled(requested, w.reply.size, w.step);
    BookCloseOutcome(c, d, row, requested, w, d2, out, rest);
    UnfilledShrinksIff(requested, w.reply.size, w.step);
    FoundRow(d.db.open, row.strategy, row.coin);
    WithoutLightens(d.db.open, row.id);
    if Weighed(d.db.open) {
      forall r | r in d.db.open && r.id == row.id ensures rest <= r.size {
        SameIdSameRow(d.db.open, r, row);
      }
      ResizeLightens(d.db.open, row.id, rest);
    }
  }

  lemma ExecuteCloseLightens(c: Config, d: Desk, strategy: string, coin: string, side: Side, w: CloseWorld)
    requires Orderly(d.db.open) && SaneClose(d, strategy, coin, w) && Weighed(d.db.open)
    ensures Lightens(d.db.open, ExecuteClose(c, d, strategy, coin, side, w).0.db.open)
  {
    var read := GetRow(d.db.open, strategy, coin, w.rowRead);
    if read.Answer? && read.row.Some? && read.row.value.side == side {
      var row := read.row.value;
      FoundRow(d.db.open, strategy, coin);
      CloseSizeBounds(row, w.position);
      var size := CloseSize(row, w.position);
      var d1 := Send(d, Order(coin, ClosingSide(side), size, true));
      if Executes(w) {
        BookCloseLightens(c, d1, row, size, w);
      } else if w.reply.Answered? {
        LeftOpenLightens(d1, row, w.reply.unknown, w);
      }
    }
  }

  lemma LeftOpenLightens(d: Desk, row: Row, unknown: bool, w: CloseWorld)
    ensures Lightens(d.db.open, CloseLeftOpen(d, row, unknown, w).0.db.open)
  {
    WithoutLightens(d.db.open, row.id);
  }

  lemma FlatRowLightens(c: Config, d: Desk, r: Row, p: Position, reply: Reply)
    requires reply.Answered? && Orderly(d.db.open) && Weighed(d.db.open)
    ensures var next := FlatRow(c, d, r, p, reply);
            next.Some? ==> Lightens(d.db.open, next.value.db.open) && Orderly(next.value.db.open)
  {
    var price, id := FillPrice(reply), Exchange(reply.id);
    var fee := TakerFee(price, r.size, c.takerFee);
    var pnl := RealizedPnl(r.side, r.entry, price, r.size, fee);
    ClosePositionLightens(d.db, id, r.strategy, p.coin, ClosingSide(p.side), r.size, price, fee, pnl, 0.0);
    ClosePositionShrinks(d.db, id, r.strategy, p.coin, ClosingSide(p.side), r.size, price, fee, pnl, 0.0);
    var next := FlatRow(c, d, r, p, reply);
    if next.Some? {
      ShrinkingKeepsOrder(c, d.db.open, next.value.db.open);
    }
  }

  ghost predicate OrderlyLightens(d: Desk, d': Desk) {
    Orderly(d.db.open) && Weighed(d.db.open) ==>
      Orderly(d'.db.open) && Weighed(d'.db.open) && Exposure(d'.db.open) <= Exposure(d.db.open)
  }

  lemma FlatRowsLightens(c: Config, d: Desk, rows: seq<Row>, p: Position, reply: Reply, writes: nat)
    requires reply.Answered?
    ensures OrderlyLightens(d, FlatRows(c, d, rows, p, reply, writes).0)
  {
    var write := FlatWrite(c, p, reply);
    forall x, r | write(x, r).Some? ensures OrderlyLightens(x, write(x, r).value) {
      if Orderly(x.db.open) && Weighed(x.db.open) { FlatRowLightens(c, x, r, p, reply); }
    }
    EachRelates(write, d, rows, writes, OrderlyLightens);
  }

  // ----- Opens stay under the cap -----------------------------------------

  predicate UnderCap(c: Config, open: seq<Row>) {
    c.exposureCap > 0.0 ==> Exposure(open) <= c.exposureCap
  }

  /** `base` is what was counted against the cap, or less. */
  lemma SendOpenUnderCap(c: Config, d: Desk, s: OpenSignal, flipped: bool, w: OpenWorld, counted: real)
    requires Weighed(d.db.open) && UnderCap(c, d.db.open) && Exposure(d.db.open) <= counted
    requires NoLargerNoDearer(s, w.reply)
    requires c.exposureCap > 0.0 ==> counted + Notional(s.size, s.price) <= c.exposureCap
    ensures var open := SendOpen(c, d, s, flipped, w).0.db.open; Weighed(open) && UnderCap(c, open)
  {
    if w.reply.Answered? && w.reply.filled {
      var row := Row(d.db.nextRow, s.strategy, s.coin, s.side, w.reply.size, FillPrice(w.reply), s.atMs);
      ExposureAppend(d.db.open, row);
      NotionalMonotone(w.reply.size, FillPrice(w.reply), s.size, s.price);
    }
  }

  /** The counted rows are the book without the position a flip closes. */
  lemma CountedIsRest(open: seq<Row>, s: OpenSignal)
    requires Orderly(open)
    ensures Find(open, s.strategy, s.coin).NoRow? ==> Counted(open, s) == open
    ensures Find(open, s.strategy, s.coin).OneRow? ==>
              Counted(open, s) == Without(open, Find(open, s.strategy, s.coin).row.id)
  {
    FindExact(open, s.strategy, s.coin);
    var other := (r: Row) => !Holds(r, s.strategy, s.coin);
    if Find(open, s.strategy, s.coin).NoRow? {
      KeepEverything(open, other);
    } else {
      var row := Find(open, s.strategy, s.coin).row;
      FoundRow(open, s.strategy, s.coin);
      forall r | r in open ensures other(r) == (r.id != row.id) {
        if r.id == row.id { SameIdSameRow(open, r, row); }
      }
      KeepCong(open, other, (r: Row) => r.id != row.id);
    }
  }

  lemma {:induction false} KeepEverything(open: seq<Row>, p: Row -> bool)
    requires forall r :: r in open ==> p(r)
    ensures Keep(open, p) == open
  {
    if open != [] {
      KeepEverything(open[1..], p);
    }
  }

  ghost predicate Capped(c: Config, d: Desk) {
    Sound(d) && Weighed(d.db.open) && UnderCap(c, d.db.open)
  }

  lemma FlipUnderCap(c: Config, d: Desk, s: OpenSignal, w: OpenWorld, row: Row)
    requires Capped(c, d) && SaneClose(d, s.strategy, s.coin, w.close) && NoLargerNoDearer(s, w.reply)
    requires Find(d.db.open, s.strategy, s.coin) == OneRow(row)
    ensures var open := FlipClose(c, d, row, w).0.db.open; Weighed(open) && UnderCap(c, open)
    ensures w.riskOk && ReachesClose(c, d, s, w) ==>
              var open := FlipOpen(c, d, s, row, w).0.db.open; Weighed(open) && UnderCap(c, open)
  {
    FoundRow(d.db.open, s.strategy, s.coin);
    var (d1, out1) := FlipClose(c, d, row, w);
    ExecuteCloseLightens(c, d, row.strategy, row.coin, row.side, w.close);
    if w.riskOk && ReachesClose(c, d, s, w) && out1 == Finished(true) {
      CountedIsRest(d.db.open, s);
      FlipCloseRest(c, d, row, w, d1);
      SendOpenUnderCap(c, d1, s, true, w, Exposure(Counted(d.db.open, s)));
    }
  }

  lemma FlipCloseRest(c: Config, d: Desk, row: Row, w: OpenWorld, d1: Desk)
    requires Orderly(d.db.open) && HoldsRow(d, row) && FlipClose(c, d, row, w) == (d1, Finished(true))
    ensures d1.db.open == Without(d.db.open, row.id)
  {
    FoundRow(d.db.open, row.strategy, row.coin);
    var (d2, out2, settled) := ExecuteClose(c, d, row.strategy, row.coin, row.side, w.close);
    ClosedIff(c, d, row, w.close, d2, out2, settled);
    FilledCloseExact(c, d, row, w.close, d2, out2, settled, 0.0);
  }

  lemma ExecuteOpenUnderCap(c: Config, d: Desk, s: OpenSignal, w: OpenWorld)
    requires Capped(c, d) && SaneClose(d, s.strategy, s.coin, w.close) && NoLargerNoDearer(s, w.reply)
    ensures var open := ExecuteOpen(c, d, s, w).0.db.open; Weighed(open) && UnderCap(c, open)
  {
    var read := GetRow(d.db.open, s.strategy, s.coin, w.rowRead);
    if read == Answer(None) && w.riskOk && w.gateRead && !Refused(c, d.db.open, s, w.allowMulti) && w.leverageOk {
      CountedIsRest(d.db.open, s);
      SendOpenUnderCap(c, d, s, false, w, Exposure(d.db.open));
    } else if read.Answer? && read.row.Some? && read.row.value.side != s.side {
      FlipUnderCap(c, d, s, w, read.row.value);
    }
  }

  lemma NextUnderCap(c: Config, d: Desk, e: Event)
    requires Capped(c, d) && SaneEvent(d, e)
    ensures Capped(c, Next(c, d, e))
  {
    NextSound(c, d, e);
    match e
    case Open(s, w) => ExecuteOpenUnderCap(c, EmitOpen(d, s), s, w);
    case Close(strategy, coin, side, w) => ExecuteCloseLightens(c, Reset(d, strategy), strategy, coin, side, w);
    case Flat(p, ok, reply, writes) =>
      if reply.Answered? {
        FlatRowsLightens(c, Send(d, CloseOrder(p)), RowsOn(d.db.open, p.coin), p, reply, writes);
      }
    case Reconcile(a, w) =>
      PassExtendsApply(d.db, a, w);
      ApplyLightens(d.db, PassPlan(d.db, a, w));
      TellAllKeeps(d.(db := Pass(d.db, a, w).0, sent := d.sent + Pass(d.db, a, w).1.sent), Pass(d.db, a, w).1.told);
  }

  /** If opens fill no larger and no dearer than checked, and no close leaves more
      on its row than it asked for, the open notional stays within the cap in
      every reachable state. */
  lemma ExposureStaysCapped(c: Config, d: Desk, es: seq<Event>, i: nat)
    requires Capped(c, d) && i <= |es|
    requires forall j :: 0 <= j < i ==> SaneEvent(Before(Engine(c), d, es, j), es[j])
    ensures UnderCap(c, Before(Engine(c), d, es, i).db.open)
  {
    var inv := (x: Desk) => Capped(c, x);
    forall x, e | inv(x) && SaneEvent(x, e) ensures inv(Engine(c)(x, e)) { NextUnderCap(c, x, e); }
    Always(Engine(c), d, es, inv, SaneEvent, i);
  }
}
