/**
 Replaying candles through a strategy, and the drawdown of the curve it leaves
 (bot/hypertrade/backtest/runner.py, bot/hypertrade/backtest/metrics.py).
 */
module Backtest {
  import opened Common

  datatype Signal = Hold | Open(side: Side) | Close(side: Side)

  datatype Trade = Trade(side: OrderSide, price: real, size: real, fee: real, pnl: Option<real>)

  datatype Position = Position(side: Side, size: real, entry: real)

  datatype Run = Run(equity: real, fees: real, position: Option<Position>, trades: seq<Trade>)

  /** A bar's close and what the strategy says on it. */
  datatype Bar = Bar(close: real, signal: Signal)

  datatype Config = Config(notional: real, feeRate: real, slippage: real)

  ghost predicate Sane(c: Config, bars: seq<Bar>) {
    0.0 <= c.slippage < 1.0 && forall b :: b in bars ==> 0.0 < b.close
  }

  /** Slippage works against the order. */
  function FillAt(close: real, o: OrderSide, c: Config): (price: real)
    requires 0.0 < close && 0.0 <= c.slippage < 1.0
    ensures 0.0 < price && if o.Buy? then price >= close else price <= close
  {
    Scaled(close, if o.Buy? then 1.0 + c.slippage else 1.0 - c.slippage)
  }

  function Scaled(x: real, factor: real): (y: real)
    requires 0.0 < x && 0.0 < factor
    ensures 0.0 < y && (factor >= 1.0 ==> y >= x) && (factor <= 1.0 ==> y <= x)
  {
    assert factor >= 1.0 ==> x * (factor - 1.0) >= 0.0;
    assert factor <= 1.0 ==> x * (1.0 - factor) >= 0.0;
    x * factor
  }

  function Fee(price: real, size: real, rate: real): real {
    price * size * rate
  }

  function Gross(p: Position, price: real): real {
    if p.side.Long? then (price - p.entry) * p.size else (p.entry - price) * p.size
  }

  function OpenAt(r: Run, side: Side, close: real, c: Config): Run
    requires 0.0 < close && 0.0 <= c.slippage < 1.0
  {
    var price := FillAt(close, OpeningSide(side), c);
    var size := c.notional / price;
    var fee := Fee(price, size, c.feeRate);
    Run(r.equity - fee, r.fees + fee, Some(Position(side, size, price)),
        r.trades + [Trade(OpeningSide(side), price, size, fee, None)])
  }

  function CloseAt(r: Run, close: real, c: Config): Run
    requires r.position.Some? && 0.0 < close && 0.0 <= c.slippage < 1.0
  {
    var p := r.position.value;
    var price := FillAt(close, ClosingSide(p.side), c);
    var fee := Fee(price, p.size, c.feeRate);
    var net := Gross(p, price) - fee;
    Run(r.equity + net, r.fees + fee, None, r.trades + [Trade(ClosingSide(p.side), price, p.size, fee, Some(net))])
  }

  /** A flip is a close and then an open. */
  function Step(r: Run, b: Bar, c: Config): Run
    requires 0.0 < b.close && 0.0 <= c.slippage < 1.0
  {
    match b.signal
    case Hold => r
    case Close(side) => if r.position.Some? && r.position.value.side == side then CloseAt(r, b.close, c) else r
    case Open(side) =>
      if r.position.None? then OpenAt(r, side, b.close, c)
      else if r.position.value.side == side then r
      else OpenAt(CloseAt(r, b.close, c), side, b.close, c)
  }

  function Replay(r: Run, bars: seq<Bar>, c: Config): Run
    requires Sane(c, bars)
  {
    if bars == [] then r else Step(Replay(r, bars[..|bars| - 1], c), bars[|bars| - 1], c)
  }

  /** Equity with the open position marked at `close`. */
  function Marked(r: Run, close: real): real {
    r.equity + if r.position.Some? then Gross(r.position.value, close) else 0.0
  }

  function Begin(initial: real): Run {
    Run(initial, 0.0, None, [])
  }

  /** One bar, with each flip written out as one arm. */
  method TakeSignal(b: Bar, c: Config, equity: real, fees: real, position: Option<Position>, trades: seq<Trade>)
    returns (equity': real, fees': real, position': Option<Position>, trades': seq<Trade>)
    requires 0.0 < b.close && 0.0 <= c.slippage < 1.0
    ensures Run(equity', fees', position', trades') == Step(Run(equity, fees, position, trades), b, c)
  {
    equity', fees', position', trades' := equity, fees, position, trades;
    match b.signal {
      case Hold =>
      case Close(side) =>
        if position.Some? && position.value.side == side {
          var price := FillAt(b.close, ClosingSide(side), c);
          var gross, fee := Gross(position.value, price), Fee(price, position.value.size, c.feeRate);
          trades' := trades + [Trade(ClosingSide(side), price, position.value.size, fee, Some(gross - fee))];
          equity', fees', position' := equity + (gross - fee), fees + fee, None;
        }
      case Open(side) =>
        if position.None? {
          var price := FillAt(b.close, OpeningSide(side), c);
          var size := c.notional / price;
          var fee := Fee(price, size, c.feeRate);
          equity', fees', position' := equity - fee, fees + fee, Some(Position(side, size, price));
          trades' := trades + [Trade(OpeningSide(side), price, size, fee, None)];
        } else if position.value.side != side {
          var p := position.value;
          var closeAt := FillAt(b.close, OpeningSide(side), c);
          var gross, feeClose := Gross(p, closeAt), Fee(closeAt, p.size, c.feeRate);
          equity' := equity + (gross - feeClose);
          fees' := fees + feeClose;
          trades' := trades + [Trade(OpeningSide(side), closeAt, p.size, feeClose, Some(gross - feeClose))];
          var openAt := FillAt(b.close, OpeningSide(side), c);
          var size := c.notional / openAt;
          var feeOpen := Fee(openAt, size, c.feeRate);
          equity' := equity' - feeOpen;
          fees' := fees' + feeOpen;
          position' := Some(Position(side, size, openAt));
          trades' := trades' + [Trade(OpeningSide(side), openAt, size, feeOpen, None)];
        }
    }
  }

  /** The equity curve: each bar marks the position left by the bars before. */
  function Curve(bars: seq<Bar>, c: Config, initial: real): (curve: seq<real>)
    requires Sane(c, bars)
    ensures |curve| == |bars|
  {
    if bars == [] then []
    else
      var before, last := bars[..|bars| - 1], bars[|bars| - 1];
      Curve(before, c, initial) + [Marked(Replay(Begin(initial), before, c), last.close)]
  }

  lemma {:induction false} CurveAt(bars: seq<Bar>, c: Config, initial: real, i: nat)
    requires Sane(c, bars) && i < |bars|
    ensures Curve(bars, c, initial)[i] == Marked(Replay(Begin(initial), bars[..i], c), bars[i].close)
  {
    if i < |bars| - 1 {
      CurveAt(bars[..|bars| - 1], c, initial, i);
      assert bars[..|bars| - 1][..i] == bars[..i];
    }
  }

  lemma ReplayNext(bars: seq<Bar>, i: nat, c: Config, initial: real)
    requires Sane(c, bars) && i < |bars|
    ensures 0.0 < bars[i].close
    ensures Replay(Begin(initial), bars[..i + 1], c) == Step(Replay(Begin(initial), bars[..i], c), bars[i], c)
    ensures Curve(bars[..i + 1], c, initial)
         == Curve(bars[..i], c, initial) + [Marked(Replay(Begin(initial), bars[..i], c), bars[i].close)]
  {
    assert bars[..i + 1][..i] == bars[..i];
  }

  datatype Report = Report(run: Run, curve: seq<real>, final: real)

  /** The bars the strategy is asked about: those after the warm-up. */
  function Live(candles: seq<Bar>, warmup: nat): seq<Bar> {
    if warmup <= |candles| then candles[warmup..] else []
  }

  /** `run_backtest`: the run, the equity curve marked before each bar's signal is
      acted on, and the final equity marked at the last close. No candles is an
      error. */
  method RunBacktest(candles: seq<Bar>, warmup: nat, c: Config, initial: real) returns (r: Option<Report>)
    requires Sane(c, candles)
    ensures r.None? <==> candles == []
    ensures r.Some? ==>
              var bars, report := Live(candles, warmup), r.value;
              && report.run == Replay(Begin(initial), bars, c)
              && report.curve == Curve(bars, c, initial)
              && report.final == Marked(report.run, candles[|candles| - 1].close)
  {
    if candles == [] {
      return None;
    }
    var bars := Live(candles, warmup);
    var equity, fees, position, trades := initial, 0.0, None, [];
    var curve, i := [], 0;
    while i < |bars|
      invariant i <= |bars|
      invariant Run(equity, fees, position, trades) == Replay(Begin(initial), bars[..i], c)
      invariant curve == Curve(bars[..i], c, initial)
    {
      ReplayNext(bars, i, c, initial);
      curve := curve + [equity + if position.Some? then Gross(position.value, bars[i].close) else 0.0];
      equity, fees, position, trades := TakeSignal(bars[i], c, equity, fees, position, trades);
      i := i + 1;
    }
    assert bars[..i] == bars;
    var final := equity + if position.Some? then Gross(position.value, candles[|candles| - 1].close) else 0.0;
    return Some(Report(Run(equity, fees, position, trades), curve, final));
  }

  // ----- Accounting -------------------------------------------------------

  function Sum(f: Trade -> real, trades: seq<Trade>): real {
    if trades == [] then 0.0 else Sum(f, trades[..|trades| - 1]) + f(trades[|trades| - 1])
  }

  function FeeOf(t: Trade): real {
    t.fee
  }

  /** What a trade does to equity: its PnL, or for an opening one its fee. */
  function Impact(t: Trade): real {
    if t.pnl.Some? then t.pnl.value else -t.fee
  }

  function SignedSize(t: Trade): real {
    if t.side.Buy? then t.size else -t.size
  }

  function Net(p: Option<Position>): real {
    if p.None? then 0.0 else if p.value.side.Long? then p.value.size else -p.value.size
  }

  lemma SumSnoc(f: Trade -> real, trades: seq<Trade>, t: Trade)
    ensures Sum(f, trades + [t]) == Sum(f, trades) + f(t)
  {
    assert (trades + [t])[..|trades|] == trades;
  }

  // ----- Signals and prices -------------------------------------------------

  /** What a signal leaves: an open leaves a position on its side and does nothing when
      there is one; a close leaves none on its side and does nothing otherwise. */
  lemma SignalLeaves(r: Run, b: Bar, c: Config)
    requires 0.0 < b.close && 0.0 <= c.slippage < 1.0
    ensures var r' := Step(r, b, c);
            match b.signal
            case Hold => r' == r
            case Open(side) =>
              r'.position.Some? && r'.position.value.side == side
              && |r'.trades| == |r.trades| + (if r.position.None? then 1
                                              else if r.position.value.side == side then 0 else 2)
            case Close(side) =>
              if r.position.Some? && r.position.value.side == side
              then r'.position.None? && |r'.trades| == |r.trades| + 1
              else r' == r
  {
  }

  /** The close moved against an order by the slippage. */
  predicate Slipped(price: real, o: OrderSide, close: real, c: Config) {
    price == close + (if o.Buy? then c.slippage * close else -(c.slippage * close))
  }

  /** A trade fills at a close moved against it by the slippage, pays the fee rate on its
      notional, and an opening one is for the configured notional. */
  ghost predicate WellPriced(t: Trade, bars: seq<Bar>, c: Config) {
    && (exists i :: 0 <= i < |bars| && Slipped(t.price, t.side, bars[i].close, c))
    && t.fee == t.price * t.size * c.feeRate && (t.pnl.None? ==> t.price * t.size == c.notional)
  }

  lemma FillAtIs(close: real, o: OrderSide, c: Config)
    requires 0.0 < close && 0.0 <= c.slippage < 1.0
    ensures Slipped(FillAt(close, o, c), o, close, c)
  {
    assert close * (1.0 + c.slippage) == close + c.slippage * close;
    assert close * (1.0 - c.slippage) == close - c.slippage * close;
  }

  lemma OpensWell(r: Run, side: Side, b: Bar, c: Config)
    requires 0.0 < b.close && 0.0 <= c.slippage < 1.0
    ensures OpenAt(r, side, b.close, c).trades[..|r.trades|] == r.trades
    ensures |OpenAt(r, side, b.close, c).trades| == |r.trades| + 1
    ensures WellPriced(OpenAt(r, side, b.close, c).trades[|r.trades|], [b], c)
  {
    var t := OpenAt(r, side, b.close, c).trades[|r.trades|];
    FillAtIs(b.close, OpeningSide(side), c);
    SizeOf(c.notional, t.price);
    assert [b][0] == b;
  }

  lemma SizeOf(notional: real, price: real)
    requires 0.0 < price
    ensures price * (notional / price) == notional
  {
  }

  lemma ClosesWell(r: Run, b: Bar, c: Config)
    requires r.position.Some? && 0.0 < b.close && 0.0 <= c.slippage < 1.0
    ensures CloseAt(r, b.close, c).trades[..|r.trades|] == r.trades
    ensures |CloseAt(r, b.close, c).trades| == |r.trades| + 1
    ensures WellPriced(CloseAt(r, b.close, c).trades[|r.trades|], [b], c)
  {
    FillAtIs(b.close, ClosingSide(r.position.value.side), c);
    assert [b][0] == b;
  }

  lemma WellPricedWithin(t: Trade, some: seq<Bar>, bars: seq<Bar>, c: Config)
    requires WellPriced(t, some, c) && forall b :: b in some ==> b in bars
    ensures WellPriced(t, bars, c)
  {
    var i :| 0 <= i < |some| && Slipped(t.price, t.side, some[i].close, c);
    assert some[i] in some;
    var n :| 0 <= n < |bars| && bars[n] == some[i];
  }

  lemma StepsWell(r: Run, b: Bar, c: Config, t: Trade)
    requires 0.0 < b.close && 0.0 <= c.slippage < 1.0 && t in Step(r, b, c).trades
    ensures t in r.trades || WellPriced(t, [b], c)
  {
    if r.position.Some? {
      ClosesWell(r, b, c);
      OpensWell(CloseAt(r, b.close, c), if b.signal.Open? then b.signal.side else Long, b, c);
    }
    OpensWell(r, if b.signal.Open? then b.signal.side else Long, b, c);
  }

  /** Over every sequence of bars. */
  lemma {:induction false} ReplayPricesWell(bars: seq<Bar>, c: Config, initial: real, t: Trade)
    requires Sane(c, bars) && t in Replay(Begin(initial), bars, c).trades
    ensures WellPriced(t, bars, c)
  {
    if bars != [] {
      var before, last := bars[..|bars| - 1], bars[|bars| - 1];
      assert last in bars;
      StepsWell(Replay(Begin(initial), before, c), last, c, t);
      if t in Replay(Begin(initial), before, c).trades {
        ReplayPricesWell(before, c, initial, t);
        WellPricedWithin(t, before, bars, c);
      } else {
        WellPricedWithin(t, [last], bars, c);
      }
    }
  }

  // ----- Cash ---------------------------------------------------------------

  function Cash(t: Trade): real {
    CashFlow(t.side, t.price, t.size)
  }

  /** Equity without the open position's gain is cash in, cash out, fees, and the
      position at its entry. */
  predicate CashAccounted(r: Run, initial: real) {
    r.equity == initial + Sum(Cash, r.trades) - r.fees
                + AtPrice(r.position, if r.position.Some? then r.position.value.entry else 0.0)
  }

  /** What a position is worth at a price: a short is worth what it costs to buy
      back. */
  function AtPrice(p: Option<Position>, price: real): real {
    if p.None? then 0.0 else if p.value.side.Long? then price * p.value.size else -(price * p.value.size)
  }

  lemma OpenCash(r: Run, side: Side, close: real, c: Config, initial: real)
    requires CashAccounted(r, initial) && r.position.None? && 0.0 < close && 0.0 <= c.slippage < 1.0
    ensures CashAccounted(OpenAt(r, side, close, c), initial)
  {
    var r' := OpenAt(r, side, close, c);
    SumSnoc(Cash, r.trades, r'.trades[|r.trades|]);
  }

  lemma CloseCash(r: Run, close: real, c: Config, initial: real)
    requires CashAccounted(r, initial) && r.position.Some? && 0.0 < close && 0.0 <= c.slippage < 1.0
    ensures CashAccounted(CloseAt(r, close, c), initial)
  {
    var r', p := CloseAt(r, close, c), r.position.value;
    SumSnoc(Cash, r.trades, r'.trades[|r.trades|]);
    GrossIs(p, r'.trades[|r.trades|].price);
  }

  /** What a position has gained is what it is worth less what it was. */
  lemma GrossIs(p: Position, price: real)
    ensures Gross(p, price) == AtPrice(Some(p), price) - AtPrice(Some(p), p.entry)
  {
    assert (price - p.entry) * p.size == price * p.size - p.entry * p.size;
  }

  lemma StepCash(r: Run, b: Bar, c: Config, initial: real)
    requires CashAccounted(r, initial) && 0.0 < b.close && 0.0 <= c.slippage < 1.0
    ensures CashAccounted(Step(r, b, c), initial)
  {
    match b.signal
    case Open(side) =>
      if r.position.None? {
        OpenCash(r, side, b.close, c, initial);
      } else if r.position.value.side != side {
        CloseCash(r, b.close, c, initial);
        OpenCash(CloseAt(r, b.close, c), side, b.close, c, initial);
      }
    case Close(side) =>
      if r.position.Some? && r.position.value.side == side {
        CloseCash(r, b.close, c, initial);
      }
    case Hold =>
  }

  lemma {:induction false} ReplayCash(bars: seq<Bar>, c: Config, initial: real)
    requires Sane(c, bars)
    ensures CashAccounted(Replay(Begin(initial), bars, c), initial)
  {
    if bars != [] {
      assert bars[|bars| - 1] in bars;
      ReplayCash(bars[..|bars| - 1], c, initial);
      StepCash(Replay(Begin(initial), bars[..|bars| - 1], c), bars[|bars| - 1], c, initial);
    }
  }

  /** What a run is worth at any mark is the money put in, what its orders paid and
      received, less fees, and the open position at that mark. */
  lemma MarkedIsCash(bars: seq<Bar>, c: Config, initial: real, mark: real)
    requires Sane(c, bars)
    ensures var r := Replay(Begin(initial), bars, c);
            Marked(r, mark) == initial + Sum(Cash, r.trades) - r.fees + AtPrice(r.position, mark)
  {
    var r := Replay(Begin(initial), bars, c);
    ReplayCash(bars, c, initial);
    if r.position.Some? {
      GrossIs(r.position.value, mark);
    }
  }

  predicate Accounted(r: Run, initial: real) {
    && r.equity == initial + Sum(Impact, r.trades)
    && r.fees == Sum(FeeOf, r.trades)
    && Net(r.position) == Sum(SignedSize, r.trades)
  }

  lemma OpenAccounted(r: Run, side: Side, close: real, c: Config, initial: real)
    requires Accounted(r, initial) && r.position.None? && 0.0 < close && 0.0 <= c.slippage < 1.0
    ensures Accounted(OpenAt(r, side, close, c), initial)
  {
    var next := OpenAt(r, side, close, c);
    var t := next.trades[|r.trades|];
    SumSnoc(Impact, r.trades, t);
    SumSnoc(FeeOf, r.trades, t);
    SumSnoc(SignedSize, r.trades, t);
  }

  lemma CloseAccounted(r: Run, close: real, c: Config, initial: real)
    requires Accounted(r, initial) && r.position.Some? && 0.0 < close && 0.0 <= c.slippage < 1.0
    ensures Accounted(CloseAt(r, close, c), initial)
  {
    var next := CloseAt(r, close, c);
    var t := next.trades[|r.trades|];
    SumSnoc(Impact, r.trades, t);
    SumSnoc(FeeOf, r.trades, t);
    SumSnoc(SignedSize, r.trades, t);
  }

  /** For every candle and signal sequence: equity is the initial one plus every
      closing PnL less every opening fee, the fees paid are the trades' fees,
      and the trades' signed sizes add up to the open position. */
  lemma {:induction false} ReplayAccounted(bars: seq<Bar>, c: Config, initial: real)
    requires Sane(c, bars)
    ensures Accounted(Replay(Begin(initial), bars, c), initial)
  {
    if bars != [] {
      var n := |bars| - 1;
      ReplayAccounted(bars[..n], c, initial);
      var r, b := Replay(Begin(initial), bars[..n], c), bars[n];
      assert b in bars;
      if b.signal.Open? && r.position.None? {
        OpenAccounted(r, b.signal.side, b.close, c, initial);
      } else if b.signal.Open? && r.position.value.side != b.signal.side {
        CloseAccounted(r, b.close, c, initial);
        OpenAccounted(CloseAt(r, b.close, c), b.signal.side, b.close, c, initial);
      } else if b.signal.Close? && r.position.Some? {
        CloseAccounted(r, b.close, c, initial);
      }
    }
  }

  // ----- Drawdown ---------------------------------------------------------

  /** The fall from `from` to `to`, as a part of `from`. */
  function Fall(from: real, to: real): real
    requires 0.0 < from
  {
    (from - to) / from
  }

  lemma FallTimes(from: real, to: real)
    requires 0.0 < from
    ensures (1.0 - Fall(from, to)) * from == to
  {
  }

  /** The largest fall over all pairs of points, earlier to later; 0 when there
      is none. */
  ghost predicate IsMaxDrawdown(curve: seq<real>, r: real) {
    && 0.0 <= r
    && (forall i, j :: 0 <= i <= j < |curve| && 0.0 < curve[i] ==> Fall(curve[i], curve[j]) <= r)
    && (r == 0.0 || exists i, j :: 0 <= i <= j < |curve| && 0.0 < curve[i] && r == Fall(curve[i], curve[j]))
  }

  /** The highest point up to `j`. */
  function Peak(curve: seq<real>, j: nat): (p: real)
    requires j < |curve|
    ensures forall i :: 0 <= i <= j ==> curve[i] <= p
    ensures exists i :: 0 <= i <= j && p == curve[i]
  {
    if j == 0 then curve[0] else Max(Peak(curve, j - 1), curve[j])
  }

  /** The largest fall from the highest point so far, where that is positive,
      over the first `n` points. */
  ghost predicate PeakSoFar(curve: seq<real>, n: nat, r: real)
    requires n <= |curve|
  {
    && 0.0 <= r
    && (forall j :: 0 <= j < n ==> WithinPeak(curve, j, r))
    && (r == 0.0 || exists j :: 0 <= j < n && AtPeak(curve, j, r))
  }

  predicate WithinPeak(curve: seq<real>, j: nat, r: real)
    requires j < |curve|
  {
    0.0 < Peak(curve, j) ==> Fall(Peak(curve, j), curve[j]) <= r
  }

  predicate AtPeak(curve: seq<real>, j: nat, r: real)
    requires j < |curve|
  {
    0.0 < Peak(curve, j) && r == Fall(Peak(curve, j), curve[j])
  }

  ghost predicate IsPeakDrawdown(curve: seq<real>, r: real) {
    PeakSoFar(curve, |curve|, r)
  }

  /** From a higher point the fall to a non-negative value is at least as large. */
  lemma HigherFallsMore(low: real, high: real, to: real)
    requires 0.0 < low <= high && 0.0 <= to
    ensures Fall(low, to) <= Fall(high, to)
  {
    FallTimes(low, to);
    FallTimes(high, to);
    SlowerFalls(1.0 - Fall(low, to), 1.0 - Fall(high, to), low, high, to);
  }

  lemma SlowerFalls(a: real, b: real, low: real, high: real, to: real)
    requires 0.0 < low <= high && 0.0 <= to && a * low == to && b * high == to
    ensures b <= a
  {
    assert b > a ==> (b - a) * low > 0.0;
  }

  /** The fall from the peak is the largest over all pairs exactly when no pair
      that ends below zero falls further. */
  lemma PeakIsPairwiseIff(curve: seq<real>, r: real)
    requires IsPeakDrawdown(curve, r)
    ensures IsMaxDrawdown(curve, r) <==> BelowZeroWithin(curve, r)
  {
    if BelowZeroWithin(curve, r) {
      forall i, j | 0 <= i <= j < |curve| && 0.0 < curve[i] ensures Fall(curve[i], curve[j]) <= r {
        if 0.0 <= curve[j] {
          PeakBoundsPair(curve, r, i, j);
        }
      }
      PeakIsAPair(curve, r);
    }
  }

  /** No pair that ends below zero falls further than `r`. */
  ghost predicate BelowZeroWithin(curve: seq<real>, r: real) {
    forall i, j :: 0 <= i <= j < |curve| && 0.0 < curve[i] && curve[j] < 0.0 ==> Fall(curve[i], curve[j]) <= r
  }

  lemma PeakBoundsPair(curve: seq<real>, r: real, i: nat, j: nat)
    requires IsPeakDrawdown(curve, r) && i <= j < |curve| && 0.0 < curve[i] && 0.0 <= curve[j]
    ensures Fall(curve[i], curve[j]) <= r
  {
    var peak := Peak(curve, j);
    assert curve[i] <= peak && WithinPeak(curve, j, r);
    HigherFallsMore(curve[i], peak, curve[j]);
  }

  lemma PeakIsAPair(curve: seq<real>, r: real)
    requires IsPeakDrawdown(curve, r)
    ensures r == 0.0 || exists i, j :: 0 <= i <= j < |curve| && 0.0 < curve[i] && r == Fall(curve[i], curve[j])
  {
    if r != 0.0 {
      var j :| 0 <= j < |curve| && AtPeak(curve, j, r);
      var i :| 0 <= i <= j && Peak(curve, j) == curve[i];
      assert r == Fall(curve[i], curve[j]);
    }
  }

  /** Below zero they differ: after 1 and 2, a fall to -1 is half as large again as
      the peak, and twice the first point. */
  lemma NegativeCurveDiffers()
    ensures IsPeakDrawdown([1.0, 2.0, -1.0], 1.5) && !IsMaxDrawdown([1.0, 2.0, -1.0], 1.5)
  {
    var curve := [1.0, 2.0, -1.0];
    assert Peak(curve, 0) == 1.0 && Peak(curve, 1) == 2.0 && Peak(curve, 2) == 2.0;
    assert Fall(1.0, 1.0) == 0.0 && Fall(2.0, 2.0) == 0.0 && Fall(2.0, -1.0) == 1.5 && Fall(1.0, -1.0) == 2.0;
    assert IsPeakDrawdown(curve, 1.5) by {
      assert AtPeak(curve, 2, 1.5);
      forall j | 0 <= j < |curve| ensures WithinPeak(curve, j, 1.5) {
        assert j == 0 || j == 1 || j == 2;
      }
    }
    assert Fall(curve[0], curve[2]) == 2.0;
  }

  /** One pass with a running peak finds the largest fall from the peak. That is
      the largest over all pairs exactly when no pair ending below zero falls
      further; so always on a curve without negative points. */
  method MaxDrawdownPct(curve: seq<real>) returns (r: real)
    ensures IsPeakDrawdown(curve, r)
    ensures IsMaxDrawdown(curve, r) <==> BelowZeroWithin(curve, r)
  {
    r := 0.0;
    if curve == [] {
      PeakIsPairwiseIff(curve, r);
      return;
    }
    var peak, i := curve[0], 0;
    while i < |curve|
      invariant i <= |curve| && peak == if i == 0 then curve[0] else Peak(curve, i - 1)
      invariant PeakSoFar(curve, i, r)
    {
      var v := curve[i];
      ghost var was := r;
      if v > peak {
        peak := v;
      }
      r := Deeper(peak, v, r);
      DeeperFits(curve, i, was, r);
      PeakNext(curve, i, was, r);
      i := i + 1;
    }
    PeakIsPairwiseIff(curve, r);
  }

  /** The deeper of a fall from the peak and the deepest so far. */
  function Deeper(peak: real, v: real, was: real): real {
    if peak > 0.0 && Fall(peak, v) > was then Fall(peak, v) else was
  }

  lemma DeeperFits(curve: seq<real>, i: nat, was: real, r: real)
    requires i < |curve| && r == Deeper(Peak(curve, i), curve[i], was)
    ensures was <= r && WithinPeak(curve, i, r) && (r == was || AtPeak(curve, i, r))
  {
  }

  lemma PeakNext(curve: seq<real>, i: nat, was: real, r: real)
    requires i < |curve| && PeakSoFar(curve, i, was)
    requires was <= r && WithinPeak(curve, i, r) && (r == was || AtPeak(curve, i, r))
    ensures PeakSoFar(curve, i + 1, r)
  {
    forall j | 0 <= j < i ensures WithinPeak(curve, j, r) {
      WithinMore(curve, j, was, r);
    }
  }

  lemma WithinMore(curve: seq<real>, j: nat, was: real, r: real)
    requires j < |curve| && WithinPeak(curve, j, was) && was <= r
    ensures WithinPeak(curve, j, r)
  {
  }
}
