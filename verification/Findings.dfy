/**
 Concrete inputs on which the engine does not keep its records in agreement, one
 for each way the laws name (bot/hypertrade/engine/runner.py).
 */
module Findings {
  import opened Common
  import opened Traces
  import opened Book
  import opened Reconcile
  import opened Signals
  import opened SignalLaws
  import BookLaws
  import ExposureLaws
  import PnlLaws

  /** No cap, no families, no fees. */
  const PLAIN := Config(0.0, 0.0, 1.0, 1.0, (s: string) => None)

  const EMPTY := Desk(Db([], [], [], 0, 0), map[], [], 0.0, false)

  const LONG_ROW := Row(0, "a", "BTC", Long, 1.0, 1.0, 0)

  /** One strategy, long one BTC, as the book has it. */
  const HOLDING := Desk(Db([LONG_ROW], [], [], 1, 0), map["a" := Long], [], 0.0, false)

  const NO_WORLD := World(Unreadable, Unreadable, None, map[], Unreadable, map[], false, false, false, 0.0)

  /** A close of one BTC that meets `reply`, everything else working. */
  function CloseMeets(reply: Reply): CloseWorld {
    CloseWorld(true, Saw(Some(Position("BTC", Long, 1.0, 1.0))), reply, 1.0, true, true, true, true, NotSeen, NotSeen,
               NO_WORLD, true, true, Unreadable)
  }

  function OpenMeets(close: CloseWorld, reply: Reply): OpenWorld {
    OpenWorld(true, true, true, true, true, close, true, reply, true, close)
  }

  function Filled(id: string): Reply {
    Answered(true, false, id, 1.0, Some(1.0))
  }

  const SHORT_SIGNAL := OpenSignal("a", "BTC", Short, 1.0, false, 1.0, 1, 0)

  lemma HoldingIsOrderly()
    ensures BookLaws.Orderly(HOLDING.db.open) && Find(HOLDING.db.open, "a", "BTC") == OneRow(LONG_ROW)
    ensures Others(HOLDING.db.open, "a") == [] && Without(HOLDING.db.open, 0) == []
  {
    assert [LONG_ROW][1..] == [];
  }

  lemma NobodyRefuses(s: OpenSignal)
    requires s.strategy == "a" && !s.sized
    ensures !Refused(PLAIN, HOLDING.db.open, s, true) && !Refused(PLAIN, EMPTY.db.open, s, true)
  {
    HoldingIsOrderly();
  }

  // ----- Beliefs ----------------------------------------------------------

  /** A flip whose close filled and was booked, but whose parity failed and whose
      row could not be re-read: the strategy is put back on a row that is gone. */
  lemma FlipRealignsBlindly()
    ensures var close := CloseMeets(Filled("1")).(parity := Positions([Position("BTC", Long, 1.0, 1.0)]));
            var w := OpenMeets(close, Filled("2")).(alignRead := false);
            var d := ExecuteOpen(PLAIN, EmitOpen(HOLDING, SHORT_SIGNAL), SHORT_SIGNAL, w).0;
            !Aligned(d, "a", "BTC")
  {
    var close := CloseMeets(Filled("1")).(parity := Positions([Position("BTC", Long, 1.0, 1.0)]));
    var w := OpenMeets(close, Filled("2")).(alignRead := false);
    var d := ExecuteOpen(PLAIN, EmitOpen(HOLDING, SHORT_SIGNAL), SHORT_SIGNAL, w).0;
    HoldingIsOrderly();
    NobodyRefuses(SHORT_SIGNAL);
    assert ClosedUnverified(HOLDING, LONG_ROW, close);
    FlipLeavesAligned(PLAIN, HOLDING, SHORT_SIGNAL, LONG_ROW, w, d);
  }

  /** A flip whose close filled but could not be written. */
  lemma FlipCloseUnbooked()
    ensures var w := OpenMeets(CloseMeets(Filled("1")).(write := false), Filled("2"));
            var d := ExecuteOpen(PLAIN, EmitOpen(HOLDING, SHORT_SIGNAL), SHORT_SIGNAL, w).0;
            !Aligned(d, "a", "BTC")
  {
    var w := OpenMeets(CloseMeets(Filled("1")).(write := false), Filled("2"));
    var d := ExecuteOpen(PLAIN, EmitOpen(HOLDING, SHORT_SIGNAL), SHORT_SIGNAL, w).0;
    HoldingIsOrderly();
    NobodyRefuses(SHORT_SIGNAL);
    FlipLeavesAligned(PLAIN, HOLDING, SHORT_SIGNAL, LONG_ROW, w, d);
  }

  /** A flip whose close filled but whose row could not be read for its PnL is
      not booked either, and yet leaves the strategy aligned: on the old row. */
  lemma FlipCloseUnreadStaysAligned()
    ensures var w := OpenMeets(CloseMeets(Filled("1")).(reread := false), Filled("2"));
            var d := ExecuteOpen(PLAIN, EmitOpen(HOLDING, SHORT_SIGNAL), SHORT_SIGNAL, w).0;
            Aligned(d, "a", "BTC") && d.db == HOLDING.db
  {
    var w := OpenMeets(CloseMeets(Filled("1")).(reread := false), Filled("2"));
    var d := ExecuteOpen(PLAIN, EmitOpen(HOLDING, SHORT_SIGNAL), SHORT_SIGNAL, w).0;
    HoldingIsOrderly();
    NobodyRefuses(SHORT_SIGNAL);
    FlipLeavesAligned(PLAIN, HOLDING, SHORT_SIGNAL, LONG_ROW, w, d);
  }

  /** A plain open whose order raises leaves the strategy believing in a
      position nobody has. */
  lemma PlainOpenRaises()
    ensures var w := OpenMeets(CloseMeets(Raised), Raised);
            var d := ExecuteOpen(PLAIN, EmitOpen(EMPTY, SHORT_SIGNAL), SHORT_SIGNAL, w).0;
            !Aligned(d, "a", "BTC") && d.db == EMPTY.db
  {
    var w := OpenMeets(CloseMeets(Raised), Raised);
    NobodyRefuses(SHORT_SIGNAL);
    PlainOpenAligned(PLAIN, EMPTY, SHORT_SIGNAL, w,
                     ExecuteOpen(PLAIN, EmitOpen(EMPTY, SHORT_SIGNAL), SHORT_SIGNAL, w).0);
  }

  /** A plain close that filled, and whose row could not be read for its PnL, is
      never booked: the row stays open and the strategy believes it is flat. */
  lemma PlainCloseUnread()
    ensures var w := CloseMeets(Filled("1")).(reread := false);
            var d := ExecuteClose(PLAIN, Reset(HOLDING, "a"), "a", "BTC", Long, w).0;
            !Aligned(d, "a", "BTC") && d.db == HOLDING.db && |d.sent| == 1
  {
    var w := CloseMeets(Filled("1")).(reread := false);
    HoldingIsOrderly();
    PlainCloseAligned(PLAIN, HOLDING, "a", "BTC", Long, w,
                      ExecuteClose(PLAIN, Reset(HOLDING, "a"), "a", "BTC", Long, w).0);
  }

  // ----- The exposure cap -------------------------------------------------

  const SMALL_ROW := Row(0, "a", "BTC", Long, 0.6, 1.0, 0)

  const SMALL := Desk(Db([SMALL_ROW], [], [], 1, 0), map["a" := Long], [], 0.0, false)

  /** A close in steps of one BTC that fills a tenth of one: six tenths, rounded
      up to a step less what filled, is rounded up again, and the row grows past
      the cap. */
  lemma SubStepFillBreaksCap()
    ensures var c := PLAIN.(exposureCap := 0.7);
            var w := CloseMeets(Answered(true, false, "1", 0.1, Some(1.0)));
            && ExposureLaws.Capped(c, SMALL)
            && !ExposureLaws.UnderCap(c, Next(c, SMALL, Close("a", "BTC", Long, w)).db.open)
  {
    var c := PLAIN.(exposureCap := 0.7);
    var w := CloseMeets(Answered(true, false, "1", 0.1, Some(1.0)));
    assert [SMALL_ROW][1..] == [] && Find(SMALL.db.open, "a", "BTC") == OneRow(SMALL_ROW);
    assert ExposureLaws.Capped(c, SMALL);
    var d1 := Reset(SMALL, "a");
    var (d2, out, settled) := ExecuteClose(c, d1, "a", "BTC", Long, w);
    ExposureLaws.SubStepFillGrows();
    FilledCloseExact(c, d1, SMALL_ROW, w, d2, out, settled, 1.0);
    assert d2.db.open == [SMALL_ROW.(size := 1.0)] && d2.db.open[1..] == [];
  }

  // ----- Flat-all ---------------------------------------------------------

  function Stack(strategy: string, id: string): Event {
    Open(OpenSignal(strategy, "BTC", Long, 1.0, false, 1.0, 1, 0), OpenMeets(CloseMeets(Raised), Filled(id)))
  }

  const SECOND_ROW := Row(1, "b", "BTC", Long, 1.0, 1.0, 0)

  function Bought(strategy: string, id: string): Trade {
    Trade(Exchange(id), strategy, "BTC", Buy, 1.0, 1.0, 0.0, None)
  }

  lemma FirstStacked()
    ensures Next(PLAIN, EMPTY, Stack("a", "1")).db == Db([LONG_ROW], [], [Bought("a", "1")], 1, 0)
  {
  }

  lemma SecondStacked(d: Desk)
    requires d.db == Db([LONG_ROW], [], [Bought("a", "1")], 1, 0)
    ensures Next(PLAIN, d, Stack("b", "2")).db
              == Db([LONG_ROW, SECOND_ROW], [], [Bought("a", "1"), Bought("b", "2")], 2, 0)
  {
    assert [LONG_ROW][1..] == [];
    assert Find(d.db.open, "b", "BTC") == NoRow && Others(d.db.open, "b") == [LONG_ROW];
    assert Exchange("2") !in OrderIds(d.db.trades);
  }

  lemma BothStacked(d: Desk)
    requires d == Run(Engine(PLAIN), EMPTY, [Stack("a", "1"), Stack("b", "2")])
    ensures d.db == Db([LONG_ROW, SECOND_ROW], [], [Bought("a", "1"), Bought("b", "2")], 2, 0)
  {
    var first, second := Stack("a", "1"), Stack("b", "2");
    TwoSteps(Engine(PLAIN), EMPTY, first, second);
    FirstStacked();
    SecondStacked(Next(PLAIN, EMPTY, first));
  }

  lemma StackedIsSound(d: Desk)
    requires d == Run(Engine(PLAIN), EMPTY, [Stack("a", "1"), Stack("b", "2")])
    ensures Sound(d)
  {
    var es := [Stack("a", "1"), Stack("b", "2")];
    BookStaysOrderly(PLAIN, EMPTY, es, 2);
    RunAll(Engine(PLAIN), EMPTY, es);
  }

  /** Two strategies each open a long on one coin, with stacking allowed. */
  lemma TwoStacked(d: Desk)
    requires d == Run(Engine(PLAIN), EMPTY, [Stack("a", "1"), Stack("b", "2")])
    ensures Sound(d) && RowsOn(d.db.open, "BTC") == [LONG_ROW, SECOND_ROW] && Exchange("3") !in OrderIds(d.db.trades)
  {
    StackedIsSound(d);
    BothStacked(d);
    assert [LONG_ROW, SECOND_ROW][1..] == [SECOND_ROW] && [SECOND_ROW][1..] == [];
  }

  lemma TwoSteps<S, E>(step: (S, E) -> S, s: S, first: E, second: E)
    ensures Run(step, s, [first, second]) == step(step(s, first), second)
  {
    RunNext(step, s, [first, second], 0);
    RunNext(step, s, [first, second], 1);
    RunAll(step, s, [first, second]);
  }

  /** Flattening that coin books one row and fails on the other, although the
      exchange position is gone and the database works. */
  lemma FlatAllLeavesARow(d: Desk, writes: nat)
    requires d == Run(Engine(PLAIN), EMPTY, [Stack("a", "1"), Stack("b", "2")]) && writes > 0
    ensures var (d', ok) := FlatCoin(PLAIN, d, Position("BTC", Long, 2.0, 1.0), true,
                                     Answered(true, false, "3", 2.0, Some(1.0)), writes);
            !ok && |RowsOn(d'.db.open, "BTC")| == 1
  {
    TwoStacked(d);
    PnlLaws.FlatCoinClosesAllIff(PLAIN, d, Position("BTC", Long, 2.0, 1.0),
                                 Answered(true, false, "3", 2.0, Some(1.0)), writes);
  }
}
