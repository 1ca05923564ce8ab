/**
 The engine as one machine: the restore guard, the desk and the daily counter
 together, over whole runs of ticks, human and Redis events and restarts
 (bot/hypertrade/engine/runner.py, bot/hypertrade/engine/portfolio.py).
 */
module EngineRuns {
  import opened Common
  import opened Traces
  import opened Book
  import opened Signals
  import G = RestoreGuard
  import GuardLaws = RestoreGuardLaws
  import BookLaws
  import SignalLaws
  import PnlLaws
  import AlignmentLaws
  import CheckLaws
  import P = Portfolio
  import Reconcile

  datatype Setup = Setup(cfg: Config, limit: real, killDefault: bool)

  datatype Engine = Engine(guard: G.Guard, desk: Desk, pnl: P.Pnl)

  /** What Redis answers at the risk gate. */
  datatype Gate = Gate(kill: P.Switch, readOk: bool, w: G.Write)

  /** And when the PnL of a trade is handed to the daily counter. */
  datatype Handover = Handover(readOk: bool, w: G.Write)

  type Handovers = nat -> Handover

  /** `Outside` is a flush, a human action or a check. `io` says how the handovers
      of the event's PnL go, one after the other. */
  datatype Event =
    | Outside(g: G.Event)
    | Restart
    | Pass(f: G.Faults, p: G.Input, io: Handovers)
    | Open(s: OpenSignal, w: OpenWorld, gate: Gate, io: Handovers)
    | Close(strategy: string, coin: string, side: Side, cw: CloseWorld, io: Handovers)
    | Flat(position: Reconcile.Position, rowsRead: bool, reply: Reply, writes: nat, io: Handovers)
    | NewDay

  /** What the guard sees of an event. */
  function GuardEvent(m: Engine, e: Event): Option<G.Event> {
    match e
    case Outside(g) => if g.Pass? || g.Restart? then None else Some(g)
    case Restart => Some(G.Restart)
    case Pass(f, p, _) => Some(G.Pass(f, p.(db := m.desk.db)))
    case _ => None
  }

  function GuardStep(m: Engine, e: Event): G.Guard {
    var g := GuardEvent(m, e);
    if g.Some? then G.Step(m.guard, g.value) else m.guard
  }

  // ----- The risk gate ----------------------------------------------------

  /** The gate is asked unless the row cannot be read or the strategy already
      holds the side. */
  predicate AsksGate(d: Desk, s: OpenSignal, w: OpenWorld) {
    var read := GetRow(d.db.open, s.strategy, s.coin, w.rowRead);
    read.Answer? && (read.row.Some? ==> read.row.value.side != s.side)
  }

  function AtGate(m: Engine, s: OpenSignal, w: OpenWorld, gate: Gate): P.Pnl {
    if AsksGate(m.desk, s, w) then P.Touch(m.pnl, gate.readOk, gate.w) else m.pnl
  }

  predicate GateOpens(u: Setup, m: Engine, s: OpenSignal, w: OpenWorld, gate: Gate) {
    P.Allows(AtGate(m, s, w, gate), true, P.KillSwitchActive(gate.kill, u.killDefault), m.guard.opensHeld, u.limit)
  }

  // ----- Steps ------------------------------------------------------------

  /** Beliefs at startup: those of the open rows. */
  function Restored(open: seq<Row>): map<string, Side> {
    if open == [] then map[] else Restored(open[..|open| - 1])[open[|open| - 1].strategy := open[|open| - 1].side]
  }

  /** What the desk sees of an event. */
  function DeskEvent(u: Setup, m: Engine, e: Event): Option<Signals.Event> {
    match e
    case Pass(f, p, _) =>
      var (g, why) := G.CheckControlState(m.guard, f);
      if p.dbReads then Some(Signals.Reconcile(G.PassArgs(g, why, p), p.world)) else None
    case Open(s, w, gate, _) => Some(Signals.Open(s, w.(riskOk := GateOpens(u, m, s, w, gate))))
    case Close(strategy, coin, side, w, _) => Some(Signals.Close(strategy, coin, side, w))
    case Flat(p, ok, reply, writes, _) => Some(Signals.Flat(p, ok, reply, writes))
    case _ => None
  }

  function DeskStep(u: Setup, m: Engine, e: Event): Desk {
    var next := DeskEvent(u, m, e);
    if e.Restart? then m.desk.(beliefs := Restored(m.desk.db.open))
    else if next.Some? then Next(u.cfg, m.desk, next.value) else m.desk
  }

  /** The trades an event books. */
  function Booked(u: Setup, m: Engine, e: Event): seq<Trade> {
    var before, after := m.desk.db.trades, DeskStep(u, m, e).db.trades;
    if |before| <= |after| then after[|before|..] else []
  }

  /** What they realised, trade by trade. */
  function Realised(trades: seq<Trade>): seq<real> {
    if trades == [] then []
    else
      var n := |trades| - 1;
      Realised(trades[..n]) + if trades[n].pnl.Some? then [trades[n].pnl.value] else []
  }

  function Records(amounts: seq<real>, io: Handovers): seq<P.Event> {
    seq(|amounts|, k requires 0 <= k < |amounts| => P.Recorded(amounts[k], io(k).readOk, io(k).w))
  }

  function PnlStep(u: Setup, m: Engine, e: Event): P.Pnl {
    match e
    case Outside(g) => if g.Flush? then m.pnl.(stored := 0.0) else m.pnl
    case Restart => P.Step(m.pnl, P.Crash)
    case Open(s, w, gate, io) => Run(P.Step, AtGate(m, s, w, gate), Records(Realised(Booked(u, m, e)), io))
    case NewDay => P.FRESH
    case _ => Run(P.Step, m.pnl, Records(Realised(Booked(u, m, e)), e.io))
  }

  function Step(u: Setup, m: Engine, e: Event): Engine {
    Engine(GuardStep(m, e), DeskStep(u, m, e), PnlStep(u, m, e))
  }

  function Machine(u: Setup): (Engine, Event) -> Engine {
    (m: Engine, e: Event) => Step(u, m, e)
  }

  // ----- The counter and the book agree -----------------------------------

  function Sum(amounts: seq<real>): real {
    if amounts == [] then 0.0 else Sum(amounts[..|amounts| - 1]) + amounts[|amounts| - 1]
  }

  lemma {:induction false} RecordsAdd(s: P.Pnl, amounts: seq<real>, io: Handovers)
    ensures P.Abstract(Run(P.Step, s, Records(amounts, io))).total == P.Abstract(s).total + Sum(amounts)
  {
    if amounts != [] {
      var n := |amounts| - 1;
      RecordsAdd(s, amounts[..n], io);
      assert Records(amounts, io)[..n] == Records(amounts[..n], io);
    }
  }

  lemma {:induction false} RealisedAdds(before: seq<Trade>, trades: seq<Trade>)
    ensures PnlLaws.TotalPnl(before + trades) == PnlLaws.TotalPnl(before) + Sum(Realised(trades))
  {
    if trades == [] {
      assert before + trades == before;
    } else {
      var n := |trades| - 1;
      var init, t := trades[..n], trades[n];
      RealisedAdds(before, init);
      assert PnlLaws.TotalPnl(before + trades) == PnlLaws.TotalPnl(before + init) + PnlLaws.PnlOf(t) by {
        assert before + trades == before + init + [t];
        PnlLaws.TotalAppend(before + init, t);
      }
      SumSnoc(Realised(trades), Realised(init), t.pnl);
    }
  }

  lemma SumSnoc(amounts: seq<real>, init: seq<real>, pnl: Option<real>)
    requires amounts == init + if pnl.Some? then [pnl.value] else []
    ensures Sum(amounts) == Sum(init) + if pnl.Some? then pnl.value else 0.0
  {
    if pnl.Some? {
      assert amounts[..|init|] == init;
    } else {
      assert amounts == init;
    }
  }

  lemma TouchKeepsTotal(s: P.Pnl, readOk: bool, w: G.Write)
    ensures P.Abstract(P.Touch(s, readOk, w)).total == P.Abstract(s).total
  {
  }

  /** What an event does to the desk keeps it sound and books what it records. */
  lemma DeskStepKeeps(u: Setup, m: Engine, e: Event)
    requires SignalLaws.Sound(m.desk)
    ensures SignalLaws.Sound(DeskStep(u, m, e))
    ensures e.Restart? || PnlLaws.Balances(m.desk, DeskStep(u, m, e))
    ensures PnlLaws.Grows(m.desk.db.trades, DeskStep(u, m, e).db.trades)
  {
    var next := DeskEvent(u, m, e);
    if next.Some? {
      SignalLaws.NextSound(u.cfg, m.desk, next.value);
      PnlLaws.NextBalances(u.cfg, m.desk, next.value);
    }
  }

  lemma BookedAdds(u: Setup, m: Engine, e: Event)
    requires SignalLaws.Sound(m.desk)
    ensures PnlLaws.TotalPnl(DeskStep(u, m, e).db.trades)
         == PnlLaws.TotalPnl(m.desk.db.trades) + Sum(Realised(Booked(u, m, e)))
  {
    DeskStepKeeps(u, m, e);
    var before, after := m.desk.db.trades, DeskStep(u, m, e).db.trades;
    assert after == before + after[|before|..];
    RealisedAdds(before, after[|before|..]);
  }

  /** What takes from the day's total what nothing booked. */
  predicate Resets(e: Event) {
    e.Restart? || e.NewDay? || (e.Outside? && e.g.Flush?)
  }

  /** The total both stores stand for. */
  function DayTotal(m: Engine): real {
    P.Abstract(m.pnl).total
  }

  lemma StepFollowsBook(u: Setup, m: Engine, e: Event)
    requires SignalLaws.Sound(m.desk) && !Resets(e)
    ensures DayTotal(Step(u, m, e)) - DayTotal(m)
         == PnlLaws.TotalPnl(Step(u, m, e).desk.db.trades) - PnlLaws.TotalPnl(m.desk.db.trades)
  {
    BookedAdds(u, m, e);
    match e
    case Open(s, w, gate, io) =>
      TouchKeepsTotal(m.pnl, gate.readOk, gate.w);
      RecordsAdd(AtGate(m, s, w, gate), Realised(Booked(u, m, e)), io);
    case Pass(_, _, io) => RecordsAdd(m.pnl, Realised(Booked(u, m, e)), io);
    case Close(_, _, _, _, io) => RecordsAdd(m.pnl, Realised(Booked(u, m, e)), io);
    case Flat(_, _, _, _, io) => RecordsAdd(m.pnl, Realised(Booked(u, m, e)), io);
    case _ =>
  }

  lemma RunStaysSound(u: Setup, m: Engine, es: seq<Event>, i: nat)
    requires SignalLaws.Sound(m.desk) && i <= |es|
    ensures SignalLaws.Sound(Before(Machine(u), m, es, i).desk)
  {
    var inv, any := (x: Engine) => SignalLaws.Sound(x.desk), (x: Engine, e: Event) => true;
    forall x, e | inv(x) && any(x, e) ensures inv(Machine(u)(x, e)) { DeskStepKeeps(u, x, e); }
    Always(Machine(u), m, es, inv, any, i);
  }

  /** Over any stretch of a run without a flush, a restart or a new day, the
      counter's total moves by exactly the PnL of the trades booked in it,
      however the handovers to Redis go. */
  lemma {:induction false} CounterFollowsBook(u: Setup, m: Engine, es: seq<Event>)
    requires SignalLaws.Sound(m.desk) && forall e :: e in es ==> !Resets(e)
    ensures var last := Run(Machine(u), m, es);
            DayTotal(last) - DayTotal(m)
            == PnlLaws.TotalPnl(last.desk.db.trades) - PnlLaws.TotalPnl(m.desk.db.trades)
  {
    if es != [] {
      var n := |es| - 1;
      assert es[n] in es;
      CounterFollowsBook(u, m, es[..n]);
      RunStaysSound(u, m, es, n);
      StepFollowsBook(u, Run(Machine(u), m, es[..n]), es[n]);
    }
  }

  // ----- The gate over runs of the whole engine ---------------------------

  predicate GateReady(m: Engine) {
    GuardLaws.Ready(m.guard)
  }

  /** A pass that counts, under a clean check, and holds nothing traded. */
  predicate Vouches(m: Engine, e: Event) {
    GuardEvent(m, e).Some? && GuardLaws.Vouches(m.guard, GuardEvent(m, e).value)
  }

  predicate Spoils(m: Engine, e: Event) {
    GuardEvent(m, e).Some? && GuardLaws.Spoils(m.guard, GuardEvent(m, e).value)
  }

  lemma GateReadyStep(u: Setup, m: Engine, e: Event)
    ensures GateReady(Step(u, m, e)) <==> Vouches(m, e) || (GateReady(m) && !Spoils(m, e))
  {
    if GuardEvent(m, e).Some? {
      GuardLaws.GateStep(m.guard, GuardEvent(m, e).value);
    }
  }

  /** An event with a check in it. */
  predicate Checks(e: Event) {
    e.Pass? || (e.Outside? && e.g.Check?)
  }

  /** A check has run since the process started: it comes first in every tick. */
  predicate Live(es: seq<Event>) {
    es != [] && (Checks(es[|es| - 1]) || (!es[|es| - 1].Restart? && Live(es[..|es| - 1])))
  }

  lemma GateHeldStep(u: Setup, m: Engine, e: Event)
    ensures Checks(e) ==> (Step(u, m, e).guard.opensHeld.None? <==> GateReady(Step(u, m, e)))
    ensures !Checks(e) && !e.Restart? ==>
              Step(u, m, e).guard.opensHeld == m.guard.opensHeld && (GateReady(Step(u, m, e)) <==> GateReady(m))
  {
    if GuardEvent(m, e).Some? {
      GuardLaws.GateStep(m.guard, GuardEvent(m, e).value);
    }
  }

  lemma {:induction false} HeldIffNotReady(u: Setup, m: Engine, es: seq<Event>, last: Engine)
    requires Live(es) && last == Run(Machine(u), m, es)
    ensures last.guard.opensHeld.None? <==> GateReady(last)
  {
    var before, e := Run(Machine(u), m, es[..|es| - 1]), es[|es| - 1];
    GateHeldStep(u, before, e);
    if !Checks(e) {
      HeldIffNotReady(u, m, es[..|es| - 1], before);
    }
  }

  lemma GateOpenIff(u: Setup, m: Engine, es: seq<Event>)
    requires m.guard.awaiting == Some(G.FirstPass) && Live(es)
    ensures Run(Machine(u), m, es).guard.opensHeld.None? <==> exists k :: OnSince(Machine(u), m, es, Vouches, Spoils, k)
  {
    HeldIffNotReady(u, m, es, Run(Machine(u), m, es));
    forall x, e ensures GateReady(Machine(u)(x, e)) <==> Vouches(x, e) || (GateReady(x) && !Spoils(x, e)) {
      GateReadyStep(u, x, e);
    }
    LatchIff(Machine(u), m, es, GateReady, Vouches, Spoils);
  }

  // ----- Every opening order ----------------------------------------------

  /** The event sends an order that may open or grow a position. */
  predicate SendsOpening(u: Setup, m: Engine, e: Event) {
    !SignalLaws.OnlyReduces(m.desk.sent, Step(u, m, e).desk.sent)
  }

  lemma OpeningPassedGate(u: Setup, m: Engine, s: OpenSignal, w: OpenWorld, gate: Gate, io: Handovers)
    requires SendsOpening(u, m, Event.Open(s, w, gate, io))
    ensures GateOpens(u, m, s, w, gate) && AsksGate(m.desk, s, w)
  {
    if !GateOpens(u, m, s, w, gate) {
      SignalLaws.RefusedOpenOnlyReduces(u.cfg, EmitOpen(m.desk, s), s, w.(riskOk := false));
    }
    if !AsksGate(m.desk, s, w) {
      NothingAsked(u, m, s, w, gate, io);
    }
  }

  lemma NothingAsked(u: Setup, m: Engine, s: OpenSignal, w: OpenWorld, gate: Gate, io: Handovers)
    requires !AsksGate(m.desk, s, w)
    ensures Step(u, m, Event.Open(s, w, gate, io)).desk.sent == m.desk.sent
  {
  }

  /** Only opens send opening orders. */
  lemma OnlyOpensOpen(u: Setup, m: Engine, e: Event)
    requires SendsOpening(u, m, e)
    ensures e.Open?
  {
    var next := DeskEvent(u, m, e);
    if next.Some? && !next.value.Open? {
      SignalLaws.NextOnlyReduces(u.cfg, m.desk, next.value);
    }
  }

  /** The safety of every run of the whole engine. Whenever an order is sent that
      may open or grow a position: a pass that counts stands since the process
      started and no check since was unclean, the kill switch is off, and, when
      the counter is loaded or can be, the day's total is within the limit. */
  lemma EveryOpeningOrderIsVouched(u: Setup, m: Engine, es: seq<Event>, i: nat)
    requires m.guard.awaiting == Some(G.FirstPass) && i < |es| && Live(es[..i])
    requires SendsOpening(u, Before(Machine(u), m, es, i), es[i])
    ensures es[i].Open?
    ensures es[i].gate.kill == P.SetTo(false) || (es[i].gate.kill.Unset? && !u.killDefault)
    ensures exists k :: OnSince(Machine(u), m, es[..i], Vouches, Spoils, k)
    ensures var now := Before(Machine(u), m, es, i);
            now.pnl.loaded || es[i].gate.readOk ==> DayTotal(now) >= -u.limit
  {
    var now := Before(Machine(u), m, es, i);
    OnlyOpensOpen(u, now, es[i]);
    var gate := es[i].gate;
    OpeningPassedGate(u, now, es[i].s, es[i].w, gate, es[i].io);
    GateOpenIff(u, m, es[..i]);
    TouchKeepsTotal(now.pnl, gate.readOk, gate.w);
  }

  /** And only for a signal that was allowed on the book it met: no other strategy's
      row in its way, the open notional within the cap, the margin of a sized signal
      within its ceiling; the order is the signal's own. */
  lemma EveryOpeningOrderIsAllowed(u: Setup, m: Engine, es: seq<Event>, i: nat)
    requires i < |es| && SendsOpening(u, Before(Machine(u), m, es, i), es[i])
    ensures es[i].Open? && es[i].w.gateRead && es[i].w.leverageOk
    ensures var now, s := Before(Machine(u), m, es, i), es[i].s; var sent := Step(u, now, es[i]).desk.sent;
            && CheckLaws.Allowed(u.cfg, now.desk.db.open, s, es[i].w.allowMulti)
            && |sent| > 0
            && sent[|sent| - 1] == Reconcile.Order(s.coin, if s.side.Long? then Buy else Sell, s.size, false)
  {
    var now := Before(Machine(u), m, es, i);
    OnlyOpensOpen(u, now, es[i]);
    var s, w := es[i].s, es[i].w.(riskOk := GateOpens(u, now, es[i].s, es[i].w, es[i].gate));
    CheckLaws.OpeningWasAllowed(u.cfg, EmitOpen(now.desk, s), s, w);
  }

  /** A pass that ran for real and to its end, and what it then had read. */
  ghost predicate ReallyRan(m: Engine, e: Event) {
    GuardEvent(m, e).Some? && GuardLaws.Ran(GuardEvent(m, e).value)
  }

  /** So no such order goes out before a pass of this process really read the
      exchange and the book. */
  lemma EveryOpeningFollowsARead(u: Setup, m: Engine, es: seq<Event>, i: nat)
    requires m.guard.awaiting == Some(G.FirstPass) && SignalLaws.Sound(m.desk) && i < |es| && Live(es[..i])
    requires SendsOpening(u, Before(Machine(u), m, es, i), es[i])
    ensures exists k :: OnSince(Machine(u), m, es[..i], ReallyRan, Spoils, k)
  {
    EveryOpeningOrderIsVouched(u, m, es, i);
    VouchingPassRan(u, m, es[..i]);
  }

  lemma VouchingPassRan(u: Setup, m: Engine, es: seq<Event>)
    requires SignalLaws.Sound(m.desk) && exists k :: OnSince(Machine(u), m, es, Vouches, Spoils, k)
    ensures exists k :: OnSince(Machine(u), m, es, ReallyRan, Spoils, k)
  {
    var sound := (x: Engine, e: Event) => SignalLaws.Sound(x.desk);
    forall j | 0 <= j < |es| ensures sound(Before(Machine(u), m, es, j), es[j]) { RunStaysSound(u, m, es, j); }
    forall x, e | Vouches(x, e) && sound(x, e) ensures ReallyRan(x, e) { VouchingRan(x, e, GuardEvent(x, e).value); }
    OnSinceWith(Machine(u), m, es, Vouches, Spoils, sound, ReallyRan);
  }

  lemma VouchingRan(m: Engine, e: Event, g: G.Event)
    requires SignalLaws.Sound(m.desk) && GuardEvent(m, e) == Some(g) && GuardLaws.Vouches(m.guard, g)
    ensures GuardLaws.Ran(g)
  {
    GuardLaws.CountsIff(m.guard, g);
  }

  /** A pass of a bot that is paused, or may be, changes no row, trade, belief or order
      and nothing of the day's total. */
  lemma PausedPassChangesNothing(u: Setup, m: Engine, e: Event)
    requires e.Pass? && e.p.pauseFlag != Some(false)
    ensures Step(u, m, e).desk == m.desk && DayTotal(Step(u, m, e)) == DayTotal(m)
    ensures Step(u, m, e).guard == G.CheckControlState(m.guard, e.f).0
  {
    GuardLaws.PausedPassDoesNothing(m.guard, GuardEvent(m, e).value);
    var args := GuardLaws.ArgsOf(m.guard, GuardEvent(m, e).value);
    assert e.p.dbReads ==> DeskStep(u, m, e) == RunPass(m.desk, args, e.p.world);
    assert m.desk.sent + [] == m.desk.sent;
    assert DeskStep(u, m, e) == m.desk;
    assert Booked(u, m, e) == [];
    RecordsAdd(m.pnl, Realised(Booked(u, m, e)), e.io);
  }

  // ----- Single events -----------------------------------------------------

  /** The pass the guard judges is the one the desk went through; without the rows there
      is none. */
  lemma PassIsOne(u: Setup, m: Engine, f: G.Faults, p: G.Input, io: Handovers)
    ensures var m2, res := Step(u, m, Pass(f, p, io)), G.RunReconcile(m.guard, f, p.(db := m.desk.db)).1;
            && (!p.dbReads ==> m2.desk == m.desk && DayTotal(m2) == DayTotal(m))
            && (res.Some? ==>
                  exists a :: Reconcile.Pass(m.desk.db, a, p.world) == (m2.desk.db, res.value)
                              && m2.desk.sent == m.desk.sent + res.value.sent)
  {
    if p.dbReads {
      PassOnDesk(u, m, f, p, io);
    } else {
      NoPassOnDesk(u, m, f, p, io);
    }
  }

  lemma PassOnDesk(u: Setup, m: Engine, f: G.Faults, p: G.Input, io: Handovers)
    requires p.dbReads
    ensures var (g, why) := G.CheckControlState(m.guard, f);
            var (db, res) := Reconcile.Pass(m.desk.db, G.PassArgs(g, why, p), p.world);
            var d2 := DeskStep(u, m, Event.Pass(f, p, io));
            d2.db == db && d2.sent == m.desk.sent + res.sent
  {
    var (g, why) := G.CheckControlState(m.guard, f);
    var (db, res) := Reconcile.Pass(m.desk.db, G.PassArgs(g, why, p), p.world);
    SignalLaws.TellAllKeeps(m.desk.(db := db, sent := m.desk.sent + res.sent), res.told);
  }

  lemma NoPassOnDesk(u: Setup, m: Engine, f: G.Faults, p: G.Input, io: Handovers)
    requires !p.dbReads
    ensures var m2 := Step(u, m, Event.Pass(f, p, io)); m2.desk == m.desk && DayTotal(m2) == DayTotal(m)
  {
    var e := Event.Pass(f, p, io);
    assert Booked(u, m, e) == [];
    RecordsAdd(m.pnl, Realised(Booked(u, m, e)), io);
  }

  /** A flush leaves the total of the running process and nothing to a restart. */
  lemma FlushForgets(u: Setup, m: Engine)
    ensures var m1 := Step(u, m, Outside(G.Flush));
            m1.desk == m.desk && DayTotal(m1) == m.pnl.daily && DayTotal(Step(u, m1, Restart)) == 0.0
  {
  }

  /** A strategy that already holds the side meets no gate: nothing is read, written or
      ordered. Any other open whose row can be read loads the day's total when it can. */
  lemma GateIsAsked(u: Setup, m: Engine, s: OpenSignal, w: OpenWorld, gate: Gate, io: Handovers)
    requires SignalLaws.Sound(m.desk) && w.rowRead
    ensures var m2 := Step(u, m, Event.Open(s, w, gate, io));
            if exists r :: r in m.desk.db.open && r.strategy == s.strategy && r.coin == s.coin && r.side == s.side
            then m2.pnl == m.pnl && m2.guard == m.guard && m2.desk.db == m.desk.db && m2.desk.sent == m.desk.sent
            else gate.readOk ==> m2.pnl.loaded
  {
    BookLaws.FindExact(m.desk.db.open, s.strategy, s.coin);
    if AsksGate(m.desk, s, w) {
      if gate.readOk {
        AskedIsLoaded(u, m, s, w, gate, io);
      }
    } else {
      UnaskedLeaves(u, m, s, w, gate, io);
    }
  }

  lemma AskedIsLoaded(u: Setup, m: Engine, s: OpenSignal, w: OpenWorld, gate: Gate, io: Handovers)
    requires AsksGate(m.desk, s, w) && gate.readOk
    ensures Step(u, m, Event.Open(s, w, gate, io)).pnl.loaded
  {
    RecordsStayLoaded(AtGate(m, s, w, gate), Realised(Booked(u, m, Event.Open(s, w, gate, io))), io);
  }

  lemma UnaskedLeaves(u: Setup, m: Engine, s: OpenSignal, w: OpenWorld, gate: Gate, io: Handovers)
    requires !AsksGate(m.desk, s, w)
    ensures var m2 := Step(u, m, Event.Open(s, w, gate, io));
            m2.pnl == m.pnl && m2.guard == m.guard && m2.desk.db == m.desk.db && m2.desk.sent == m.desk.sent
  {
    assert Booked(u, m, Event.Open(s, w, gate, io)) == [];
  }

  lemma {:induction false} RecordsStayLoaded(s: P.Pnl, amounts: seq<real>, io: Handovers)
    requires s.loaded
    ensures Run(P.Step, s, Records(amounts, io)).loaded
  {
    if amounts != [] {
      var n := |amounts| - 1;
      RecordsStayLoaded(s, amounts[..n], io);
      assert Records(amounts, io)[..n] == Records(amounts[..n], io);
    }
  }

  // ----- The day's total over runs of the whole engine --------------------

  /** What the daily counter lives through during one event. */
  function DayOf(u: Setup, m: Engine, e: Event): seq<P.Event> {
    match e
    case Outside(_) => []
    case Restart => [P.Crash]
    case NewDay => [P.NewDay]
    case Open(s, w, gate, io) =>
      (if AsksGate(m.desk, s, w) then [P.RiskCheck(gate.readOk, gate.w)] else [])
      + Records(Realised(Booked(u, m, e)), io)
    case _ => Records(Realised(Booked(u, m, e)), e.io)
  }

  /** And during a whole run. */
  function Day(u: Setup, m: Engine, es: seq<Event>): seq<P.Event> {
    if es == [] then []
    else
      var n := |es| - 1;
      Day(u, m, es[..n]) + DayOf(u, Run(Machine(u), m, es[..n]), es[n])
  }

  lemma {:induction false} RunAppend<S, E>(step: (S, E) -> S, s: S, a: seq<E>, b: seq<E>)
    ensures Run(step, s, a + b) == Run(step, Run(step, s, a), b)
  {
    if b == [] {
      assert a + b == a;
    } else {
      var n := |b| - 1;
      assert (a + b)[..|a| + n] == a + b[..n];
      RunAppend(step, s, a, b[..n]);
    }
  }

  lemma DayStep(u: Setup, m: Engine, e: Event)
    requires !(e.Outside? && e.g.Flush?)
    ensures Step(u, m, e).pnl == Run(P.Step, m.pnl, DayOf(u, m, e))
  {
    match e
    case Open(s, w, gate, io) =>
      var records := Records(Realised(Booked(u, m, e)), io);
      if AsksGate(m.desk, s, w) {
        var check := [P.RiskCheck(gate.readOk, gate.w)];
        RunAppend(P.Step, m.pnl, check, records);
        assert check[..0] == [];
      } else {
        assert [] + records == records;
      }
    case Restart => assert [P.Crash][..0] == [];
    case NewDay => assert [P.NewDay][..0] == [];
    case _ =>
  }

  /** Without a flush, the counter has lived through just that. */
  lemma {:induction false} CounterLivesDay(u: Setup, m: Engine, es: seq<Event>)
    requires m.pnl == P.FRESH && forall e :: e in es ==> !(e.Outside? && e.g.Flush?)
    ensures Run(Machine(u), m, es).pnl == Run(P.Step, P.FRESH, Day(u, m, es))
  {
    if es != [] {
      var n := |es| - 1;
      var before := Run(Machine(u), m, es[..n]);
      assert es[n] in es;
      CounterLivesDay(u, m, es[..n]);
      DayStep(u, before, es[n]);
      RunAppend(P.Step, P.FRESH, Day(u, m, es[..n]), DayOf(u, before, es[n]));
    }
  }

  /** So the total an opening order was checked against is the one the trace
      gives: everything recorded that day, less what restarts took. */
  lemma OpeningWithinTrueTotal(u: Setup, m: Engine, es: seq<Event>, i: nat)
    requires m.guard.awaiting == Some(G.FirstPass) && m.pnl == P.FRESH && i < |es| && Live(es[..i])
    requires forall e :: e in es[..i] ==> !(e.Outside? && e.g.Flush?)
    requires SendsOpening(u, Before(Machine(u), m, es, i), es[i])
    ensures var day := Day(u, m, es[..i]);
            es[i].Open? && (P.HasRead(day) || es[i].gate.readOk ==> P.Made(day) >= -u.limit)
  {
    EveryOpeningOrderIsVouched(u, m, es, i);
    CounterLivesDay(u, m, es[..i]);
    P.CounterIsTotal(Day(u, m, es[..i]), Run(P.Step, P.FRESH, Day(u, m, es[..i])));
  }

  // ----- Restarts ---------------------------------------------------------

  lemma {:induction false} RestoredSide(open: seq<Row>, row: Row)
    requires row in open && forall r :: r in open && r.strategy == row.strategy ==> r.side == row.side
    ensures row.strategy in Restored(open) && Restored(open)[row.strategy] == row.side
  {
    var n := |open| - 1;
    assert open[n] in open;
    if open[n].strategy != row.strategy {
      RestoredSide(open[..n], row);
    }
  }

  lemma {:induction false} RestoredFlat(open: seq<Row>, strategy: string)
    requires forall r :: r in open ==> r.strategy != strategy
    ensures strategy !in Restored(open)
  {
    if open != [] {
      assert open[|open| - 1] in open;
      RestoredFlat(open[..|open| - 1], strategy);
    }
  }

  /** A restart puts every strategy that trades one coin back in line with the
      book, whatever had been misaligned before. */
  lemma RestartAligns(u: Setup, m: Engine, strategy: string, coin: string)
    requires BookLaws.Orderly(m.desk.db.open)
    requires forall r :: r in m.desk.db.open && r.strategy == strategy ==> r.coin == coin
    ensures SignalLaws.Aligned(Step(u, m, Restart).desk, strategy, coin)
  {
    var open := m.desk.db.open;
    BookLaws.FindExact(open, strategy, coin);
    if Find(open, strategy, coin).OneRow? {
      BookLaws.FoundRow(open, strategy, coin);
      var row := Find(open, strategy, coin).row;
      forall r | r in open && r.strategy == strategy ensures r.side == row.side {
        assert Holds(r, strategy, coin);
      }
      RestoredSide(open, row);
    } else {
      forall r | r in open ensures r.strategy != strategy {
        assert !Holds(r, strategy, coin);
      }
      RestoredFlat(open, strategy);
    }
  }

  // ----- Belief alignment over runs of the whole engine --------------------

  /** A signal the strategy itself emits. */
  predicate Own(u: Setup, m: Engine, e: Event, strategy: string) {
    var next := DeskEvent(u, m, e);
    next.Some? && AlignmentLaws.Own(next.value, strategy)
  }

  /** Its own signals are on its coin. */
  predicate OnCoin(u: Setup, m: Engine, e: Event, strategy: string, coin: string) {
    Own(u, m, e, strategy) ==> AlignmentLaws.CoinOf(DeskEvent(u, m, e).value) == coin
  }

  /** What meets a signal of its own decides that it ends aligned; flat-all or a pass
      closes its row; or the process restarts. */
  predicate Aligns(u: Setup, m: Engine, e: Event, strategy: string, coin: string) {
    || e.Restart?
    || (Own(u, m, e, strategy) && AlignmentLaws.SignalAligns(u.cfg, m.desk, DeskEvent(u, m, e).value))
    || ((e.Flat? || e.Pass?) &&
        AlignmentLaws.RowCloses(m.desk.db.open, DeskStep(u, m, e).db.open, strategy, coin))
  }

  /** What meets a signal of its own decides that it ends misaligned. */
  predicate Misleads(u: Setup, m: Engine, e: Event, strategy: string) {
    Own(u, m, e, strategy) && !AlignmentLaws.SignalAligns(u.cfg, m.desk, DeskEvent(u, m, e).value)
  }

  ghost predicate Trading(m: Engine, strategy: string, coin: string) {
    SignalLaws.Sound(m.desk) && AlignmentLaws.OneCoin(m.desk.db.open, strategy, coin)
  }

  lemma AlignStep(u: Setup, m: Engine, e: Event, strategy: string, coin: string)
    requires Trading(m, strategy, coin) && OnCoin(u, m, e, strategy, coin)
    ensures SignalLaws.Aligned(DeskStep(u, m, e), strategy, coin)
       <==> || Aligns(u, m, e, strategy, coin)
            || (SignalLaws.Aligned(m.desk, strategy, coin) && !Misleads(u, m, e, strategy))
  {
    var next := DeskEvent(u, m, e);
    if e.Restart? {
      RestartAligns(u, m, strategy, coin);
    } else if next.Some? {
      DeskAligns(u, m, e, next.value, strategy, coin);
    }
  }

  lemma DeskAligns(u: Setup, m: Engine, e: Event, next: Signals.Event, strategy: string, coin: string)
    requires Trading(m, strategy, coin) && OnCoin(u, m, e, strategy, coin) && DeskEvent(u, m, e) == Some(next)
    ensures SignalLaws.Aligned(Next(u.cfg, m.desk, next), strategy, coin)
       <==> || Aligns(u, m, e, strategy, coin)
            || (SignalLaws.Aligned(m.desk, strategy, coin) && !Misleads(u, m, e, strategy))
  {
    if next.Flat? || next.Reconcile? {
      AlignmentLaws.OutsideAligns(u.cfg, m.desk, next, strategy, coin);
    } else if Own(u, m, e, strategy) {
      AlignmentLaws.SignalAligned(u.cfg, m.desk, next, strategy);
    } else {
      SignalLaws.NextSound(u.cfg, m.desk, next);
      AlignmentLaws.OthersLeaveAlone(u.cfg, m.desk, next, strategy);
      AlignmentLaws.AloneKeepsAlignment(m.desk, Next(u.cfg, m.desk, next), strategy, coin);
    }
  }

  lemma TradingStep(u: Setup, m: Engine, e: Event, strategy: string, coin: string)
    requires Trading(m, strategy, coin) && OnCoin(u, m, e, strategy, coin)
    ensures Trading(Step(u, m, e), strategy, coin)
  {
    DeskStepKeeps(u, m, e);
    var next := DeskEvent(u, m, e);
    if next.Some? {
      AlignmentLaws.NextKeepsCoin(u.cfg, m.desk, next.value, strategy, coin);
    }
  }

  /** Belief alignment over every run of the whole engine, whatever the other
      strategies do: a strategy that trades one coin believes in exactly the position
      the book holds if and only if no misleading signal of its own came after the
      last thing that aligned it, or after the start if it was aligned then. */
  lemma AlignedIff(u: Setup, m: Engine, es: seq<Event>, strategy: string, coin: string)
    requires Trading(m, strategy, coin)
    requires forall j :: 0 <= j < |es| ==> OnCoin(u, Before(Machine(u), m, es, j), es[j], strategy, coin)
    ensures var on, off := (x: Engine, e: Event) => Aligns(u, x, e, strategy, coin),
                           (x: Engine, e: Event) => Misleads(u, x, e, strategy);
            SignalLaws.Aligned(Run(Machine(u), m, es).desk, strategy, coin)
            <==> (exists k :: OnSince(Machine(u), m, es, on, off, k))
                 || (SignalLaws.Aligned(m.desk, strategy, coin) && NeverOff(Machine(u), m, es, off))
  {
    var inv := (x: Engine) => Trading(x, strategy, coin);
    var ready := (x: Engine) => SignalLaws.Aligned(x.desk, strategy, coin);
    var allowed := (x: Engine, e: Event) => OnCoin(u, x, e, strategy, coin);
    var on, off := (x: Engine, e: Event) => Aligns(u, x, e, strategy, coin),
                   (x: Engine, e: Event) => Misleads(u, x, e, strategy);
    forall x, e | inv(x) && allowed(x, e) ensures inv(Machine(u)(x, e)) { TradingStep(u, x, e, strategy, coin); }
    forall x, e | inv(x) && allowed(x, e)
      ensures ready(Machine(u)(x, e)) <==> on(x, e) || (ready(x) && !off(x, e))
    {
      AlignStep(u, x, e, strategy, coin);
    }
    LatchWithin(Machine(u), m, es, inv, allowed, ready, on, off);
  }
}
