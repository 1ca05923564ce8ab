/**
 The engine as an object: the restore guard, the reconcile pass and the execution
 of signals, each proved to do what its value-level step says
 (bot/hypertrade/engine/runner.py).
 */
module Runners {
  import opened Common
  import opened Book
  import opened Reconcile
  import opened Signals
  import opened Controls
  import G = RestoreGuard
  import Portfolio
  import Repositories
  import SignalLaws

  type RowWrite = (Signals.Desk, Row) -> Option<Signals.Desk>

  class EngineRunner {
    const cfg: Config
    const control: BotControl
    const portfolio: PortfolioManager
    const repo: Repositories.Repository
    var controlHold: Option<G.Block>
    var awaiting: Option<G.Block>
    var due: bool
    var beliefs: map<string, Side>
    var sent: seq<Order>
    var paused: bool

    ghost predicate Valid() {
      portfolio.control == control
    }

    ghost function Guard(): G.Guard
      reads this, control, control.redis, portfolio
    {
      G.Guard(control.State(), controlHold, awaiting, portfolio.opensHeld, due)
    }

    ghost function Desk(): Desk
      reads this, portfolio, portfolio.control.redis, repo
    {
      Signals.Desk(repo.Snapshot(), beliefs, sent, portfolio.Total(), paused)
    }

    constructor (cfg: Config, redis: Redis, repo: Repositories.Repository)
      ensures Valid() && this.cfg == cfg && this.repo == repo && control.redis == redis
      ensures Guard() == G.Guard(G.Control(redis.sentinel, redis.hold, false, false), None,
                                 Some(G.FirstPass), None, true)
      ensures Desk() == Signals.Desk(repo.Snapshot(), map[], [], redis.dailyPnl, false)
    {
      this.cfg, this.repo := cfg, repo;
      var k := new BotControl(redis);
      control := k;
      portfolio := new PortfolioManager(k);
      controlHold, awaiting, due := None, Some(G.FirstPass), true;
      beliefs, sent, paused := map[], [], false;
    }

    // ----- The restore guard ----------------------------------------------

    method SecureLostControlState(f: G.Faults)
      modifies control, control.redis`sentinel, control.redis`hold
      ensures control.State() == G.SecureLostState(old(control.State()), f)
    {
      var landed := control.SetReconcileHold(true, f.sentinelWrite, f.holdWrite);
      if landed {
        var _ := control.WriteSentinel(f.sentinelWrite);
      }
    }

    method ReadControlState(f: G.Faults) returns (why: Option<G.Block>)
      modifies control, control.redis`sentinel, control.redis`hold
      ensures (control.State(), why) == G.ReadControlState(old(control.State()), f)
    {
      var present := control.SentinelPresent(f.sentinelRead);
      if present.None? {
        return Some(G.Unreadable);
      }
      if !present.value {
        SecureLostControlState(f);
        return Some(G.HoldSet);
      }
      if control.holdUnwritten {
        var ok := control.SetReconcileHold(true, f.sentinelWrite, f.holdWrite);
        if !ok {
          return Some(G.HoldSet);
        }
      }
      var held := control.IsReconcileHoldActive(f.holdRead);
      match held {
        case None => return Some(G.Unreadable);
        case Some(h) => return if h then Some(G.HoldSet) else None;
      }
    }

    method CheckControlState(f: G.Faults) returns (why: Option<G.Block>)
      modifies this`controlHold, this`awaiting, this`due, portfolio`opensHeld
      modifies control, control.redis`sentinel, control.redis`hold
      ensures (Guard(), why) == G.CheckControlState(old(Guard()), f)
      ensures Desk() == old(Desk())
    {
      why := ReadControlState(f);
      if controlHold.Some? && why.None? {
        if awaiting.None? {
          awaiting := Some(G.AfterClear);
        }
        due := true;
      }
      controlHold := why;
      portfolio.opensHeld := if why.Some? then why else awaiting;
    }

    // ----- Strategies -----------------------------------------------------

    method ResetStrategyState(strategy: string)
      modifies this`beliefs
      ensures Desk() == Reset(old(Desk()), strategy)
    {
      beliefs := beliefs - {strategy};
    }

    method ResyncStrategyToRow(row: Row)
      modifies this`beliefs
      ensures Desk() == Resync(old(Desk()), row)
    {
      beliefs := beliefs[row.strategy := row.side];
    }

    /** Tell a strategy its row is gone and book the PnL. */
    method OnReconcileClose(strategy: string, pnl: real, io: PnlFaults)
      modifies this`beliefs, portfolio`daily, portfolio`loaded, portfolio`pending, portfolio.control.redis`dailyPnl
      ensures Desk() == Tell(old(Desk()), strategy, pnl)
    {
      ResetStrategyState(strategy);
      portfolio.RecordPnl(pnl, io);
    }

    // ----- Reconcile ------------------------------------------------------

    method TellClosed(told: seq<(string, real)>, io: PnlFaults)
      modifies this`beliefs, portfolio`daily, portfolio`loaded, portfolio`pending, portfolio.control.redis`dailyPnl
      ensures Desk() == TellAll(old(Desk()), told)
    {
      var i := 0;
      assert told[0..] == told;
      while i < |told|
        invariant i <= |told| && TellAll(old(Desk()), told) == TellAll(Desk(), told[i..])
      {
        assert told[i..][1..] == told[i + 1..];
        OnReconcileClose(told[i].0, told[i].1, io);
        i := i + 1;
      }
    }

    /** The pass itself and its callbacks; None when it raised. */
    method DoPass(a: Args, w: World, io: PnlFaults) returns (r: Option<Result>)
      requires Valid() && RowsUnique(repo.Snapshot())
      modifies this`sent, this`beliefs, repo
      modifies portfolio`daily, portfolio`loaded, portfolio`pending, control.redis`dailyPnl
      ensures var res := Pass(old(repo.Snapshot()), a, w).1; r == if res.raised then None else Some(res)
      ensures Desk() == RunPass(old(Desk()), a, w)
    {
      ghost var before := Desk();
      var result := repo.ReconcilePositions(a, w);
      sent := sent + result.sent;
      assert Desk() == before.(db := Pass(before.db, a, w).0, sent := before.sent + result.sent);
      TellClosed(result.told, io);
      return if result.raised then None else Some(result);
    }

    /** What the runner makes of the pass's result. */
    method Conclude(hold: Option<G.Block>, isPaused: bool, p: G.Input, result: Result)
      requires isPaused == G.Paused(p)
      modifies this`controlHold, this`awaiting, portfolio`opensHeld
      modifies control, control.redis`sentinel, control.redis`hold
      ensures Guard() == G.Conclude(old(Guard()), hold, p, result)
      ensures Desk() == old(Desk())
    {
      if (hold.None? || hold == Some(G.HoldSet)) && !isPaused && !result.skipped && result.unresolved == [] {
        awaiting := None;
        portfolio.opensHeld := hold;
      }
      var held := G.HeldTraded(result, p.traded);
      if hold.None? && held != [] {
        var _ := control.SetReconcileHold(true, G.Fails, p.holdWrite);
        controlHold := Some(G.HoldSet);
        portfolio.opensHeld := Some(G.HoldSet);
      }
    }

    /** The pass and its conclusion, under the check's answer `hold`. */
    method ReconcileChecked(hold: Option<G.Block>, isPaused: bool, p: G.Input, io: PnlFaults)
        returns (r: Option<Result>)
      requires Valid() && RowsUnique(repo.Snapshot()) && isPaused == G.Paused(p)
      modifies this, repo, portfolio, control, control.redis
      ensures var args := G.PassArgs(old(Guard()), hold, p);
              var res := Pass(old(repo.Snapshot()), args, p.world).1;
              && r == (if res.raised then None else Some(res))
              && Guard() == (if r.Some? then G.Conclude(old(Guard()), hold, p, r.value) else old(Guard()))
              && Desk() == RunPass(old(Desk()), args, p.world)
    {
      var first := awaiting == Some(G.FirstPass);
      var args := Args(!isPaused, isPaused, hold.Some? || first, p.traded);
      r := DoPass(args, p.world, io);
      if r.Some? {
        Conclude(hold, isPaused, p, r.value);
      }
    }

    /** `_run_reconcile`: None when the pass raised. */
    method RunReconcile(f: G.Faults, p: G.Input, io: PnlFaults) returns (r: Option<Result>)
      requires Valid() && RowsUnique(repo.Snapshot()) && p.db == repo.Snapshot()
      modifies this, repo, portfolio, control, control.redis
      ensures (Guard(), r) == G.RunReconcile(old(Guard()), f, p)
      ensures var (g, why) := G.CheckControlState(old(Guard()), f);
              Desk() == if p.dbReads then RunPass(old(Desk()), G.PassArgs(g, why, p), p.world) else old(Desk())
    {
      var isPaused := p.pauseFlag.None? || p.pauseFlag.value;
      var hold := CheckControlState(f);
      r := None;
      if p.dbReads {
        r := ReconcileChecked(hold, isPaused, p, io);
      }
    }

    // ----- Closing --------------------------------------------------------

    method PlaceOrder(o: Order)
      modifies this`sent
      ensures Desk() == Send(old(Desk()), o)
    {
      sent := sent + [o];
    }

    method CloseLeftOpen(row: Row, unknown: bool, w: CloseWorld, io: PnlFaults) returns (settled: Settled)
      requires Valid()
      modifies this`beliefs, repo
      modifies portfolio`daily, portfolio`loaded, portfolio`pending, control.redis`dailyPnl
      ensures (Desk(), settled) == Signals.CloseLeftOpen(old(Desk()), row, unknown, w)
    {
      var beside := SharesCoin(repo.open, row, w);
      if beside != Some(false) {
        return Unsettled;
      }
      if !HeldAfterClose(row.side, w) {
        var priced := repo.CloseRowExternally(row, w.books, w.bookWrite);
        if priced.None? {
          return Unsettled;
        }
        OnReconcileClose(row.strategy, priced.value.pnl, io);
        return External;
      }
      if unknown {
        return Unsettled;
      }
      ResyncStrategyToRow(row);
      return StillOpen;
    }

    method BookClose(strategy: string, coin: string, side: Side, requested: real, w: CloseWorld, io: PnlFaults)
      returns (out: Outcome)
      requires Valid() && w.reply.Answered?
      modifies this`beliefs, this`paused, repo
      modifies portfolio`daily, portfolio`loaded, portfolio`pending, control.redis`dailyPnl
      ensures (Desk(), out) == Signals.BookClose(cfg, old(Desk()), strategy, coin, side, requested, w)
    {
      var price, size := FillPrice(w.reply), w.reply.size;
      var remaining := Unfilled(requested, size, w.step);
      var fee := TakerFee(price, size, cfg.takerFee);
      var read := GetRow(repo.open, strategy, coin, w.reread);
      if read.NoAnswer? {
        out := Failed;
      } else {
        var pnl := if read.row.Some? then RealizedPnl(read.row.value.side, read.row.value.entry, price, size, fee)
                   else 0.0;
        out := BookFill(strategy, coin, side, price, size, fee, pnl, remaining, read.row, w, io);
      }
    }

    /** The trade and the row in one transaction; then the day's total, the
        strategy and the parity check. */
    method BookFill(strategy: string, coin: string, side: Side, price: real, size: real, fee: real, pnl: real,
                    remaining: real, row: Option<Row>, w: CloseWorld, io: PnlFaults) returns (out: Outcome)
      requires Valid() && w.reply.Answered?
      modifies this`beliefs, this`paused, repo
      modifies portfolio`daily, portfolio`loaded, portfolio`pending, control.redis`dailyPnl
      ensures (Desk(), out) ==
              Signals.BookFill(old(Desk()), strategy, coin, side, price, size, fee, pnl, remaining, row, w)
    {
      var ok := w.write;
      if ok {
        ok := repo.RecordTradeAndClosePosition(Exchange(w.reply.id), strategy, coin, ClosingSide(side), size, price,
                                               fee, pnl, remaining);
      }
      if !ok {
        paused := true;
        return Diverged;
      }
      portfolio.RecordPnl(pnl, io);
      if remaining > 0.0 && row.Some? {
        ResyncStrategyToRow(row.value);
      }
      return Finished(ParityOk(repo.open, coin, w) && remaining == 0.0);
    }

    /** `_execute_signal` on CLOSE. */
    method ExecuteClose(strategy: string, coin: string, side: Side, w: CloseWorld, io: PnlFaults)
      returns (out: Outcome, settled: Settled)
      requires Valid()
      modifies this`beliefs, this`paused, this`sent, repo
      modifies portfolio`daily, portfolio`loaded, portfolio`pending, control.redis`dailyPnl
      ensures (Desk(), out, settled) == Signals.ExecuteClose(cfg, old(Desk()), strategy, coin, side, w)
    {
      settled := Unsettled;
      var read := GetRow(repo.open, strategy, coin, w.rowRead);
      if read.NoAnswer? {
        return Failed, settled;
      }
      if read.row.None? {
        ResetStrategyState(strategy);
        return Finished(false), settled;
      }
      var row := read.row.value;
      if row.side != side {
        return Finished(false), settled;
      }
      var size := CloseSize(row, w.position);
      PlaceOrder(Order(coin, ClosingSide(side), size, true));
      if w.reply.Raised? {
        return Failed, settled;
      }
      if !w.reply.filled || w.reply.size <= 0.0 {
        settled := CloseLeftOpen(row, w.reply.unknown, w, io);
        return Finished(false), settled;
      }
      out := BookClose(strategy, coin, side, size, w, io);
    }

    // ----- Flips and opens ------------------------------------------------

    method AlignStrategyAfterFailedFlipClose(existing: Row, readOk: bool)
      modifies this`beliefs
      ensures Desk() == Align(old(Desk()), existing, readOk)
    {
      var read := GetRow(repo.open, existing.strategy, existing.coin, readOk);
      var row := if read.NoAnswer? then Some(existing) else read.row;
      if row.Some? && row.value.side == existing.side {
        ResyncStrategyToRow(row.value);
      } else {
        ResetStrategyState(existing.strategy);
      }
    }

    method FlipClose(existing: Row, w: OpenWorld, io: PnlFaults) returns (out: Outcome)
      requires Valid()
      modifies this`beliefs, this`paused, this`sent, repo
      modifies portfolio`daily, portfolio`loaded, portfolio`pending, control.redis`dailyPnl
      ensures (Desk(), out) == Signals.FlipClose(cfg, old(Desk()), existing, w)
    {
      var settled;
      out, settled := ExecuteClose(existing.strategy, existing.coin, existing.side, w.close, io);
      if out.Failed? || (out == Finished(false) && settled.Unsettled?) {
        AlignStrategyAfterFailedFlipClose(existing, w.alignRead);
      }
    }

    method SendOpen(s: OpenSignal, flipped: bool, w: OpenWorld) returns (out: Outcome)
      requires Valid()
      modifies this`beliefs, this`paused, this`sent, repo
      ensures (Desk(), out) == Signals.SendOpen(cfg, old(Desk()), s, flipped, w)
    {
      PlaceOrder(Order(s.coin, OpeningSide(s.side), s.size, false));
      if w.reply.Raised? || !w.reply.filled {
        if flipped {
          ResetStrategyState(s.strategy);
        }
        return if w.reply.Raised? then Failed else Finished(false);
      }
      var price, size := FillPrice(w.reply), w.reply.size;
      var ok := w.write;
      if ok {
        ok := repo.RecordTradeAndOpenPosition(Exchange(w.reply.id), s.strategy, s.coin, s.side, size, price,
                                              TakerFee(price, size, cfg.takerFee), s.atMs);
      }
      if !ok {
        paused := true;
        return Diverged;
      }
      return Finished(ParityOk(repo.open, s.coin, w.parity));
    }

    /** The close half of a flip, and the open half when the gates allow it. */
    method Flip(s: OpenSignal, existing: Row, w: OpenWorld, io: PnlFaults) returns (out: Outcome)
      requires Valid()
      modifies this`beliefs, this`paused, this`sent, repo
      modifies portfolio`daily, portfolio`loaded, portfolio`pending, control.redis`dailyPnl
      ensures (Desk(), out) == if w.riskOk then FlipOpen(cfg, old(Desk()), s, existing, w)
                               else FlipOut(cfg, old(Desk()), existing, w)
    {
      out := FlipClose(existing, w, io);
      if out != Finished(true) {
        return;
      }
      if w.riskOk {
        out := SendOpen(s, true, w);
      } else {
        ResetStrategyState(existing.strategy);
        out := Finished(false);
      }
    }

    /** An open whose risk gate has answered. */
    method OpenGated(s: OpenSignal, row: Option<Row>, ok: bool, w: OpenWorld, io: PnlFaults) returns (out: Outcome)
      requires Valid() && ok == w.riskOk
      requires GetRow(repo.open, s.strategy, s.coin, w.rowRead) == Answer(row)
                 && (row.Some? ==> row.value.side != s.side)
      modifies this`beliefs, this`paused, this`sent, repo
      modifies portfolio`daily, portfolio`loaded, portfolio`pending, control.redis`dailyPnl
      ensures (Desk(), out) == Signals.ExecuteOpen(cfg, old(Desk()), s, w)
      ensures !ok ==> SignalLaws.OnlyReduces(old(sent), sent)
    {
      if !ok {
        SignalLaws.RefusedOpenOnlyReduces(cfg, Desk(), s, w);
      }
      if row.Some? {
        if ok && (!w.gateRead || Refused(cfg, repo.open, s, w.allowMulti) || !w.leverageOk) {
          ResyncStrategyToRow(row.value);
          return Finished(false);
        }
        out := Flip(s, row.value, w, io);
        return;
      }
      if ok && !w.gateRead {
        return Failed;
      }
      if !ok || Refused(cfg, repo.open, s, w.allowMulti) || !w.leverageOk {
        ResetStrategyState(s.strategy);
        return Finished(false);
      }
      out := SendOpen(s, false, w);
    }

    /** The risk gate, and the open it allows. */
    method OpenChecked(s: OpenSignal, row: Option<Row>, w: OpenWorld, kill: Portfolio.Switch, env: bool, limit: real,
                       io: PnlFaults) returns (out: Outcome, allowed: bool)
      requires Valid()
      requires GetRow(repo.open, s.strategy, s.coin, w.rowRead) == Answer(row)
                 && (row.Some? ==> row.value.side != s.side)
      modifies this`beliefs, this`paused, this`sent, repo
      modifies portfolio`daily, portfolio`loaded, portfolio`pending, control.redis`dailyPnl
      ensures (Desk(), out) == Signals.ExecuteOpen(cfg, old(Desk()), s, w.(riskOk := allowed))
      ensures allowed ==>
                && old(portfolio.opensHeld).None? && !Portfolio.KillSwitchActive(kill, env)
                && (old(portfolio.loaded) || io.readOk ==> old(portfolio.Total()) >= -limit)
      ensures !allowed ==> SignalLaws.OnlyReduces(old(sent), sent)
    {
      allowed := portfolio.CheckRiskLimits(true, kill, env, limit, io);
      out := OpenGated(s, row, allowed, w.(riskOk := allowed), io);
    }

    /** `_execute_signal` on OPEN. `allowed` is what the risk gate answered. */
    method ExecuteOpen(s: OpenSignal, w: OpenWorld, kill: Portfolio.Switch, env: bool, limit: real, io: PnlFaults)
      returns (out: Outcome, allowed: bool)
      requires Valid()
      modifies this`beliefs, this`paused, this`sent, repo
      modifies portfolio`daily, portfolio`loaded, portfolio`pending, control.redis`dailyPnl
      ensures (Desk(), out) == Signals.ExecuteOpen(cfg, old(Desk()), s, w.(riskOk := allowed))
      ensures allowed ==>
                && old(portfolio.opensHeld).None? && !Portfolio.KillSwitchActive(kill, env)
                && (old(portfolio.loaded) || io.readOk ==> old(portfolio.Total()) >= -limit)
      ensures old(portfolio.opensHeld).Some? ==> SignalLaws.OnlyReduces(old(sent), sent)
    {
      allowed := false;
      var read := GetRow(repo.open, s.strategy, s.coin, w.rowRead);
      if read.NoAnswer? {
        out := Failed;
      } else if read.row.Some? && read.row.value.side == s.side {
        out := Finished(false);
      } else {
        out, allowed := OpenChecked(s, read.row, w, kill, env, limit, io);
      }
    }

    // ----- Flat-all -------------------------------------------------------

    /** One row of a coin's flat-all fill; false when the write fails. */
    method FlatAllRow(r: Row, p: Position, reply: Reply, io: PnlFaults) returns (ok: bool)
      requires Valid() && reply.Answered?
      modifies this`beliefs, repo
      modifies portfolio`daily, portfolio`loaded, portfolio`pending, control.redis`dailyPnl
      ensures var next := FlatRow(cfg, old(Desk()), r, p, reply);
              ok == next.Some? && Desk() == if ok then next.value else old(Desk())
    {
      var price := FillPrice(reply);
      var fee := TakerFee(price, r.size, cfg.takerFee);
      var pnl := RealizedPnl(r.side, r.entry, price, r.size, fee);
      ok := repo.RecordTradeAndClosePosition(Exchange(reply.id), r.strategy, p.coin, ClosingSide(p.side), r.size, price,
                                             fee, pnl, 0.0);
      if ok {
        OnReconcileClose(r.strategy, pnl, io);
      }
    }

    /** `write` is what flattening one row does. */
    ghost predicate FlatsOne(write: RowWrite, p: Position, reply: Reply)
      requires reply.Answered?
    {
      forall d, r {:trigger FlatRow(cfg, d, r, p, reply)} :: write(d, r) == FlatRow(cfg, d, r, p, reply)
    }

    /** Row `i` of a coin: what is left to do afterwards leads to the same end. */
    method FlatRowAt(rows: seq<Row>, i: nat, p: Position, reply: Reply, ghost write: RowWrite, ghost n: nat,
                     io: PnlFaults) returns (ok: bool)
      requires Valid() && reply.Answered? && FlatsOne(write, p, reply) && i < |rows| && n > 0
      modifies this`beliefs, repo
      modifies portfolio`daily, portfolio`loaded, portfolio`pending, control.redis`dailyPnl
      ensures Each(write, old(Desk()), rows[i..], n)
           == if ok then Each(write, Desk(), rows[i + 1..], n - 1) else (Desk(), false)
    {
      assert rows[i..][0] == rows[i] && rows[i..][1..] == rows[i + 1..];
      ok := FlatAllRow(rows[i], p, reply, io);
    }

    /** The rows of a coin one after the other; the database takes `writes`
        writes and then fails. */
    method FlatAllRows(rows: seq<Row>, p: Position, reply: Reply, writes: nat, ghost write: RowWrite, io: PnlFaults)
      returns (ok: bool)
      requires Valid() && reply.Answered? && FlatsOne(write, p, reply)
      modifies this`beliefs, repo
      modifies portfolio`daily, portfolio`loaded, portfolio`pending, control.redis`dailyPnl
      ensures (Desk(), ok) == Each(write, old(Desk()), rows, writes)
    {
      var i := 0;
      ok := true;
      ghost var whole := Each(write, Desk(), rows, writes);
      assert rows[0..] == rows;
      while ok && i < |rows|
        invariant i <= |rows| && i <= writes
        invariant whole == if ok then Each(write, Desk(), rows[i..], writes - i) else (Desk(), false)
      {
        if i < writes {
          ok := FlatRowAt(rows, i, p, reply, write, writes - i, io);
          i := i + 1;
        } else {
          ok := false;
        }
      }
    }

    /** One coin of `_flat_all_positions`; false when it counts as failed. */
    method FlatAllCoin(p: Position, rowsRead: bool, reply: Reply, writes: nat, io: PnlFaults) returns (ok: bool)
      requires Valid()
      modifies this`beliefs, this`sent, repo
      modifies portfolio`daily, portfolio`loaded, portfolio`pending, control.redis`dailyPnl
      ensures (Desk(), ok) == FlatCoin(cfg, old(Desk()), p, rowsRead, reply, writes)
    {
      if !rowsRead {
        return false;
      }
      var rows := RowsOn(repo.open, p.coin);
      PlaceOrder(CloseOrder(p));
      if reply.Raised? || !reply.filled {
        return false;
      }
      if rows == [] && writes == 0 {
        return false;
      }
      if rows == [] {
        var price := FillPrice(reply);
        var fee := TakerFee(price, reply.size, cfg.takerFee);
        var pnl := RealizedPnl(p.side, p.entry, price, reply.size, fee);
        ok := repo.RecordTrade(Trade(Exchange(reply.id), "manual_flat", p.coin, ClosingSide(p.side), reply.size, price,
                                     fee, Some(pnl)));
        if ok {
          portfolio.RecordPnl(pnl, io);
        }
        return;
      }
      ok := FlatAllRows(rows, p, reply, writes, FlatWrite(cfg, p, reply), io);
    }

    // ----- The tick's guard -----------------------------------------------

    /** What `tick` does before any strategy runs: the check, and the pass when
        one is due. */
    method GuardTick(f: G.Faults, again: G.Faults, p: G.Input, elapsed: bool, pauseFlag: Option<bool>, io: PnlFaults)
      requires Valid() && RowsUnique(repo.Snapshot()) && p.db == repo.Snapshot()
      modifies this, repo, portfolio, control, control.redis
      ensures Guard() == G.Tick(old(Guard()), f, again, p, elapsed, pauseFlag)
    {
      var _ := CheckControlState(f);
      if due || elapsed || (awaiting.Some? && pauseFlag == Some(false)) {
        var _ := RunReconcile(again, p, io);
        due := false;
      }
    }
  }
}
