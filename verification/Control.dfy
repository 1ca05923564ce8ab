/**
 Redis, the bot's view of it, and the daily counter, as objects
 (bot/hypertrade/engine/control.py, bot/hypertrade/engine/portfolio.py).
 */
module Controls {
  import opened Common
  import RestoreGuard
  import Portfolio

  type Write = RestoreGuard.Write

  /** This bot's keys. They outlive the process and may vanish at any time. */
  class Redis {
    var sentinel: bool
    var hold: bool
    var dailyPnl: real

    constructor ()
      ensures !sentinel && !hold && dailyPnl == 0.0
    {
      sentinel, hold, dailyPnl := false, false, 0.0;
    }
  }

  class BotControl {
    const redis: Redis
    var holdUnwritten: bool
    var sentinelUnwritten: bool

    ghost function State(): RestoreGuard.Control
      reads this, redis
    {
      RestoreGuard.Control(redis.sentinel, redis.hold, holdUnwritten, sentinelUnwritten)
    }

    constructor (redis: Redis)
      ensures this.redis == redis && !holdUnwritten && !sentinelUnwritten
    {
      this.redis := redis;
      holdUnwritten, sentinelUnwritten := false, false;
    }

    /** None when the read raises. */
    method SentinelPresent(ok: bool) returns (r: Option<bool>)
      modifies this`sentinelUnwritten
      ensures (State(), r) == RestoreGuard.SentinelPresent(old(State()), ok)
    {
      if !ok {
        return None;
      }
      sentinelUnwritten := !redis.sentinel;
      return Some(redis.sentinel);
    }

    /** False when the write raises. */
    method WriteSentinel(w: Write) returns (ok: bool)
      modifies redis`sentinel, this`sentinelUnwritten
      ensures State() == RestoreGuard.WriteSentinel(old(State()), w) && ok == w.Lands?
    {
      if !w.Fails? {
        redis.sentinel := true;
      }
      if !w.Lands? {
        return false;
      }
      sentinelUnwritten := false;
      return true;
    }

    method IsReconcileHoldActive(ok: bool) returns (r: Option<bool>)
      ensures r == RestoreGuard.HoldActive(State(), ok)
    {
      if holdUnwritten {
        return Some(true);
      }
      return if ok then Some(redis.hold) else None;
    }

    /** `set_reconcile_hold`: a set stays in memory until its write lands; a
        clear that ends a lost state the runner acted on writes the sentinel
        first. */
    method SetReconcileHold(active: bool, sentinelWrite: Write, write: Write) returns (ok: bool)
      modifies redis`sentinel, redis`hold, this
      ensures State() == if active then RestoreGuard.SetHold(old(State()), write)
                         else RestoreGuard.ClearHold(old(State()), sentinelWrite, write)
      ensures active ==> ok == write.Lands?
    {
      if active {
        holdUnwritten := true;
      } else if holdUnwritten || sentinelUnwritten {
        ok := WriteSentinel(sentinelWrite);
        if !ok {
          return;
        }
      }
      if !write.Fails? {
        redis.hold := active;
      }
      if !write.Lands? {
        return false;
      }
      holdUnwritten := false;
      return true;
    }
  }

  /** What Redis answers while the counter is loaded and saved. */
  datatype PnlFaults = PnlFaults(readOk: bool, w: Write)

  class PortfolioManager {
    const control: BotControl
    var daily: real
    var loaded: bool
    var pending: bool
    var opensHeld: Option<RestoreGuard.Block>

    ghost function State(): Portfolio.Pnl
      reads this, control.redis
    {
      Portfolio.Pnl(control.redis.dailyPnl, daily, loaded, pending)
    }

    /** Today's realised PnL, wherever it is kept. */
    ghost function Total(): real
      reads this, control.redis
    {
      Portfolio.Abstract(State()).total
    }

    constructor (control: BotControl)
      ensures this.control == control && opensHeld == None
      ensures !loaded && !pending && daily == 0.0
    {
      this.control := control;
      daily, loaded, pending, opensHeld := 0.0, false, false, None;
    }

    method EnsureLoaded(readOk: bool)
      modifies this`daily, this`loaded, this`pending
      ensures State() == Portfolio.EnsureLoaded(old(State()), readOk)
    {
      if loaded || !readOk {
        return;
      }
      var unloaded := daily;
      daily := control.redis.dailyPnl + unloaded;
      loaded := true;
      if unloaded != 0.0 {
        pending := true;
      }
    }

    method Persist(w: Write)
      modifies this`pending, control.redis`dailyPnl
      ensures State() == Portfolio.Persist(old(State()), w)
    {
      if !loaded {
        pending := true;
        return;
      }
      if !w.Fails? {
        control.redis.dailyPnl := daily;
      }
      pending := !w.Lands?;
    }

    method RecordPnl(pnl: real, f: PnlFaults)
      modifies this`daily, this`loaded, this`pending, control.redis`dailyPnl
      ensures State() == Portfolio.Record(old(State()), f.readOk, f.w, pnl)
      ensures Total() == old(Total()) + pnl
    {
      EnsureLoaded(f.readOk);
      daily := daily + pnl;
      Persist(f.w);
    }

    /** `check_risk_limits`. */
    method CheckRiskLimits(isOpen: bool, kill: Portfolio.Switch, env: bool, limit: real, f: PnlFaults)
        returns (ok: bool)
      modifies this`daily, this`loaded, this`pending, control.redis`dailyPnl
      ensures State() == Portfolio.Touch(old(State()), f.readOk, f.w) && Total() == old(Total())
      ensures ok == Portfolio.Allows(State(), isOpen, Portfolio.KillSwitchActive(kill, env), opensHeld, limit)
    {
      EnsureLoaded(f.readOk);
      if pending {
        Persist(f.w);
      }
      if !isOpen {
        return true;
      }
      if Portfolio.KillSwitchActive(kill, env) {
        return false;
      }
      if opensHeld.Some? {
        return false;
      }
      return !(daily < -limit);
    }
  }
}
