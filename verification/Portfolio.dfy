/**
 Today's realised PnL, kept in memory and in Redis, and the gate it feeds
 (bot/hypertrade/engine/portfolio.py).
 */
module Portfolio {
  import opened Common
  import opened Traces
  import opened RestoreGuard

  /** `stored` is today's Redis value; the rest is the running process. */
  datatype Pnl = Pnl(stored: real, daily: real, loaded: bool, pending: bool)

  const FRESH := Pnl(0.0, 0.0, false, false)

  /** `_ensure_loaded`: a load adds what was recorded while Redis could not be
      read. */
  function EnsureLoaded(s: Pnl, readOk: bool): Pnl {
    if s.loaded || !readOk then s
    else Pnl(s.stored, s.stored + s.daily, true, s.pending || s.daily != 0.0)
  }

  /** `_persist`: nothing is written before a load. */
  function Persist(s: Pnl, w: Write): Pnl {
    if !s.loaded then s.(pending := true)
    else Pnl(if w.Fails? then s.stored else s.daily, s.daily, true, !w.Lands?)
  }

  function Record(s: Pnl, readOk: bool, w: Write, pnl: real): Pnl {
    var s1 := EnsureLoaded(s, readOk);
    Persist(s1.(daily := s1.daily + pnl), w)
  }

  /** What a risk check does to the counter, open or close alike. */
  function Touch(s: Pnl, readOk: bool, w: Write): Pnl {
    var s1 := EnsureLoaded(s, readOk);
    if s1.pending then Persist(s1, w) else s1
  }

  /** The kill switch as Redis answers: unreadable, unset, or set. */
  datatype Switch = NoAnswer | Unset | SetTo(active: bool)

  predicate KillSwitchActive(k: Switch, env: bool) {
    match k
    case NoAnswer => true
    case Unset => env
    case SetTo(b) => b
  }

  /** `check_risk_limits`. */
  predicate Allows(s: Pnl, isOpen: bool, kill: bool, opensHeld: Option<Block>, limit: real) {
    !isOpen || (!kill && opensHeld.None? && !(s.daily < -limit))
  }

  // ----- Runs -------------------------------------------------------------

  datatype Event =
    | Recorded(pnl: real, readOk: bool, w: Write)
    | RiskCheck(readOk: bool, w: Write)
    | Crash
    | NewDay

  function Step(s: Pnl, e: Event): Pnl {
    match e
    case Recorded(pnl, ok, w) => Record(s, ok, w, pnl)
    case RiskCheck(ok, w) => Touch(s, ok, w)
    case Crash => Pnl(s.stored, 0.0, false, false)
    case NewDay => FRESH
  }

  // ----- The one-number ledger it stands for ------------------------------

  /** What the day really made, and how much of it would survive a crash. */
  datatype Truth = Truth(total: real, safe: real)

  function Abstract(s: Pnl): Truth {
    Truth(if s.loaded then s.daily else s.stored + s.daily, s.stored)
  }

  /** The simple form: a record adds to the total, at any record or check the
      total may become safe, and a crash falls back to what is safe. */
  predicate Allowed(t: Truth, e: Event, t': Truth) {
    match e
    case Recorded(pnl, _, _) => t'.total == t.total + pnl && (t'.safe == t.safe || t'.safe == t'.total)
    case RiskCheck(_, _) => t'.total == t.total && (t'.safe == t.safe || t'.safe == t'.total)
    case Crash => t' == Truth(t.safe, t.safe)
    case NewDay => t' == Truth(0.0, 0.0)
  }

  /** What both stores together keep. */
  predicate Coherent(s: Pnl) {
    && (s.loaded && !s.pending ==> s.stored == s.daily)
    && (!s.loaded && s.daily != 0.0 ==> s.pending)
  }

  /** Every step of the two stores is a step of the one-number ledger, keeps
      the stores coherent, and never writes before a load. */
  lemma StepRefines(s: Pnl, e: Event)
    requires Coherent(s)
    ensures Coherent(Step(s, e)) && Allowed(Abstract(s), e, Abstract(Step(s, e)))
    ensures !Step(s, e).loaded && !e.NewDay? ==> Step(s, e).stored == s.stored
  {
  }

  /** A record or a check whose load and write both work makes everything
      safe: Redis then holds the day's true total. */
  lemma RecoveryMakesSafe(s: Pnl, e: Event)
    requires Coherent(s) && ((e.Recorded? || e.RiskCheck?) && e.readOk && e.w.Lands?)
    ensures Step(s, e).loaded && !Step(s, e).pending
    ensures Step(s, e).stored == Step(s, e).daily == Abstract(Step(s, e)).total
  {
  }

  // ----- The day read off the trace ---------------------------------------

  predicate Touches(e: Event) {
    e.Recorded? || e.RiskCheck?
  }

  /** The process running after `es` has read Redis at least once today. */
  predicate HasRead(es: seq<Event>) {
    es != [] &&
    var n := |es| - 1;
    Touches(es[n]) && (es[n].readOk || HasRead(es[..n]))
  }

  /** What was recorded today, less what crashes took: each takes what was
      recorded since the last write of a process that had read Redis. */
  function Made(es: seq<Event>): real
    decreases |es|, 1
  {
    if es == [] then 0.0
    else
      var n := |es| - 1;
      match es[n]
      case Recorded(pnl, _, _) => Made(es[..n]) + pnl
      case RiskCheck(_, _) => Made(es[..n])
      case Crash => Kept(es[..n])
      case NewDay => 0.0
  }

  /** What had been made at that last write; it survives. */
  function Kept(es: seq<Event>): real
    decreases |es|, 2
  {
    if es == [] then 0.0
    else
      var n := |es| - 1;
      match es[n]
      case NewDay => 0.0
      case Crash => Kept(es[..n])
      case _ => if HasRead(es) && !es[n].w.Fails? then Made(es) else Kept(es[..n])
  }

  /** Over every run from a fresh day, memory and Redis hold what the trace says:
      once loaded the total is in memory, before that Redis and memory add up to
      it, and Redis alone has what would survive a crash. */
  lemma {:induction false} CounterIsTotal(es: seq<Event>, last: Pnl)
    requires last == Run(Step, FRESH, es)
    ensures Coherent(last) && last.loaded == HasRead(es)
    ensures Made(es) == if last.loaded then last.daily else last.stored + last.daily
    ensures Kept(es) == last.stored
    decreases |es|
  {
    if es != [] {
      var n := |es| - 1;
      var before := Run(Step, FRESH, es[..n]);
      CounterIsTotal(es[..n], before);
      StepRefines(before, es[n]);
    }
  }

  // ----- What still has to be written ----------------------------------------

  /** The process has read Redis by the end of the event, and its write was seen to
      land. */
  predicate Wrote(s: Pnl, e: Event) {
    Touches(e) && (s.loaded || e.readOk) && e.w.Lands?
  }

  predicate Misses(s: Pnl, e: Event) {
    e.Recorded? && !Wrote(s, e)
  }

  predicate Catches(s: Pnl, e: Event) {
    e.Crash? || e.NewDay? || Wrote(s, e)
  }

  lemma PendingStep(s: Pnl, e: Event)
    requires Coherent(s)
    ensures Step(s, e).pending <==> Misses(s, e) || (s.pending && !Catches(s, e))
  {
  }

  /** Over every run something is pending exactly when a record was not seen to land in
      Redis by a process that had read it, and no write has been since. */
  lemma PendingIff(es: seq<Event>)
    ensures Run(Step, FRESH, es).pending <==> exists k :: OnSince(Step, FRESH, es, Misses, Catches, k)
  {
    var any := (s: Pnl, e: Event) => true;
    forall s, e | Coherent(s) && any(s, e) ensures Coherent(Step(s, e)) { StepRefines(s, e); }
    forall s, e | Coherent(s) && any(s, e)
      ensures Step(s, e).pending <==> Misses(s, e) || (s.pending && !Catches(s, e))
    {
      PendingStep(s, e);
    }
    LatchWithin(Step, FRESH, es, Coherent, any, (s: Pnl) => s.pending, Misses, Catches);
  }

  /** With the kill switch readably off, or unset and off by default, and nothing held,
      the daily-loss gate enforces the true total exactly when the counter is
      loaded; with a blown total an open passes only while the counter cannot
      be loaded and this process alone has not lost enough. */
  lemma GateEnforcesTotal(s: Pnl, readOk: bool, w: Write, k: Switch, env: bool, opensHeld: Option<Block>, limit: real)
    requires Coherent(s)
    ensures var s' := Touch(s, readOk, w); var ok := Allows(s', true, KillSwitchActive(k, env), opensHeld, limit);
            var off := k == SetTo(false) || (k.Unset? && !env);
            && (s.loaded || readOk ==> (ok <==> off && opensHeld.None? && Abstract(s).total >= -limit))
            && (Abstract(s).total < -limit ==>
                  (ok <==> !s.loaded && !readOk && s.daily >= -limit && off && opensHeld.None?))
            && Allows(s', false, KillSwitchActive(k, env), opensHeld, limit)
  {
  }

  /** So a restart that cannot read Redis forgets the day's loss. */
  lemma UnloadedGateForgets(loss: real, limit: real, w: Write)
    requires 0.0 <= limit < loss
    ensures var s := Run(Step, FRESH, [Recorded(-loss, true, Lands), Crash]);
            && Abstract(s).total == -loss < -limit
            && Allows(Touch(s, false, w), true, false, None, limit)
  {
    var es := [Recorded(-loss, true, Lands), Crash];
    RunNext(Step, FRESH, es, 0);
    RunNext(Step, FRESH, es, 1);
    RunAll(Step, FRESH, es);
  }
}
