/**
 The restore guard: Redis may lose the control state at any moment, a human may
 set and clear the reconcile hold at any moment, and every read and write may
 fail. Value-level steps (bot/hypertrade/engine/control.py,
 bot/hypertrade/engine/runner.py).
 */
module RestoreGuard {
  import opened Common
  import Book
  import Reconcile

  /** How one Redis write ends. A write whose reply is lost has landed, but
      the caller sees an error. */
  datatype Write = Lands | Fails | LandsUnseen

  /** Why this bot opens nothing. */
  datatype Block = HoldSet | Unreadable | FirstPass | AfterClear

  /** `sentinel` and `hold` are the two Redis keys; the rest is what the running
      `BotControl` remembers. */
  datatype Control = Control(sentinel: bool, hold: bool, holdUnwritten: bool, sentinelUnwritten: bool)

  datatype Guard = Guard(control: Control, controlHold: Option<Block>, awaiting: Option<Block>,
                         opensHeld: Option<Block>, due: bool)

  /** What Redis answers during one check. */
  datatype Faults = Faults(sentinelRead: bool, holdWrite: Write, sentinelWrite: Write, holdRead: bool)

  // ----- BotControl -------------------------------------------------------

  function WriteSentinel(k: Control, w: Write): Control {
    k.(sentinel := k.sentinel || !w.Fails?, sentinelUnwritten := k.sentinelUnwritten && !w.Lands?)
  }

  /** None when the read fails. */
  function SentinelPresent(k: Control, ok: bool): (Control, Option<bool>) {
    if ok then (k.(sentinelUnwritten := !k.sentinel), Some(k.sentinel)) else (k, None)
  }

  function HoldActive(k: Control, ok: bool): Option<bool> {
    if k.holdUnwritten then Some(true) else if ok then Some(k.hold) else None
  }

  function SetHold(k: Control, w: Write): Control {
    k.(hold := k.hold || !w.Fails?, holdUnwritten := !w.Lands?)
  }

  /** The runner acted on a lost state, and that action never landed. */
  predicate Flagged(k: Control) {
    k.holdUnwritten || k.sentinelUnwritten
  }

  /** The human clear. */
  function ClearHold(k: Control, sentinelWrite: Write, delete: Write): Control {
    var k1 := if Flagged(k) then WriteSentinel(k, sentinelWrite) else k;
    if Flagged(k) && !sentinelWrite.Lands? then k1
    else k1.(hold := k1.hold && delete.Fails?, holdUnwritten := k1.holdUnwritten && !delete.Lands?)
  }

  // ----- The check on every tick and every pass ---------------------------

  function SecureLostState(k: Control, f: Faults): Control {
    var k1 := SetHold(k, f.holdWrite);
    if f.holdWrite.Lands? then WriteSentinel(k1, f.sentinelWrite) else k1
  }

  function ReadControlState(k: Control, f: Faults): (Control, Option<Block>) {
    var (k1, present) := SentinelPresent(k, f.sentinelRead);
    if present.None? then (k1, Some(Unreadable))
    else if !present.value then (SecureLostState(k1, f), Some(HoldSet))
    else
      var k2 := if k1.holdUnwritten then SetHold(k1, f.holdWrite) else k1;
      if k1.holdUnwritten && !f.holdWrite.Lands? then (k2, Some(HoldSet))
      else match HoldActive(k2, f.holdRead)
           case None => (k2, Some(Unreadable))
           case Some(held) => (k2, if held then Some(HoldSet) else None)
  }

  function Or(a: Option<Block>, b: Option<Block>): Option<Block> {
    if a.Some? then a else b
  }

  function CheckControlState(g: Guard, f: Faults): (Guard, Option<Block>) {
    var (k, why) := ReadControlState(g.control, f);
    var cleared := g.controlHold.Some? && why.None?;
    var awaiting := if cleared && g.awaiting.None? then Some(AfterClear) else g.awaiting;
    (Guard(k, why, awaiting, Or(why, awaiting), g.due || cleared), why)
  }

  // ----- One reconcile pass ----------------------------------------------

  /** What one pass meets. `pauseFlag` is None when it cannot be read, and
      `dbReads` false when the book cannot. */
  datatype Input = Input(db: Book.Db, world: Reconcile.World, traded: set<string>, pauseFlag: Option<bool>,
                         dbReads: bool, holdWrite: Write)

  predicate Paused(p: Input) {
    p.pauseFlag.None? || p.pauseFlag.value
  }

  function PassArgs(g: Guard, why: Option<Block>, p: Input): Reconcile.Args {
    Reconcile.Args(!Paused(p), Paused(p), why.Some? || g.awaiting == Some(FirstPass), p.traded)
  }

  /** The orphans on coins this bot trades that the pass held. */
  function HeldTraded(res: Reconcile.Result, traded: set<string>): seq<string> {
    Keep(res.held, (c: string) => c in traded)
  }

  /** A pass that counts: opens no longer wait for one. */
  predicate Counting(why: Option<Block>, p: Input, res: Reconcile.Result) {
    (why.None? || why == Some(HoldSet)) && !Paused(p) && !res.skipped && res.unresolved == []
  }

  predicate SetsHold(why: Option<Block>, p: Input, res: Reconcile.Result) {
    why.None? && HeldTraded(res, p.traded) != []
  }

  /** What the runner makes of the pass's result. */
  function Conclude(g: Guard, why: Option<Block>, p: Input, res: Reconcile.Result): Guard {
    var g1 := if Counting(why, p, res) then g.(awaiting := None, opensHeld := why) else g;
    if SetsHold(why, p, res) then
      g1.(control := SetHold(g1.control, p.holdWrite), opensHeld := Some(HoldSet), controlHold := Some(HoldSet))
    else g1
  }

  /** `_run_reconcile`: None when the pass raised. */
  function RunReconcile(g: Guard, f: Faults, p: Input): (Guard, Option<Reconcile.Result>) {
    var (g1, why) := CheckControlState(g, f);
    if !p.dbReads then (g1, None)
    else
      var res := Reconcile.Pass(p.db, PassArgs(g1, why, p), p.world).1;
      if res.raised then (g1, None) else (Conclude(g1, why, p, res), Some(res))
  }

  /** `_reconcile_due`. */
  predicate Due(g: Guard, elapsed: bool, pauseFlag: Option<bool>) {
    g.due || elapsed || (g.awaiting.Some? && pauseFlag == Some(false))
  }

  /** What a tick does before any strategy runs. The pause flag is read once to
      see whether a pass is due, and once more by the pass. */
  function Tick(g: Guard, f: Faults, again: Faults, p: Input, elapsed: bool, pauseFlag: Option<bool>): Guard {
    var g1 := CheckControlState(g, f).0;
    if Due(g1, elapsed, pauseFlag) then RunReconcile(g1, again, p).0.(due := false) else g1
  }

  // ----- Runs -------------------------------------------------------------

  datatype Event =
    | Flush
    | HumanSet(write: Write)
    | HumanClear(sentinelWrite: Write, delete: Write)
    | HumanDel
    | Restart
    | Check(f: Faults)
    | Pass(f: Faults, p: Input)

  function Booted(g: Guard): Guard {
    Guard(Control(g.control.sentinel, g.control.hold, false, false), None, Some(FirstPass), None, true)
  }

  function Step(g: Guard, e: Event): Guard {
    match e
    case Flush => g.(control := g.control.(sentinel := false, hold := false))
    case HumanSet(w) => g.(control := SetHold(g.control, w))
    case HumanClear(s, d) => g.(control := ClearHold(g.control, s, d))
    case HumanDel => g.(control := g.control.(hold := false))
    case Restart => Booted(g)
    case Check(f) => CheckControlState(g, f).0
    case Pass(f, p) => RunReconcile(g, f, p).0
  }
}
