/**
 What the guard and Redis hold after any run, read off the run: which writes were
 asked for, which landed, and which were seen to (bot/hypertrade/engine/control.py,
 bot/hypertrade/engine/runner.py).
 */
module GuardMemoryLaws {
  import opened Common
  import opened Traces
  import opened RestoreGuard
  import opened RestoreGuardLaws

  // ----- Writes -------------------------------------------------------------

  /** The write of the hold an event asks for, if it asks for one: a human sets it, a
      check finds the sentinel missing or an earlier hold unwritten, or a pass meets
      orphans it must hold. */
  function HoldWrite(g: Guard, e: Event): Option<Write> {
    match e
    case HumanSet(w) => Some(w)
    case Check(f) => CheckWrite(g, f)
    case Pass(f, p) => if PutsHold(g, e) then Some(p.holdWrite) else CheckWrite(g, f)
    case _ => None
  }

  function CheckWrite(g: Guard, f: Faults): Option<Write> {
    if f.sentinelRead && (!g.control.sentinel || g.control.holdUnwritten) then Some(f.holdWrite) else None
  }

  /** A check sees the sentinel missing. */
  predicate SeesLoss(g: Guard, e: Event) {
    Checks(e) && e.f.sentinelRead && !g.control.sentinel
  }

  /** A clear with something pending writes the sentinel first, and goes on only when it
      is seen to land. */
  predicate ClearGoesOn(g: Guard, s: Write) {
    g.control.holdUnwritten || g.control.sentinelUnwritten ==> s.Lands?
  }

  // ----- The hold, asked for and not seen to land -------------------------

  predicate HoldMissed(g: Guard, e: Event) {
    HoldWrite(g, e).Some? && HoldWrite(g, e) != Some(Lands)
  }

  predicate HoldSettled(g: Guard, e: Event) {
    e.Restart? || HoldWrite(g, e) == Some(Lands) || e == HumanClear(Lands, Lands)
  }

  /** What one check does to the control state. */
  lemma CheckMemory(g: Guard, f: Faults, g1: Guard, why: Option<Block>)
    requires (g1, why) == CheckControlState(g, f)
    ensures g1.control.holdUnwritten <==> (CheckWrite(g, f).Some? && CheckWrite(g, f) != Some(Lands))
                                          || (g.control.holdUnwritten && CheckWrite(g, f).None?)
    ensures g1.control.sentinelUnwritten
       <==> if f.sentinelRead then !g.control.sentinel && !(f.holdWrite.Lands? && f.sentinelWrite.Lands?)
            else g.control.sentinelUnwritten
    ensures g1.control.sentinel
       <==> g.control.sentinel || (f.sentinelRead && f.holdWrite.Lands? && !f.sentinelWrite.Fails?)
    ensures g1.control.hold <==> g.control.hold || (CheckWrite(g, f).Some? && CheckWrite(g, f) != Some(Fails))
  {
  }

  /** A pass changes it by its check and by the hold it sets. */
  lemma PassMemory(g: Guard, f: Faults, p: Input)
    ensures var g1, g2 := CheckControlState(g, f).0, Step(g, Pass(f, p));
            if PutsHold(g, Pass(f, p)) then
              && (CheckWrite(g, f).Some? ==> CheckWrite(g, f) == Some(Lands))
              && g2.control == g1.control.(hold := g1.control.hold || !p.holdWrite.Fails?,
                                           holdUnwritten := !p.holdWrite.Lands?)
            else g2.control == g1.control
  {
    var (g1, why) := CheckControlState(g, f);
    PassIs(g, f, p, g1, why, RunReconcile(g, f, p).1, RunReconcile(g, f, p).0);
  }

  lemma HoldUnwrittenStep(g: Guard, e: Event)
    ensures Step(g, e).control.holdUnwritten <==> HoldMissed(g, e) || (g.control.holdUnwritten && !HoldSettled(g, e))
  {
    match e
    case Check(f) => CheckMemory(g, f, CheckControlState(g, f).0, CheckControlState(g, f).1);
    case Pass(f, p) =>
      CheckMemory(g, f, CheckControlState(g, f).0, CheckControlState(g, f).1);
      PassMemory(g, f, p);
    case _ =>
  }

  /** A hold is remembered as unwritten exactly when the last write of it that was asked
      for was not seen to land, and neither a restart nor a clear that got through came
      since. */
  lemma HoldUnwrittenIff(g: Guard, es: seq<Event>)
    requires !g.control.holdUnwritten
    ensures Run(Step, g, es).control.holdUnwritten
       <==> exists k :: OnSince(Step, g, es, HoldMissed, HoldSettled, k)
  {
    forall x, e ensures Step(x, e).control.holdUnwritten
                   <==> HoldMissed(x, e) || (x.control.holdUnwritten && !HoldSettled(x, e))
    {
      HoldUnwrittenStep(x, e);
    }
    LatchIff(Step, g, es, (x: Guard) => x.control.holdUnwritten, HoldMissed, HoldSettled);
  }

  // ----- The loss seen, and not seen to be repaired -----------------------

  predicate LossPending(g: Guard, e: Event) {
    SeesLoss(g, e) && !(e.f.holdWrite.Lands? && e.f.sentinelWrite.Lands?)
  }

  predicate LossSettled(g: Guard, e: Event) {
    e.Restart? || (Checks(e) && e.f.sentinelRead) || (e.HumanClear? && e.sentinelWrite.Lands?)
  }

  lemma SentinelUnwrittenStep(g: Guard, e: Event)
    ensures Step(g, e).control.sentinelUnwritten
       <==> LossPending(g, e) || (g.control.sentinelUnwritten && !LossSettled(g, e))
  {
    match e
    case Check(f) => CheckMemory(g, f, CheckControlState(g, f).0, CheckControlState(g, f).1);
    case Pass(f, p) =>
      CheckMemory(g, f, CheckControlState(g, f).0, CheckControlState(g, f).1);
      PassMemory(g, f, p);
    case _ =>
  }

  /** A loss is remembered exactly when a check saw it and did not see hold and sentinel
      both land, and no check has read the sentinel, no clear has written it and no
      restart has come since. */
  lemma SentinelUnwrittenIff(g: Guard, es: seq<Event>)
    requires !g.control.sentinelUnwritten
    ensures Run(Step, g, es).control.sentinelUnwritten
       <==> exists k :: OnSince(Step, g, es, LossPending, LossSettled, k)
  {
    forall x, e ensures Step(x, e).control.sentinelUnwritten
                   <==> LossPending(x, e) || (x.control.sentinelUnwritten && !LossSettled(x, e))
    {
      SentinelUnwrittenStep(x, e);
    }
    LatchIff(Step, g, es, (x: Guard) => x.control.sentinelUnwritten, LossPending, LossSettled);
  }

  // ----- The two keys in Redis ------------------------------------------------

  /** The sentinel is written by a check that saw it missing once the hold had landed,
      and by a clear with something pending. */
  predicate SentinelLands(g: Guard, e: Event) {
    || (SeesLoss(g, e) && e.f.holdWrite.Lands? && !e.f.sentinelWrite.Fails?)
    || (e.HumanClear? && (g.control.holdUnwritten || g.control.sentinelUnwritten) && !e.sentinelWrite.Fails?)
  }

  predicate Flushes(g: Guard, e: Event) {
    e.Flush?
  }

  lemma SentinelStep(g: Guard, e: Event)
    ensures Step(g, e).control.sentinel <==> SentinelLands(g, e) || (g.control.sentinel && !Flushes(g, e))
  {
    match e
    case Check(f) => CheckMemory(g, f, CheckControlState(g, f).0, CheckControlState(g, f).1);
    case Pass(f, p) =>
      CheckMemory(g, f, CheckControlState(g, f).0, CheckControlState(g, f).1);
      PassMemory(g, f, p);
    case _ =>
  }

  predicate HoldLands(g: Guard, e: Event) {
    HoldWrite(g, e).Some? && HoldWrite(g, e) != Some(Fails)
  }

  /** The hold key goes with a flush, a deletion, or a clear that gets to its delete. */
  predicate HoldGoes(g: Guard, e: Event) {
    e.Flush? || e.HumanDel? || (e.HumanClear? && ClearGoesOn(g, e.sentinelWrite) && !e.delete.Fails?)
  }

  lemma HoldKeyStep(g: Guard, e: Event)
    ensures Step(g, e).control.hold
       <==> HoldLands(g, e) || HoldSurvivesCheck(g, e) || (g.control.hold && !HoldGoes(g, e))
  {
    match e
    case Check(f) => CheckMemory(g, f, CheckControlState(g, f).0, CheckControlState(g, f).1);
    case Pass(f, p) =>
      CheckMemory(g, f, CheckControlState(g, f).0, CheckControlState(g, f).1);
      PassMemory(g, f, p);
    case _ =>
  }

  /** A pass that sets the hold had written one in its check already. */
  predicate HoldSurvivesCheck(g: Guard, e: Event) {
    e.Pass? && PutsHold(g, e) && CheckWrite(g, e.f) == Some(Lands)
  }

  predicate HoldAppears(g: Guard, e: Event) {
    HoldLands(g, e) || HoldSurvivesCheck(g, e)
  }

  /** The keys are in Redis exactly when they were, or were written, and nothing has
      taken them since. */
  lemma KeysIff(g: Guard, es: seq<Event>)
    ensures Run(Step, g, es).control.sentinel
       <==> (exists k :: OnSince(Step, g, es, SentinelLands, Flushes, k))
            || (g.control.sentinel && NeverOff(Step, g, es, Flushes))
    ensures Run(Step, g, es).control.hold
       <==> (exists k :: OnSince(Step, g, es, HoldAppears, HoldGoes, k))
            || (g.control.hold && NeverOff(Step, g, es, HoldGoes))
  {
    var inv, any := (x: Guard) => true, (x: Guard, e: Event) => true;
    forall x, e ensures Step(x, e).control.sentinel <==> SentinelLands(x, e) || (x.control.sentinel && !Flushes(x, e)) {
      SentinelStep(x, e);
    }
    LatchWithin(Step, g, es, inv, any, (x: Guard) => x.control.sentinel, SentinelLands, Flushes);
    forall x, e ensures Step(x, e).control.hold <==> HoldAppears(x, e) || (x.control.hold && !HoldGoes(x, e)) {
      HoldKeyStep(x, e);
    }
    LatchWithin(Step, g, es, inv, any, (x: Guard) => x.control.hold, HoldAppears, HoldGoes);
  }

  /** Asked whether the hold is set: yes when one was asked for and not seen to land,
      else as the key says, or no answer when it cannot be read. */
  lemma HoldActiveIs(k: Control, readOk: bool)
    ensures HoldActive(k, readOk) == Some(true) <==> k.holdUnwritten || (readOk && k.hold)
    ensures HoldActive(k, readOk).None? <==> !k.holdUnwritten && !readOk
  {
  }

  // ----- What opens wait for --------------------------------------------------

  /** A check finds a block gone that the one before it, or a pass, had found. */
  predicate Clears(g: Guard, e: Event) {
    Checks(e) && g.controlHold.Some? && Why(g, e).None?
  }

  predicate Waits(g: Guard, e: Event) {
    e.Restart? || Clears(g, e)
  }

  lemma AwaitingStep(g: Guard, e: Event)
    ensures Step(g, e).awaiting.None? <==> Counts(g, e) || (g.awaiting.None? && !Waits(g, e))
  {
    match e
    case Pass(f, p) =>
      var (g1, why) := CheckControlState(g, f);
      PassIs(g, f, p, g1, why, RunReconcile(g, f, p).1, RunReconcile(g, f, p).0);
    case _ =>
  }

  /** Opens wait for no pass exactly when one has counted since the process started and
      no block has gone away since. */
  lemma AwaitingIff(g: Guard, es: seq<Event>)
    requires g.awaiting.Some?
    ensures Run(Step, g, es).awaiting.None? <==> exists k :: OnSince(Step, g, es, Counts, Waits, k)
  {
    forall x, e ensures Step(x, e).awaiting.None? <==> Counts(x, e) || (x.awaiting.None? && !Waits(x, e)) {
      AwaitingStep(x, e);
    }
    LatchIff(Step, g, es, (x: Guard) => x.awaiting.None?, Counts, Waits);
  }

  predicate Blocks(g: Guard, e: Event) {
    (Checks(e) && Why(g, e).Some?) || PutsHold(g, e)
  }

  predicate Frees(g: Guard, e: Event) {
    e.Restart? || (Checks(e) && Why(g, e).None?)
  }

  lemma ControlHoldStep(g: Guard, e: Event)
    ensures Step(g, e).controlHold.Some? <==> Blocks(g, e) || (g.controlHold.Some? && !Frees(g, e))
  {
    match e
    case Pass(f, p) =>
      var (g1, why) := CheckControlState(g, f);
      PassIs(g, f, p, g1, why, RunReconcile(g, f, p).1, RunReconcile(g, f, p).0);
    case _ =>
  }

  /** The last check since the process started answered with a block, or the last pass
      set one. */
  lemma ControlHoldIff(g: Guard, es: seq<Event>)
    requires g.controlHold.None?
    ensures Run(Step, g, es).controlHold.Some? <==> exists k :: OnSince(Step, g, es, Blocks, Frees, k)
  {
    forall x, e ensures Step(x, e).controlHold.Some? <==> Blocks(x, e) || (x.controlHold.Some? && !Frees(x, e)) {
      ControlHoldStep(x, e);
    }
    LatchIff(Step, g, es, (x: Guard) => x.controlHold.Some?, Blocks, Frees);
  }

  // ----- Ticks ----------------------------------------------------------------

  /** What one tick meets. */
  datatype TickInput = TickInput(f: Faults, again: Faults, p: Input, elapsed: bool, pauseFlag: Option<bool>)

  function TickStep(g: Guard, t: TickInput): Guard {
    Tick(g, t.f, t.again, t.p, t.elapsed, t.pauseFlag)
  }

  /** The tick's check finds a block gone, opens wait for a pass of a bot that is
      readably not paused, or five minutes have passed. */
  predicate CallsForPass(g: Guard, t: TickInput) {
    || t.elapsed
    || Clears(g, Check(t.f))
    || ((g.awaiting.Some? || Clears(g, Check(t.f))) && t.pauseFlag == Some(false))
  }

  /** A tick is its check, and then its pass in the first tick and whenever one is called
      for; no tick leaves a pass owing. */
  lemma TickIs(g: Guard, t: TickInput)
    ensures var g1 := Step(g, Check(t.f));
            TickStep(g, t) == (if g.due || CallsForPass(g, t) then Step(g1, Pass(t.again, t.p)) else g1).(due := false)
  {
  }

  lemma {:induction false} NothingOwed(g: Guard, ts: seq<TickInput>)
    requires ts != []
    ensures !Run(TickStep, g, ts).due
  {
    TickIs(Run(TickStep, g, ts[..|ts| - 1]), ts[|ts| - 1]);
  }

  /** Over a process's ticks a pass runs in the first one and then exactly in those that
      call for it. */
  lemma TicksIff(g: Guard, ts: seq<TickInput>, i: nat)
    requires g.due && i < |ts|
    ensures var now, t := Before(TickStep, g, ts, i), ts[i]; var g1 := Step(now, Check(t.f));
            Before(TickStep, g, ts, i + 1)
            == (if i == 0 || CallsForPass(now, t) then Step(g1, Pass(t.again, t.p)) else g1).(due := false)
    ensures Booted(g).due
  {
    RunNext(TickStep, g, ts, i);
    TickIs(Before(TickStep, g, ts, i), ts[i]);
    if i > 0 {
      NothingOwed(g, ts[..i]);
    }
  }

  // ----- A hold that was asked for --------------------------------------------

  /** Whoever asks for the hold, a human, a check or a pass, it is in force at once. */
  lemma AskedIsInForce(g: Guard, e: Event)
    requires HoldWrite(g, e).Some?
    ensures InForce(Step(g, e))
  {
    HoldUnwrittenStep(g, e);
    HoldKeyStep(g, e);
  }
}
