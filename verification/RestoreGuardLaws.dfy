/**
 What the restore guard guarantees over whole runs, whatever fails and whenever
 Redis is emptied (bot/hypertrade/engine/runner.py, bot/hypertrade/engine/control.py).
 */
module RestoreGuardLaws {
  import opened Common
  import opened Traces
  import opened RestoreGuard
  import Book
  import Reconcile
  import ReconcileLaws
  import PassLaws

  predicate Checks(e: Event) {
    e.Check? || e.Pass?
  }

  /** What the check inside this event answers. */
  function Why(g: Guard, e: Event): Option<Block>
    requires Checks(e)
  {
    CheckControlState(g, e.f).1
  }

  /** The result of a pass that did not raise. */
  function Outcome(g: Guard, e: Event): Option<Reconcile.Result>
    requires e.Pass?
  {
    RunReconcile(g, e.f, e.p).1
  }

  /** A pass that counts. */
  predicate Counts(g: Guard, e: Event) {
    e.Pass? && Outcome(g, e).Some? && Counting(Why(g, e), e.p, Outcome(g, e).value)
  }

  predicate PutsHold(g: Guard, e: Event) {
    e.Pass? && Outcome(g, e).Some? && SetsHold(Why(g, e), e.p, Outcome(g, e).value)
  }

  /** A pass that counts, under a clean check, and holds nothing this bot
      trades. */
  predicate Vouches(g: Guard, e: Event) {
    Counts(g, e) && Why(g, e).None? && !PutsHold(g, e)
  }

  /** An event after which opens must wait for another pass that counts. */
  predicate Spoils(g: Guard, e: Event) {
    e.Restart? || (Checks(e) && Why(g, e).Some?) || PutsHold(g, e)
  }

  // ----- What a clean check has seen --------------------------------------

  /** Something forbids opening: the control state is lost, or a hold is set
      or was asked for. */
  predicate InForce(g: Guard) {
    !g.control.sentinel || g.control.hold || g.control.holdUnwritten
  }

  /** A check is clean exactly when it read the sentinel there, no hold key,
      and no hold waits to be written. */
  lemma CleanCheckIff(g: Guard, f: Faults)
    ensures CheckControlState(g, f).1.None? <==> f.sentinelRead && f.holdRead && !InForce(g)
  {
  }

  // ----- The open gate ----------------------------------------------------

  predicate Ready(g: Guard) {
    g.awaiting.None? && g.controlHold.None?
  }

  predicate PastFirst(g: Guard) {
    g.awaiting != Some(FirstPass)
  }

  /** What a check does to the gate. */
  lemma CheckGate(g: Guard, f: Faults, g1: Guard, why: Option<Block>)
    requires (g1, why) == CheckControlState(g, f)
    ensures Ready(g1) <==> Ready(g) && why.None?
    ensures g1.opensHeld.None? <==> Ready(g1)
    ensures g1.controlHold == why && (PastFirst(g1) <==> PastFirst(g))
  {
  }

  /** What a pass that did not raise does to it. */
  lemma ConcludeGate(g1: Guard, why: Option<Block>, p: Input, res: Reconcile.Result, g2: Guard)
    requires g1.controlHold == why && (g1.opensHeld.None? <==> Ready(g1)) && g2 == Conclude(g1, why, p, res)
    ensures Ready(g2) <==>
              !SetsHold(why, p, res) && ((Counting(why, p, res) && why.None?) || Ready(g1))
    ensures g2.opensHeld.None? <==> Ready(g2)
    ensures PastFirst(g2) <==> Counting(why, p, res) || PastFirst(g1)
  {
  }

  lemma PassIs(g: Guard, f: Faults, p: Input, g1: Guard, why: Option<Block>, r: Option<Reconcile.Result>, g2: Guard)
    requires (g1, why) == CheckControlState(g, f) && (g2, r) == RunReconcile(g, f, p)
    ensures g2 == if r.None? then g1 else Conclude(g1, why, p, r.value)
  {
  }

  lemma PassGate(g: Guard, f: Faults, p: Input, g1: Guard, why: Option<Block>, r: Option<Reconcile.Result>, g2: Guard)
    requires (g1, why) == CheckControlState(g, f) && (g2, r) == RunReconcile(g, f, p)
    ensures Ready(g2) <==> why.None? && !(r.Some? && SetsHold(why, p, r.value))
                           && ((r.Some? && Counting(why, p, r.value)) || Ready(g))
    ensures g2.opensHeld.None? <==> Ready(g2)
    ensures PastFirst(g2) <==> (r.Some? && Counting(why, p, r.value)) || PastFirst(g)
  {
    CheckGate(g, f, g1, why);
    PassIs(g, f, p, g1, why, r, g2);
    if r.Some? {
      ConcludeGate(g1, why, p, r.value, g2);
    }
  }

  /** The gate's two conditions, event by event. */
  lemma GateStep(g: Guard, e: Event)
    ensures Checks(e) ==> (Step(g, e).opensHeld.None? <==> Ready(Step(g, e)))
    ensures !Checks(e) && !e.Restart? ==> Step(g, e).opensHeld == g.opensHeld && (Ready(Step(g, e)) <==> Ready(g))
    ensures Ready(Step(g, e)) <==> Vouches(g, e) || (Ready(g) && !Spoils(g, e))
    ensures PastFirst(Step(g, e)) <==> Counts(g, e) || (PastFirst(g) && !e.Restart?)
  {
    match e
    case Check(f) => CheckGate(g, f, CheckControlState(g, f).0, CheckControlState(g, f).1);
    case Pass(f, p) =>
      var (g1, why) := CheckControlState(g, f);
      var (g2, r) := RunReconcile(g, f, p);
      PassGate(g, f, p, g1, why, r, g2);
    case _ =>
  }

  /** A check has run since the process started: opens are only ever
      evaluated after one. */
  predicate Live(es: seq<Event>) {
    es != [] && (Checks(es[|es| - 1]) || (!es[|es| - 1].Restart? && Live(es[..|es| - 1])))
  }

  lemma {:induction false} GateIsReady(g: Guard, es: seq<Event>, last: Guard)
    requires Live(es) && last == Run(Step, g, es)
    ensures last.opensHeld.None? <==> Ready(last)
  {
    var before, e := Run(Step, g, es[..|es| - 1]), es[|es| - 1];
    GateStep(before, e);
    if !Checks(e) {
      GateIsReady(g, es[..|es| - 1], before);
    }
  }

  /** The gate is open exactly when a pass that counts has vouched for the
      book since the process started, and every check since was clean and no
      pass since set the hold. */
  lemma GateOpenIff(g: Guard, es: seq<Event>)
    requires g.awaiting == Some(FirstPass) && Live(es)
    ensures Run(Step, g, es).opensHeld.None? <==> exists k :: OnSince(Step, g, es, Vouches, Spoils, k)
  {
    GateIsReady(g, es, Run(Step, g, es));
    forall x, e ensures Ready(Step(x, e)) <==> Vouches(x, e) || (Ready(x) && !Spoils(x, e)) {
      GateStep(x, e);
    }
    LatchIff(Step, g, es, Ready, Vouches, Spoils);
  }

  // ----- What a pass that counts has seen ---------------------------------

  /** What a check answers otherwise: it could not read a key it needed, or the
      state is lost or held. */
  lemma CheckAnswers(g: Guard, f: Faults)
    ensures var why := CheckControlState(g, f).1; var k := g.control;
            && (why == Some(Unreadable)
                <==> !f.sentinelRead || (k.sentinel && (k.holdUnwritten ==> f.holdWrite.Lands?) && !f.holdRead))
            && (why.None? || why == Some(Unreadable) || why == Some(HoldSet))
  {
  }

  /** The pass ran for real and to its end: the bot was readably not paused, the book
      and the exchange were read, a doubted row was looked at twice, and what was to
      close was written and the rows read again. */
  ghost predicate Ran(e: Event) {
    && e.Pass? && e.p.pauseFlag == Some(false) && e.p.dbReads
    && PassLaws.Answered(e.p.db.open, e.p.world)
    && (PassLaws.ClosesSome(e.p.db, e.p.world) ==> e.p.world.commits && e.p.world.rowsAgain)
  }

  ghost predicate ReallyRan(g: Guard, e: Event) {
    Ran(e)
  }

  /** The rows that are open when the pass looks for orphans. */
  function OpenThen(g: Guard, e: Event): seq<Book.Row>
    requires e.Pass?
  {
    Reconcile.Pass(e.p.db, ArgsOf(g, e), e.p.world).0.open
  }

  /** Orphans are held under a hold and in a first pass. */
  predicate HoldsAll(g: Guard, e: Event)
    requires e.Pass?
  {
    Why(g, e).Some? || g.awaiting == Some(FirstPass)
  }

  lemma RanIff(g: Guard, e: Event)
    requires e.Pass? && Book.Consistent(e.p.db)
    ensures Ran(e) <==> e.p.dbReads && ArgsOf(g, e).closeOrphans
                        && ReconcileLaws.Completes(e.p.db, ArgsOf(g, e), e.p.world)
  {
    if e.p.pauseFlag == Some(false) {
      PassLaws.CompletesIff(e.p.db, ArgsOf(g, e), e.p.world);
    }
  }

  /** Which passes count, by what they met: those under a check that could read the
      state, that ran to their end, and resolved every orphan they were free to
      close. */
  lemma CountsIff(g: Guard, e: Event)
    requires e.Pass? && Book.Consistent(e.p.db)
    ensures Counts(g, e)
       <==> && Why(g, e) != Some(Unreadable) && Ran(e)
            && PassLaws.Resolves(OpenThen(g, e), PassLaws.Believed(e.p.db.open, e.p.world), HoldsAll(g, e),
                                 e.p.traded, e.p.world)
  {
    var args := ArgsOf(g, e);
    CheckAnswers(g, e.f);
    RanIff(g, e);
    ReconcileLaws.PassReports(e.p.db, args, e.p.world);
    if Ran(e) {
      PassLaws.ResolvesIff(e.p.db, args, e.p.world);
    }
  }

  /** Which passes set the hold: clean ones that ran and met an orphan on a traded
      coin they may not close, in a first pass or because there was another. */
  lemma PutsHoldIff(g: Guard, e: Event)
    requires e.Pass? && Book.Consistent(e.p.db)
    ensures PutsHold(g, e)
       <==> && Why(g, e).None? && Ran(e)
            && PassLaws.HeldOrphan(OpenThen(g, e), PassLaws.Believed(e.p.db.open, e.p.world), HoldsAll(g, e),
                                   e.p.traded)
  {
    var args, res := ArgsOf(g, e), Reconcile.Pass(e.p.db, ArgsOf(g, e), e.p.world).1;
    RanIff(g, e);
    HeldTradedIff(res, e.p.traded);
    ReconcileLaws.PassReports(e.p.db, args, e.p.world);
    if Ran(e) {
      PassLaws.HoldsTradedIff(e.p.db, args, e.p.world);
    } else if e.p.dbReads {
      PassLaws.HoldsNothing(e.p.db, args, e.p.world);
    }
  }

  /** A pass of a paused bot, or of one whose pause flag cannot be read, writes nothing,
      orders nothing and tells nobody; nor does it count or set a hold. */
  lemma PausedPassDoesNothing(g: Guard, e: Event)
    requires e.Pass? && e.p.pauseFlag != Some(false)
    ensures var (db, res) := Reconcile.Pass(e.p.db, ArgsOf(g, e), e.p.world);
            db == e.p.db && res.sent == [] && res.told == [] && res.held == [] && res.filled == []
    ensures Step(g, e) == CheckControlState(g, e.f).0
  {
    ReconcileLaws.PassWithoutAnswerDoesNothing(e.p.db, ArgsOf(g, e), e.p.world);
  }

  lemma HeldTradedIff(res: Reconcile.Result, traded: set<string>)
    ensures HeldTraded(res, traded) != [] <==> exists c :: c in res.held && c in traded
  {
    if c :| c in res.held && c in traded {
      KeepMember(res.held, (d: string) => d in traded, c);
    }
    if HeldTraded(res, traded) != [] {
      assert HeldTraded(res, traded)[0] in HeldTraded(res, traded);
    }
  }

  /** Whenever the gate is open, some pass since the process started really read the
      exchange and the book, and every check since was clean. */
  lemma OpenGateMeansExchangeRead(g: Guard, es: seq<Event>)
    requires g.awaiting == Some(FirstPass) && Live(es) && Run(Step, g, es).opensHeld.None?
    requires forall j :: 0 <= j < |es| && es[j].Pass? ==> Book.Consistent(es[j].p.db)
    ensures exists k :: OnSince(Step, g, es, ReallyRan, Spoils, k)
  {
    GateOpenIff(g, es);
    var sound := (x: Guard, e: Event) => e.Pass? ==> Book.Consistent(e.p.db);
    forall x, e | Vouches(x, e) && sound(x, e) ensures ReallyRan(x, e) { CountsIff(x, e); }
    OnSinceWith(Step, g, es, Vouches, Spoils, sound, ReallyRan);
  }

  function ArgsOf(g: Guard, e: Event): Reconcile.Args
    requires e.Pass?
  {
    PassArgs(CheckControlState(g, e.f).0, Why(g, e), e.p)
  }

  /** The orphans a pass meets on coins this bot trades: exchange positions that
      no row covers. */
  ghost predicate TradedOrphan(g: Guard, e: Event, x: Reconcile.Position)
    requires e.Pass?
  {
    x in ReconcileLaws.PassOrphans(e.p.db, ArgsOf(g, e), e.p.world) && x.coin in e.p.traded
  }

  /** A pass that vouches for the book, having had a fill for each of them. */
  ghost predicate FillsOrphans(g: Guard, e: Event) {
    Vouches(g, e) && forall x :: TradedOrphan(g, e, x) ==> ReconcileLaws.AnswerTo(x, e.p.world).Filled?
  }

  /** One after which the exchange holds nothing more of any of them. */
  ghost predicate LeavesNoOrphan(g: Guard, e: Event) {
    Vouches(g, e) &&
    forall x :: TradedOrphan(g, e, x) ==> ReconcileLaws.LeftAfter(x, ReconcileLaws.AnswerTo(x, e.p.world)).None?
  }

  /** No fill of an orphan is short. */
  ghost predicate WholeFills(g: Guard, e: Event) {
    e.Pass? ==>
      forall x :: TradedOrphan(g, e, x) && ReconcileLaws.AnswerTo(x, e.p.world).Filled? ==>
        ReconcileLaws.AnswerTo(x, e.p.world).size >= x.size
  }

  lemma VouchingPassFillsOrphans(g: Guard, e: Event, args: Reconcile.Args)
    requires Vouches(g, e) && args == ArgsOf(g, e)
    ensures FillsOrphans(g, e)
  {
    var res := Outcome(g, e).value;
    ReconcileLaws.PassReports(e.p.db, args, e.p.world);
    forall c | c in res.held ensures c !in args.traded {
      if c in e.p.traded {
        KeepMember(res.held, (d: string) => d in e.p.traded, c);
      }
    }
    forall x | TradedOrphan(g, e, x) ensures ReconcileLaws.AnswerTo(x, e.p.world).Filled? {
      ReconcileLaws.CleanPassFillsTraded(e.p.db, args, e.p.world, x);
    }
  }

  /** A pass that vouches for the book leaves none of those positions exactly
      when none of its orphan fills was short. */
  lemma LeavesNoOrphanIff(g: Guard, e: Event)
    requires Vouches(g, e)
    ensures LeavesNoOrphan(g, e) <==> WholeFills(g, e)
  {
    VouchingPassFillsOrphans(g, e, ArgsOf(g, e));
  }

  /** Whenever the gate is open, the last pass that vouched for the book had a
      fill for every exchange position no row covered on a traded coin; and if
      no orphan fill was short, nothing of them is left. */
  lemma OpenGateMeansOrphansFilled(g: Guard, es: seq<Event>)
    requires g.awaiting == Some(FirstPass) && Live(es) && Run(Step, g, es).opensHeld.None?
    ensures exists k :: OnSince(Step, g, es, FillsOrphans, Spoils, k)
    ensures (forall j :: 0 <= j < |es| ==> WholeFills(Before(Step, g, es, j), es[j])) ==>
              exists k :: OnSince(Step, g, es, LeavesNoOrphan, Spoils, k)
  {
    GateOpenIff(g, es);
    forall x, e | Vouches(x, e) ensures FillsOrphans(x, e) && (WholeFills(x, e) ==> LeavesNoOrphan(x, e)) {
      VouchingPassFillsOrphans(x, e, ArgsOf(x, e));
      LeavesNoOrphanIff(x, e);
    }
    OnSinceWeaken(Step, g, es, Vouches, Spoils, FillsOrphans);
    if forall j :: 0 <= j < |es| ==> WholeFills(Before(Step, g, es, j), es[j]) {
      OnSinceWith(Step, g, es, Vouches, Spoils, WholeFills, LeavesNoOrphan);
    }
  }

  /** A short fill, even an empty one, opens the gate over what it left. */
  lemma ShortFillOpensGate(g: Guard, x: Reconcile.Position, w: Reconcile.World, size: real)
    requires Ready(g) && !InForce(g) && x.size >= Reconcile.DUST && size < x.size
    requires w.first == Reconcile.Positions([x]) && w.reread == Reconcile.Positions([x])
    requires w.answers == map[x.coin := Reconcile.Filled("1", size, Some(1.0))]
    ensures var e := Pass(FINE, Input(Book.Db([], [], [], 0, 0), w, {x.coin}, Some(false), true, Lands));
            && Step(g, e).opensHeld.None? && Vouches(g, e)
            && ReconcileLaws.LeftAfter(x, ReconcileLaws.AnswerTo(x, w)) == Some(x.(size := x.size - size))
  {
    var e := Pass(FINE, Input(Book.Db([], [], [], 0, 0), w, {x.coin}, Some(false), true, Lands));
    CleanCheckIff(g, FINE);
    ReconcileLaws.LoneOrphanPass(x, ArgsOf(g, e), w, "1", size, Some(1.0));
    GateStep(g, e);
  }

  /** When a hold has just been cleared, the pass that opens wait for runs in
      the same tick: the tick leaves the gate open only if its own pass vouched
      for the book. */
  lemma ClearedTickNeedsPass(g: Guard, f: Faults, again: Faults, p: Input, elapsed: bool, pauseFlag: Option<bool>)
    requires g.controlHold.Some? && CheckControlState(g, f).1.None?
    ensures Due(CheckControlState(g, f).0, elapsed, pauseFlag)
    ensures Tick(g, f, again, p, elapsed, pauseFlag).opensHeld.None? ==>
              Vouches(CheckControlState(g, f).0, Pass(again, p))
  {
    var g1 := CheckControlState(g, f).0;
    GateStep(g1, Pass(again, p));
  }

  // ----- Orphan orders ----------------------------------------------------

  predicate Restarts(g: Guard, e: Event) {
    e.Restart?
  }

  /** The bot has left its first pass behind exactly when a pass has counted
      since the process started. */
  lemma PastFirstIff(g: Guard, es: seq<Event>)
    requires g.awaiting == Some(FirstPass)
    ensures PastFirst(Run(Step, g, es)) <==> exists k :: OnSince(Step, g, es, Counts, Restarts, k)
  {
    forall x, e ensures PastFirst(Step(x, e)) <==> Counts(x, e) || (PastFirst(x) && !Restarts(x, e)) {
      GateStep(x, e);
    }
    LatchIff(Step, g, es, PastFirst, Counts, Restarts);
  }

  lemma SendingPass(g: Guard, e: Event)
    requires e.Pass? && Outcome(g, e).Some? && Outcome(g, e).value.sent != []
    ensures Why(g, e).None? && e.p.pauseFlag == Some(false) && PastFirst(g)
    ensures |Outcome(g, e).value.sent| == 1
  {
    var args := PassArgs(CheckControlState(g, e.f).0, Why(g, e), e.p);
    var o := Reconcile.Pass(e.p.db, args, e.p.world).1.sent[0];
    ReconcileLaws.OrphanCloseSafety(e.p.db, args, e.p.world, o);
  }

  /** An orphan is only ever closed, by one order, in a pass whose own check
      is clean, on a bot readably not paused, after an earlier pass counted
      since the process started. */
  lemma OrphanOrdersAreGuarded(g: Guard, es: seq<Event>, i: nat)
    requires g.awaiting == Some(FirstPass) && i < |es| && es[i].Pass?
    requires var r := Outcome(Before(Step, g, es, i), es[i]); r.Some? && r.value.sent != []
    ensures es[i].f.sentinelRead && es[i].f.holdRead && !InForce(Before(Step, g, es, i))
    ensures es[i].p.pauseFlag == Some(false) && |Outcome(Before(Step, g, es, i), es[i]).value.sent| == 1
    ensures exists k :: OnSince(Step, g, es[..i], Counts, Restarts, k)
  {
    SendingPass(Before(Step, g, es, i), es[i]);
    CleanCheckIff(Before(Step, g, es, i), es[i].f);
    PastFirstIff(g, es[..i]);
  }

  // ----- A lost state stays lost until a human acknowledges it ------------

  /** The loss survives even a restart: the sentinel is missing, or the hold
      it led to is in Redis. */
  predicate Anchored(g: Guard) {
    !g.control.sentinel || g.control.hold
  }

  /** The clears that end an anchored block: on a lost state only one made
      after the runner acted on something that never landed. */
  predicate Acknowledges(g: Guard, e: Event) {
    match e
    case HumanDel => g.control.sentinel
    case HumanClear(s, d) =>
      var writes := Flagged(g.control);
      (g.control.sentinel || (writes && !s.Fails?)) && (!g.control.hold || ((writes ==> s.Lands?) && !d.Fails?))
    case _ => false
  }

  /** The one thing that ends an anchored block is an acknowledging clear:
      no failed read or write, flush, restart or pass does. */
  lemma AnchoredIff(g: Guard, e: Event)
    requires Anchored(g)
    ensures Anchored(Step(g, e)) <==> !Acknowledges(g, e)
  {
    match e
    case Check(f) => CheckKeepsAnchor(g, f);
    case Pass(f, p) =>
      CheckKeepsAnchor(g, f);
      PassIs(g, f, p, CheckControlState(g, f).0, CheckControlState(g, f).1, RunReconcile(g, f, p).1, Step(g, e));
    case _ =>
  }

  lemma CheckKeepsAnchor(g: Guard, f: Faults)
    requires Anchored(g)
    ensures Anchored(CheckControlState(g, f).0)
  {
  }

  lemma AnchoredBlocks(g: Guard, e: Event)
    requires Anchored(g) && Checks(e)
    ensures Why(g, e).Some? && Step(g, e).opensHeld.Some?
    ensures e.Pass? && Outcome(g, e).Some? ==> Outcome(g, e).value.sent == []
  {
    if e.Pass? && Outcome(g, e).Some? && Outcome(g, e).value.sent != [] {
      SendingPass(g, e);
    }
  }

  /** From a flush on, until a human acknowledges, every check of every later
      process blocks opens and no pass closes an orphan. */
  lemma LostStateBlocks(g: Guard, es: seq<Event>, i: nat)
    requires i < |es| && Checks(es[i])
    requires forall j :: 0 <= j < i ==> !Acknowledges(Before(Step, Step(g, Flush), es, j), es[j])
    ensures var now := Before(Step, Step(g, Flush), es, i);
            && Why(now, es[i]).Some? && Step(now, es[i]).opensHeld.Some?
            && (es[i].Pass? && Outcome(now, es[i]).Some? ==> Outcome(now, es[i]).value.sent == [])
  {
    var allowed := (x: Guard, e: Event) => !Acknowledges(x, e);
    forall x, e | Anchored(x) && allowed(x, e) ensures Anchored(Step(x, e)) { AnchoredIff(x, e); }
    Always(Step, Step(g, Flush), es, Anchored, allowed, i);
    AnchoredBlocks(Before(Step, Step(g, Flush), es, i), es[i]);
  }

  /** A state lost after everything asked for had landed. */
  predicate LostUnseen(g: Guard) {
    !g.control.sentinel && !Flagged(g.control)
  }

  /** An event that neither sees the loss nor leaves a human hold unwritten. */
  predicate Unseeing(g: Guard, e: Event) {
    (Checks(e) ==> !e.f.sentinelRead) && (e.HumanSet? ==> e.write.Lands?)
  }

  lemma UnseenStep(g: Guard, e: Event)
    requires LostUnseen(g) && Unseeing(g, e)
    ensures LostUnseen(Step(g, e)) && !Acknowledges(g, e)
  {
  }

  /** A clear made before the runner saw the loss acknowledges nothing: as long
      as no check has read the missing sentinel and every hold asked for has
      landed, any number of clears leaves the loss to be found. */
  lemma UnseenLossIsNotAcknowledged(g: Guard, es: seq<Event>)
    requires LostUnseen(g)
    requires forall j :: 0 <= j < |es| ==> Unseeing(Before(Step, g, es, j), es[j])
    ensures LostUnseen(Run(Step, g, es))
    ensures forall f: Faults :: Why(Run(Step, g, es), Check(f)).Some?
  {
    forall x, e | LostUnseen(x) && Unseeing(x, e) ensures LostUnseen(Step(x, e)) { UnseenStep(x, e); }
    Always(Step, g, es, LostUnseen, Unseeing, |es|);
    RunAll(Step, g, es);
    forall f: Faults ensures Why(Run(Step, g, es), Check(f)).Some? {
      CleanCheckIff(Run(Step, g, es), f);
    }
  }

  /** What a completed clear leaves in force: exactly a loss nobody saw. */
  lemma ClearLeaves(g: Guard)
    ensures InForce(g.(control := ClearHold(g.control, Lands, Lands))) <==> LostUnseen(g)
  {
  }

  const FINE := Faults(true, Lands, Lands, true)

  /** With a human hold left unwritten the promise fails: a flush and then a
      clear, both before the next check, and the loss is never noticed. */
  lemma UnwrittenHoldHidesALoss(g: Guard)
    requires Ready(g) && !InForce(g)
    ensures var last := Run(Step, g, [HumanSet(Fails), Flush, HumanClear(Lands, Lands)]);
            !InForce(last) && Step(last, Check(FINE)).opensHeld.None?
  {
    var es := [HumanSet(Fails), Flush, HumanClear(Lands, Lands)];
    RunNext(Step, g, es, 0);
    RunNext(Step, g, es, 1);
    RunNext(Step, g, es, 2);
    RunAll(Step, g, es);
  }

  /** And that is the exact condition: a loss and then a working clear, before any
      check, go unnoticed just when anything asked of Redis had not landed, or had
      not been seen to land: a hold set by a human or by a pass, or a sentinel. */
  lemma LossHiddenIff(g: Guard)
    ensures !InForce(Run(Step, g, [Flush, HumanClear(Lands, Lands)])) <==> Flagged(g.control)
  {
    var es := [Flush, HumanClear(Lands, Lands)];
    RunNext(Step, g, es, 0);
    RunNext(Step, g, es, 1);
    RunAll(Step, g, es);
  }

  // ----- A hold that was asked for is never lost --------------------------

  /** The events that end a block in force. A clear has to undo each thing
      in force, and stops at the first write it does not see land. */
  predicate Ends(g: Guard, e: Event) {
    match e
    case Restart => !Anchored(g)
    case HumanDel => g.control.sentinel && !g.control.holdUnwritten
    case HumanClear(s, d) =>
      var reaches := Flagged(g.control) ==> s.Lands?;
      && (g.control.sentinel || (Flagged(g.control) && !s.Fails?))
      && (g.control.hold ==> reaches && !d.Fails?)
      && (g.control.holdUnwritten ==> reaches && d.Lands?)
    case _ => false
  }

  lemma CheckKeepsForce(g: Guard, f: Faults)
    requires InForce(g)
    ensures InForce(CheckControlState(g, f).0)
  {
  }

  lemma PassKeepsForce(g: Guard, f: Faults, p: Input)
    requires InForce(g)
    ensures InForce(RunReconcile(g, f, p).0)
  {
    CheckKeepsForce(g, f);
    PassIs(g, f, p, CheckControlState(g, f).0, CheckControlState(g, f).1, RunReconcile(g, f, p).1,
           RunReconcile(g, f, p).0);
  }

  /** A block in force, even one that could not be written, lasts through
      every failed write, flush, check and pass. A restart ends it exactly
      when neither the hold nor the loss is in Redis. */
  lemma InForceIff(g: Guard, e: Event)
    requires InForce(g)
    ensures InForce(Step(g, e)) <==> !Ends(g, e)
  {
    match e
    case Check(f) => CheckKeepsForce(g, f);
    case Pass(f, p) => PassKeepsForce(g, f, p);
    case _ =>
  }

  /** A human hold whose write failed, and then a restart: nothing is left of it,
      and the next process's check is clean. */
  lemma UnwrittenHoldLostAtRestart(g: Guard)
    requires !InForce(g)
    ensures var last := Run(Step, g, [HumanSet(Fails), Restart]);
            InForce(Step(g, HumanSet(Fails))) && !InForce(last) && CheckControlState(last, FINE).1.None?
  {
    var es := [HumanSet(Fails), Restart];
    RunNext(Step, g, es, 0);
    RunNext(Step, g, es, 1);
    RunAll(Step, g, es);
  }

  /** A hold someone asked for blocks every check until it is ended, whether
      or not its write landed. */
  lemma HoldIsEnforced(g: Guard, w: Write, es: seq<Event>, i: nat)
    requires i < |es| && Checks(es[i])
    requires forall j :: 0 <= j < i ==> !Ends(Before(Step, Step(g, HumanSet(w)), es, j), es[j])
    ensures Why(Before(Step, Step(g, HumanSet(w)), es, i), es[i]).Some?
  {
    var s, allowed := Step(g, HumanSet(w)), (x: Guard, e: Event) => !Ends(x, e);
    forall x, e | InForce(x) && allowed(x, e) ensures InForce(Step(x, e)) { InForceIff(x, e); }
    Always(Step, s, es, InForce, allowed, i);
    CleanCheckIff(Before(Step, s, es, i), es[i].f);
  }
}
