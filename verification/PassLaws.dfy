/**
 What a reconcile pass saw and did, said with the answers it got and the rows it
 met, and nothing in between (bot/hypertrade/db/repo.py).
 */
module PassLaws {
  import opened Common
  import opened Book
  import opened Reconcile
  import opened ReconcileLaws
  import Fills

  // ----- What a read shows ------------------------------------------------

  /** The last position a read lists on a coin is the one that stands. */
  ghost predicate Shows(ps: seq<Position>, p: Position) {
    exists i :: 0 <= i < |ps| && ps[i] == p && forall j :: i < j < |ps| ==> ps[j].coin != p.coin
  }

  /** The exchange holds the row's coin on the row's side. */
  ghost predicate Backs(ps: seq<Position>, r: Row) {
    exists p :: Shows(ps, p) && p.coin == r.coin && p.side == r.side
  }

  lemma ShowsSnoc(ps: seq<Position>, q: Position, p: Position)
    ensures Shows(ps + [q], p) <==> p == q || (p.coin != q.coin && Shows(ps, p))
  {
    var more := ps + [q];
    if p == q {
      assert more[|ps|] == p;
    }
    if p.coin != q.coin && Shows(ps, p) {
      var i :| 0 <= i < |ps| && ps[i] == p && forall j :: i < j < |ps| ==> ps[j].coin != p.coin;
      assert more[i] == p;
    }
    if Shows(more, p) && p != q {
      var i :| 0 <= i < |more| && more[i] == p && forall j :: i < j < |more| ==> more[j].coin != p.coin;
      assert more[|ps|] == q && ps[i] == p;
      assert forall j :: i < j < |ps| ==> ps[j] == more[j];
    }
  }

  lemma {:induction false} PutMember(d: seq<Position>, q: Position, p: Position)
    requires OnePerCoin(d)
    ensures p in Put(d, q) <==> p == q || (p.coin != q.coin && p in d)
  {
    if d != [] {
      PutMember(d[1..], q, p);
      assert forall x :: x in d <==> x == d[0] || x in d[1..];
      if d[0].coin == q.coin {
        assert forall x :: x in d[1..] ==> x.coin != d[0].coin;
      }
    }
  }

  /** The keyed store has exactly the positions a read shows. */
  lemma {:induction false} ByCoinShows(ps: seq<Position>, p: Position)
    ensures p in ByCoin(ps) <==> Shows(ps, p)
  {
    if ps != [] {
      var n := |ps| - 1;
      ByCoinShows(ps[..n], p);
      ByCoinOnePerCoin(ps[..n]);
      PutMember(ByCoin(ps[..n]), ps[n], p);
      ShowsSnoc(ps[..n], ps[n], p);
      assert ps == ps[..n] + [ps[n]];
    }
  }

  lemma {:induction false} GetIs(d: seq<Position>, coin: string)
    ensures match Get(d, coin)
            case None => forall p :: p in d ==> p.coin != coin
            case Some(p) => p in d && p.coin == coin
  {
    if d != [] {
      GetIs(d[1..], coin);
    }
  }

  lemma GetShows(ps: seq<Position>, coin: string)
    ensures match Get(ByCoin(ps), coin)
            case None => forall p :: Shows(ps, p) ==> p.coin != coin
            case Some(p) => Shows(ps, p) && p.coin == coin
  {
    GetIs(ByCoin(ps), coin);
    forall p ensures p in ByCoin(ps) <==> Shows(ps, p) { ByCoinShows(ps, p); }
  }

  lemma ShowsOne(ps: seq<Position>, p: Position, q: Position)
    requires Shows(ps, p) && Shows(ps, q) && p.coin == q.coin
    ensures p == q
  {
  }

  /** A row is a close candidate exactly when a read does not back it. */
  lemma UnbackedIff(r: Row, ps: seq<Position>)
    ensures Unbacked(r, ByCoin(ps)) <==> !Backs(ps, r)
  {
    GetShows(ps, r.coin);
    if Backs(ps, r) {
      var p :| Shows(ps, p) && p.coin == r.coin && p.side == r.side;
      ShowsOne(ps, p, Get(ByCoin(ps), r.coin).value);
    }
  }

  // ----- What a pass acts on ----------------------------------------------

  /** Some row is not backed. */
  ghost predicate Doubts(open: seq<Row>, ps: seq<Position>) {
    exists r :: r in open && !Backs(ps, r)
  }

  lemma DoubtsIff(open: seq<Row>, ps: seq<Position>)
    requires DistinctIds(open)
    ensures Classify(open, ByCoin(ps)) != [] <==> Doubts(open, ps)
  {
    ClassifyExact(open, ByCoin(ps));
    forall r ensures Unbacked(r, ByCoin(ps)) <==> !Backs(ps, r) { UnbackedIff(r, ps); }
    if Classify(open, ByCoin(ps)) != [] {
      assert Classify(open, ByCoin(ps))[0] in Classify(open, ByCoin(ps));
    }
  }

  /** A read was answered, and the confirming one too when the first left a row
      unbacked. */
  ghost predicate Answered(open: seq<Row>, w: World) {
    w.first.Positions? && (Doubts(open, w.first.ps) ==> w.confirm.Positions?)
  }

  /** What the exchange is taken to hold. */
  ghost function Believed(open: seq<Row>, w: World): seq<Position>
    requires Answered(open, w)
  {
    if Doubts(open, w.first.ps) then w.confirm.ps else w.first.ps
  }

  lemma ActedIff(open: seq<Row>, w: World)
    requires DistinctIds(open)
    ensures Acted(open, w).Some? <==> Answered(open, w)
    ensures Answered(open, w) ==> Acted(open, w) == Some(ByCoin(Believed(open, w)))
  {
    if w.first.Positions? {
      DoubtsIff(open, w.first.ps);
    }
  }

  /** A row the pass would close: doubted at first, unbacked still. */
  ghost predicate Unmatched(open: seq<Row>, w: World, r: Row)
    requires Answered(open, w)
  {
    r in open && Doubts(open, w.first.ps) && !Backs(w.confirm.ps, r)
  }

  lemma ToCloseIff(open: seq<Row>, w: World, r: Row)
    requires DistinctIds(open) && Answered(open, w)
    ensures r in ToClose(open, w, ByCoin(Believed(open, w))) <==> Unmatched(open, w, r)
  {
    var ex := ByCoin(Believed(open, w));
    DoubtsIff(open, w.first.ps);
    ClassifyExact(open, ex);
    UnbackedIff(r, Believed(open, w));
  }

  /** Something could be closed: unspent fills cover some unmatched row, or its coin
      has a mid price. */
  ghost predicate ClosesSome(db: Db, w: World)
    requires Answered(db.open, w)
  {
    exists r :: Unmatched(db.open, w, r) &&
      (FillsCover(PassLedger(db, w), r) || (r.coin in w.mids && w.mids[r.coin] > 0.0))
  }

  /** Until a row is priced from fills none is spent, so the first to be priced
      decides. */
  lemma {:induction false} PlanSome(rows: seq<Row>, ledger: seq<Fills.Entry>, w: World)
    requires Fills.Wf(ledger)
    ensures Plan(rows, ledger, w) != [] <==> exists r :: r in rows && (FillsCover(ledger, r) || Mid(w, r.coin) > 0.0)
    decreases rows
  {
    if rows != [] {
      PricedIff(rows[0], ledger, w);
      assert forall r :: r in rows <==> r == rows[0] || r in rows[1..];
      if Price(rows[0], ledger, w).0.None? {
        PlanSome(rows[1..], ledger, w);
      }
    }
  }

  lemma PlansSome(db: Db, w: World)
    requires DistinctIds(db.open) && Answered(db.open, w)
    ensures Planning(db, w, ByCoin(Believed(db.open, w))).0 != [] <==> ClosesSome(db, w)
  {
    var rows := ToClose(db.open, w, ByCoin(Believed(db.open, w)));
    forall r ensures r in rows <==> Unmatched(db.open, w, r) { ToCloseIff(db.open, w, r); }
    PlanSome(rows, PassLedger(db, w), w);
  }

  /** A pass runs to its end exactly when the bot is not paused, the reads it needed
      were answered, and what it had to write and to read again worked. */
  lemma CompletesIff(db: Db, a: Args, w: World)
    requires DistinctIds(db.open) && a.closeOrphans
    ensures Completes(db, a, w)
       <==> !a.dryRun && Answered(db.open, w) && (ClosesSome(db, w) ==> w.commits && w.rowsAgain)
  {
    ActedIff(db.open, w);
    if Answered(db.open, w) {
      PlansSome(db, w);
    }
  }

  // ----- Orphans ----------------------------------------------------------

  /** The exchange holds a position worth closing on a coin no open row is on. */
  ghost predicate Orphaned(open: seq<Row>, ps: seq<Position>, x: Position) {
    Shows(ps, x) && x.size >= 0.000001 && forall r :: r in open ==> r.coin != x.coin
  }

  lemma OrphansIff(open: seq<Row>, ps: seq<Position>, x: Position)
    ensures x in Orphans(open, ByCoin(ps)) <==> Orphaned(open, ps, x)
  {
    ByCoinShows(ps, x);
    var lone := (p: Position) => !Covered(open, p.coin) && p.size >= DUST;
    if x in ByCoin(ps) && lone(x) {
      KeepMember(ByCoin(ps), lone, x);
    }
  }

  /** On a coin this bot trades, and nothing else orphaned is. */
  ghost predicate Sole(open: seq<Row>, ps: seq<Position>, traded: set<string>, x: Position) {
    Orphaned(open, ps, x) && x.coin in traded
    && forall y :: Orphaned(open, ps, y) && y.coin in traded ==> y == x
  }

  /** One of several positions on different coins is alone exactly when each is it. */
  lemma LoneIff(kept: seq<Position>, x: Position)
    requires OnePerCoin(kept) && x in kept
    ensures |kept| <= 1 <==> forall y :: y in kept ==> y == x
  {
    if |kept| > 1 {
      assert kept[0] in kept && kept[1] in kept && kept[0].coin != kept[1].coin;
    }
  }

  lemma SoleIff(open: seq<Row>, ps: seq<Position>, a: Args, x: Position)
    requires Orphaned(open, ps, x)
    ensures var orphans := Orphans(open, ByCoin(ps));
            !HeldBack(x, TradedCount(orphans, a.traded), a) <==> !a.hold && Sole(open, ps, a.traded, x)
  {
    var orphans, ours := Orphans(open, ByCoin(ps)), (p: Position) => p.coin in a.traded;
    forall y ensures y in orphans <==> Orphaned(open, ps, y) { OrphansIff(open, ps, y); }
    var kept := Keep(orphans, ours);
    forall y | y in orphans && ours(y) ensures y in kept { KeepMember(orphans, ours, y); }
    if x.coin in a.traded {
      assert OnePerCoin(kept) by {
        ByCoinOnePerCoin(ps);
        KeepOnePerCoin(ByCoin(ps), (p: Position) => !Covered(open, p.coin) && p.size >= DUST);
        KeepOnePerCoin(orphans, ours);
      }
      LoneIff(kept, x);
      assert forall y :: y in kept <==> Orphaned(open, ps, y) && y.coin in a.traded;
    }
  }

  /** A second read shows orphans on the same coins, and this one on the same side
      and, within dust, of the same size. */
  ghost predicate SeenAgain(open: seq<Row>, ps: seq<Position>, reread: Read, x: Position) {
    reread.Positions?
    && (forall c :: OrphanOn(open, reread.ps, c) <==> OrphanOn(open, ps, c))
    && exists y :: Orphaned(open, reread.ps, y) && y.coin == x.coin && y.side == x.side
                   && -0.000001 < y.size - x.size < 0.000001
  }

  ghost predicate OrphanOn(open: seq<Row>, ps: seq<Position>, coin: string) {
    exists y :: Orphaned(open, ps, y) && y.coin == coin
  }

  lemma CoinsMember(d: seq<Position>, c: string)
    ensures c in (set x | x in Coins(d)) <==> exists y :: y in d && y.coin == c
  {
    if c in Coins(d) {
      var i :| 0 <= i < |Coins(d)| && Coins(d)[i] == c;
      assert d[i] in d;
    }
    if y :| y in d && y.coin == c {
      var i :| 0 <= i < |d| && d[i] == y;
      assert Coins(d)[i] == c;
    }
  }

  lemma OrphanCoins(open: seq<Row>, ps: seq<Position>, c: string)
    ensures c in (set x | x in Coins(Orphans(open, ByCoin(ps)))) <==> OrphanOn(open, ps, c)
  {
    CoinsMember(Orphans(open, ByCoin(ps)), c);
    forall y ensures y in Orphans(open, ByCoin(ps)) <==> Orphaned(open, ps, y) { OrphansIff(open, ps, y); }
  }

  lemma MatchIff(open: seq<Row>, reread: seq<Position>, x: Position)
    ensures var now := Orphans(open, ByCoin(reread));
            Get(now, x.coin).Some? && SameWithinDust(Get(now, x.coin).value, x)
            <==> exists y :: Orphaned(open, reread, y) && y.coin == x.coin && y.side == x.side
                             && -0.000001 < y.size - x.size < 0.000001
  {
    var now := Orphans(open, ByCoin(reread));
    GetIs(now, x.coin);
    forall y ensures y in now <==> Orphaned(open, reread, y) { OrphansIff(open, reread, y); }
    if y :| Orphaned(open, reread, y) && y.coin == x.coin {
      ShowsOne(reread, y, Get(now, x.coin).value);
    }
  }

  lemma SameCoinsIff(open: seq<Row>, ps: seq<Position>, again: seq<Position>)
    ensures (set c | c in Coins(Orphans(open, ByCoin(again)))) == (set c | c in Coins(Orphans(open, ByCoin(ps))))
       <==> forall c :: OrphanOn(open, again, c) <==> OrphanOn(open, ps, c)
  {
    var now, was := set c | c in Coins(Orphans(open, ByCoin(again))), set c | c in Coins(Orphans(open, ByCoin(ps)));
    forall c ensures (c in now <==> OrphanOn(open, again, c)) && (c in was <==> OrphanOn(open, ps, c)) {
      OrphanCoins(open, again, c);
      OrphanCoins(open, ps, c);
    }
    if forall c :: OrphanOn(open, again, c) <==> OrphanOn(open, ps, c) {
      assert forall c :: c in now <==> c in was;
    }
  }

  /** With a sole orphan to close, confirmation is about that one. */
  lemma ConfirmedIff(open: seq<Row>, ps: seq<Position>, a: Args, w: World, x: Position)
    requires !a.hold && Sole(open, ps, a.traded, x)
    ensures var orphans := Orphans(open, ByCoin(ps));
            Confirmed(open, orphans, TradedCount(orphans, a.traded), a, w) <==> SeenAgain(open, ps, w.reread, x)
  {
    var orphans := Orphans(open, ByCoin(ps));
    var count := TradedCount(orphans, a.traded);
    OnlyFree(open, ps, a, x);
    if w.reread.Positions? {
      SameCoinsIff(open, ps, w.reread.ps);
      MatchIff(open, w.reread.ps, x);
    }
  }

  lemma OnlyFree(open: seq<Row>, ps: seq<Position>, a: Args, x: Position)
    requires !a.hold && Sole(open, ps, a.traded, x)
    ensures var orphans := Orphans(open, ByCoin(ps));
            x in orphans && forall y :: y in orphans ==> (!HeldBack(y, TradedCount(orphans, a.traded), a) <==> y == x)
  {
    var orphans := Orphans(open, ByCoin(ps));
    OrphansIff(open, ps, x);
    forall y | y in orphans ensures !HeldBack(y, TradedCount(orphans, a.traded), a) <==> y == x {
      OrphansIff(open, ps, y);
      SoleIff(open, ps, a, y);
    }
  }

  /** Nothing is left unresolved exactly when every orphan not held back was
      confirmed and filled. */
  lemma {:induction false} UnresolvedIff(db: Db, orphans: seq<Position>, count: nat, confirmed: bool, a: Args, w: World,
                                         res: Result)
    ensures CloseOrphans(db, orphans, count, confirmed, a, w, res).1.unresolved == []
       <==> res.unresolved == [] &&
            forall p :: p in orphans && !HeldBack(p, count, a) ==> confirmed && AnswerTo(p, w).Filled?
    decreases orphans
  {
    if orphans != [] {
      var (next, res') := CloseOrphan(db, orphans[0], count, confirmed, a, w, res);
      UnresolvedIff(next, orphans[1..], count, confirmed, a, w, res');
      OneUnresolved(db, orphans[0], count, confirmed, a, w, res, res');
      assert forall p :: p in orphans <==> p == orphans[0] || p in orphans[1..];
    }
  }

  lemma OneUnresolved(db: Db, p: Position, count: nat, confirmed: bool, a: Args, w: World, res: Result, res': Result)
    requires res' == CloseOrphan(db, p, count, confirmed, a, w, res).1
    ensures res'.unresolved == []
       <==> res.unresolved == [] && (HeldBack(p, count, a) || (confirmed && AnswerTo(p, w).Filled?))
  {
  }

  /** Every orphan free to close was seen again and its close filled. */
  ghost predicate Resolves(open: seq<Row>, ps: seq<Position>, hold: bool, traded: set<string>, w: World) {
    forall x :: !hold && Sole(open, ps, traded, x) ==>
      SeenAgain(open, ps, w.reread, x) && x.coin in w.answers && w.answers[x.coin].Filled?
  }

  lemma OpenAfter(db: Db, a: Args, w: World)
    requires Consistent(db)
    ensures Pass(db, a, w).0.open == Apply(db, PassPlan(db, a, w)).open
  {
    PassExtendsApply(db, a, w);
  }

  lemma PassUnresolved(db: Db, a: Args, w: World)
    requires Consistent(db) && a.closeOrphans && Completes(db, a, w)
    ensures var orphans := PassOrphans(db, a, w); var count := TradedCount(orphans, a.traded);
            Pass(db, a, w).1.unresolved == []
            <==> forall p :: p in orphans && !HeldBack(p, count, a) ==>
                   Confirmed(Pass(db, a, w).0.open, orphans, count, a, w) && AnswerTo(p, w).Filled?
  {
    var (plan, leftOpen) := Planning(db, w, Acted(db.open, w).value);
    var booked := Apply(db, plan);
    var orphans := PassOrphans(db, a, w);
    var count := TradedCount(orphans, a.traded);
    var res := NOTHING.(told := Told(plan), leftOpen := leftOpen);
    assert Pass(db, a, w).1 == PassTwo(booked, Acted(db.open, w).value, a, w, res).1 by {
      PassRunsBoth(db, a, w, booked, res);
    }
    OpenAfter(db, a, w);
    UnresolvedIff(booked, orphans, count, Confirmed(booked.open, orphans, count, a, w), a, w, res);
  }

  /** A completed pass leaves nothing unresolved exactly when every orphan free to
      close was resolved. */
  lemma ResolvesIff(db: Db, a: Args, w: World)
    requires Consistent(db) && a.closeOrphans && Completes(db, a, w) && Answered(db.open, w)
    ensures Pass(db, a, w).1.unresolved == []
       <==> Resolves(Pass(db, a, w).0.open, Believed(db.open, w), a.hold, a.traded, w)
  {
    var open, ps := Pass(db, a, w).0.open, Believed(db.open, w);
    var orphans := PassOrphans(db, a, w);
    var count := TradedCount(orphans, a.traded);
    ActedIff(db.open, w);
    OpenAfter(db, a, w);
    assert orphans == Orphans(open, ByCoin(ps));
    PassUnresolved(db, a, w);
    forall x ensures x in orphans <==> Orphaned(open, ps, x) { OrphansIff(open, ps, x); }
    forall x | Orphaned(open, ps, x) ensures !HeldBack(x, count, a) <==> !a.hold && Sole(open, ps, a.traded, x) {
      SoleIff(open, ps, a, x);
    }
    forall x | !a.hold && Sole(open, ps, a.traded, x)
      ensures Confirmed(open, orphans, count, a, w) <==> SeenAgain(open, ps, w.reread, x)
    {
      ConfirmedIff(open, ps, a, w, x);
    }
  }

  /** It holds an orphan on a traded coin exactly when there is one under a hold, or
      two of them. */
  lemma HoldsTradedIff(db: Db, a: Args, w: World)
    requires Consistent(db) && a.closeOrphans && Completes(db, a, w) && Answered(db.open, w)
    ensures (exists c :: c in Pass(db, a, w).1.held && c in a.traded)
       <==> HeldOrphan(Pass(db, a, w).0.open, Believed(db.open, w), a.hold, a.traded)
  {
    var open, ps := Pass(db, a, w).0.open, Believed(db.open, w);
    var orphans := PassOrphans(db, a, w);
    var count := TradedCount(orphans, a.traded);
    ActedIff(db.open, w);
    OpenAfter(db, a, w);
    assert orphans == Orphans(open, ByCoin(ps));
    forall x ensures x in orphans <==> Orphaned(open, ps, x) { OrphansIff(open, ps, x); }
    forall x | Orphaned(open, ps, x) ensures !HeldBack(x, count, a) <==> !a.hold && Sole(open, ps, a.traded, x) {
      SoleIff(open, ps, a, x);
    }
    assert Pass(db, a, w).1.held == HeldCoins(orphans, count, a) by { PassTwoReports(db, a, w, orphans, count); }
    forall c
      ensures c in HeldCoins(orphans, count, a) <==> exists p :: p in orphans && HeldBack(p, count, a) && p.coin == c
    {
      HeldCoinsOf(orphans, count, a, c);
    }
  }

  ghost predicate HeldOrphan(open: seq<Row>, ps: seq<Position>, hold: bool, traded: set<string>) {
    exists x :: Orphaned(open, ps, x) && x.coin in traded && (hold || !Sole(open, ps, traded, x))
  }

  /** A pass that does not run to its end, or leaves orphans alone, holds none. */
  lemma HoldsNothing(db: Db, a: Args, w: World)
    requires !a.closeOrphans || !Completes(db, a, w)
    ensures Pass(db, a, w).1.held == [] && Pass(db, a, w).1.unresolved == []
  {
  }

  // ----- What a pass reports and books --------------------------------------

  /** A dry run reports exactly the rows it would have closed. */
  lemma DryRunReports(db: Db, a: Args, w: World, r: Row)
    requires DistinctIds(db.open) && a.dryRun
    ensures r in Pass(db, a, w).1.wouldClose <==> Answered(db.open, w) && Unmatched(db.open, w, r)
  {
    ActedIff(db.open, w);
    if Answered(db.open, w) {
      ToCloseIff(db.open, w, r);
    }
  }

  /** The trade an orphan's filled close books: at the price answered, or the position's
      entry when none was, with the taker fee and no PnL. */
  predicate BooksOrphan(t: Trade, x: Position, w: World) {
    && x.coin in w.answers && w.answers[x.coin].Filled?
    && t.orderId == Exchange(w.answers[x.coin].id) && t.strategy == "reconcile" && t.coin == x.coin
    && t.side == (if x.side.Long? then Sell else Buy) && t.size == w.answers[x.coin].size && t.pnl.None?
    && t.price == (match w.answers[x.coin].price
                   case Some(p) => if p == 0.0 then x.entry else p
                   case None => x.entry)
    && t.fee == t.price * t.size * w.takerFee
  }

  /** Beyond the trades of its closes a pass books those of filled orphans, each only
      when the write works and its order id is not taken. */
  lemma {:induction false} OrphansBook(db: Db, orphans: seq<Position>, count: nat, confirmed: bool, a: Args, w: World,
                                       res: Result, t: Trade)
    requires t in CloseOrphans(db, orphans, count, confirmed, a, w, res).0.trades && t !in db.trades
    ensures exists x :: x in orphans && !HeldBack(x, count, a) && confirmed && BooksOrphan(t, x, w)
    ensures w.tradeWrites && forall s :: s in db.trades ==> s.orderId != t.orderId
    decreases orphans
  {
    if orphans != [] {
      var p := orphans[0];
      var (next, res') := CloseOrphan(db, p, count, confirmed, a, w, res);
      if t in next.trades {
        OneOrphanBooks(db, p, count, confirmed, a, w, res, t);
      } else {
        OrphansBook(next, orphans[1..], count, confirmed, a, w, res', t);
        assert forall s :: s in db.trades ==> s in next.trades;
      }
    }
  }

  lemma OneOrphanBooks(db: Db, p: Position, count: nat, confirmed: bool, a: Args, w: World, res: Result, t: Trade)
    requires t in CloseOrphan(db, p, count, confirmed, a, w, res).0.trades && t !in db.trades
    ensures !HeldBack(p, count, a) && confirmed && BooksOrphan(t, p, w)
    ensures w.tradeWrites && forall s :: s in db.trades ==> s.orderId != t.orderId
  {
  }

  /** And a filled orphan is booked when both are so. */
  lemma OrphanIsBooked(db: Db, p: Position, count: nat, a: Args, w: World, res: Result)
    requires !HeldBack(p, count, a) && AnswerTo(p, w).Filled? && w.tradeWrites
    requires forall s :: s in db.trades ==> s.orderId != Exchange(AnswerTo(p, w).id)
    ensures var db' := CloseOrphan(db, p, count, true, a, w, res).0;
            |db'.trades| == |db.trades| + 1 && BooksOrphan(db'.trades[|db.trades|], p, w)
  {
  }
}
