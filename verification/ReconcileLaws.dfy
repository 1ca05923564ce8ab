/**
 What a reconcile pass guarantees, whatever the exchange answers
 (bot/hypertrade/db/repo.py).
 */
module ReconcileLaws {
  import opened Common
  import opened Book
  import opened Reconcile
  import Fills

  // ----- Grouping loses and repeats nothing -------------------------------

  lemma Joined<T>(a: seq<T>, b: seq<T>, c: seq<T>)
    ensures multiset(a + b + c) == multiset(a) + multiset(b) + multiset(c)
  {
  }

  lemma {:induction false} GroupedPermutes(rows: seq<Row>)
    ensures multiset(Grouped(rows)) == multiset(rows)
    decreases |rows|
  {
    if rows != [] {
      var coin, rest := rows[0].coin, rows[1..];
      var same := (r: Row) => r.coin == coin;
      var other := (r: Row) => r.coin != coin;
      KeepSplits(rest, same, other);
      GroupedPermutes(Keep(rest, other));
      Joined([rows[0]], Keep(rest, same), Grouped(Keep(rest, other)));
      assert rows == [rows[0]] + rest;
    }
  }

  lemma {:induction false} KeepDistinctIds(rows: seq<Row>, p: Row -> bool)
    requires DistinctIds(rows)
    ensures DistinctIds(Keep(rows, p))
  {
    if rows != [] {
      KeepDistinctIds(rows[1..], p);
      var kept := Keep(rows[1..], p);
      forall j | 0 <= j < |kept| ensures kept[j].id != rows[0].id {
        assert kept[j] in rows[1..];
      }
    }
  }

  lemma {:induction false} OnceInDistinct(rows: seq<Row>, x: Row)
    requires DistinctIds(rows) && x in rows
    ensures multiset(rows)[x] == 1
  {
    assert rows == [rows[0]] + rows[1..];
    if x == rows[0] {
      assert x !in rows[1..];
    } else {
      OnceInDistinct(rows[1..], x);
    }
  }

  lemma PermutedDistinctIds(a: seq<Row>, b: seq<Row>)
    requires DistinctIds(a) && multiset(a) == multiset(b)
    ensures DistinctIds(b)
    ensures forall r :: r in b <==> r in a
  {
    assert forall r :: (r in a <==> r in multiset(a)) && (r in b <==> r in multiset(b));
    forall i, j | 0 <= i < j < |b| ensures b[i].id != b[j].id {
      assert b[i] in a && b[j] in a;
      OnceInDistinct(a, b[i]);
      if b[i] == b[j] {
        TwiceInSeq(b, i, j);
      }
    }
  }

  lemma TwiceInSeq<T>(b: seq<T>, i: nat, j: nat)
    requires i < j < |b| && b[i] == b[j]
    ensures multiset(b)[b[i]] >= 2
  {
    assert b == b[..i] + [b[i]] + b[i + 1..j] + [b[j]] + b[j + 1..];
  }

  /** The rows pass 1 wants to close: exactly the open rows the exchange does
      not back, each once. */
  lemma ClassifyExact(open: seq<Row>, ex: seq<Position>)
    requires DistinctIds(open)
    ensures DistinctIds(Classify(open, ex))
    ensures forall r :: r in Classify(open, ex) <==> r in open && Unbacked(r, ex)
  {
    GroupedPermutes(open);
    PermutedDistinctIds(open, Grouped(open));
    KeepDistinctIds(Grouped(open), (r: Row) => Unbacked(r, ex));
    forall r | r in open && Unbacked(r, ex) ensures r in Classify(open, ex) {
      KeepMember(Grouped(open), (r: Row) => Unbacked(r, ex), r);
    }
  }

  // ----- Pricing ----------------------------------------------------------

  /** A priced close books the cash of the row's round trip, entry to exit, less its
      fee. */
  predicate Honest(x: Planned) {
    x.priced.pnl + x.priced.fee == RoundTrip(x.row.side, x.row.entry, x.priced.exit, x.row.size)
  }

  lemma PriceHonest(r: Row, ledger: seq<Fills.Entry>, w: World)
    requires Fills.Wf(ledger)
    ensures var p := Price(r, ledger, w).0; if p.Some? then Honest(Planned(r, p.value)) else Mid(w, r.coin) <= 0.0
  {
    var p := Price(r, ledger, w).0;
    if p.Some? {
      RealizedIsRoundTrip(r.side, r.entry, p.value.exit, r.size, p.value.fee);
    }
  }

  /** The rows that get a price, and the rows that do not, in order. A row is
      left unpriced only when the coin has no mid. */
  lemma {:induction false} PlanExact(rows: seq<Row>, ledger: seq<Fills.Entry>, w: World)
    requires Fills.Wf(ledger) && DistinctIds(rows)
    ensures Parted(rows, Plan(rows, ledger, w), Unpriceable(rows, ledger, w), w)
    decreases rows
  {
    if rows != [] {
      var (p, left) := Price(rows[0], ledger, w);
      PriceHonest(rows[0], ledger, w);
      PricingHead(rows, ledger, w, p, left);
      PlanExact(rows[1..], left, w);
      PartedNext(rows, Plan(rows[1..], left, w), Unpriceable(rows[1..], left, w), w, p);
    }
  }

  /** `plan` and `rest` split `rows`; what is planned is honest, what is not
      has no mid. */
  ghost predicate Parted(rows: seq<Row>, plan: seq<Planned>, rest: seq<Row>, w: World) {
    && (forall r :: r in rows <==> r in rest || exists x :: x in plan && x.row == r)
    && (forall x :: x in plan ==> x.row in rows && Honest(x))
    && (forall i, j :: 0 <= i < j < |plan| ==> plan[i].row.id != plan[j].row.id)
    && (forall r :: r in rest ==> r in rows && Mid(w, r.coin) <= 0.0)
    && (forall x, r :: x in plan && r in rest ==> x.row.id != r.id)
  }

  lemma PartedNext(rows: seq<Row>, plan: seq<Planned>, rest: seq<Row>, w: World, p: Option<Priced>)
    requires rows != [] && DistinctIds(rows) && Parted(rows[1..], plan, rest, w)
    requires if p.Some? then Honest(Planned(rows[0], p.value)) else Mid(w, rows[0].coin) <= 0.0
    ensures Parted(rows, (if p.Some? then [Planned(rows[0], p.value)] else []) + plan,
                   (if p.None? then [rows[0]] else []) + rest, w)
  {
    forall r | r in rows[1..] ensures r.id != rows[0].id {
    }
    forall j | 0 <= j < |plan| ensures plan[j].row.id != rows[0].id {
      assert plan[j] in plan;
    }
  }

  // ----- Booking ----------------------------------------------------------

  /** `t` is the trade of closing `x`: equal size, reducing side, and the
      same price, fee and PnL. */
  predicate Matches(t: Trade, x: Planned) {
    && t.strategy == x.row.strategy && t.coin == x.row.coin && t.side == ClosingSide(x.row.side)
    && t.size == x.row.size && t.price == x.priced.exit && t.fee == x.priced.fee
    && t.pnl == Some(x.priced.pnl)
  }

  ghost function Ids(plan: seq<Planned>): set<nat> {
    set x | x in plan :: x.row.id
  }

  function Closes(plan: seq<Planned>): (r: seq<ClosedRow>)
    ensures |r| == |plan|
    ensures forall i :: 0 <= i < |plan| ==> r[i] == ClosedRow(plan[i].row, plan[i].priced.exit, plan[i].priced.pnl)
  {
    seq(|plan|, i requires 0 <= i < |plan| => ClosedRow(plan[i].row, plan[i].priced.exit, plan[i].priced.pnl))
  }

  /** The rows left are those with other ids. */
  ghost predicate Leaves(open: seq<Row>, open': seq<Row>, ids: set<nat>) {
    forall r :: r in open' <==> r in open && r.id !in ids
  }

  lemma LeavesBoth(open: seq<Row>, next: seq<Row>, last: seq<Row>, id: nat, ids: set<nat>)
    requires Leaves(open, next, {id}) && Leaves(next, last, ids)
    ensures Leaves(open, last, {id} + ids)
  {
  }

  /** Every planned row is closed and gains exactly one trade; no other row
      and no earlier trade is touched. */
  ghost predicate Books(db: Db, db': Db, plan: seq<Planned>) {
    && Leaves(db.open, db'.open, Ids(plan))
    && db'.closed == db.closed + Closes(plan)
    && Follows(db.trades, db'.trades, plan)
  }

  /** The rows of a plan are open, each planned once. */
  ghost predicate Closable(db: Db, plan: seq<Planned>) {
    && Consistent(db) && (forall x :: x in plan ==> x.row in db.open)
    && forall i, j :: 0 <= i < j < |plan| ==> plan[i].row.id != plan[j].row.id
  }

  lemma FirstClose(db: Db, plan: seq<Planned>, next: Db)
    requires plan != [] && Closable(db, plan) && next == CloseRow(db, plan[0].row.id, plan[0].priced)
    ensures Closable(next, plan[1..]) && Leaves(db.open, next.open, {plan[0].row.id})
    ensures next.closed == db.closed + [ClosedRow(plan[0].row, plan[0].priced.exit, plan[0].priced.pnl)]
    ensures |next.trades| == |db.trades| + 1 && next.trades[..|db.trades|] == db.trades
    ensures Matches(next.trades[|db.trades|], plan[0])
  {
    ByIdFinds(db.open, plan[0].row);
    WithoutKeepsIds(db.open, plan[0].row.id);
    CloseRowKeepsConsistent(db, plan[0].row.id, plan[0].priced);
  }

  lemma {:induction false} ApplyLeaves(db: Db, plan: seq<Planned>)
    requires Closable(db, plan)
    ensures Consistent(Apply(db, plan)) && Leaves(db.open, Apply(db, plan).open, Ids(plan))
    decreases plan
  {
    if plan != [] {
      var next := CloseRow(db, plan[0].row.id, plan[0].priced);
      FirstClose(db, plan, next);
      ApplyLeaves(next, plan[1..]);
      IdsCons(plan);
      LeavesBoth(db.open, next.open, Apply(next, plan[1..]).open, plan[0].row.id, Ids(plan[1..]));
    }
  }

  lemma {:induction false} ApplyCloses(db: Db, plan: seq<Planned>)
    requires Closable(db, plan)
    ensures Apply(db, plan).closed == db.closed + Closes(plan)
    decreases plan
  {
    if plan != [] {
      var next := CloseRow(db, plan[0].row.id, plan[0].priced);
      FirstClose(db, plan, next);
      ApplyCloses(next, plan[1..]);
      ClosesCons(db.closed, plan, ClosedRow(plan[0].row, plan[0].priced.exit, plan[0].priced.pnl));
    }
  }

  lemma ClosesCons(closed: seq<ClosedRow>, plan: seq<Planned>, first: ClosedRow)
    requires plan != [] && first == ClosedRow(plan[0].row, plan[0].priced.exit, plan[0].priced.pnl)
    ensures closed + [first] + Closes(plan[1..]) == closed + Closes(plan)
  {
    assert Closes(plan) == [first] + Closes(plan[1..]);
  }

  lemma {:induction false} ApplyFollows(db: Db, plan: seq<Planned>)
    requires Closable(db, plan)
    ensures Follows(db.trades, Apply(db, plan).trades, plan)
    decreases plan
  {
    if plan != [] {
      var next := CloseRow(db, plan[0].row.id, plan[0].priced);
      FirstClose(db, plan, next);
      ApplyFollows(next, plan[1..]);
      TradesStep(db.trades, next.trades, Apply(next, plan[1..]).trades, plan);
    }
  }

  lemma ApplyBooks(db: Db, plan: seq<Planned>)
    requires Closable(db, plan)
    ensures Consistent(Apply(db, plan)) && Books(db, Apply(db, plan), plan)
  {
    ApplyLeaves(db, plan);
    ApplyCloses(db, plan);
    ApplyFollows(db, plan);
  }

  lemma IdsCons(plan: seq<Planned>)
    requires plan != []
    ensures Ids(plan) == {plan[0].row.id} + Ids(plan[1..])
  {
    assert forall x :: x in plan <==> x == plan[0] || x in plan[1..];
  }

  /** The trades of a plan follow the trades before it. */
  ghost predicate Follows(trades: seq<Trade>, more: seq<Trade>, plan: seq<Planned>) {
    && |more| == |trades| + |plan| && more[..|trades|] == trades
    && forall i :: 0 <= i < |plan| ==> Matches(more[|trades| + i], plan[i])
  }

  lemma TradesStep(trades: seq<Trade>, next: seq<Trade>, last: seq<Trade>, plan: seq<Planned>)
    requires plan != [] && Follows(next, last, plan[1..])
    requires |next| == |trades| + 1 && next[..|trades|] == trades && Matches(next[|trades|], plan[0])
    ensures Follows(trades, last, plan)
  {
    var n := |trades|;
    assert last[..n] == last[..n + 1][..n];
    assert last[n] == last[..n + 1][n] == next[n];
    forall i | 0 <= i < |plan| ensures Matches(last[n + i], plan[i]) {
      if i > 0 {
        assert plan[i] == plan[1..][i - 1];
        assert Matches(last[n + 1 + (i - 1)], plan[1..][i - 1]);
      }
    }
  }

  // ----- Pass 1 -----------------------------------------------------------

  /** The rows this pass closes, with their prices. */
  function PassPlan(db: Db, a: Args, w: World): seq<Planned> {
    match Acted(db.open, w)
    case None => []
    case Some(ex) => if a.dryRun || !w.commits then [] else Planning(db, w, ex).0
  }

  /** Unspent fills that close the row cover its size. */
  predicate FillsCover(ledger: seq<Fills.Entry>, r: Row) {
    r.size > Fills.COVER_EPS &&
    Fills.Total(Fills.Candidates(ledger, Fills.Key(r.coin, r.side, Some(r.openedMs))))
      >= r.size - Fills.Tolerance(r.size)
  }

  /** A row is priced exactly when fills cover it or its coin has a mid. */
  lemma PricedIff(r: Row, ledger: seq<Fills.Entry>, w: World)
    requires Fills.Wf(ledger)
    ensures Price(r, ledger, w).0.Some? <==> FillsCover(ledger, r) || Mid(w, r.coin) > 0.0
  {
    Fills.TakeSucceedsIff(ledger, Fills.Key(r.coin, r.side, Some(r.openedMs)), r.size);
  }

  lemma PassPlanExact(db: Db, a: Args, w: World)
    requires Consistent(db)
    ensures forall x :: x in PassPlan(db, a, w) ==>
              x.row in db.open && Honest(x) && Acted(db.open, w).Some? && Unbacked(x.row, Acted(db.open, w).value)
    ensures forall i, j :: 0 <= i < j < |PassPlan(db, a, w)| ==>
              PassPlan(db, a, w)[i].row.id != PassPlan(db, a, w)[j].row.id
  {
    if Acted(db.open, w).Some? {
      var ex := Acted(db.open, w).value;
      ClassifyExact(db.open, ex);
      PlanExact(ToClose(db.open, w, ex), PassLedger(db, w), w);
    }
  }

  /** Pass 2 touches no row: at most it adds trades. */
  ghost predicate Extends(db: Db, db': Db) {
    && db'.open == db.open && db'.closed == db.closed
    && |db.trades| <= |db'.trades| && db'.trades[..|db.trades|] == db.trades
  }

  lemma ExtendsTransitive(a: Db, b: Db, c: Db)
    requires Extends(a, b) && Extends(b, c)
    ensures Extends(a, c)
  {
    assert c.trades[..|a.trades|] == c.trades[..|b.trades|][..|a.trades|];
  }

  lemma {:induction false} CloseOrphansExtends(db: Db, orphans: seq<Position>, count: nat, confirmed: bool,
                                               a: Args, w: World, res: Result)
    requires Consistent(db)
    ensures var db' := CloseOrphans(db, orphans, count, confirmed, a, w, res).0;
            Consistent(db') && Extends(db, db')
    decreases orphans
  {
    if orphans != [] {
      var (next, res') := CloseOrphan(db, orphans[0], count, confirmed, a, w, res);
      CloseOrphanExtends(db, orphans[0], count, confirmed, a, w, res);
      CloseOrphansExtends(next, orphans[1..], count, confirmed, a, w, res');
      ExtendsTransitive(db, next, CloseOrphans(next, orphans[1..], count, confirmed, a, w, res').0);
    }
  }

  lemma CloseOrphanExtends(db: Db, p: Position, count: nat, confirmed: bool, a: Args, w: World, res: Result)
    requires Consistent(db)
    ensures var next := CloseOrphan(db, p, count, confirmed, a, w, res).0;
            Consistent(next) && Extends(db, next)
  {
    var ans := if p.coin in w.answers then w.answers[p.coin] else Raises;
    if ans.Filled? {
      AddTradeKeepsUnique(db, OrphanTrade(p, ans, w));
    }
  }

  /** The book after a pass is the book pass 1 leaves, plus orphan trades. */
  lemma PassExtendsApply(db: Db, a: Args, w: World)
    requires Consistent(db)
    ensures var applied := Apply(db, PassPlan(db, a, w));
            && Consistent(Pass(db, a, w).0) && Extends(applied, Pass(db, a, w).0)
            && Books(db, applied, PassPlan(db, a, w))
  {
    PassPlanExact(db, a, w);
    ApplyBooks(db, PassPlan(db, a, w));
    if Completes(db, a, w) && a.closeOrphans {
      var ex := Acted(db.open, w).value;
      var (plan, leftOpen) := Planning(db, w, ex);
      var res := NOTHING.(told := Told(plan), leftOpen := leftOpen);
      PassRunsBoth(db, a, w, Apply(db, plan), res);
      PassTwoExtends(Apply(db, plan), ex, a, w, res);
    } else {
      PassWithoutPassTwo(db, a, w);
    }
  }

  lemma PassTwoExtends(db: Db, ex: seq<Position>, a: Args, w: World, res: Result)
    requires Consistent(db)
    ensures Consistent(PassTwo(db, ex, a, w, res).0) && Extends(db, PassTwo(db, ex, a, w, res).0)
  {
    var orphans := Orphans(db.open, ex);
    var count := TradedCount(orphans, a.traded);
    CloseOrphansExtends(db, orphans, count, Confirmed(db.open, orphans, count, a, w), a, w, res);
  }

  /** Without a second half the pass leaves just what the first one did. */
  lemma PassWithoutPassTwo(db: Db, a: Args, w: World)
    requires !Completes(db, a, w) || !a.closeOrphans
    ensures Pass(db, a, w).0 == Apply(db, PassPlan(db, a, w))
  {
  }

  /** What pass 2 reports, whatever it finds. */
  lemma {:induction false} CloseOrphansReports(db: Db, orphans: seq<Position>, count: nat, confirmed: bool,
                                               a: Args, w: World, res: Result)
    ensures var r := CloseOrphans(db, orphans, count, confirmed, a, w, res).1;
            r.told == res.told && r.leftOpen == res.leftOpen && r.skipped == res.skipped && r.raised == res.raised
    decreases orphans
  {
    if orphans != [] {
      var (next, res') := CloseOrphan(db, orphans[0], count, confirmed, a, w, res);
      CloseOrphansReports(next, orphans[1..], count, confirmed, a, w, res');
    }
  }

  /** Pass 1 was done for real. */
  predicate Commits(db: Db, a: Args, w: World) {
    !a.dryRun && Acted(db.open, w).Some?
    && (Planning(db, w, Acted(db.open, w).value).0 == [] || w.commits)
  }

  /** The pass ran to its end: both passes were done for real. */
  predicate Completes(db: Db, a: Args, w: World) {
    Commits(db, a, w)
    && (a.closeOrphans ==> Planning(db, w, Acted(db.open, w).value).0 == [] || w.rowsAgain)
  }

  lemma PassReports(db: Db, a: Args, w: World)
    ensures var res := Pass(db, a, w).1;
            && res.told == Told(PassPlan(db, a, w))
            && (Completes(db, a, w) ==>
                  !res.skipped && !res.raised && res.leftOpen == Planning(db, w, Acted(db.open, w).value).1)
            && (!Completes(db, a, w) ==> a.dryRun || res.skipped || res.raised)
  {
    if Completes(db, a, w) && a.closeOrphans {
      var (plan, leftOpen) := Planning(db, w, Acted(db.open, w).value);
      var booked := Apply(db, plan);
      var orphans := Orphans(booked.open, Acted(db.open, w).value);
      var count := TradedCount(orphans, a.traded);
      var res := NOTHING.(told := Told(plan), leftOpen := leftOpen);
      CloseOrphansReports(booked, orphans, count, true, a, w, res);
      CloseOrphansReports(booked, orphans, count, false, a, w, res);
    }
  }

  /** A read that fails, a dry run or a failed commit changes nothing, orders
      nothing and tells nobody. */
  lemma PassWithoutAnswerDoesNothing(db: Db, a: Args, w: World)
    requires a.dryRun || w.first.Unreadable? || Pass(db, a, w).1.skipped || !Commits(db, a, w)
    ensures var (db', res) := Pass(db, a, w);
            db' == db && res.sent == [] && res.told == [] && res.held == [] && res.filled == []
  {
    PassReports(db, a, w);
  }

  /** A second look at the open rows that fails after the closes committed ends
      the pass there: the closes stand and are told, and nothing is ordered. */
  lemma PassCutShort(db: Db, a: Args, w: World)
    requires Commits(db, a, w) && !Completes(db, a, w)
    ensures Pass(db, a, w).0 == Apply(db, PassPlan(db, a, w))
    ensures var res := Pass(db, a, w).1;
            res.raised && res.sent == [] && res.told == Told(PassPlan(db, a, w)) && res.held == [] && res.filled == []
  {
  }

  /** A row that a pass closes is unbacked on the confirming read: there was
      one, it worked, and it alone decides. */
  lemma ClosedWasUnbacked(db: Db, a: Args, w: World, r: Row)
    requires Consistent(db) && r in db.open && r !in Pass(db, a, w).0.open
    ensures w.first.Positions? && w.confirm.Positions? && Unbacked(r, ByCoin(w.confirm.ps))
    ensures Classify(db.open, ByCoin(w.first.ps)) != []
  {
    var plan := PassPlan(db, a, w);
    assert r.id in Ids(plan) by { PassExtendsApply(db, a, w); }
    var x :| x in plan && x.row.id == r.id;
    PassPlanExact(db, a, w);
    SameIdSameRow(db.open, x.row, r);
  }

  /** And only the confirming read: a row backed on the first one is closed too
      when another row made the pass look again. */
  lemma ClosedThoughBackedFirst(r: Row, s: Row, p: Position, w: World, a: Args)
    requires r.id != s.id && r.coin != s.coin && r.side == p.side && r.coin == p.coin && !a.dryRun && w.commits
    requires w.first == Positions([p]) && w.confirm == Positions([]) && Mid(w, r.coin) > 0.0 && Mid(w, s.coin) > 0.0
    requires a.closeOrphans ==> w.rowsAgain
    ensures var db := Db([r, s], [], [], r.id + s.id + 1, 0);
            !Unbacked(r, ByCoin([p])) && r !in Pass(db, a, w).0.open
  {
    var db := Db([r, s], [], [], r.id + s.id + 1, 0);
    BothCandidates(r, s, p, w);
    if r in Pass(db, a, w).0.open {
      CandidateIsClosed(db, a, w, [], r);
    }
  }

  lemma BothCandidates(r: Row, s: Row, p: Position, w: World)
    requires r.id != s.id && r.coin != s.coin && r.side == p.side && r.coin == p.coin
    requires w.first == Positions([p]) && w.confirm == Positions([])
    ensures !Unbacked(r, ByCoin([p])) && Acted([r, s], w) == Some([]) && r in ToClose([r, s], w, [])
  {
    assert ByCoin([p]) == [p] by { assert [p][..0] == []; }
    var rows := [r, s];
    assert rows[0] == r && rows[1] == s;
    assert Get([p], s.coin) == None by { assert [p][1..] == []; }
    assert s in Classify(rows, [p]) by { ClassifyExact(rows, [p]); }
    assert r in Classify(rows, []) by { ClassifyExact(rows, []); }
  }

  /** A completed pass closes every candidate whose coin has a mid price; a
      candidate left open has none. */
  lemma CandidateIsClosed(db: Db, a: Args, w: World, ex: seq<Position>, r: Row)
    requires Consistent(db) && Acted(db.open, w) == Some(ex) && Completes(db, a, w)
    requires r in ToClose(db.open, w, ex) && r in Pass(db, a, w).0.open
    ensures Mid(w, r.coin) <= 0.0 && r in Pass(db, a, w).1.leftOpen
  {
    var rows, plan := ToClose(db.open, w, ex), PassPlan(db, a, w);
    assert DistinctIds(rows) by { ClassifyExact(db.open, ex); }
    assert r.id !in Ids(plan) by { PassExtendsApply(db, a, w); }
    assert plan == Planning(db, w, ex).0;
    assert r in Unpriceable(rows, PassLedger(db, w), w) by { PlanExact(rows, PassLedger(db, w), w); }
    assert Mid(w, r.coin) <= 0.0 by { PlanExact(rows, PassLedger(db, w), w); }
    PassReports(db, a, w);
  }

  /** A row nothing can price is reported and stays open: no close is made up
      for it. */
  lemma UnpriceableStaysOpen(db: Db, a: Args, w: World, r: Row)
    requires Consistent(db) && Completes(db, a, w) && r in Pass(db, a, w).1.leftOpen
    ensures r in Pass(db, a, w).0.open && Mid(w, r.coin) <= 0.0
  {
    var ex := Acted(db.open, w).value;
    var rows, plan := ToClose(db.open, w, ex), PassPlan(db, a, w);
    PassReports(db, a, w);
    ClassifyExact(db.open, ex);
    PlanExact(rows, PassLedger(db, w), w);
    assert r.id !in Ids(plan);
    PassExtendsApply(db, a, w);
  }

  /** Which rows a pass closes, in one law: those of a pass done for real whose
      first read missed some row, that the confirming read does not back, and
      that the fills no earlier row has used, or a mid, can price. */
  lemma PassClosesIff(db: Db, a: Args, w: World, r: Row)
    requires Consistent(db) && r in db.open
    ensures r !in Pass(db, a, w).0.open
       <==> && Commits(db, a, w)
            && Classify(db.open, ByCoin(w.first.ps)) != []
            && Unbacked(r, ByCoin(w.confirm.ps))
            && r !in Unpriceable(Classify(db.open, ByCoin(w.confirm.ps)), PassLedger(db, w), w)
  {
    var plan := PassPlan(db, a, w);
    assert r !in Pass(db, a, w).0.open <==> r.id in Ids(plan) by { PassExtendsApply(db, a, w); }
    if r.id in Ids(plan) {
      ClosedWasUnbacked(db, a, w, r);
    }
    if Commits(db, a, w) {
      var ex := Acted(db.open, w).value;
      var rows := ToClose(db.open, w, ex);
      ClassifyExact(db.open, ex);
      PlannedIff(db, rows, PassLedger(db, w), w, r);
    }
  }

  lemma PlannedIff(db: Db, rows: seq<Row>, ledger: seq<Fills.Entry>, w: World, r: Row)
    requires Fills.Wf(ledger) && DistinctIds(db.open) && DistinctIds(rows) && (forall x :: x in rows ==> x in db.open)
    requires r in db.open
    ensures r.id in Ids(Plan(rows, ledger, w)) <==> r in rows && r !in Unpriceable(rows, ledger, w)
  {
    PlanExact(rows, ledger, w);
    PartedIff(db.open, rows, Plan(rows, ledger, w), Unpriceable(rows, ledger, w), w, r);
  }

  lemma PartedIff(open: seq<Row>, rows: seq<Row>, plan: seq<Planned>, rest: seq<Row>, w: World, r: Row)
    requires Parted(rows, plan, rest, w) && DistinctIds(open) && (forall x :: x in rows ==> x in open) && r in open
    ensures r.id in Ids(plan) <==> r in rows && r !in rest
  {
    assert r in rows && r !in rest ==> exists x :: x in plan && x.row == r;
    if r.id in Ids(plan) {
      var x :| x in plan && x.row.id == r.id;
      SameIdSameRow(open, x.row, r);
    }
  }

  lemma SameIdSameRow(open: seq<Row>, r: Row, s: Row)
    requires DistinctIds(open) && r in open && s in open && r.id == s.id
    ensures r == s
  {
    var i :| 0 <= i < |open| && open[i] == r;
    var j :| 0 <= j < |open| && open[j] == s;
  }

  /** What pass 1 books. Each closed row gains exactly one trade of equal size
      and reducing side, row, trade and callback carry the PnL of the price
      used, order ids stay unique, and no other row leaves the open ones. */
  ghost predicate BooksPlan(db: Db, db': Db, told: seq<(string, real)>, plan: seq<Planned>) {
    && Consistent(db')
    && db'.closed == db.closed + Closes(plan)
    && told == Told(plan)
    && |db'.trades| >= |db.trades| + |plan|
    && Follows(db.trades, db'.trades[..|db.trades| + |plan|], plan)
    && Leaves(db.open, db'.open, Ids(plan))
    && forall x :: x in plan ==> Honest(x)
  }

  lemma PassOneBooks(db: Db, a: Args, w: World)
    requires Consistent(db)
    ensures BooksPlan(db, Pass(db, a, w).0, Pass(db, a, w).1.told, PassPlan(db, a, w))
  {
    var plan := PassPlan(db, a, w);
    var applied, last, told := Apply(db, plan), Pass(db, a, w).0, Pass(db, a, w).1.told;
    assert Consistent(last) && Books(db, applied, plan) && Extends(applied, last) by { PassExtendsApply(db, a, w); }
    assert told == Told(plan) by { PassReports(db, a, w); }
    assert forall x :: x in plan ==> Honest(x) by { PassPlanExact(db, a, w); }
    PlanBooked(db, applied, last, told, plan);
  }

  lemma PlanBooked(db: Db, applied: Db, last: Db, told: seq<(string, real)>, plan: seq<Planned>)
    requires Consistent(last) && Books(db, applied, plan) && Extends(applied, last) && told == Told(plan)
    requires forall x :: x in plan ==> Honest(x)
    ensures BooksPlan(db, last, told, plan)
  {
    ExtendsBooks(db, applied, last, plan);
  }

  lemma ExtendsBooks(db: Db, applied: Db, last: Db, plan: seq<Planned>)
    requires Books(db, applied, plan) && Extends(applied, last)
    ensures last.closed == db.closed + Closes(plan) && |last.trades| >= |db.trades| + |plan|
    ensures Follows(db.trades, last.trades[..|db.trades| + |plan|], plan) && Leaves(db.open, last.open, Ids(plan))
  {
  }

  // ----- Pass 2 -----------------------------------------------------------

  function Orders(ps: seq<Position>): (r: seq<Order>)
    ensures |r| == |ps| && forall i :: 0 <= i < |ps| ==> r[i] == CloseOrder(ps[i])
  {
    seq(|ps|, i requires 0 <= i < |ps| => CloseOrder(ps[i]))
  }

  function Free(orphans: seq<Position>, count: nat, a: Args): seq<Position> {
    Keep(orphans, (p: Position) => !HeldBack(p, count, a))
  }

  /** The coins of the held orphans, in order. */
  function HeldCoins(orphans: seq<Position>, count: nat, a: Args): seq<string> {
    if orphans == [] then []
    else (if HeldBack(orphans[0], count, a) then [orphans[0].coin] else []) + HeldCoins(orphans[1..], count, a)
  }

  /** The orders pass 2 sends: one reduce-only close per orphan that is free
      to close, and none unless a re-read confirmed them. */
  lemma {:induction false} CloseOrphansSends(db: Db, orphans: seq<Position>, count: nat, confirmed: bool,
                                             a: Args, w: World, res: Result)
    ensures CloseOrphans(db, orphans, count, confirmed, a, w, res).1.sent
         == res.sent + (if confirmed then Orders(Free(orphans, count, a)) else [])
    decreases orphans
  {
    if orphans != [] {
      var p, free := orphans[0], Free(orphans[1..], count, a);
      var (next, res') := CloseOrphan(db, p, count, confirmed, a, w, res);
      CloseOrphansSends(next, orphans[1..], count, confirmed, a, w, res');
      CloseOrphanSends(db, p, count, confirmed, a, w, res);
      if !HeldBack(p, count, a) {
        assert Free(orphans, count, a) == [p] + free;
        assert Orders([p] + free) == [CloseOrder(p)] + Orders(free);
      }
    }
  }

  lemma CloseOrphanSends(db: Db, p: Position, count: nat, confirmed: bool, a: Args, w: World, res: Result)
    ensures CloseOrphan(db, p, count, confirmed, a, w, res).1.sent
         == res.sent + (if confirmed && !HeldBack(p, count, a) then [CloseOrder(p)] else [])
  {
  }

  lemma {:induction false} CloseOrphansHolds(db: Db, orphans: seq<Position>, count: nat, confirmed: bool,
                                             a: Args, w: World, res: Result)
    ensures CloseOrphans(db, orphans, count, confirmed, a, w, res).1.held == res.held + HeldCoins(orphans, count, a)
    decreases orphans
  {
    if orphans != [] {
      var (next, res') := CloseOrphan(db, orphans[0], count, confirmed, a, w, res);
      CloseOrphansHolds(next, orphans[1..], count, confirmed, a, w, res');
      CloseOrphanHolds(db, orphans[0], count, confirmed, a, w, res);
    }
  }

  lemma CloseOrphanHolds(db: Db, p: Position, count: nat, confirmed: bool, a: Args, w: World, res: Result)
    ensures CloseOrphan(db, p, count, confirmed, a, w, res).1.held
         == res.held + if HeldBack(p, count, a) then [p.coin] else []
  {
  }

  /** The orphans a pass did not hold, as it reports them. */
  function NotHeld(res: Result): multiset<string> {
    multiset(res.unresolved) + multiset(res.filled)
  }

  /** The coins of the orphans that are held, or that are not. */
  function CoinsWhere(held: bool, orphans: seq<Position>, count: nat, a: Args): multiset<string> {
    if orphans == [] then multiset{}
    else (if HeldBack(orphans[0], count, a) == held then multiset{orphans[0].coin} else multiset{})
         + CoinsWhere(held, orphans[1..], count, a)
  }

  /** Every orphan that is not held ends exactly once, unresolved or filled. */
  lemma {:induction false} CloseOrphansSorts(db: Db, orphans: seq<Position>, count: nat, confirmed: bool,
                                             a: Args, w: World, res: Result)
    ensures NotHeld(CloseOrphans(db, orphans, count, confirmed, a, w, res).1)
         == NotHeld(res) + CoinsWhere(false, orphans, count, a)
    decreases orphans
  {
    if orphans != [] {
      var (next, res') := CloseOrphan(db, orphans[0], count, confirmed, a, w, res);
      CloseOrphanSorts(db, orphans[0], count, confirmed, a, w, res, res');
      CloseOrphansSorts(next, orphans[1..], count, confirmed, a, w, res');
    }
  }

  lemma CloseOrphanSorts(db: Db, p: Position, count: nat, confirmed: bool, a: Args, w: World, res: Result, res': Result)
    requires res' == CloseOrphan(db, p, count, confirmed, a, w, res).1
    ensures NotHeld(res') == NotHeld(res) + if HeldBack(p, count, a) then multiset{} else multiset{p.coin}
  {
  }

  lemma {:induction false} HeldCoinsWhere(orphans: seq<Position>, count: nat, a: Args)
    ensures multiset(HeldCoins(orphans, count, a)) == CoinsWhere(true, orphans, count, a)
  {
    if orphans != [] {
      HeldCoinsWhere(orphans[1..], count, a);
    }
  }

  lemma CoinsCons(p: Position, rest: seq<Position>)
    ensures multiset(Coins([p] + rest)) == multiset{p.coin} + multiset(Coins(rest))
  {
    assert Coins([p] + rest)[1..] == Coins(rest);
    MultisetCons(Coins([p] + rest));
  }

  /** Each orphan is held or not, never both. */
  lemma {:induction false} CoinsWhereSplit(orphans: seq<Position>, count: nat, a: Args)
    ensures CoinsWhere(true, orphans, count, a) + CoinsWhere(false, orphans, count, a) == multiset(Coins(orphans))
  {
    if orphans != [] {
      CoinsWhereSplit(orphans[1..], count, a);
      assert orphans == [orphans[0]] + orphans[1..];
      CoinsCons(orphans[0], orphans[1..]);
    }
  }

  lemma {:induction false} FreeAtMostOne(orphans: seq<Position>, a: Args)
    ensures |Free(orphans, TradedCount(orphans, a.traded), a)| <= 1
  {
    var count := TradedCount(orphans, a.traded);
    if count <= 1 {
      FreeWithinTraded(orphans, count, a);
    } else {
      KeepNone(orphans, (p: Position) => !HeldBack(p, count, a));
    }
  }

  lemma {:induction false} FreeWithinTraded(orphans: seq<Position>, count: nat, a: Args)
    ensures |Free(orphans, count, a)| <= TradedCount(orphans, a.traded)
  {
    if orphans != [] {
      FreeWithinTraded(orphans[1..], count, a);
    }
  }

  /** The orphans pass 2 looks at: exchange positions no open row covers after
      pass 1. */
  function PassOrphans(db: Db, a: Args, w: World): seq<Position> {
    if Completes(db, a, w) then Orphans(Apply(db, PassPlan(db, a, w)).open, Acted(db.open, w).value) else []
  }

  /** The orders a pass sends: one for each orphan free to close, when they
      were confirmed. */
  lemma PassSends(db: Db, a: Args, w: World, booked: Db, orphans: seq<Position>, count: nat)
    requires a.closeOrphans && Completes(db, a, w)
    requires orphans == PassOrphans(db, a, w) && count == TradedCount(orphans, a.traded)
    requires booked == Apply(db, PassPlan(db, a, w))
    ensures Pass(db, a, w).1.sent
         == if Confirmed(booked.open, orphans, count, a, w) then Orders(Free(orphans, count, a)) else []
  {
    var (plan, leftOpen) := Planning(db, w, Acted(db.open, w).value);
    var res := NOTHING.(told := Told(plan), leftOpen := leftOpen);
    var ex := Acted(db.open, w).value;
    assert Pass(db, a, w).1.sent == PassTwo(booked, ex, a, w, res).1.sent by { PassRunsBoth(db, a, w, booked, res); }
    PassTwoSends(booked, ex, a, w, res, orphans, count);
  }

  /** Nothing is free to close, or a second read showed the same orphans. */
  predicate Confirmed(open: seq<Row>, orphans: seq<Position>, count: nat, a: Args, w: World) {
    (forall p :: p in orphans ==> HeldBack(p, count, a)) || SameOrphans(open, orphans, count, a, w.reread)
  }

  lemma PassTwoSends(db: Db, ex: seq<Position>, a: Args, w: World, res: Result, orphans: seq<Position>, count: nat)
    requires orphans == Orphans(db.open, ex) && count == TradedCount(orphans, a.traded)
    ensures PassTwo(db, ex, a, w, res).1.sent
         == res.sent + if Confirmed(db.open, orphans, count, a, w) then Orders(Free(orphans, count, a)) else []
  {
    CloseOrphansSends(db, orphans, count, Confirmed(db.open, orphans, count, a, w), a, w, res);
  }

  lemma PassRunsBoth(db: Db, a: Args, w: World, booked: Db, res: Result)
    requires a.closeOrphans && Completes(db, a, w) && booked == Apply(db, PassPlan(db, a, w))
    requires res == NOTHING.(told := Told(PassPlan(db, a, w)), leftOpen := Planning(db, w, Acted(db.open, w).value).1)
    ensures Pass(db, a, w) == PassTwo(booked, Acted(db.open, w).value, a, w, res)
  {
  }

  /** At most one order is sent in a pass. It is reduce-only, on a traded coin,
      never under a hold or a pause, and closes an orphan that a second read
      shows again on the same side and, within dust, the same size, among
      exactly the same orphans. */
  lemma OrphanCloseSafety(db: Db, a: Args, w: World, o: Order)
    requires o in Pass(db, a, w).1.sent
    ensures Pass(db, a, w).1.sent == [o] && o.reduceOnly && o.coin in a.traded
    ensures !a.hold && !a.dryRun && a.closeOrphans && Completes(db, a, w) && w.reread.Positions?
    ensures var now := Orphans(Apply(db, PassPlan(db, a, w)).open, ByCoin(w.reread.ps));
            && (set c | c in Coins(now)) == (set c | c in Coins(PassOrphans(db, a, w)))
            && exists p :: p in PassOrphans(db, a, w) && o == CloseOrder(p)
                 && Get(now, p.coin).Some? && SameWithinDust(Get(now, p.coin).value, p)
  {
    PassWithoutSendingIncomplete(db, a, w);
    var orphans := PassOrphans(db, a, w);
    var count := TradedCount(orphans, a.traded);
    PassSends(db, a, w, Apply(db, PassPlan(db, a, w)), orphans, count);
    OnlyFreeOrder(orphans, count, a, o);
    var p :| p in orphans && !HeldBack(p, count, a) && o == CloseOrder(p);
    assert SameOrphans(Apply(db, PassPlan(db, a, w)).open, orphans, count, a, w.reread);
  }

  lemma OnlyFreeOrder(orphans: seq<Position>, count: nat, a: Args, o: Order)
    requires count == TradedCount(orphans, a.traded) && o in Orders(Free(orphans, count, a))
    ensures Orders(Free(orphans, count, a)) == [o]
    ensures exists p :: p in orphans && !HeldBack(p, count, a) && o == CloseOrder(p)
  {
    var free := Free(orphans, count, a);
    FreeAtMostOne(orphans, a);
    assert |free| == 1 && free[0] in free;
    assert o == CloseOrder(free[0]);
  }

  lemma PassWithoutSendingIncomplete(db: Db, a: Args, w: World)
    requires Pass(db, a, w).1.sent != []
    ensures Completes(db, a, w) && a.closeOrphans
    ensures PassPlan(db, a, w) == Planning(db, w, Acted(db.open, w).value).0
  {
  }

  /** What pass 2 reports, in terms of the orphans it looks at. */
  lemma PassTwoReports(db: Db, a: Args, w: World, orphans: seq<Position>, count: nat)
    requires a.closeOrphans && Completes(db, a, w)
    requires orphans == PassOrphans(db, a, w) && count == TradedCount(orphans, a.traded)
    ensures Pass(db, a, w).1.held == HeldCoins(orphans, count, a)
    ensures NotHeld(Pass(db, a, w).1) == CoinsWhere(false, orphans, count, a)
  {
    var (plan, leftOpen) := Planning(db, w, Acted(db.open, w).value);
    var booked := Apply(db, plan);
    var res := NOTHING.(told := Told(plan), leftOpen := leftOpen);
    PassRunsBoth(db, a, w, booked, res);
    PassTwoHolds(booked, Acted(db.open, w).value, a, w, res, orphans, count);
  }

  lemma PassTwoHolds(db: Db, ex: seq<Position>, a: Args, w: World, res: Result, orphans: seq<Position>, count: nat)
    requires orphans == Orphans(db.open, ex) && count == TradedCount(orphans, a.traded)
    ensures PassTwo(db, ex, a, w, res).1.held == res.held + HeldCoins(orphans, count, a)
    ensures NotHeld(PassTwo(db, ex, a, w, res).1) == NotHeld(res) + CoinsWhere(false, orphans, count, a)
  {
    var confirmed := Confirmed(db.open, orphans, count, a, w);
    CloseOrphansHolds(db, orphans, count, confirmed, a, w, res);
    CloseOrphansSorts(db, orphans, count, confirmed, a, w, res);
  }

  /** Every orphan ends in exactly one of held, unresolved and filled, and
      nothing else does. */
  lemma OrphansPartition(db: Db, a: Args, w: World)
    requires a.closeOrphans && Completes(db, a, w)
    ensures var res := Pass(db, a, w).1;
            multiset(res.held) + multiset(res.unresolved) + multiset(res.filled)
                == multiset(Coins(PassOrphans(db, a, w)))
    ensures OnePerCoin(PassOrphans(db, a, w))
  {
    var res, orphans := Pass(db, a, w).1, PassOrphans(db, a, w);
    var count := TradedCount(orphans, a.traded);
    PassTwoReports(db, a, w, orphans, count);
    HeldCoinsWhere(orphans, count, a);
    CoinsWhereSplit(orphans, count, a);
    OrphansOnePerCoin(db, a, w);
  }

  /** Which orphans are held: exactly those under a hold, on a coin nobody
      here trades, or with another orphan on a traded coin beside them. */
  lemma OrphansHeldExactly(db: Db, a: Args, w: World, p: Position)
    requires a.closeOrphans && Completes(db, a, w) && p in PassOrphans(db, a, w)
    ensures p.coin in Pass(db, a, w).1.held
       <==> HeldBack(p, TradedCount(PassOrphans(db, a, w), a.traded), a)
  {
    var orphans := PassOrphans(db, a, w);
    var count := TradedCount(orphans, a.traded);
    PassTwoReports(db, a, w, orphans, count);
    OrphansOnePerCoin(db, a, w);
    HeldCoinsOf(orphans, count, a, p.coin);
    if p.coin in HeldCoins(orphans, count, a) {
      var q :| q in orphans && HeldBack(q, count, a) && q.coin == p.coin;
      GetMember(orphans, p);
      GetMember(orphans, q);
    }
  }

  lemma {:induction false} KeepOnePerCoin(ps: seq<Position>, f: Position -> bool)
    requires OnePerCoin(ps)
    ensures OnePerCoin(Keep(ps, f))
  {
    if ps != [] {
      KeepOnePerCoin(ps[1..], f);
      var kept := Keep(ps[1..], f);
      forall j | 0 <= j < |kept| ensures kept[j].coin != ps[0].coin {
        assert kept[j] in ps[1..];
      }
    }
  }

  lemma OrphansOnePerCoin(db: Db, a: Args, w: World)
    ensures OnePerCoin(PassOrphans(db, a, w))
  {
    if Completes(db, a, w) {
      ByCoinOnePerCoin(w.first.ps);
      if w.confirm.Positions? {
        ByCoinOnePerCoin(w.confirm.ps);
      }
      var open := Apply(db, PassPlan(db, a, w)).open;
      KeepOnePerCoin(Acted(db.open, w).value, (p: Position) => !Covered(open, p.coin) && p.size >= DUST);
    }
  }

  lemma {:induction false} HeldCoinsOf(orphans: seq<Position>, count: nat, a: Args, c: string)
    ensures c in HeldCoins(orphans, count, a) <==> exists p :: p in orphans && HeldBack(p, count, a) && p.coin == c
  {
    if orphans != [] {
      HeldCoinsOf(orphans[1..], count, a, c);
      assert forall p :: p in orphans <==> p == orphans[0] || p in orphans[1..];
    }
  }

  function AnswerTo(p: Position, w: World): Answer {
    if p.coin in w.answers then w.answers[p.coin] else Raises
  }

  /** What the exchange still holds of `p` after answering its reduce-only
      close. */
  function LeftAfter(p: Position, ans: Answer): Option<Position> {
    match ans
    case Filled(_, size, _) => if size >= p.size then None else Some(p.(size := p.size - size))
    case _ => Some(p)
  }

  lemma {:induction false} FilledWasAnswered(db: Db, orphans: seq<Position>, count: nat, confirmed: bool, a: Args,
                                             w: World, res: Result, c: string)
    requires c in CloseOrphans(db, orphans, count, confirmed, a, w, res).1.filled && c !in res.filled
    ensures c in w.answers && w.answers[c].Filled?
    decreases orphans
  {
    if orphans != [] {
      var (next, res') := CloseOrphan(db, orphans[0], count, confirmed, a, w, res);
      if c !in res'.filled {
        FilledWasAnswered(next, orphans[1..], count, confirmed, a, w, res', c);
      }
    }
  }

  lemma InThePartition(orphans: seq<Position>, p: Position, held: seq<string>, filled: seq<string>)
    requires p in orphans && multiset(held) + multiset([]) + multiset(filled) == multiset(Coins(orphans))
    ensures p.coin in held || p.coin in filled
  {
    var i :| 0 <= i < |orphans| && orphans[i] == p;
    assert Coins(orphans)[i] in multiset(Coins(orphans));
    assert p.coin in multiset(held) + multiset(filled);
  }

  lemma PassFilledWasAnswered(db: Db, a: Args, w: World, c: string)
    requires a.closeOrphans && Completes(db, a, w) && c in Pass(db, a, w).1.filled
    ensures c in w.answers && w.answers[c].Filled?
  {
    var (plan, leftOpen) := Planning(db, w, Acted(db.open, w).value);
    var booked := Apply(db, plan);
    var orphans := PassOrphans(db, a, w);
    var count := TradedCount(orphans, a.traded);
    var res := NOTHING.(told := Told(plan), leftOpen := leftOpen);
    PassRunsBoth(db, a, w, booked, res);
    FilledWasAnswered(booked, orphans, count, Confirmed(booked.open, orphans, count, a, w), a, w, res, c);
  }

  /** A pass that leaves nothing unresolved and holds nothing on a traded coin
      has had a fill for every orphan on a traded coin. The orphan is gone
      exactly when that fill covers it: a short fill counts as one too. */
  lemma CleanPassFillsTraded(db: Db, a: Args, w: World, p: Position)
    requires a.closeOrphans && Completes(db, a, w) && p in PassOrphans(db, a, w) && p.coin in a.traded
    requires Pass(db, a, w).1.unresolved == []
    requires forall c :: c in Pass(db, a, w).1.held ==> c !in a.traded
    ensures p.coin in Pass(db, a, w).1.filled && AnswerTo(p, w).Filled?
    ensures LeftAfter(p, AnswerTo(p, w)).None? <==> AnswerTo(p, w).size >= p.size
  {
    var res, orphans := Pass(db, a, w).1, PassOrphans(db, a, w);
    assert p.coin in res.filled by {
      OrphansPartition(db, a, w);
      InThePartition(orphans, p, res.held, res.filled);
    }
    PassFilledWasAnswered(db, a, w, p.coin);
  }

  /** One lone orphan on a traded coin, seen again, and answered by a fill of any
      size: the pass reports it filled and nothing else. */
  lemma LoneOrphanPass(p: Position, a: Args, w: World, id: string, size: real, price: Option<real>)
    requires p.size >= DUST && p.coin in a.traded && a.closeOrphans && !a.dryRun && !a.hold
    requires w.first == Positions([p]) && w.reread == Positions([p])
    requires w.answers == map[p.coin := Filled(id, size, price)]
    ensures Pass(Db([], [], [], 0, 0), a, w).1 == NOTHING.(sent := [CloseOrder(p)], filled := [p.coin])
  {
    var db := Db([], [], [], 0, 0);
    assert ByCoin([p]) == [p] by { assert [p][..0] == []; }
    assert Classify([], [p]) == [] by { ClassifyExact([], [p]); }
    assert ToClose([], w, [p]) == [] && Plan([], PassLedger(db, w), w) == [];
    assert Told([]) == [];
    LoneOrphanCloses(db, p, a, w, id, size, price);
    PassRunsBoth(db, a, w, db, NOTHING);
  }

  lemma LoneOrphanCloses(db: Db, p: Position, a: Args, w: World, id: string, size: real, price: Option<real>)
    requires db.open == [] && p.size >= DUST && p.coin in a.traded && !a.hold && w.reread == Positions([p])
    requires w.answers == map[p.coin := Filled(id, size, price)]
    ensures PassTwo(db, [p], a, w, NOTHING).1 == NOTHING.(sent := [CloseOrder(p)], filled := [p.coin])
  {
    var orphans := Orphans([], [p]);
    assert orphans == [p] by { assert [p][1..] == []; }
    assert TradedCount(orphans, a.traded) == 1 by { assert [p][1..] == []; }
    assert SameOrphans([], orphans, 1, a, w.reread) by {
      assert ByCoin([p]) == [p] by { assert [p][..0] == []; }
      assert Coins(orphans) == [p.coin];
    }
    var res := NOTHING.(sent := [CloseOrder(p)], filled := [p.coin]);
    assert CloseOrphan(db, p, 1, true, a, w, NOTHING).1 == res;
    assert CloseOrphans(db, [p], 1, true, a, w, NOTHING).1 == res by { assert [p][1..] == []; }
  }
}
