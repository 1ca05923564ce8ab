/**
 Which fills price a close, said of the fills themselves
 (bot/hypertrade/reconcile/fills.py, bot/hypertrade/db/repo.py).
 */
module PriceLaws {
  import opened Common
  import opened Book
  import opened Fills
  import opened Reconcile
  import opened ReconcileLaws

  /** A fill that closes: on the coin, selling a long or buying back a short, and not
      older than asked. */
  predicate Matching(f: Fill, k: Key) {
    && f.coin == k.coin && f.side == Some(if k.side.Long? then Sell else Buy)
    && (k.sinceMs.None? || k.sinceMs.value <= f.timeMs)
  }

  lemma CandidateIff(e: Entry, k: Key)
    ensures Candidate(e, k) <==> Matching(e.fill, k) && e.remaining > 0.0
  {
  }

  /** Whatever a take draws from an entry, that fill closes the position asked about;
      and a take that fails draws nothing. */
  lemma TakenMatches(es: seq<Entry>, k: Key, size: real, i: nat)
    requires Wf(es) && i < |es|
    ensures var (r, left) := Take(es, k, size);
            |left| == |es| && left[i].fill == es[i].fill && left[i].remaining <= es[i].remaining
            && (left[i].remaining < es[i].remaining ==> r.Some? && Matching(es[i].fill, k))
  {
    TakeKeepsWf(es, k, size);
    SpentBounds(es, k, size);
    CandidateIff(es[i], k);
  }

  /** What is unspent of the fills that close. */
  function Unspent(es: seq<Entry>, k: Key): real {
    if es == [] then 0.0
    else (if Matching(es[0].fill, k) then es[0].remaining else 0.0) + Unspent(es[1..], k)
  }

  lemma {:induction false} UnspentIsTotal(es: seq<Entry>, k: Key)
    requires Wf(es)
    ensures Total(Candidates(es, k)) == Unspent(es, k)
  {
    if es != [] {
      assert es[0] in es;
      CandidateIff(es[0], k);
      CandidatesFirst(es, k);
      UnspentIsTotal(es[1..], k);
      if Candidate(es[0], k) {
        assert Candidates(es, k)[1..] == Candidates(es[1..], k);
      }
    }
  }

  /** A take succeeds exactly when those cover it, to a billionth of the size or a
      trillionth. */
  lemma TakeSucceedsOnUnspent(es: seq<Entry>, k: Key, size: real)
    requires Wf(es)
    ensures Take(es, k, size).0.Some?
       <==> size > 0.000000000001 &&
            Unspent(es, k) >= size - (if size * 0.000000001 < 0.000000000001 then 0.000000000001
                                      else size * 0.000000001)
  {
    TakeSucceedsIff(es, k, size);
    UnspentIsTotal(es, k);
  }

  // ----- The price of a take ------------------------------------------------

  /** Something was drawn from the entry. */
  predicate Drew(es: seq<Entry>, left: seq<Entry>, i: int) {
    0 <= i < |es| == |left| && left[i].remaining < es[i].remaining
  }

  lemma {:induction false} DrawnSpreads(es: seq<Entry>, k: Key, d: seq<real>, cs: seq<Entry>, c: seq<real>, j: nat)
    returns (i: nat)
    requires |es| == |d| && |cs| == |c| && Spreads(es, k, d, cs, c) && j < |c| && c[j] > 0.0
    ensures i < |es| && es[i] == cs[j] && d[i] == c[j]
    decreases es
  {
    if Candidate(es[0], k) {
      if j == 0 {
        i := 0;
      } else {
        var n := DrawnSpreads(es[1..], k, d[1..], cs[1..], c[1..], j - 1);
        i := n + 1;
      }
    } else {
      var n := DrawnSpreads(es[1..], k, d[1..], cs, c, j);
      i := n + 1;
    }
  }

  /** The price of a take lies within any bounds on the prices of the fills it drew
      from. */
  lemma TakePriceWithin(es: seq<Entry>, k: Key, size: real, s: Summary, left: seq<Entry>, lo: real, hi: real)
    requires Wf(es) && Take(es, k, size) == (Some(s), left)
    requires forall i :: Drew(es, left, i) ==> lo <= es[i].fill.price <= hi
    ensures lo <= s.price <= hi
  {
    var cs, c := Candidates(es, k), Draw(Candidates(es, k), size);
    SpentSpreads(es, k, size);
    forall j | 0 <= j < |cs| && c[j] > 0.0 ensures lo <= cs[j].fill.price <= hi {
      var i := DrawnSpreads(es, k, Spent(es, k, size), cs, c, j);
      assert Drew(es, left, i);
    }
    SummaryPrice(cs, size, c, s, lo, hi);
  }

  lemma SomethingDrawn(es: seq<Entry>, k: Key, size: real, s: Summary, left: seq<Entry>)
    requires Wf(es) && Take(es, k, size) == (Some(s), left)
    ensures exists i :: Drew(es, left, i)
  {
    TakeKeepsWf(es, k, size);
    if forall i :: !Drew(es, left, i) {
      forall i | 0 <= i < |es| ensures left[i] == es[i] {
        assert !Drew(es, left, i) && left[i].fill == es[i].fill && left[i].remaining <= es[i].remaining;
      }
      assert left == es;
      SummaryDescribes(Candidates(es, k), size, Draw(Candidates(es, k), size), s);
      TakeConserves(InSize, es, k, size, s, left);
    }
  }

  /** The cheapest and the dearest of the first `n` entries something was drawn
      from. */
  lemma {:induction false} Extremes(es: seq<Entry>, left: seq<Entry>, n: nat) returns (lo: int, hi: int)
    requires n <= |es| && exists i :: 0 <= i < n && Drew(es, left, i)
    ensures Drew(es, left, lo) && Drew(es, left, hi)
    ensures forall i :: 0 <= i < n && Drew(es, left, i) ==> es[lo].fill.price <= es[i].fill.price <= es[hi].fill.price
  {
    var last := n - 1;
    if i :| 0 <= i < last && Drew(es, left, i) {
      lo, hi := Extremes(es, left, last);
      if Drew(es, left, last) && es[last].fill.price < es[lo].fill.price { lo := last; }
      if Drew(es, left, last) && es[last].fill.price > es[hi].fill.price { hi := last; }
    } else {
      lo, hi := last, last;
    }
  }

  /** So it lies between the prices of two of them. */
  lemma TakePriceBetween(es: seq<Entry>, k: Key, size: real, s: Summary, left: seq<Entry>) returns (lo: int, hi: int)
    requires Wf(es) && Take(es, k, size) == (Some(s), left)
    ensures Drew(es, left, lo) && Drew(es, left, hi) && es[lo].fill.price <= s.price <= es[hi].fill.price
    ensures Matching(es[lo].fill, k) && Matching(es[hi].fill, k)
  {
    SomethingDrawn(es, k, size, s, left);
    lo, hi := Extremes(es, left, |es|);
    TakePriceWithin(es, k, size, s, left, es[lo].fill.price, es[hi].fill.price);
    TakenMatches(es, k, size, lo);
    TakenMatches(es, k, size, hi);
  }

  // ----- Its size and fee -----------------------------------------------------

  /** What was drawn, entry by entry, and the part of each fill's fee that goes with it. */
  function DrawnSize(es: seq<Entry>, left: seq<Entry>): real
    requires |es| == |left|
  {
    if es == [] then 0.0 else es[0].remaining - left[0].remaining + DrawnSize(es[1..], left[1..])
  }

  function DrawnFee(es: seq<Entry>, left: seq<Entry>): real
    requires |es| == |left|
  {
    if es == [] then 0.0
    else (if es[0].fill.size == 0.0 then 0.0
          else es[0].fill.fee * ((es[0].remaining - left[0].remaining) / es[0].fill.size))
         + DrawnFee(es[1..], left[1..])
  }

  lemma {:induction false} GoneSize(es: seq<Entry>, left: seq<Entry>)
    requires |es| == |left| && forall i :: 0 <= i < |es| ==> left[i].fill == es[i].fill
    ensures Gone(InSize, left) - Gone(InSize, es) == DrawnSize(es, left)
  {
    if es != [] {
      GoneSize(es[1..], left[1..]);
      WorthDrawn(1.0, es[0].fill.size, es[0].remaining, left[0].remaining);
    }
  }

  lemma {:induction false} GoneFee(es: seq<Entry>, left: seq<Entry>)
    requires |es| == |left| && forall i :: 0 <= i < |es| ==> left[i].fill == es[i].fill
    ensures Gone(InFee, left) - Gone(InFee, es) == DrawnFee(es, left)
  {
    if es != [] {
      GoneFee(es[1..], left[1..]);
      WorthDrawn(Rate(InFee, es[0].fill), es[0].fill.size, es[0].remaining, left[0].remaining);
      FeeOfDrawn(es[0].fill, es[0].remaining - left[0].remaining);
    }
  }

  lemma WorthDrawn(rate: real, size: real, was: real, left: real)
    ensures rate * (size - left) - rate * (size - was) == rate * (was - left)
  {
    Distribute(rate, size - was, was - left);
  }

  lemma FeeOfDrawn(f: Fill, drawn: real)
    ensures Rate(InFee, f) * drawn == if f.size == 0.0 then 0.0 else f.fee * (drawn / f.size)
  {
    if f.size != 0.0 {
      assert f.fee / f.size * drawn == f.fee * (drawn / f.size);
    }
  }

  /** A take books what it drew, and of each fill's fee the part drawn. */
  lemma TakeBooksDrawn(es: seq<Entry>, k: Key, size: real, s: Summary, left: seq<Entry>)
    requires Wf(es) && Take(es, k, size) == (Some(s), left)
    ensures |left| == |es| && s.size == DrawnSize(es, left) && s.fee == DrawnFee(es, left)
  {
    TakeKeepsWf(es, k, size);
    TakeConserves(InSize, es, k, size, s, left);
    TakeConserves(InFee, es, k, size, s, left);
    GoneSize(es, left);
    GoneFee(es, left);
  }

  // ----- Its order id ---------------------------------------------------------

  /** The order id of the first entry drawn from that has one, if any has. */
  ghost predicate FirstNamed(es: seq<Entry>, left: seq<Entry>, id: Option<string>) {
    if id.None? then forall i :: Drew(es, left, i) ==> es[i].fill.orderId.None?
    else
      exists i :: Drew(es, left, i) && es[i].fill.orderId == id
                  && forall j :: 0 <= j < i && Drew(es, left, j) ==> es[j].fill.orderId.None?
  }

  lemma {:induction false} FirstIdSpreads(es: seq<Entry>, k: Key, d: seq<real>, cs: seq<Entry>, c: seq<real>)
    requires |es| == |d| && |cs| == |c| && Spreads(es, k, d, cs, c)
    ensures FirstId(es, d) == FirstId(cs, c)
    decreases es
  {
    if es != [] {
      if Candidate(es[0], k) {
        FirstIdSpreads(es[1..], k, d[1..], cs[1..], c[1..]);
      } else {
        FirstIdSpreads(es[1..], k, d[1..], cs, c);
      }
    }
  }

  lemma {:induction false} FirstIdIs(es: seq<Entry>, d: seq<real>)
    requires |es| == |d| && forall i :: 0 <= i < |d| ==> d[i] >= 0.0
    ensures FirstNamed(es, After(es, d), FirstId(es, d))
  {
    if es != [] {
      var left, rest, id := After(es, d), After(es[1..], d[1..]), FirstId(es, d);
      FirstIdIs(es[1..], d[1..]);
      assert rest == left[1..];
      assert forall i :: Drew(es[1..], rest, i) ==> Drew(es, left, i + 1);
      if d[0] > 0.0 && es[0].fill.orderId.Some? {
        assert Drew(es, left, 0);
      } else if id.Some? {
        var i :| Drew(es[1..], rest, i) && es[1..][i].fill.orderId == id
          && forall j :: 0 <= j < i && Drew(es[1..], rest, j) ==> es[1..][j].fill.orderId.None?;
        forall j | 0 <= j < i + 1 && Drew(es, left, j) ensures es[j].fill.orderId.None? {
          if j > 0 {
            assert Drew(es[1..], rest, j - 1);
          }
        }
        assert Drew(es, left, i + 1);
      } else {
        forall j | Drew(es, left, j) ensures es[j].fill.orderId.None? {
          if j > 0 {
            assert Drew(es[1..], rest, j - 1);
          }
        }
      }
    }
  }

  /** A take is named after the oldest fill it drew from that has an order id. */
  lemma TakeIsNamed(es: seq<Entry>, k: Key, size: real, s: Summary, left: seq<Entry>)
    requires Wf(es) && Take(es, k, size) == (Some(s), left)
    ensures FirstNamed(es, left, s.orderId)
  {
    var d := Spent(es, k, size);
    SpentSpreads(es, k, size);
    FirstIdSpreads(es, k, d, Candidates(es, k), Draw(Candidates(es, k), size));
    SpentBounds(es, k, size);
    FirstIdIs(es, d);
  }

  // ----- The prices of a pass -----------------------------------------------

  /** A fill of this pass that may price the row's close: usable, not booked yet, on the
      coin, on the closing side, and not older than the row. */
  predicate MayPrice(db: Db, w: World, r: Row, f: Fill) {
    && w.fills.Some? && f in w.fills.value && f.size > 0.0 && f.price > 0.0
    && (f.orderId.Some? ==> forall t :: t in db.trades ==> t.orderId != Exchange(f.orderId.value))
    && f.coin == r.coin && f.side == Some(if r.side.Long? then Sell else Buy) && r.openedMs <= f.timeMs
  }

  /** The pass's ledger holds the fetched fills that are usable and not booked. */
  lemma LedgerFills(db: Db, w: World, e: Entry)
    requires e in PassLedger(db, w)
    ensures w.fills.Some? && e.fill in w.fills.value && e.fill.size > 0.0 && e.fill.price > 0.0
    ensures e.fill.orderId.Some? ==> forall t :: t in db.trades ==> t.orderId != Exchange(e.fill.orderId.value)
  {
    var fs := if w.fills.Some? then w.fills.value else [];
    var excluded := ExchangeIds(db.trades);
    assert e in Parse(fs) && Admitted(e.fill, excluded);
    var sorted := Sort(Keep(fs, Usable));
    var i :| 0 <= i < |Parse(fs)| && Parse(fs)[i] == e;
    assert e.fill == sorted[i];
    SortMember(Keep(fs, Usable), e.fill);
  }

  /** The sizes of the fetched fills that may price a close asked for by `k`. */
  function Offered(fs: seq<Fill>, k: Key, booked: set<string>): real {
    if fs == [] then 0.0
    else (if Matching(fs[0], k) && fs[0].size > 0.0 && fs[0].price > 0.0
             && (fs[0].orderId.Some? ==> fs[0].orderId.value !in booked)
          then fs[0].size else 0.0) + Offered(fs[1..], k, booked)
  }

  lemma {:induction false} OfferedSorted(fs: seq<Fill>, k: Key, booked: set<string>)
    ensures Offered(Sort(fs), k, booked) == Offered(fs, k, booked)
  {
    if fs != [] {
      var n := |fs| - 1;
      OfferedSorted(fs[..n], k, booked);
      OfferedInsert(Sort(fs[..n]), fs[n], k, booked);
      OfferedSnoc(fs, k, booked);
    }
  }

  lemma {:induction false} OfferedInsert(fs: seq<Fill>, x: Fill, k: Key, booked: set<string>)
    ensures Offered(Insert(fs, x), k, booked) == Offered(fs, k, booked) + Offered([x], k, booked)
  {
    if fs != [] && x.timeMs >= fs[0].timeMs {
      OfferedInsert(fs[1..], x, k, booked);
      assert Insert(fs, x)[1..] == Insert(fs[1..], x);
    } else {
      assert Insert(fs, x)[1..] == fs;
    }
  }

  lemma {:induction false} OfferedSnoc(fs: seq<Fill>, k: Key, booked: set<string>)
    requires fs != []
    ensures Offered(fs, k, booked) == Offered(fs[..|fs| - 1], k, booked) + Offered([fs[|fs| - 1]], k, booked)
  {
    if |fs| > 1 {
      OfferedSnoc(fs[1..], k, booked);
      assert fs[..|fs| - 1][1..] == fs[1..][..|fs| - 2];
    }
  }

  lemma {:induction false} OfferedUsable(fs: seq<Fill>, k: Key, booked: set<string>)
    ensures Offered(Keep(fs, Usable), k, booked) == Offered(fs, k, booked)
  {
    if fs != [] {
      OfferedUsable(fs[1..], k, booked);
      if Usable(fs[0]) {
        assert Keep(fs, Usable)[1..] == Keep(fs[1..], Usable);
      }
    }
  }

  lemma {:induction false} UnspentOffered(es: seq<Entry>, fs: seq<Fill>, k: Key, booked: set<string>)
    requires |es| == |fs| && forall i :: 0 <= i < |es| ==> es[i] == Entry(fs[i], fs[i].size) && Usable(fs[i])
    ensures Unspent(Unexcluded(es, booked), k) == Offered(fs, k, booked)
  {
    if es != [] {
      UnspentOffered(es[1..], fs[1..], k, booked);
      if Admitted(es[0].fill, booked) {
        assert Unexcluded(es, booked)[1..] == Unexcluded(es[1..], booked);
      }
    }
  }

  /** The pass's ledger offers exactly the fetched fills that are usable and not booked:
      the first take from it succeeds just when those that match cover it. */
  lemma LedgerOffers(fs: seq<Fill>, k: Key, booked: set<string>)
    ensures Unspent(Ledger(fs, booked), k) == Offered(fs, k, booked)
  {
    var sorted := Sort(Keep(fs, Usable));
    forall i | 0 <= i < |sorted| ensures Usable(sorted[i]) {
      SortMember(Keep(fs, Usable), sorted[i]);
    }
    UnspentOffered(Parse(fs), sorted, k, booked);
    OfferedSorted(Keep(fs, Usable), k, booked);
    OfferedUsable(fs, k, booked);
  }

  /** The price is that of closing fills, or an estimate from the mid. */
  ghost predicate PricedFairly(db: Db, w: World, x: Planned) {
    if x.priced.estimated then
      && x.row.coin in w.mids && x.priced.exit == w.mids[x.row.coin] > 0.0 && x.priced.orderId.None?
      && x.priced.fee == x.priced.exit * x.row.size * w.takerFee
    else
      exists f, g :: MayPrice(db, w, x.row, f) && MayPrice(db, w, x.row, g) && f.price <= x.priced.exit <= g.price
  }

  /** What is left of a ledger still holds the same fills. */
  predicate SameFills(ledger: seq<Entry>, left: seq<Entry>) {
    |left| == |ledger| && forall i :: 0 <= i < |ledger| ==> left[i].fill == ledger[i].fill
  }

  lemma PriceIsFair(db: Db, w: World, r: Row, now: seq<Entry>)
    requires Wf(now) && SameFills(PassLedger(db, w), now) && Price(r, now, w).0.Some?
    ensures PricedFairly(db, w, Planned(r, Price(r, now, w).0.value))
  {
    var k := Key(r.coin, r.side, Some(r.openedMs));
    var (s, left) := Take(now, k, r.size);
    if s.Some? {
      var lo, hi := TakePriceBetween(now, k, r.size, s.value, left);
      var ledger := PassLedger(db, w);
      assert ledger[lo] in ledger && ledger[hi] in ledger;
      LedgerFills(db, w, ledger[lo]);
      LedgerFills(db, w, ledger[hi]);
      assert MayPrice(db, w, r, now[lo].fill) && MayPrice(db, w, r, now[hi].fill);
    }
  }

  lemma {:induction false} PlanIsFair(db: Db, w: World, rows: seq<Row>, now: seq<Entry>)
    requires Wf(now) && SameFills(PassLedger(db, w), now)
    ensures forall x :: x in Plan(rows, now, w) ==> PricedFairly(db, w, x)
    decreases rows
  {
    if rows != [] {
      var (p, left) := Price(rows[0], now, w);
      TakeKeepsWf(now, Key(rows[0].coin, rows[0].side, Some(rows[0].openedMs)), rows[0].size);
      PricingHead(rows, now, w, p, left);
      PlanIsFair(db, w, rows[1..], left);
      if p.Some? {
        PriceIsFair(db, w, rows[0], now);
      }
    }
  }

  /** Every row a pass closes is priced from fills that close it, are not older than it
      and were not booked before, or else estimated at the mid. */
  lemma PassPricesFairly(db: Db, a: Args, w: World)
    ensures forall x :: x in PassPlan(db, a, w) ==> PricedFairly(db, w, x)
  {
    if Acted(db.open, w).Some? {
      PlanIsFair(db, w, ToClose(db.open, w, Acted(db.open, w).value), PassLedger(db, w));
    }
  }
}
