/**
 Laws of the fill ledger that relate several takes, or a take and the
 non-consuming summary (bot/hypertrade/reconcile/fills.py).
 */
module FillLaws {
  import opened Common
  import opened Fills

  // ----- A fresh ledger prices like the pure summary ---------------------

  lemma {:induction false} KeepFresh(fs: seq<Fill>, p: Fill -> bool)
    ensures Keep(Fresh(fs), (e: Entry) => p(e.fill)) == Fresh(Keep(fs, p))
  {
    if fs != [] {
      KeepFresh(fs[1..], p);
      assert Fresh(fs)[1..] == Fresh(fs[1..]);
      FreshCons(fs[0], Keep(fs[1..], p));
    }
  }

  lemma FreshCons(f: Fill, rest: seq<Fill>)
    ensures Fresh([f] + rest) == [Entry(f, f.size)] + Fresh(rest)
  {
  }

  predicate Wanted(f: Fill, k: Key, excluded: set<string>) {
    Usable(f) && Admitted(f, excluded) && Reduces(f, k)
  }

  lemma CandidatesOfFresh(fs: seq<Fill>, k: Key, excluded: set<string>, want: Fill -> bool)
    requires forall f :: want(f) == Wanted(f, k, excluded)
    ensures Candidates(Ledger(fs, excluded), k) == Fresh(Sort(Keep(fs, want)))
  {
    var usable := Keep(fs, Usable);
    forall e | e in Fresh(Sort(usable)) ensures Usable(e.fill) && e.remaining == e.fill.size {
      SortMember(usable, e.fill);
    }
    KeepKeep(Fresh(Sort(usable)), (e: Entry) => Admitted(e.fill, excluded), (e: Entry) => Candidate(e, k),
             (e: Entry) => want(e.fill));
    KeepFresh(Sort(usable), want);
    SortCommutesWithKeep(usable, want);
    KeepKeep(fs, Usable, want, want);
  }

  lemma ParseOfSelect(fs: seq<Fill>, k: Key, excluded: set<string>, want: Fill -> bool)
    requires forall f :: want(f) == Wanted(f, k, excluded)
    ensures Parse(Select(fs, k, excluded)) == Fresh(Sort(Keep(fs, want)))
  {
    var matching := (f: Fill) => Reduces(f, k) && Admitted(f, excluded);
    assert Select(fs, k, excluded) == Sort(Keep(fs, matching));
    SortCommutesWithKeep(Keep(fs, matching), Usable);
    KeepKeep(fs, matching, Usable, want);
    SortSorted(Keep(fs, want));
    SortOfSorted(Sort(Keep(fs, want)));
  }

  /** The first take from a ledger is the summary of the selected fills, for
      every fill list, exclusion set and opening time. */
  lemma FreshTakeIsSummary(fs: seq<Fill>, k: Key, excluded: set<string>, size: real)
    ensures Take(Ledger(fs, excluded), k, size).0 == Consume(Parse(Select(fs, k, excluded)), size)
  {
    var want := (f: Fill) => Wanted(f, k, excluded);
    CandidatesOfFresh(fs, k, excluded, want);
    ParseOfSelect(fs, k, excluded, want);
  }

  // ----- Takes on different coins or sides commute -----------------------

  predicate Apart(k1: Key, k2: Key) {
    k1.coin != k2.coin || k1.side != k2.side
  }

  lemma {:induction false} UntouchedByOthers(es: seq<Entry>, d: seq<real>, k: Key, need: real)
    requires |es| == |d|
    requires forall i :: 0 <= i < |es| && Reduces(es[i].fill, k) ==> d[i] == 0.0
    ensures Candidates(After(es, d), k) == Candidates(es, k)
    ensures Spent(After(es, d), k, need) == Spent(es, k, need)
  {
    if es != [] {
      var left := After(es, d);
      assert left[1..] == After(es[1..], d[1..]);
      assert Candidate(es[0], k) == Candidate(left[0], k);
      assert Candidate(es[0], k) ==> left[0] == es[0];
      var next := if need <= COVER_EPS || !Candidate(es[0], k) then need
                  else need - Min(es[0].remaining, need);
      UntouchedByOthers(es[1..], d[1..], k, next);
    }
  }

  lemma OtherKeyUnaffected(es: seq<Entry>, k1: Key, a: real, k2: Key, b: real)
    requires Wf(es) && Apart(k1, k2)
    ensures var left := Take(es, k1, a).1;
            && Wf(left) && |left| == |es|
            && Take(left, k2, b).0 == Take(es, k2, b).0
            && Spent(left, k2, b) == Spent(es, k2, b)
  {
    TakeKeepsWf(es, k1, a);
    SpentBounds(es, k1, a);
    if Take(es, k1, a).0.Some? {
      UntouchedByOthers(es, Spent(es, k1, a), k2, b);
    }
  }

  /** Two takes on different coins or sides can be done in either order:
      same summaries, same ledger left. */
  lemma TakesCommute(es: seq<Entry>, k1: Key, a: real, k2: Key, b: real)
    requires Wf(es) && Apart(k1, k2)
    ensures Wf(Take(es, k1, a).1) && Wf(Take(es, k2, b).1)
    ensures Take(Take(es, k1, a).1, k2, b).0 == Take(es, k2, b).0
    ensures Take(Take(es, k2, b).1, k1, a).0 == Take(es, k1, a).0
    ensures Take(Take(es, k1, a).1, k2, b).1 == Take(Take(es, k2, b).1, k1, a).1
  {
    OtherKeyUnaffected(es, k1, a, k2, b);
    OtherKeyUnaffected(es, k2, b, k1, a);
    var l1, l2 := Take(es, k1, a).1, Take(es, k2, b).1;
    var both1, both2 := Take(l1, k2, b).1, Take(l2, k1, a).1;
    forall i | 0 <= i < |es| ensures both1[i] == both2[i] {
      assert both1[i].fill == es[i].fill == both2[i].fill;
    }
  }

  // ----- What a spend draws, and in which order ---------------------------

  /** What the first entry gives. */
  function Head(e: Entry, k: Key, need: real): real {
    if need <= COVER_EPS || !Candidate(e, k) then 0.0 else Min(e.remaining, need)
  }

  /** What a key can draw from an entry. */
  function Stock(e: Entry, k: Key): real {
    if Candidate(e, k) then e.remaining else 0.0
  }

  function Available(es: seq<Entry>, k: Key): real {
    if es == [] then 0.0 else Stock(es[0], k) + Available(es[1..], k)
  }

  /** What a spend of `need` leaves undrawn: a shortfall, or a remainder of at
      most COVER_EPS that is dropped. */
  function Undrawn(es: seq<Entry>, k: Key, need: real): real {
    if es == [] then need else Undrawn(es[1..], k, need - Head(es[0], k, need))
  }

  function Sum(d: seq<real>): real {
    if d == [] then 0.0 else d[0] + Sum(d[1..])
  }

  /** Never more than an entry's stock, and nothing from an entry while an
      earlier one has some left. */
  predicate InOrder(es: seq<Entry>, k: Key, d: seq<real>) {
    && |d| == |es|
    && (forall i :: 0 <= i < |d| ==> 0.0 <= d[i] <= Stock(es[i], k))
    && (forall i, j :: 0 <= i < j < |d| && d[j] > 0.0 ==> d[i] == Stock(es[i], k))
  }

  lemma {:induction false} AvailableIsTotal(es: seq<Entry>, k: Key)
    ensures Available(es, k) == Total(Candidates(es, k))
  {
    if es != [] {
      AvailableIsTotal(es[1..], k);
      if Candidate(es[0], k) {
        assert Candidates(es, k)[1..] == Candidates(es[1..], k);
      }
    }
  }

  lemma SpentHead(es: seq<Entry>, k: Key, need: real, h: real)
    requires es != [] && h == Head(es[0], k, need)
    ensures Spent(es, k, need) == [h] + Spent(es[1..], k, need - h)
  {
  }

  lemma {:induction false} SpentSum(es: seq<Entry>, k: Key, need: real)
    ensures Sum(Spent(es, k, need)) == need - Undrawn(es, k, need)
  {
    if es != [] {
      var h := Head(es[0], k, need);
      SpentHead(es, k, need, h);
      SpentSum(es[1..], k, need - h);
    }
  }

  lemma {:induction false} SpentNothing(es: seq<Entry>, k: Key, need: real)
    requires need <= COVER_EPS
    ensures forall i :: 0 <= i < |es| ==> Spent(es, k, need)[i] == 0.0
    ensures Undrawn(es, k, need) == need
  {
    if es != [] {
      SpentHead(es, k, need, 0.0);
      SpentNothing(es[1..], k, need);
    }
  }

  lemma {:induction false} SpentInOrder(es: seq<Entry>, k: Key, need: real)
    requires Wf(es)
    ensures InOrder(es, k, Spent(es, k, need))
  {
    if es != [] {
      var h := Head(es[0], k, need);
      SpentHead(es, k, need, h);
      SpentInOrder(es[1..], k, need - h);
      if h != Stock(es[0], k) {
        SpentNothing(es[1..], k, need - h);
      }
      InOrderCons(es, k, h, Spent(es[1..], k, need - h));
    }
  }

  lemma InOrderCons(es: seq<Entry>, k: Key, h: real, d: seq<real>)
    requires es != [] && 0.0 <= h <= Stock(es[0], k) && InOrder(es[1..], k, d)
    requires h != Stock(es[0], k) ==> forall i :: 0 <= i < |d| ==> d[i] == 0.0
    ensures InOrder(es, k, [h] + d)
  {
  }

  lemma InOrderTail(es: seq<Entry>, k: Key, d: seq<real>)
    requires es != [] && InOrder(es, k, d)
    ensures InOrder(es[1..], k, d[1..])
    ensures d[0] != Stock(es[0], k) ==> forall i :: 0 <= i < |d| - 1 ==> d[1..][i] == 0.0
  {
  }

  lemma StockAfter(es: seq<Entry>, k: Key, d: seq<real>, i: nat)
    requires Wf(es) && InOrder(es, k, d) && i < |es|
    ensures Stock(After(es, d)[i], k) == Stock(es[i], k) - d[i]
  {
    assert es[i] in es;
  }

  /** A spend takes from what is available exactly what it draws. */
  lemma {:induction false} AvailableAfter(es: seq<Entry>, k: Key, d: seq<real>)
    requires Wf(es) && InOrder(es, k, d)
    ensures Available(After(es, d), k) == Available(es, k) - Sum(d)
  {
    if es != [] {
      StockAfter(es, k, d, 0);
      InOrderTail(es, k, d);
      AvailableAfter(es[1..], k, d[1..]);
      AvailableStep(es, k, d);
    }
  }

  lemma AvailableStep(es: seq<Entry>, k: Key, d: seq<real>)
    requires |es| == |d| > 0 && Stock(After(es, d)[0], k) == Stock(es[0], k) - d[0]
    requires Available(After(es[1..], d[1..]), k) == Available(es[1..], k) - Sum(d[1..])
    ensures Available(After(es, d), k) == Available(es, k) - Sum(d)
  {
    AfterTail(es, d);
  }

  lemma AfterTail(es: seq<Entry>, d: seq<real>)
    requires |es| == |d| > 0
    ensures After(es, d)[1..] == After(es[1..], d[1..])
  {
    forall i | 0 <= i < |es| - 1 ensures After(es, d)[1..][i] == After(es[1..], d[1..])[i] {
      assert After(es, d)[i + 1] == es[i + 1].(remaining := es[i + 1].remaining - d[i + 1]);
    }
  }

  lemma {:induction false} SumOfNothing(d: seq<real>)
    requires forall i :: 0 <= i < |d| ==> d[i] == 0.0
    ensures Sum(d) == 0.0
  {
    if d != [] {
      SumOfNothing(d[1..]);
    }
  }

  lemma {:induction false} SumNonneg(d: seq<real>)
    requires forall i :: 0 <= i < |d| ==> 0.0 <= d[i]
    ensures 0.0 <= Sum(d)
  {
    if d != [] {
      SumNonneg(d[1..]);
    }
  }

  /** Oldest first leaves no choice: two draws in order that add up to the same
      are the same draw. */
  lemma {:induction false} InOrderUnique(es: seq<Entry>, k: Key, x: seq<real>, y: seq<real>)
    requires InOrder(es, k, x) && InOrder(es, k, y) && Sum(x) == Sum(y)
    ensures x == y
  {
    if es != [] {
      InOrderTail(es, k, x);
      InOrderTail(es, k, y);
      assert x[0] == y[0] by { InOrderHeads(es, k, x, y); }
      InOrderUnique(es[1..], k, x[1..], y[1..]);
      assert x == [x[0]] + x[1..] && y == [y[0]] + y[1..];
    }
  }

  lemma InOrderHeads(es: seq<Entry>, k: Key, x: seq<real>, y: seq<real>)
    requires es != [] && InOrder(es, k, x) && InOrder(es, k, y) && Sum(x) == Sum(y)
    ensures x[0] == y[0]
  {
    InOrderTail(es, k, x);
    InOrderTail(es, k, y);
    SumNonneg(x[1..]);
    SumNonneg(y[1..]);
    if x[0] != Stock(es[0], k) {
      SumOfNothing(x[1..]);
    }
    if y[0] != Stock(es[0], k) {
      SumOfNothing(y[1..]);
    }
  }

  // ----- Splitting a take -------------------------------------------------

  function Plus(x: seq<real>, y: seq<real>): (z: seq<real>)
    requires |x| == |y|
    ensures |z| == |x| && forall i :: 0 <= i < |x| ==> z[i] == x[i] + y[i]
  {
    seq(|x|, i requires 0 <= i < |x| => x[i] + y[i])
  }

  lemma {:induction false} SumPlus(x: seq<real>, y: seq<real>)
    requires |x| == |y|
    ensures Sum(Plus(x, y)) == Sum(x) + Sum(y)
  {
    if x != [] {
      SumPlus(x[1..], y[1..]);
      assert Plus(x, y)[1..] == Plus(x[1..], y[1..]);
    }
  }

  /** Drawing in order, and then in order from what is left, is drawing in
      order. */
  lemma TwoInOrder(es: seq<Entry>, k: Key, x: seq<real>, y: seq<real>)
    requires Wf(es) && InOrder(es, k, x) && InOrder(After(es, x), k, y)
    ensures InOrder(es, k, Plus(x, y))
  {
    var z := Plus(x, y);
    forall i | 0 <= i < |es| ensures Stock(After(es, x)[i], k) == Stock(es[i], k) - x[i] {
      StockAfter(es, k, x, i);
    }
    forall i, j | 0 <= i < j < |z| && z[j] > 0.0 ensures z[i] == Stock(es[i], k) {
      if x[j] > 0.0 {
        assert x[i] == Stock(es[i], k);
      }
    }
  }

  lemma AfterTwo(es: seq<Entry>, x: seq<real>, y: seq<real>, z: seq<real>)
    requires |x| == |y| == |z| == |es|
    ensures After(After(es, x), y) == After(es, z) <==> Plus(x, y) == z
  {
    var one, two := After(After(es, x), y), After(es, z);
    if one == two {
      forall i | 0 <= i < |es| ensures Plus(x, y)[i] == z[i] {
        assert one[i].remaining == two[i].remaining;
      }
    }
  }

  /** Spending `a` and then `b` leaves the ledger that spending `a + b` leaves
      exactly when together they leave as much undrawn. */
  lemma SplitLedgerIff(es: seq<Entry>, k: Key, a: real, b: real, mid: seq<Entry>)
    requires Wf(es) && mid == After(es, Spent(es, k, a))
    ensures After(mid, Spent(mid, k, b)) == After(es, Spent(es, k, a + b))
       <==> Undrawn(es, k, a) + Undrawn(mid, k, b) == Undrawn(es, k, a + b)
  {
    var x, y, z := Spent(es, k, a), Spent(mid, k, b), Spent(es, k, a + b);
    SplitInOrder(es, k, a, b, mid);
    AfterTwo(es, x, y, z);
    SplitSums(es, k, a, b, mid);
  }

  lemma SplitInOrder(es: seq<Entry>, k: Key, a: real, b: real, mid: seq<Entry>)
    requires Wf(es) && mid == After(es, Spent(es, k, a))
    ensures var both, whole := Plus(Spent(es, k, a), Spent(mid, k, b)), Spent(es, k, a + b);
            Sum(both) == Sum(whole) <==> both == whole
  {
    var both, whole := Plus(Spent(es, k, a), Spent(mid, k, b)), Spent(es, k, a + b);
    BothInOrder(es, k, a, b, mid);
    SpentInOrder(es, k, a + b);
    SameSumIff(es, k, both, whole);
  }

  lemma SameSumIff(es: seq<Entry>, k: Key, x: seq<real>, y: seq<real>)
    requires InOrder(es, k, x) && InOrder(es, k, y)
    ensures Sum(x) == Sum(y) <==> x == y
  {
    if Sum(x) == Sum(y) {
      InOrderUnique(es, k, x, y);
    }
  }

  lemma BothInOrder(es: seq<Entry>, k: Key, a: real, b: real, mid: seq<Entry>)
    requires Wf(es) && mid == After(es, Spent(es, k, a))
    ensures InOrder(es, k, Plus(Spent(es, k, a), Spent(mid, k, b)))
  {
    SpentKeepsWf(es, k, a);
    SpentInOrder(es, k, a);
    SpentInOrder(mid, k, b);
    TwoInOrder(es, k, Spent(es, k, a), Spent(mid, k, b));
  }

  lemma SplitSums(es: seq<Entry>, k: Key, a: real, b: real, mid: seq<Entry>)
    requires |mid| == |es|
    ensures Sum(Plus(Spent(es, k, a), Spent(mid, k, b))) == Sum(Spent(es, k, a + b))
       <==> Undrawn(es, k, a) + Undrawn(mid, k, b) == Undrawn(es, k, a + b)
  {
    SumPlus(Spent(es, k, a), Spent(mid, k, b));
    SpentSum(es, k, a);
    SpentSum(mid, k, b);
    SpentSum(es, k, a + b);
  }

  /** The need left at each entry is nothing, or more than COVER_EPS. */
  predicate NoDust(es: seq<Entry>, k: Key, need: real) {
    && (need == 0.0 || need > COVER_EPS)
    && (es != [] ==> NoDust(es[1..], k, need - Head(es[0], k, need)))
  }

  /** Without dust, a spend draws all it can. */
  lemma {:induction false} UndrawnWithoutDust(es: seq<Entry>, k: Key, need: real)
    requires Wf(es) && 0.0 <= need && NoDust(es, k, need)
    ensures 0.0 <= Available(es, k)
    ensures Undrawn(es, k, need) == need - Min(need, Available(es, k))
  {
    if es != [] {
      assert es[0] in es;
      UndrawnWithoutDust(es[1..], k, need - Head(es[0], k, need));
    }
  }

  /** What `a` and then `b` leave undrawn, entry by entry. */
  function UndrawnTwo(es: seq<Entry>, k: Key, a: real, b: real): (real, real) {
    if es == [] then (a, b)
    else
      var h := Head(es[0], k, a);
      UndrawnTwo(es[1..], k, a - h, b - Head(Less(es[0], h), k, b))
  }

  function Less(e: Entry, drawn: real): Entry {
    e.(remaining := e.remaining - drawn)
  }

  lemma {:induction false} UndrawnTwoIs(es: seq<Entry>, k: Key, a: real, b: real)
    ensures UndrawnTwo(es, k, a, b) == (Undrawn(es, k, a), Undrawn(After(es, Spent(es, k, a)), k, b))
  {
    if es != [] {
      var h := Head(es[0], k, a);
      var mid := After(es[1..], Spent(es[1..], k, a - h));
      UndrawnTwoIs(es[1..], k, a - h, b - Head(Less(es[0], h), k, b));
      assert After(es, Spent(es, k, a)) == [Less(es[0], h)] + mid by {
        SpentHead(es, k, a, h);
        AfterCons(es, h, Spent(es[1..], k, a - h));
      }
      UndrawnCons(Less(es[0], h), mid, k, b);
    }
  }

  lemma UndrawnCons(e: Entry, es: seq<Entry>, k: Key, need: real)
    ensures Undrawn([e] + es, k, need) == Undrawn(es, k, need - Head(e, k, need))
  {
    assert ([e] + es)[1..] == es;
  }

  lemma {:induction false} UndrawnTwoNothing(es: seq<Entry>, k: Key, b: real)
    ensures UndrawnTwo(es, k, 0.0, b) == (0.0, Undrawn(es, k, b))
  {
    if es != [] {
      UndrawnTwoNothing(es[1..], k, b - Head(es[0], k, b));
    }
  }

  /** Without dust in the first part, they add up to what the whole leaves. */
  lemma {:induction false} UndrawnTwoAdds(es: seq<Entry>, k: Key, a: real, b: real)
    requires Wf(es) && 0.0 <= a && NoDust(es, k, a) && (b == 0.0 || b > COVER_EPS)
    ensures UndrawnTwo(es, k, a, b).0 + UndrawnTwo(es, k, a, b).1 == Undrawn(es, k, a + b)
    decreases es
  {
    if a == 0.0 {
      UndrawnTwoNothing(es, k, b);
    } else if es != [] {
      var h := Head(es[0], k, a);
      assert es[0] in es;
      HeadSplits(es[0], k, a, b, h, Less(es[0], h));
      if a == h {
        UndrawnTwoNothing(es[1..], k, b - Head(Less(es[0], h), k, b));
        assert a + b - Head(es[0], k, a + b) == b - Head(Less(es[0], h), k, b);
      } else {
        UndrawnTwoAdds(es[1..], k, a - h, b);
        assert a + b - h == a - h + b;
      }
    }
  }

  lemma AfterCons(es: seq<Entry>, head: real, d: seq<real>)
    requires |es| == |d| + 1
    ensures After(es, [head] + d) == [es[0].(remaining := es[0].remaining - head)] + After(es[1..], d)
  {
  }

  /** An entry that covers `a` gives both what is left of it to `b`; one that does
      not gives all it has. */
  lemma HeadSplits(e: Entry, k: Key, a: real, b: real, h: real, left: Entry)
    requires 0.0 <= e.remaining && COVER_EPS < a && (b == 0.0 || b > COVER_EPS)
    requires h == Head(e, k, a) && left == e.(remaining := e.remaining - h)
    ensures a == h ==> Head(e, k, a + b) == a + Head(left, k, b)
    ensures a != h ==> Head(e, k, a + b) == h && Head(left, k, b) == 0.0
  {
  }

  lemma SpentKeepsWf(es: seq<Entry>, k: Key, need: real)
    requires Wf(es)
    ensures Wf(After(es, Spent(es, k, need)))
  {
    SpentBounds(es, k, need);
    var left := After(es, Spent(es, k, need));
    forall e | e in left ensures Usable(e.fill) && 0.0 <= e.remaining <= e.fill.size {
      var i :| 0 <= i < |left| && left[i] == e;
      assert es[i] in es;
    }
  }

  // ----- The splitting law ------------------------------------------------

  /** When a take of `size` succeeds with `available` to draw on. */
  predicate Covers(available: real, size: real) {
    size > COVER_EPS && available >= size - Tolerance(size)
  }

  type Taker = (seq<Entry>, real) -> (Option<Summary>, seq<Entry>)

  /** Taking on one key, as a function of the ledger and the size. */
  function Taking(k: Key): Taker {
    (es: seq<Entry>, size: real) => if Wf(es) then Take(es, k, size) else (None, es)
  }

  /** A taker that succeeds exactly on coverage, and then spends. */
  ghost predicate Spends(take: Taker, k: Key) {
    forall es, size :: Wf(es) ==> SpendsAt(take(es, size), k, es, size)
  }

  predicate SpendsAt(r: (Option<Summary>, seq<Entry>), k: Key, es: seq<Entry>, size: real) {
    && (r.0.Some? <==> Covers(Available(es, k), size))
    && r.1 == if r.0.Some? then After(es, Spent(es, k, size)) else es
  }

  /** And books what leaves the ledger. */
  ghost predicate Conserves(take: Taker) {
    forall m, es, size, s, left :: take(es, size) == (Some(s), left) ==> Worth(m, s) == Gone(m, left) - Gone(m, es)
  }

  lemma TakingSpends(k: Key)
    ensures Spends(Taking(k), k)
  {
    forall es, size | Wf(es) ensures SpendsAt(Taking(k)(es, size), k, es, size) {
      TakeSucceedsIff(es, k, size);
      AvailableIsTotal(es, k);
    }
  }

  lemma TakingConserves(k: Key)
    ensures Conserves(Taking(k))
  {
    forall m, es, size, s, left | Taking(k)(es, size) == (Some(s), left)
      ensures Worth(m, s) == Gone(m, left) - Gone(m, es)
    {
      TakeConserves(m, es, k, size, s, left);
    }
  }

  /** `whole` is one take, `first` and `second` two: they succeed alike, and
      then leave the same ledger and book the same size, notional and fees. */
  predicate SplitsAlike(whole: (Option<Summary>, seq<Entry>), first: (Option<Summary>, seq<Entry>),
                        second: (Option<Summary>, seq<Entry>))
  {
    && (whole.0.Some? <==> first.0.Some? && second.0.Some?)
    && (whole.0.Some? ==>
          && whole.1 == second.1
          && forall m :: Worth(m, whole.0.value) == Worth(m, first.0.value) + Worth(m, second.0.value))
  }

  lemma SplitAmounts(take: Taker, es: seq<Entry>, a: real, b: real, m: Measure, s1: Summary, mid: seq<Entry>,
                     s2: Summary, left: seq<Entry>, s: Summary)
    requires Conserves(take)
    requires take(es, a) == (Some(s1), mid) && take(mid, b) == (Some(s2), left) && take(es, a + b) == (Some(s), left)
    ensures Worth(m, s) == Worth(m, s1) + Worth(m, s2)
  {
    assert Worth(m, s1) == Gone(m, mid) - Gone(m, es);
    assert Worth(m, s2) == Gone(m, left) - Gone(m, mid);
    assert Worth(m, s) == Gone(m, left) - Gone(m, es);
  }

  /** Both parts are covered, the second by what the first leaves. */
  predicate CoversParts(available: real, undrawn: real, a: real, b: real) {
    Covers(available, a) && Covers(available - (a - undrawn), b)
  }

  /** When a split is lawful: it covers the whole exactly when it covers both
      parts, and then one sweep over the ledger for both parts leaves as much
      undrawn as one for the whole. */
  predicate Splittable(es: seq<Entry>, k: Key, a: real, b: real) {
    var all, (first, second) := Available(es, k), UndrawnTwo(es, k, a, b);
    && (Covers(all, a + b) <==> CoversParts(all, first, a, b))
    && (Covers(all, a + b) ==> first + second == Undrawn(es, k, a + b))
  }

  lemma SecondCovers(es: seq<Entry>, k: Key, a: real, b: real)
    requires Wf(es)
    ensures Available(After(es, Spent(es, k, a)), k) == Available(es, k) - (a - Undrawn(es, k, a))
  {
    SpentInOrder(es, k, a);
    AvailableAfter(es, k, Spent(es, k, a));
    SpentSum(es, k, a);
  }

  lemma TakerSplitsIff(take: Taker, k: Key, es: seq<Entry>, a: real, b: real)
    requires Spends(take, k) && Conserves(take) && Wf(es)
    ensures SplitsAlike(take(es, a + b), take(es, a), take(take(es, a).1, b)) <==> Splittable(es, k, a, b)
  {
    var (r, whole) := take(es, a + b);
    var (r1, mid) := take(es, a);
    assert SpendsAt((r, whole), k, es, a + b) && SpendsAt((r1, mid), k, es, a);
    UndrawnTwoIs(es, k, a, b);
    if r1.Some? {
      SpentKeepsWf(es, k, a);
      SecondCovers(es, k, a, b);
      var (r2, left) := take(mid, b);
      assert SpendsAt((r2, left), k, mid, b);
      SplitLedgerIff(es, k, a, b, mid);
      if r.Some? && r2.Some? && whole == left {
        forall m ensures Worth(m, r.value) == Worth(m, r1.value) + Worth(m, r2.value) {
          SplitAmounts(take, es, a, b, m, r1.value, mid, r2.value, left, r.value);
        }
      }
    }
  }

  /** The splitting law, for every ledger and every two sizes: taking `a` and
      then `b` on one key succeeds exactly when taking `a + b` does, with the same
      ledger left and the same size, notional and fees booked, if and only if the
      tolerances cover the whole when they cover the parts and the remainders
      dropped below COVER_EPS add up. */
  lemma TakeSplitsIff(es: seq<Entry>, k: Key, a: real, b: real)
    requires Wf(es)
    ensures var take := Taking(k);
            SplitsAlike(take(es, a + b), take(es, a), take(take(es, a).1, b)) <==> Splittable(es, k, a, b)
  {
    TakingSpends(k);
    TakingConserves(k);
    TakerSplitsIff(Taking(k), k, es, a, b);
  }

  /** Where the first take drops no remainder, only the tolerances decide. */
  lemma TakeSplitsWithoutDust(es: seq<Entry>, k: Key, a: real, b: real)
    requires Wf(es) && a > COVER_EPS && b > COVER_EPS && NoDust(es, k, a)
    ensures var take, all := Taking(k), Available(es, k);
            SplitsAlike(take(es, a + b), take(es, a), take(take(es, a).1, b))
            <==> (all >= a + b - Tolerance(a + b)
                  <==> all >= a - Tolerance(a) && all - Min(a, all) >= b - Tolerance(b))
  {
    TakeSplitsIff(es, k, a, b);
    UndrawnWithoutDust(es, k, a);
    UndrawnTwoIs(es, k, a, b);
    UndrawnTwoAdds(es, k, a, b);
  }

  // ----- On exchange size steps -------------------------------------------

  function Lots(n: int, step: real): real {
    n as real * step
  }

  /** `x` is a whole number of exchange size steps. */
  ghost predicate OnGrid(x: real, step: real) {
    exists n: int :: x == Lots(n, step)
  }

  lemma GridSum(x: real, y: real, step: real)
    requires OnGrid(x, step) && OnGrid(y, step)
    ensures OnGrid(x - y, step) && OnGrid(x + y, step)
  {
    var m, n :| x == Lots(m, step) && y == Lots(n, step);
    assert x - y == Lots(m - n, step);
    assert x + y == Lots(m + n, step);
  }

  lemma GridGap(x: real, step: real)
    requires OnGrid(x, step) && 0.0 < step && 0.0 < x
    ensures step <= x
  {
    var n :| x == Lots(n, step);
    if n <= 0 {
      MulLe(n as real, 0.0, step);
    } else {
      MulLe(1.0, n as real, step);
    }
  }

  ghost predicate Gridded(es: seq<Entry>, step: real) {
    forall e :: e in es ==> OnGrid(e.remaining, step)
  }

  lemma {:induction false} GridHasNoDust(es: seq<Entry>, k: Key, need: real, step: real)
    requires Wf(es) && Gridded(es, step) && COVER_EPS < step && 0.0 <= need && OnGrid(need, step)
    ensures NoDust(es, k, need)
  {
    if need > 0.0 { GridGap(need, step); }
    if es != [] {
      assert es[0] in es;
      var h := Head(es[0], k, need);
      if h == 0.0 {
        assert need - h == need;
      } else {
        GridSum(need, h, step);
      }
      GridHasNoDust(es[1..], k, need - h, step);
    }
  }

  lemma {:induction false} GridAvailable(es: seq<Entry>, k: Key, step: real)
    requires Gridded(es, step)
    ensures OnGrid(Available(es, k), step)
  {
    if es == [] {
      assert 0.0 == Lots(0, step);
    } else {
      GridAvailable(es[1..], k, step);
      assert es[0] in es;
      GridSum(es[0].remaining, Available(es[1..], k), step);
    }
  }

  lemma GridCovers(available: real, size: real, step: real)
    requires OnGrid(available, step) && OnGrid(size, step) && 0.0 < size && Tolerance(size) < step
    ensures available >= size - Tolerance(size) <==> available >= size
  {
    if available < size {
      GridSum(size, available, step);
      GridGap(size - available, step);
    }
  }

  /** On sizes and remainders in whole steps coarser than the tolerance, every
      split is lawful. */
  lemma TakeSplitsOnGrid(es: seq<Entry>, k: Key, a: real, b: real, step: real)
    requires Wf(es) && Gridded(es, step) && Tolerance(a + b) < step
    requires 0.0 < a && 0.0 < b && OnGrid(a, step) && OnGrid(b, step)
    ensures var take := Taking(k); SplitsAlike(take(es, a + b), take(es, a), take(take(es, a).1, b))
  {
    var all := Available(es, k);
    GridSum(a, b, step);
    GridGap(a, step);
    GridGap(b, step);
    GridAvailable(es, k, step);
    GridCovers(all, a, step);
    GridCovers(all, a + b, step);
    GridHasNoDust(es, k, a, step);
    if all >= a {
      GridSum(all, a, step);
      GridCovers(all - a, b, step);
    }
    TakeSplitsWithoutDust(es, k, a, b);
  }

  // ----- Where it fails ---------------------------------------------------

  function Lot(size: real): Entry {
    Entry(Fill("BTC", Some(Sell), 0, 1.0, 0.0, size, None), size)
  }

  const BTC_LONG := Key("BTC", Long, None)

  /** One lot just short of 1000: its tolerance covers the whole, but not the one
      that is left after 999. */
  lemma ToleranceSplitsUnlike()
    ensures var es, take := [Lot(999.9999995)], Taking(BTC_LONG);
            take(es, 1000.0).0.Some? && take(es, 999.0).0.Some? && take(take(es, 999.0).1, 1.0).0.None?
  {
    TakingSpends(BTC_LONG);
    ToleranceTakes(Taking(BTC_LONG), [Lot(999.9999995)], [Lot(999.9999995).(remaining := 0.9999995)]);
  }

  lemma ToleranceTakes(take: Taker, es: seq<Entry>, mid: seq<Entry>)
    requires Spends(take, BTC_LONG)
    requires es == [Lot(999.9999995)] && mid == [Lot(999.9999995).(remaining := 0.9999995)]
    ensures take(es, 1000.0).0.Some? && take(es, 999.0).0.Some? && take(take(es, 999.0).1, 1.0).0.None?
  {
    assert SpendsAt(take(es, 1000.0), BTC_LONG, es, 1000.0) && SpendsAt(take(es, 999.0), BTC_LONG, es, 999.0);
    assert Available(es, BTC_LONG) == 999.9999995 && Spent(es, BTC_LONG, 999.0) == [999.0] by { assert es[1..] == []; }
    assert take(es, 999.0).1 == mid;
    assert Available(mid, BTC_LONG) == 0.9999995 by { assert mid[1..] == []; }
    assert SpendsAt(take(mid, 1.0), BTC_LONG, mid, 1.0);
  }

  /** Two lots of one: half a COVER_EPS beyond the first is dropped by a take of
      that size, but not by a take that goes on. All succeed, and the ledgers
      differ. */
  lemma DustSplitsUnlike()
    ensures var es, take, a := [Lot(1.0), Lot(1.0)], Taking(BTC_LONG), 1.0 + COVER_EPS / 2.0;
            && take(es, a + 0.5).0.Some? && take(es, a).0.Some? && take(take(es, a).1, 0.5).0.Some?
            && take(es, a + 0.5).1 != take(take(es, a).1, 0.5).1
  {
    TakingSpends(BTC_LONG);
    DustTakes(Taking(BTC_LONG), 1.0 + COVER_EPS / 2.0, [Lot(1.0), Lot(1.0)], [Lot(1.0).(remaining := 0.0), Lot(1.0)]);
  }

  lemma DustTakes(take: Taker, a: real, es: seq<Entry>, mid: seq<Entry>)
    requires Spends(take, BTC_LONG) && a == 1.0 + COVER_EPS / 2.0
    requires es == [Lot(1.0), Lot(1.0)] && mid == [Lot(1.0).(remaining := 0.0), Lot(1.0)]
    ensures take(es, a + 0.5).0.Some? && take(es, a).0.Some? && take(take(es, a).1, 0.5).0.Some?
    ensures take(es, a + 0.5).1 != take(take(es, a).1, 0.5).1
  {
    TwoLots(a);
    assert SpendsAt(take(es, a + 0.5), BTC_LONG, es, a + 0.5) && SpendsAt(take(es, a), BTC_LONG, es, a);
    assert take(es, a).1 == mid;
    assert SpendsAt(take(mid, 0.5), BTC_LONG, mid, 0.5);
    assert take(es, a + 0.5).1[1].remaining == 1.5 - a;
    assert take(mid, 0.5).1[1].remaining == 0.5;
  }

  lemma TwoLots(a: real)
    requires a == 1.0 + COVER_EPS / 2.0
    ensures var es := [Lot(1.0), Lot(1.0)];
            var mid := [Lot(1.0).(remaining := 0.0), Lot(1.0)];
            && Available(es, BTC_LONG) == 2.0 && Available(mid, BTC_LONG) == 1.0
            && Spent(es, BTC_LONG, a) == [1.0, 0.0] && After(es, [1.0, 0.0]) == mid
            && Spent(es, BTC_LONG, a + 0.5) == [1.0, a - 0.5] && Spent(mid, BTC_LONG, 0.5) == [0.0, 0.5]
  {
    var es := [Lot(1.0), Lot(1.0)];
    var mid := [Lot(1.0).(remaining := 0.0), Lot(1.0)];
    assert es[1..] == [Lot(1.0)] && mid[1..] == [Lot(1.0)] && [Lot(1.0)][1..] == [];
    SpentHead(es, BTC_LONG, a, 1.0);
    SpentHead(es, BTC_LONG, a + 0.5, 1.0);
    SpentHead(mid, BTC_LONG, 0.5, 0.0);
    assert Spent([Lot(1.0)], BTC_LONG, a - 1.0) == [0.0];
    assert Spent([Lot(1.0)], BTC_LONG, a - 0.5) == [a - 0.5];
    assert Spent([Lot(1.0)], BTC_LONG, 0.5) == [0.5];
  }
}
