/**
 Pricing closes from the exchange's own fills (bot/hypertrade/reconcile/fills.py).

 A ledger holds one pass's fills and lets every one of them be spent once. The
 value-level functions say what a spend does; `FillLedger` does it in place.
 */
module Fills {
  import opened Common

  /** Sizes up to this are treated as already covered. */
  const COVER_EPS: real := 0.000000000001
  /** Relative shortfall that still counts as full coverage. */
  const COVER_REL: real := 0.000000001

  /** One exchange fill; `side` is None when the raw side is not recognised. */
  datatype Fill = Fill(coin: string, side: Option<OrderSide>, timeMs: int,
                       price: real, fee: real, size: real, orderId: Option<string>)

  datatype Entry = Entry(fill: Fill, remaining: real)

  datatype Summary = Summary(price: real, size: real, fee: real, orderId: Option<string>)

  /** What a take asks for: fills closing a `side` position on `coin`. */
  datatype Key = Key(coin: string, side: Side, sinceMs: Option<int>)

  predicate Reduces(f: Fill, k: Key) {
    && f.coin == k.coin
    && f.side == Some(ClosingSide(k.side))
    && (k.sinceMs.Some? ==> f.timeMs >= k.sinceMs.value)
  }

  predicate Usable(f: Fill) {
    f.size > 0.0 && f.price > 0.0
  }

  predicate Admitted(f: Fill, excluded: set<string>) {
    f.orderId.None? || f.orderId.value !in excluded
  }

  predicate Candidate(e: Entry, k: Key) {
    Reduces(e.fill, k) && e.remaining > 0.0
  }

  /** Every entry holds between nothing and all of a usable fill. */
  predicate Wf(es: seq<Entry>) {
    forall e :: e in es ==> Usable(e.fill) && 0.0 <= e.remaining <= e.fill.size
  }

  // ----- Stable sort by time --------------------------------------------

  predicate Sorted(fs: seq<Fill>) {
    forall i, j :: 0 <= i < j < |fs| ==> fs[i].timeMs <= fs[j].timeMs
  }

  function Insert(fs: seq<Fill>, x: Fill): seq<Fill> {
    if fs == [] || x.timeMs < fs[0].timeMs then [x] + fs
    else [fs[0]] + Insert(fs[1..], x)
  }

  /** Python's `sort(key=time)`: stable, oldest first. */
  function Sort(fs: seq<Fill>): seq<Fill> {
    if fs == [] then [] else Insert(Sort(fs[..|fs| - 1]), fs[|fs| - 1])
  }

  lemma {:induction false} InsertMembers(fs: seq<Fill>, x: Fill)
    ensures multiset(Insert(fs, x)) == multiset(fs) + multiset{x}
    ensures forall y :: y in Insert(fs, x) ==> y == x || y in fs
  {
    if fs != [] && x.timeMs >= fs[0].timeMs {
      InsertMembers(fs[1..], x);
      MultisetCons(fs);
      assert Insert(fs, x)[1..] == Insert(fs[1..], x);
      MultisetCons(Insert(fs, x));
    }
  }

  lemma {:induction false} SortIsPermutation(fs: seq<Fill>)
    ensures multiset(Sort(fs)) == multiset(fs)
  {
    if fs != [] {
      SortIsPermutation(fs[..|fs| - 1]);
      InsertMembers(Sort(fs[..|fs| - 1]), fs[|fs| - 1]);
      MultisetSnoc(fs);
    }
  }

  lemma SortMember(fs: seq<Fill>, f: Fill)
    requires f in Sort(fs)
    ensures f in fs
  {
    SortIsPermutation(fs);
    assert f in multiset(Sort(fs));
  }

  lemma {:induction false} InsertSorted(fs: seq<Fill>, x: Fill)
    requires Sorted(fs)
    ensures Sorted(Insert(fs, x))
  {
    if fs != [] && x.timeMs >= fs[0].timeMs {
      InsertSorted(fs[1..], x);
      InsertMembers(fs[1..], x);
      var rest := Insert(fs[1..], x);
      forall j | 0 <= j < |rest| ensures fs[0].timeMs <= rest[j].timeMs {
        assert rest[j] in rest;
      }
    }
  }

  lemma {:induction false} SortSorted(fs: seq<Fill>)
    ensures Sorted(Sort(fs))
  {
    if fs != [] {
      SortSorted(fs[..|fs| - 1]);
      InsertSorted(Sort(fs[..|fs| - 1]), fs[|fs| - 1]);
    }
  }

  lemma {:induction false} InsertLast(fs: seq<Fill>, x: Fill)
    requires forall f :: f in fs ==> f.timeMs <= x.timeMs
    ensures Insert(fs, x) == fs + [x]
  {
    if fs != [] {
      InsertLast(fs[1..], x);
    }
  }

  lemma {:induction false} SortOfSorted(fs: seq<Fill>)
    requires Sorted(fs)
    ensures Sort(fs) == fs
  {
    if fs != [] {
      SortOfSorted(fs[..|fs| - 1]);
      InsertLast(fs[..|fs| - 1], fs[|fs| - 1]);
    }
  }

  lemma {:induction false} KeepInsert(fs: seq<Fill>, x: Fill, p: Fill -> bool)
    requires Sorted(fs)
    ensures Keep(Insert(fs, x), p) == if p(x) then Insert(Keep(fs, p), x) else Keep(fs, p)
  {
    if fs == [] {
    } else if x.timeMs < fs[0].timeMs {
      var kept := Keep(fs, p);
      assert kept != [] ==> kept[0] in kept && kept[0] in fs;
      assert ([x] + fs)[1..] == fs;
    } else {
      KeepInsert(fs[1..], x, p);
      var rest := Insert(fs[1..], x);
      assert ([fs[0]] + rest)[1..] == rest;
      if p(fs[0]) {
        assert ([fs[0]] + Keep(fs[1..], p))[1..] == Keep(fs[1..], p);
      } else if p(x) {
        var kept := Keep(fs, p);
        assert kept == Keep(fs[1..], p);
      }
    }
  }

  /** Sorting commutes with filtering: the sort is stable. */
  lemma {:induction false} SortCommutesWithKeep(fs: seq<Fill>, p: Fill -> bool)
    ensures Keep(Sort(fs), p) == Sort(Keep(fs, p))
  {
    if fs != [] {
      var init, x := fs[..|fs| - 1], fs[|fs| - 1];
      SortCommutesWithKeep(init, p);
      assert Sorted(Sort(init)) by { SortSorted(init); }
      assert Keep(fs, p) == if p(x) then Keep(init, p) + [x] else Keep(init, p) by {
        assert fs == init + [x];
        KeepSnoc(init, x, p);
      }
      InsertCommutes(Sort(init), Keep(init, p), x, p);
    }
  }

  lemma InsertCommutes(sorted: seq<Fill>, kept: seq<Fill>, x: Fill, p: Fill -> bool)
    requires Sorted(sorted) && Keep(sorted, p) == Sort(kept)
    ensures Keep(Insert(sorted, x), p) == Sort(if p(x) then kept + [x] else kept)
  {
    KeepInsert(sorted, x, p);
    SortSnoc(kept, x);
  }

  lemma KeepSnoc(fs: seq<Fill>, x: Fill, p: Fill -> bool)
    ensures Keep(fs + [x], p) == if p(x) then Keep(fs, p) + [x] else Keep(fs, p)
  {
    KeepAppend(fs, [x], p);
    assert [x][1..] == [];
  }

  lemma SortSnoc(fs: seq<Fill>, x: Fill)
    ensures Sort(fs + [x]) == Insert(Sort(fs), x)
  {
    assert (fs + [x])[..|fs|] == fs;
  }

  // ----- Spending --------------------------------------------------------

  function Total(es: seq<Entry>): real {
    if es == [] then 0.0 else es[0].remaining + Total(es[1..])
  }

  /** How much each entry gives up when `need` is drawn oldest first. */
  function Draw(es: seq<Entry>, need: real): (d: seq<real>)
    ensures |d| == |es|
  {
    if es == [] then []
    else if need <= COVER_EPS || es[0].remaining <= 0.0 then [0.0] + Draw(es[1..], need)
    else
      var take := Min(es[0].remaining, need);
      [take] + Draw(es[1..], need - take)
  }

  /** What conservation is stated about. */
  datatype Measure = InSize | InNotional | InFee

  /** How much one unit of a fill is worth. The fee of the whole fill is
      pro-rated. */
  function Rate(m: Measure, f: Fill): real {
    match m
    case InSize => 1.0
    case InNotional => f.price
    case InFee => if f.size == 0.0 then 0.0 else f.fee / f.size
  }

  /** What `x` of a fill is worth. */
  function Share(m: Measure, f: Fill, x: real): real {
    Rate(m, f) * x
  }

  /** The amounts taken from each entry, valued in `m` and added up. */
  function Tally(m: Measure, es: seq<Entry>, d: seq<real>): real
    requires |es| == |d|
  {
    if es == [] then 0.0 else Share(m, es[0].fill, d[0]) + Tally(m, es[1..], d[1..])
  }

  /** The first order id among the entries that gave something. */
  function FirstId(es: seq<Entry>, d: seq<real>): Option<string>
    requires |es| == |d|
  {
    if es == [] then None
    else if d[0] > 0.0 && es[0].fill.orderId.Some? then es[0].fill.orderId
    else FirstId(es[1..], d[1..])
  }

  function Average(total: real, over: real): (r: real)
    requires over > 0.0
    ensures r * over == total
  {
    total / over
  }

  function Tolerance(size: real): real {
    Max(size * COVER_REL, COVER_EPS)
  }

  /** The summary of drawing `size` from `es`: full coverage or nothing. */
  function Consume(es: seq<Entry>, size: real): Option<Summary>
    requires Wf(es)
  {
    if size <= 0.0 || Total(es) < size - Tolerance(size) then None
    else
      var d := Draw(es, size);
      var consumed := Tally(InSize, es, d);
      if consumed <= 0.0 then None
      else Some(Summary(Average(Tally(InNotional, es, d), consumed), consumed, Tally(InFee, es, d), FirstId(es, d)))
  }

  function Candidates(es: seq<Entry>, k: Key): seq<Entry> {
    Keep(es, (e: Entry) => Candidate(e, k))
  }

  /** How much each ledger entry gives up in a successful take. */
  function Spent(es: seq<Entry>, k: Key, need: real): (d: seq<real>)
    ensures |d| == |es|
  {
    if es == [] then []
    else if need <= COVER_EPS || !Candidate(es[0], k) then [0.0] + Spent(es[1..], k, need)
    else
      var take := Min(es[0].remaining, need);
      [take] + Spent(es[1..], k, need - take)
  }

  function After(es: seq<Entry>, d: seq<real>): (r: seq<Entry>)
    requires |es| == |d|
    ensures |r| == |es|
    ensures forall i :: 0 <= i < |es| ==> r[i] == es[i].(remaining := es[i].remaining - d[i])
  {
    seq(|es|, i requires 0 <= i < |es| => es[i].(remaining := es[i].remaining - d[i]))
  }

  function Take(es: seq<Entry>, k: Key, size: real): (Option<Summary>, seq<Entry>)
    requires Wf(es)
  {
    var r := Consume(Candidates(es, k), size);
    (r, if r.Some? then After(es, Spent(es, k, size)) else es)
  }

  function Fresh(fs: seq<Fill>): (r: seq<Entry>)
    ensures |r| == |fs| && forall i :: 0 <= i < |fs| ==> r[i] == Entry(fs[i], fs[i].size)
  {
    seq(|fs|, i requires 0 <= i < |fs| => Entry(fs[i], fs[i].size))
  }

  function Parse(fs: seq<Fill>): (r: seq<Entry>)
    ensures Wf(r)
  {
    var all := Fresh(Sort(Keep(fs, Usable)));
    assert Wf(all) by {
      forall e | e in all ensures Usable(e.fill) && 0.0 <= e.remaining <= e.fill.size {
        SortMember(Keep(fs, Usable), e.fill);
      }
    }
    all
  }

  function Unexcluded(es: seq<Entry>, excluded: set<string>): seq<Entry> {
    Keep(es, (e: Entry) => Admitted(e.fill, excluded))
  }

  function Ledger(fs: seq<Fill>, excluded: set<string>): (r: seq<Entry>)
    ensures Wf(r)
  {
    Unexcluded(Parse(fs), excluded)
  }

  /** `select_closing_fills`: matching, not yet booked, oldest first. */
  function Select(fs: seq<Fill>, k: Key, excluded: set<string>): seq<Fill> {
    Sort(Keep(fs, (f: Fill) => Reduces(f, k) && Admitted(f, excluded)))
  }

  // ----- What a draw does ------------------------------------------------

  /** A draw takes from each entry at most what it has, as much in all as
      is asked for and there (give or take COVER_EPS), and touches an entry
      only after every earlier one is drained. */
  lemma DrawBounds(es: seq<Entry>, need: real)
    requires forall e :: e in es ==> 0.0 <= e.remaining
    ensures var d := Draw(es, need); var sum := Tally(InSize, es, d);
            && (forall i :: 0 <= i < |es| ==> 0.0 <= d[i] <= es[i].remaining)
            && 0.0 <= sum <= Total(es)
            && sum <= Max(need, 0.0)
            && sum >= Min(Total(es), need - COVER_EPS)
            && (forall i, j :: 0 <= i < j < |es| && d[j] > 0.0 ==> d[i] == es[i].remaining)
            && (need <= COVER_EPS ==> sum == 0.0)
  {
    DrawSums(es, need);
    DrawInOrder(es, need);
  }

  /** What the first entry of a draw gives. */
  function Given(e: Entry, need: real): real {
    if need <= COVER_EPS || e.remaining <= 0.0 then 0.0 else Min(e.remaining, need)
  }

  lemma DrawHead(es: seq<Entry>, need: real, g: real)
    requires es != [] && g == Given(es[0], need)
    ensures Draw(es, need) == [g] + Draw(es[1..], need - g)
  {
  }

  lemma TallyHead(es: seq<Entry>, g: real, d: seq<real>)
    requires |es| == |d| + 1
    ensures Tally(InSize, es, [g] + d) == g + Tally(InSize, es[1..], d)
  {
    assert ([g] + d)[1..] == d;
  }

  lemma {:induction false} DrawSums(es: seq<Entry>, need: real)
    requires forall e :: e in es ==> 0.0 <= e.remaining
    ensures var sum := Tally(InSize, es, Draw(es, need));
            && 0.0 <= sum <= Total(es) && sum <= Max(need, 0.0) && sum >= Min(Total(es), need - COVER_EPS)
            && (need <= COVER_EPS ==> sum == 0.0)
  {
    if es != [] {
      var g := Given(es[0], need);
      assert es[0] in es;
      DrawHead(es, need, g);
      TallyHead(es, g, Draw(es[1..], need - g));
      DrawSums(es[1..], need - g);
    }
  }

  /** From each entry at most what it has, and nothing while an earlier one has
      some left. */
  predicate GivesInOrder(es: seq<Entry>, d: seq<real>) {
    && |d| == |es|
    && (forall i :: 0 <= i < |es| ==> 0.0 <= d[i] <= es[i].remaining)
    && (forall i, j :: 0 <= i < j < |es| && d[j] > 0.0 ==> d[i] == es[i].remaining)
  }

  lemma {:induction false} DrawInOrder(es: seq<Entry>, need: real)
    requires forall e :: e in es ==> 0.0 <= e.remaining
    ensures GivesInOrder(es, Draw(es, need))
  {
    if es != [] {
      var g := Given(es[0], need);
      assert es[0] in es;
      DrawHead(es, need, g);
      DrawInOrder(es[1..], need - g);
      if g != es[0].remaining {
        DrawsNothing(es[1..], need - g);
      }
      GivesCons(es, g, Draw(es[1..], need - g));
    }
  }

  lemma {:induction false} DrawsNothing(es: seq<Entry>, need: real)
    requires need <= COVER_EPS
    ensures forall i :: 0 <= i < |es| ==> Draw(es, need)[i] == 0.0
  {
    if es != [] {
      DrawHead(es, need, 0.0);
      DrawsNothing(es[1..], need);
    }
  }

  lemma GivesCons(es: seq<Entry>, g: real, d: seq<real>)
    requires es != [] && 0.0 <= g <= es[0].remaining && GivesInOrder(es[1..], d)
    requires g != es[0].remaining ==> forall i :: 0 <= i < |d| ==> d[i] == 0.0
    ensures GivesInOrder(es, [g] + d)
  {
  }

  /** Coverage is all or nothing, and this is exactly when it is "all". */
  lemma TakeSucceedsIff(es: seq<Entry>, k: Key, size: real)
    requires Wf(es)
    ensures Take(es, k, size).0.Some?
       <==> size > COVER_EPS && Total(Candidates(es, k)) >= size - Tolerance(size)
  {
    var cs := Candidates(es, k);
    DrawBounds(cs, size);
    if size > COVER_EPS {
      assert Tolerance(size) < size;
    }
  }

  /** A weighted total lies between the extremes of what it weighs. */
  lemma {:induction false} NotionalBounds(es: seq<Entry>, d: seq<real>, lo: real, hi: real, units: real, total: real)
    requires |es| == |d| && forall i :: 0 <= i < |d| ==> 0.0 <= d[i]
    requires forall i :: 0 <= i < |d| && d[i] > 0.0 ==> lo <= es[i].fill.price <= hi
    requires units == Tally(InSize, es, d) && total == Tally(InNotional, es, d)
    ensures lo * units <= total <= hi * units
  {
    if es != [] {
      var u, t := Tally(InSize, es[1..], d[1..]), Tally(InNotional, es[1..], d[1..]);
      assert units == 1.0 * d[0] + u && total == es[0].fill.price * d[0] + t;
      assert lo * u <= t <= hi * u by { NotionalBounds(es[1..], d[1..], lo, hi, u, t); }
      BoundsStep(lo, es[0].fill.price, hi, d[0], u, t);
    }
  }

  lemma BoundsStep(lo: real, p: real, hi: real, x: real, s: real, c: real)
    requires 0.0 <= x && (x > 0.0 ==> lo <= p <= hi) && lo * s <= c <= hi * s
    ensures lo * (1.0 * x + s) <= p * x + c <= hi * (1.0 * x + s)
  {
    Distribute(lo, x, s);
    Distribute(hi, x, s);
    if x > 0.0 {
      MulLe(lo, p, x);
      MulLe(p, hi, x);
    }
  }

  lemma MulLe(a: real, b: real, x: real)
    requires a <= b && 0.0 <= x
    ensures a * x <= b * x
  {
  }

  lemma Within(lo: real, p: real, hi: real, size: real, total: real)
    requires 0.0 < size && lo * size <= total <= hi * size && p * size == total
    ensures lo <= p <= hi
  {
  }

  function Worth(m: Measure, s: Summary): real {
    match m
    case InSize => s.size
    case InNotional => s.price * s.size
    case InFee => s.fee
  }

  /** `s` adds up what `d` takes from `es`. */
  predicate Describes(s: Summary, es: seq<Entry>, d: seq<real>)
    requires |es| == |d|
  {
    && 0.0 < s.size == Tally(InSize, es, d) && s.fee == Tally(InFee, es, d)
    && s.price == Average(Tally(InNotional, es, d), s.size)
  }

  lemma SummaryDescribes(es: seq<Entry>, size: real, d: seq<real>, s: Summary)
    requires Wf(es) && Consume(es, size) == Some(s) && d == Draw(es, size)
    ensures Describes(s, es, d)
  {
  }

  lemma WorthOf(s: Summary, units: real, notional: real, fees: real)
    requires 0.0 < units == s.size && s.fee == fees && s.price == Average(notional, units)
    ensures Worth(InSize, s) == units && Worth(InNotional, s) == notional && Worth(InFee, s) == fees
  {
  }

  lemma DescribedWorth(m: Measure, s: Summary, es: seq<Entry>, d: seq<real>)
    requires |es| == |d| && Describes(s, es, d)
    ensures Worth(m, s) == Tally(m, es, d)
  {
    WorthOf(s, s.size, Tally(InNotional, es, d), s.fee);
  }

  /** What a summary says about the draw behind it. */
  lemma SummaryIsDraw(m: Measure, es: seq<Entry>, size: real, d: seq<real>, s: Summary)
    requires Wf(es) && Consume(es, size) == Some(s) && d == Draw(es, size)
    ensures Worth(m, s) == Tally(m, es, d)
  {
    SummaryDescribes(es, size, d, s);
    DescribedWorth(m, s, es, d);
  }

  /** The size of a summary is within tolerance of the request. */
  lemma SummarySize(es: seq<Entry>, size: real, s: Summary)
    requires Wf(es) && Consume(es, size) == Some(s)
    ensures size - Tolerance(size) <= s.size <= size
  {
    DrawBounds(es, size);
    SummaryDescribes(es, size, Draw(es, size), s);
  }

  lemma DrawNonneg(es: seq<Entry>, need: real, d: seq<real>)
    requires Wf(es) && d == Draw(es, need)
    ensures forall i :: 0 <= i < |d| ==> 0.0 <= d[i]
  {
    DrawBounds(es, need);
  }

  /** The price of a summary lies between the cheapest and the dearest fill
      it used. */
  lemma SummaryPrice(es: seq<Entry>, size: real, d: seq<real>, s: Summary, lo: real, hi: real)
    requires Wf(es) && Consume(es, size) == Some(s) && d == Draw(es, size)
    requires forall i :: 0 <= i < |es| && d[i] > 0.0 ==> lo <= es[i].fill.price <= hi
    ensures lo <= s.price <= hi
  {
    DrawNonneg(es, size, d);
    SummaryDescribes(es, size, d, s);
    DescribedPrice(es, d, s, lo, hi);
  }

  lemma DescribedPrice(es: seq<Entry>, d: seq<real>, s: Summary, lo: real, hi: real)
    requires |es| == |d| && Describes(s, es, d) && forall i :: 0 <= i < |d| ==> 0.0 <= d[i]
    requires forall i :: 0 <= i < |d| && d[i] > 0.0 ==> lo <= es[i].fill.price <= hi
    ensures lo <= s.price <= hi
  {
    WorthOf(s, s.size, Tally(InNotional, es, d), s.fee);
    PriceBounds(es, d, s.price, s.size, Tally(InNotional, es, d), lo, hi);
  }

  lemma PriceBounds(es: seq<Entry>, d: seq<real>, price: real, size: real, total: real, lo: real, hi: real)
    requires |es| == |d| && forall i :: 0 <= i < |d| ==> 0.0 <= d[i]
    requires forall i :: 0 <= i < |d| && d[i] > 0.0 ==> lo <= es[i].fill.price <= hi
    requires 0.0 < size == Tally(InSize, es, d) && price * size == total == Tally(InNotional, es, d)
    ensures lo <= price <= hi
  {
    NotionalBounds(es, d, lo, hi, size, total);
    Within(lo, price, hi, size, total);
  }

  // ----- The ledger sees the draw on its candidates ----------------------

  // What the first entry gives, to the ledger's draw and to its candidates'.

  predicate GivesFirst(e: Entry, k: Key, need: real, head: real) {
    head == if need <= COVER_EPS || !Candidate(e, k) then 0.0 else Min(e.remaining, need)
  }

  lemma SpentFirst(es: seq<Entry>, k: Key, need: real, head: real)
    requires es != [] && GivesFirst(es[0], k, need, head)
    ensures Spent(es, k, need) == [head] + Spent(es[1..], k, need - head)
  {
  }

  lemma CandidatesFirst(es: seq<Entry>, k: Key)
    requires es != []
    ensures Candidates(es, k) == (if Candidate(es[0], k) then [es[0]] else []) + Candidates(es[1..], k)
  {
  }

  lemma DrawFirst(es: seq<Entry>, k: Key, need: real, head: real)
    requires es != [] && GivesFirst(es[0], k, need, head)
    ensures Candidate(es[0], k) ==> Draw(Candidates(es, k), need) == [head] + Draw(Candidates(es[1..], k), need - head)
  {
    if Candidate(es[0], k) {
      CandidatesFirst(es, k);
      DrawCons(es[0], Candidates(es[1..], k), need, head);
    }
  }

  lemma DrawCons(e: Entry, es: seq<Entry>, need: real, head: real)
    requires e.remaining > 0.0 && head == if need <= COVER_EPS then 0.0 else Min(e.remaining, need)
    ensures Draw([e] + es, need) == [head] + Draw(es, need - head)
  {
    assert ([e] + es)[1..] == es;
  }

  /** `c` gives the candidates `cs` of a ledger what `d` gives all its entries,
      and `d` gives no other entry anything. */
  ghost predicate Spreads(es: seq<Entry>, k: Key, d: seq<real>, cs: seq<Entry>, c: seq<real>)
    requires |es| == |d| && |cs| == |c|
  {
    if es == [] then cs == []
    else if Candidate(es[0], k) then
      cs != [] && cs[0] == es[0] && c[0] == d[0] && Spreads(es[1..], k, d[1..], cs[1..], c[1..])
    else d[0] == 0.0 && Spreads(es[1..], k, d[1..], cs, c)
  }

  lemma SpreadsCons(e: Entry, es: seq<Entry>, k: Key, head: real, d: seq<real>, cs: seq<Entry>, c: seq<real>)
    requires |es| == |d| && |cs| == |c| && Spreads(es, k, d, cs, c)
    ensures Candidate(e, k) ==> Spreads([e] + es, k, [head] + d, [e] + cs, [head] + c)
    ensures !Candidate(e, k) && head == 0.0 ==> Spreads([e] + es, k, [head] + d, cs, c)
  {
    assert ([e] + es)[1..] == es && ([head] + d)[1..] == d && ([e] + cs)[1..] == cs && ([head] + c)[1..] == c;
  }

  /** Spending on the whole ledger draws on its candidates. */
  lemma {:induction false} SpentSpreads(es: seq<Entry>, k: Key, need: real)
    ensures Spreads(es, k, Spent(es, k, need), Candidates(es, k), Draw(Candidates(es, k), need))
  {
    if es != [] {
      var e, rest := es[0], es[1..];
      var head := if need <= COVER_EPS || !Candidate(e, k) then 0.0 else Min(e.remaining, need);
      SpentFirst(es, k, need, head);
      CandidatesFirst(es, k);
      DrawFirst(es, k, need, head);
      SpentSpreads(rest, k, need - head);
      SpreadsCons(e, rest, k, head, Spent(rest, k, need - head), Candidates(rest, k),
                  Draw(Candidates(rest, k), need - head));
      assert es == [e] + rest;
    }
  }

  /** Both add up to the same. */
  lemma SpentIsDraw(m: Measure, es: seq<Entry>, k: Key, need: real)
    ensures var cs := Candidates(es, k);
            Tally(m, es, Spent(es, k, need)) == Tally(m, cs, Draw(cs, need))
  {
    SpentSpreads(es, k, need);
    SpreadsTally(m, es, k, Spent(es, k, need), Candidates(es, k), Draw(Candidates(es, k), need));
  }

  lemma {:induction false} SpreadsTally(m: Measure, es: seq<Entry>, k: Key, d: seq<real>, cs: seq<Entry>, c: seq<real>)
    requires |es| == |d| && |cs| == |c| && Spreads(es, k, d, cs, c)
    ensures Tally(m, es, d) == Tally(m, cs, c)
    decreases es
  {
    if es != [] {
      if Candidate(es[0], k) {
        SpreadsTally(m, es[1..], k, d[1..], cs[1..], c[1..]);
      } else {
        SpreadsTally(m, es[1..], k, d[1..], cs, c);
      }
    }
  }

  lemma {:induction false} SpentBounds(es: seq<Entry>, k: Key, need: real)
    requires Wf(es)
    ensures var s := Spent(es, k, need);
            forall i :: 0 <= i < |es| ==>
              && 0.0 <= s[i] <= es[i].remaining
              && (s[i] != 0.0 ==> Reduces(es[i].fill, k))
  {
    if es != [] {
      var s := Spent(es, k, need);
      var next := if need <= COVER_EPS || !Candidate(es[0], k) then need
                  else need - Min(es[0].remaining, need);
      SpentBounds(es[1..], k, next);
      assert s[1..] == Spent(es[1..], k, next);
      assert forall i :: 0 < i < |es| ==> s[i] == s[1..][i - 1] && es[i] == es[1..][i - 1];
    }
  }

  lemma TakeKeepsWf(es: seq<Entry>, k: Key, size: real)
    requires Wf(es)
    ensures var r := Take(es, k, size);
            && Wf(r.1) && |r.1| == |es|
            && (forall i :: 0 <= i < |es| ==>
                  r.1[i].fill == es[i].fill && r.1[i].remaining <= es[i].remaining)
  {
    SpentBounds(es, k, size);
    var left := Take(es, k, size).1;
    forall e | e in left ensures Usable(e.fill) && 0.0 <= e.remaining <= e.fill.size {
      var i :| 0 <= i < |left| && left[i] == e;
      assert es[i] in es;
    }
  }

  // ----- Conservation over any sequence of takes -------------------------

  datatype Request = Request(key: Key, size: real)

  /** Spend the requests in order; the ledger left and the summaries given. */
  function TakeAll(es: seq<Entry>, rs: seq<Request>): (seq<Entry>, seq<Summary>)
    requires Wf(es)
    decreases rs
  {
    if rs == [] then (es, [])
    else
      var (r, next) := Take(es, rs[0].key, rs[0].size);
      assert Wf(next) by { TakeKeepsWf(es, rs[0].key, rs[0].size); }
      var (left, later) := TakeAll(next, rs[1..]);
      (left, (if r.Some? then [r.value] else []) + later)
  }

  /** The summaries handed out, valued in `m` and added up. */
  function Booked(m: Measure, ss: seq<Summary>): real {
    if ss == [] then 0.0 else Worth(m, ss[0]) + Booked(m, ss[1..])
  }

  /** What has left the ledger so far, valued in `m`. */
  function Gone(m: Measure, es: seq<Entry>): real {
    if es == [] then 0.0
    else Rate(m, es[0].fill) * (es[0].fill.size - es[0].remaining) + Gone(m, es[1..])
  }

  /** Drawing `d` adds exactly its own value to what is gone. */
  lemma {:induction false} GoneGrows(m: Measure, es: seq<Entry>, d: seq<real>)
    requires |es| == |d|
    ensures Gone(m, After(es, d)) == Gone(m, es) + Tally(m, es, d)
  {
    if es != [] {
      GoneGrows(m, es[1..], d[1..]);
      assert After(es, d)[1..] == After(es[1..], d[1..]);
      Distribute(Rate(m, es[0].fill), es[0].fill.size - es[0].remaining, d[0]);
    }
  }

  lemma Distribute(r: real, a: real, b: real)
    ensures r * (a + b) == r * a + r * b
  {
  }

  /** One take books exactly what leaves the ledger. */
  lemma TakeConserves(m: Measure, es: seq<Entry>, k: Key, size: real, s: Summary, left: seq<Entry>)
    requires Wf(es) && Take(es, k, size) == (Some(s), left)
    ensures Worth(m, s) == Gone(m, left) - Gone(m, es)
  {
    var cs := Candidates(es, k);
    SummaryIsDraw(m, cs, size, Draw(cs, size), s);
    GoneGrows(m, es, Spent(es, k, size));
    SpentIsDraw(m, es, k, size);
  }

  lemma {:induction false} TakesKeepWf(es: seq<Entry>, rs: seq<Request>)
    requires Wf(es)
    ensures var left := TakeAll(es, rs).0;
            && |left| == |es| && Wf(left)
            && forall i :: 0 <= i < |es| ==>
                 left[i].fill == es[i].fill && left[i].remaining <= es[i].remaining
    decreases rs
  {
    if rs != [] {
      TakeKeepsWf(es, rs[0].key, rs[0].size);
      TakesKeepWf(Take(es, rs[0].key, rs[0].size).1, rs[1..]);
    }
  }

  /** Conservation over any run of takes on one ledger: the size, notional
      and fees booked are what left it, so nothing is spent twice. */
  lemma {:induction false} TakesConserve(m: Measure, es: seq<Entry>, rs: seq<Request>)
    requires Wf(es)
    ensures var (left, ss) := TakeAll(es, rs);
            Booked(m, ss) == Gone(m, left) - Gone(m, es)
    decreases rs
  {
    if rs != [] {
      var (r, next) := Take(es, rs[0].key, rs[0].size);
      TakeKeepsWf(es, rs[0].key, rs[0].size);
      TakesConserve(m, next, rs[1..]);
      BookedCons(m, r, TakeAll(next, rs[1..]).1);
      OneTakeConserves(m, es, rs[0], r, next);
    }
  }

  function TakenWorth(m: Measure, r: Option<Summary>): real {
    if r.Some? then Worth(m, r.value) else 0.0
  }

  lemma BookedCons(m: Measure, r: Option<Summary>, later: seq<Summary>)
    ensures Booked(m, (if r.Some? then [r.value] else []) + later) == TakenWorth(m, r) + Booked(m, later)
  {
    if r.Some? {
      assert ([r.value] + later)[1..] == later;
    } else {
      assert [] + later == later;
    }
  }

  lemma OneTakeConserves(m: Measure, es: seq<Entry>, request: Request, r: Option<Summary>, next: seq<Entry>)
    requires Wf(es) && Take(es, request.key, request.size) == (r, next)
    ensures TakenWorth(m, r) == Gone(m, next) - Gone(m, es)
  {
    if r.Some? {
      TakeConserves(m, es, request.key, request.size, r.value, next);
    }
  }

  /** What the successful takes of a run draw from one entry. */
  function DrawnFrom(es: seq<Entry>, rs: seq<Request>, i: nat): real
    requires Wf(es) && i < |es|
    decreases rs
  {
    if rs == [] then 0.0
    else
      var (r, next) := Take(es, rs[0].key, rs[0].size);
      assert Wf(next) && |next| == |es| by { TakeKeepsWf(es, rs[0].key, rs[0].size); }
      (if r.Some? then Spent(es, rs[0].key, rs[0].size)[i] else 0.0) + DrawnFrom(next, rs[1..], i)
  }

  /** Fill by fill, what is missing of it is what the takes drew from it, and
      never more than there was. */
  lemma {:induction false} TakesPerFill(es: seq<Entry>, rs: seq<Request>, i: nat)
    requires Wf(es) && i < |es|
    ensures |TakeAll(es, rs).0| == |es| && TakeAll(es, rs).0[i].fill == es[i].fill
    ensures es[i].remaining - TakeAll(es, rs).0[i].remaining == DrawnFrom(es, rs, i)
    ensures 0.0 <= DrawnFrom(es, rs, i) <= es[i].remaining
    decreases rs
  {
    if rs == [] {
      assert es[i] in es;
    } else {
      TakeKeepsWf(es, rs[0].key, rs[0].size);
      SpentBounds(es, rs[0].key, rs[0].size);
      TakesPerFill(Take(es, rs[0].key, rs[0].size).1, rs[1..], i);
    }
  }

  /** From a fresh ledger: nothing excluded is ever spent, no fill gives more
      than its size, and what is booked is each fill's own price and
      pro-rated fee over what was spent of it. */
  lemma FreshLedgerConserves(m: Measure, fs: seq<Fill>, excluded: set<string>, rs: seq<Request>)
    ensures var (left, ss) := TakeAll(Ledger(fs, excluded), rs);
            && Wf(left)
            && Booked(m, ss) == Gone(m, left)
            && forall e :: e in left ==> Admitted(e.fill, excluded) && e.fill in fs
  {
    var es := Ledger(fs, excluded);
    TakesKeepWf(es, rs);
    TakesConserve(m, es, rs);
    var left := TakeAll(es, rs).0;
    forall e | e in es ensures e.fill in fs && e.remaining == e.fill.size {
      LedgerMember(fs, excluded, e);
    }
    NothingGone(m, es);
    forall e | e in left ensures Admitted(e.fill, excluded) && e.fill in fs {
      var i :| 0 <= i < |left| && left[i] == e;
      assert es[i] in es;
    }
  }

  lemma LedgerMember(fs: seq<Fill>, excluded: set<string>, e: Entry)
    requires e in Ledger(fs, excluded)
    ensures e.fill in fs && e.remaining == e.fill.size
  {
    var us := Keep(fs, Usable);
    assert e in Fresh(Sort(us));
    SortMember(us, e.fill);
  }

  lemma {:induction false} NothingGone(m: Measure, es: seq<Entry>)
    requires forall e :: e in es ==> e.remaining == e.fill.size
    ensures Gone(m, es) == 0.0
  {
    if es != [] {
      NothingGone(m, es[1..]);
      assert es[0] in es;
    }
  }
}
