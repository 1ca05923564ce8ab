/**
 The ledger as an object: entries are decremented in place
 (bot/hypertrade/reconcile/fills.py).
 */
module FillLedgers {
  import opened Common
  import opened Fills

  class LedgerEntry {
    const fill: Fill
    var remaining: real

    constructor (fill: Fill)
      ensures this.fill == fill && remaining == fill.size
    {
      this.fill := fill;
      remaining := fill.size;
    }
  }

  ghost predicate Distinct(es: seq<LedgerEntry>) {
    forall i, j :: 0 <= i < j < |es| ==> es[i] != es[j]
  }

  ghost function Values(es: seq<LedgerEntry>): (r: seq<Entry>)
    reads es
    ensures |r| == |es|
    ensures forall i :: 0 <= i < |es| ==> r[i] == Entry(es[i].fill, es[i].remaining)
  {
    seq(|es|, i requires 0 <= i < |es| reads es => Entry(es[i].fill, es[i].remaining))
  }

  lemma ValuesSnoc(es: seq<LedgerEntry>, e: LedgerEntry)
    ensures Values(es + [e]) == Values(es) + [Entry(e.fill, e.remaining)]
  {
  }

  lemma {:induction false} DrawNothing(m: Measure, es: seq<Entry>, need: real)
    requires need <= COVER_EPS
    ensures forall i :: 0 <= i < |es| ==> Draw(es, need)[i] == 0.0
    ensures Tally(m, es, Draw(es, need)) == 0.0
    ensures FirstId(es, Draw(es, need)) == None
  {
    if es != [] {
      DrawNothing(m, es[1..], need);
      assert Draw(es, need)[1..] == Draw(es[1..], need);
    }
  }

  function Cost(f: Fill, take: real): real {
    f.price * take
  }

  /** The fee of the whole fill, pro-rated to what is taken of it. */
  function FeeShare(f: Fill, take: real): real
    requires f.size != 0.0
  {
    f.fee * (take / f.size)
  }

  lemma ProRata(f: Fill, take: real)
    requires f.size != 0.0
    ensures FeeShare(f, take) == Rate(InFee, f) * take && Cost(f, take) == Rate(InNotional, f) * take
  {
    assert f.fee * (take / f.size) == f.fee / f.size * take;
  }

  /** What a draw adds up to. */
  datatype Sums = Sums(notional: real, consumed: real, fees: real, orderId: Option<string>)

  ghost function SumsOf(es: seq<Entry>, d: seq<real>): Sums
    requires |es| == |d|
  {
    Sums(Tally(InNotional, es, d), Tally(InSize, es, d), Tally(InFee, es, d), FirstId(es, d))
  }

  /** The sums done so far and the sums still to come make up `whole`. */
  predicate MakesUp(done: Sums, rest: Sums, whole: Sums) {
    && done.notional + rest.notional == whole.notional
    && done.consumed + rest.consumed == whole.consumed
    && done.fees + rest.fees == whole.fees
    && (if done.orderId.Some? then done.orderId else rest.orderId) == whole.orderId
  }

  /** The state of the drawing loop at entry `i`: `need` is to come. */
  ghost predicate Drawing(vals: seq<Entry>, d: seq<real>, i: nat, need: real, done: Sums, whole: Sums) {
    && i <= |vals| == |d|
    && d[i..] == Draw(vals[i..], need)
    && MakesUp(done, SumsOf(vals[i..], d[i..]), whole)
  }

  lemma DrawingStep(vals: seq<Entry>, d: seq<real>, i: nat, need: real, done: Sums, whole: Sums,
                    f: Fill, take: real, cost: real, fee: real)
    requires Drawing(vals, d, i, need, done, whole) && i < |vals|
    requires f == vals[i].fill && f.size != 0.0
    requires take == Given(vals[i], need) && cost == Cost(f, take) && fee == FeeShare(f, take)
    ensures d[i] == take
    ensures Drawing(vals, d, i + 1, need - take,
                    Sums(done.notional + cost, done.consumed + take, done.fees + fee,
                         if done.orderId.None? && take > 0.0 then f.orderId else done.orderId), whole)
  {
    ProRata(f, take);
    SumsStep(vals[i..], d[i..], f, take, cost, fee);
    assert vals[i..][1..] == vals[i + 1..] && d[i..][1..] == d[i + 1..];
  }

  lemma DrawingSkip(vals: seq<Entry>, d: seq<real>, i: nat, need: real, done: Sums, whole: Sums)
    requires Drawing(vals, d, i, need, done, whole) && i < |vals|
    requires vals[i].remaining <= 0.0 && vals[i].fill.size != 0.0
    ensures d[i] == 0.0 && Drawing(vals, d, i + 1, need, done, whole)
  {
    DrawingStep(vals, d, i, need, done, whole, vals[i].fill, 0.0, 0.0, 0.0);
  }

  lemma SumsStep(es: seq<Entry>, d: seq<real>, f: Fill, take: real, cost: real, fee: real)
    requires |es| == |d| > 0 && es[0].fill == f && d[0] == take
    requires cost == Rate(InNotional, f) * take && fee == Rate(InFee, f) * take
    ensures var rest := SumsOf(es[1..], d[1..]);
            SumsOf(es, d) == Sums(cost + rest.notional, take + rest.consumed, fee + rest.fees,
                                  if take > 0.0 && f.orderId.Some? then f.orderId else rest.orderId)
  {
  }

  lemma DrawingDone(vals: seq<Entry>, d: seq<real>, i: nat, need: real, done: Sums, whole: Sums)
    requires Drawing(vals, d, i, need, done, whole) && (i == |vals| || need <= COVER_EPS)
    ensures done == whole
    ensures forall t :: i <= t < |vals| ==> d[t] == 0.0
  {
    DrawNothing(InNotional, vals[i..], if i == |vals| then 0.0 else need);
    DrawNothing(InSize, vals[i..], if i == |vals| then 0.0 else need);
    DrawNothing(InFee, vals[i..], if i == |vals| then 0.0 else need);
    assert forall t :: i <= t < |vals| ==> d[t] == d[i..][t - i];
  }

  /** `taken` lists, in order, every entry before `i` that gives something;
      `at` says where each one stands. */
  ghost predicate Marked(entries: seq<LedgerEntry>, taken: seq<(LedgerEntry, real)>, at: seq<nat>, d: seq<real>, i: nat)
    requires |d| == |entries|
  {
    && i <= |d| && |at| == |taken|
    && (forall j :: 0 <= j < |taken| ==> at[j] < i && taken[j] == (entries[at[j]], d[at[j]]))
    && (forall j, l :: 0 <= j < l < |at| ==> at[j] < at[l])
    && (forall t :: 0 <= t < i ==> t in at || d[t] == 0.0)
  }

  lemma MarkedStep(entries: seq<LedgerEntry>, taken: seq<(LedgerEntry, real)>, at: seq<nat>, d: seq<real>, i: nat)
    requires |d| == |entries| && Marked(entries, taken, at, d, i) && i < |d|
    ensures Marked(entries, taken + [(entries[i], d[i])], at + [i], d, i + 1)
    ensures d[i] == 0.0 ==> Marked(entries, taken, at, d, i + 1)
  {
    var more := at + [i];
    forall t | 0 <= t < i + 1 ensures t in more || d[t] == 0.0 {
      if t in at {
        assert t in more;
      } else if t == i {
        assert more[|at|] == i;
      }
    }
  }

  /** What is still to come of a draw, entry by entry. */
  ghost predicate Rests(vals: seq<Entry>, d: seq<real>, rests: seq<Sums>)
    requires |vals| == |d|
  {
    && |rests| == |vals| + 1
    && forall i {:trigger SumsOf(vals[i..], d[i..])} :: 0 <= i <= |vals| ==> rests[i] == SumsOf(vals[i..], d[i..])
  }

  lemma RestAt(vals: seq<Entry>, d: seq<real>, rests: seq<Sums>, i: nat)
    requires i <= |vals| == |d| && Rests(vals, d, rests)
    ensures rests[i] == SumsOf(vals[i..], d[i..])
  {
  }

  lemma SomeRests(vals: seq<Entry>, d: seq<real>) returns (rests: seq<Sums>)
    requires |vals| == |d|
    ensures Rests(vals, d, rests) && rests[0] == SumsOf(vals, d)
  {
    rests := seq(|vals| + 1, i requires 0 <= i <= |vals| => SumsOf(vals[i..], d[i..]));
    assert vals[0..] == vals && d[0..] == d;
  }

  /** The drawing loop at entry `i`: the sums done and the entries marked. */
  ghost predicate Drawn(entries: seq<LedgerEntry>, vals: seq<Entry>, d: seq<real>, rests: seq<Sums>, i: nat, need: real,
                        done: Sums, taken: seq<(LedgerEntry, real)>, at: seq<nat>)
  {
    && i <= |entries| == |vals| == |d| && Rests(vals, d, rests)
    && d[i..] == Draw(vals[i..], need) && MakesUp(done, rests[i], rests[0])
    && Marked(entries, taken, at, d, i)
  }

  lemma DrawnNone(entries: seq<LedgerEntry>, vals: seq<Entry>, d: seq<real>, rests: seq<Sums>, size: real)
    requires |entries| == |vals| && d == Draw(vals, size) && Rests(vals, d, rests)
    ensures Drawn(entries, vals, d, rests, 0, size, Sums(0.0, 0.0, 0.0, None), [], [])
  {
    assert vals[0..] == vals && d[0..] == d;
  }

  /** One entry: what it adds to the sums and to the marks. */
  lemma DrawnEntry(entries: seq<LedgerEntry>, vals: seq<Entry>, d: seq<real>, rests: seq<Sums>, i: nat, need: real,
                   done: Sums, taken: seq<(LedgerEntry, real)>, at: seq<nat>, f: Fill, remaining: real)
    requires Wf(vals) && i < |vals| && need > COVER_EPS && vals[i] == Entry(f, remaining)
    requires Drawn(entries, vals, d, rests, i, need, done, taken, at)
    ensures f.size != 0.0
    ensures remaining <= 0.0 ==> Drawn(entries, vals, d, rests, i + 1, need, done, taken, at)
    ensures remaining > 0.0 ==>
              var take := Min(remaining, need);
              var more := Sums(done.notional + Cost(f, take), done.consumed + take, done.fees + FeeShare(f, take),
                               if done.orderId.None? then f.orderId else done.orderId);
              Drawn(entries, vals, d, rests, i + 1, need - take, more, taken + [(entries[i], take)], at + [i])
  {
    assert vals[i] in vals;
    RestAt(vals, d, rests, i);
    RestAt(vals, d, rests, i + 1);
    MarkedStep(entries, taken, at, d, i);
    if remaining <= 0.0 {
      DrawingSkip(vals, d, i, need, done, rests[0]);
    } else {
      var take := Min(remaining, need);
      DrawingStep(vals, d, i, need, done, rests[0], f, take, Cost(f, take), FeeShare(f, take));
    }
  }

  lemma DrawnAll(entries: seq<LedgerEntry>, vals: seq<Entry>, d: seq<real>, rests: seq<Sums>, i: nat, need: real,
                 done: Sums, taken: seq<(LedgerEntry, real)>, at: seq<nat>)
    requires Drawn(entries, vals, d, rests, i, need, done, taken, at) && (i == |vals| || need <= COVER_EPS)
    ensures done == rests[0] && Marked(entries, taken, at, d, |entries|)
  {
    RestAt(vals, d, rests, i);
    DrawingDone(vals, d, i, need, done, rests[0]);
  }

  method Available(entries: seq<LedgerEntry>) returns (total: real)
    ensures total == Total(Values(entries))
  {
    ghost var vals := Values(entries);
    total := 0.0;
    var i := 0;
    while i < |entries|
      invariant i <= |entries|
      invariant Total(vals) == total + Total(vals[i..])
    {
      assert vals[i..][1..] == vals[i + 1..];
      total := total + entries[i].remaining;
      i := i + 1;
    }
  }

  /** Subtract what was taken, entry by entry. */
  method Commit(entries: seq<LedgerEntry>, taken: seq<(LedgerEntry, real)>, ghost at: seq<nat>, ghost d: seq<real>)
    requires Distinct(entries) && |d| == |entries| && Marked(entries, taken, at, d, |d|)
    modifies entries
    ensures Values(entries) == After(old(Values(entries)), d)
  {
    var j := 0;
    while j < |taken|
      invariant j <= |taken|
      invariant forall t :: 0 <= t < |entries| ==>
                  entries[t].remaining == old(entries[t].remaining) - (if t in at[..j] then d[t] else 0.0)
    {
      assert at[j] !in at[..j];
      taken[j].0.remaining := taken[j].0.remaining - taken[j].1;
      assert at[..j + 1] == at[..j] + [at[j]];
      j := j + 1;
    }
    assert at[..j] == at;
  }

  /** The drawing loop, oldest first; nothing is spent yet. */
  method DrawFrom(entries: seq<LedgerEntry>, size: real, ghost rests: seq<Sums>)
    returns (sums: Sums, taken: seq<(LedgerEntry, real)>, ghost at: seq<nat>)
    requires Wf(Values(entries)) && Rests(Values(entries), Draw(Values(entries), size), rests)
    ensures sums == rests[0]
    ensures Marked(entries, taken, at, Draw(Values(entries), size), |entries|)
  {
    ghost var vals := Values(entries);
    ghost var d := Draw(vals, size);
    var need, notional, consumed, fees := size, 0.0, 0.0, 0.0;
    var orderId: Option<string> := None;
    taken, at := [], [];
    var i := 0;
    DrawnNone(entries, vals, d, rests, size);
    while i < |entries|
      invariant Drawn(entries, vals, d, rests, i, need, Sums(notional, consumed, fees, orderId), taken, at)
    {
      var e := entries[i];
      if need <= COVER_EPS {
        break;
      }
      DrawnEntry(entries, vals, d, rests, i, need, Sums(notional, consumed, fees, orderId), taken, at, e.fill,
                 e.remaining);
      if e.remaining > 0.0 {
        var take := Min(e.remaining, need);
        notional := notional + Cost(e.fill, take);
        fees := fees + FeeShare(e.fill, take);
        consumed := consumed + take;
        need := need - take;
        taken := taken + [(e, take)];
        at := at + [i];
        orderId := if orderId.None? then e.fill.orderId else orderId;
      }
      i := i + 1;
    }
    sums := Sums(notional, consumed, fees, orderId);
    DrawnAll(entries, vals, d, rests, i, need, sums, taken, at);
  }

  /** Take exactly `size` from `entries`, oldest first; spend it when
      `commit`. Full coverage or nothing. */
  method ConsumeEntries(entries: seq<LedgerEntry>, size: real, commit: bool) returns (r: Option<Summary>)
    requires Distinct(entries) && Wf(Values(entries))
    modifies entries
    ensures r == Consume(old(Values(entries)), size)
    ensures Values(entries) == if commit && r.Some?
                               then After(old(Values(entries)), Draw(old(Values(entries)), size))
                               else old(Values(entries))
  {
    if size <= 0.0 {
      return None;
    }
    var available := Available(entries);
    if available < size - Tolerance(size) {
      return None;
    }
    ghost var rests := SomeRests(Values(entries), Draw(Values(entries), size));
    var sums, taken, at := DrawFrom(entries, size, rests);
    if sums.consumed <= 0.0 {
      return None;
    }
    r := Some(Summary(Average(sums.notional, sums.consumed), sums.consumed, sums.fees, sums.orderId));
    if commit {
      Commit(entries, taken, at, Draw(Values(entries), size));
    }
  }

  /** An entry the draw considers stands at `place` among the candidates, with
      what the draw takes from it. */
  ghost predicate Sits(e: Entry, k: Key, spent: real, candidates: seq<Entry>, draw: seq<real>, place: nat) {
    if Candidate(e, k) then
      place < |candidates| == |draw| && candidates[place] == e && draw[place] == spent
    else spent == 0.0
  }

  /** How many candidates stand before entry `i`. */
  function Place(es: seq<Entry>, k: Key, i: nat): nat
    requires i <= |es|
  {
    if i == 0 then 0 else Place(es[1..], k, i - 1) + if Candidate(es[0], k) then 1 else 0
  }

  lemma {:induction false} PlaceIsCount(es: seq<Entry>, k: Key, i: nat)
    requires i <= |es|
    ensures Place(es, k, i) == |Candidates(es[..i], k)|
  {
    if i > 0 {
      PlaceIsCount(es[1..], k, i - 1);
      PlaceNext(es, k, i);
    }
  }

  lemma {:induction false} SpreadsAt(es: seq<Entry>, k: Key, d: seq<real>, cs: seq<Entry>, c: seq<real>, i: nat)
    requires |es| == |d| && |cs| == |c| && Spreads(es, k, d, cs, c) && i < |es|
    ensures Sits(es[i], k, d[i], cs, c, Place(es, k, i))
    decreases i
  {
    if i > 0 {
      if Candidate(es[0], k) {
        SpreadsAt(es[1..], k, d[1..], cs[1..], c[1..], i - 1);
      } else {
        SpreadsAt(es[1..], k, d[1..], cs, c, i - 1);
      }
    }
  }

  /** Where a ledger entry's spend sits in the draw on the candidates. */
  lemma SpentAt(es: seq<Entry>, k: Key, need: real, i: nat)
    requires i < |es|
    ensures var cs := Candidates(es, k);
            Sits(es[i], k, Spent(es, k, need)[i], cs, Draw(cs, need), |Candidates(es[..i], k)|)
  {
    SpentSpreads(es, k, need);
    SpreadsAt(es, k, Spent(es, k, need), Candidates(es, k), Draw(Candidates(es, k), need), i);
    PlaceIsCount(es, k, i);
  }

  lemma PlaceNext(es: seq<Entry>, k: Key, i: nat)
    requires 0 < i <= |es|
    ensures |Candidates(es[..i], k)| == (if Candidate(es[0], k) then 1 else 0) + |Candidates(es[1..][..i - 1], k)|
  {
    assert es[..i][1..] == es[1..][..i - 1] && es[..i][0] == es[0];
  }

  lemma CandidatesSnoc(es: seq<Entry>, k: Key, i: nat)
    requires i < |es|
    ensures Candidates(es[..i + 1], k)
         == Candidates(es[..i], k) + (if Candidate(es[i], k) then [es[i]] else [])
  {
    assert es[..i + 1] == es[..i] + [es[i]];
    KeepAppend(es[..i], [es[i]], (e: Entry) => Candidate(e, k));
    assert [es[i]][1..] == [];
  }

  /** `candidates` are the entries before `i` that a take may draw on, each at
      its place among them. */
  ghost predicate Picked(entries: seq<LedgerEntry>, candidates: seq<LedgerEntry>, vals: seq<Entry>, k: Key, i: nat)
  {
    && i <= |entries| == |vals| && |candidates| == |Candidates(vals[..i], k)| && Distinct(candidates)
    && (forall c :: c in candidates ==> c in entries[..i])
    && forall t {:trigger PickedAt(entries[t], candidates, vals, k, t)} ::
         0 <= t < i ==> PickedAt(entries[t], candidates, vals, k, t)
  }

  ghost predicate PickedAt(e: LedgerEntry, candidates: seq<LedgerEntry>, vals: seq<Entry>, k: Key, t: nat)
    requires t < |vals|
  {
    if Candidate(vals[t], k) then
      var place := |Candidates(vals[..t], k)|;
      place < |candidates| && candidates[place] == e
    else e !in candidates
  }

  lemma PickedAtSnoc(e: LedgerEntry, candidates: seq<LedgerEntry>, x: LedgerEntry, vals: seq<Entry>, k: Key, t: nat)
    requires t < |vals| && PickedAt(e, candidates, vals, k, t) && e != x
    ensures PickedAt(e, candidates + [x], vals, k, t)
  {
  }

  lemma DistinctSnoc(candidates: seq<LedgerEntry>, x: LedgerEntry)
    requires Distinct(candidates) && x !in candidates
    ensures Distinct(candidates + [x])
  {
  }

  lemma PickedSnoc(entries: seq<LedgerEntry>, candidates: seq<LedgerEntry>, vals: seq<Entry>, k: Key, i: nat)
    requires Picked(entries, candidates, vals, k, i) && i < |entries| && Distinct(entries)
    ensures Picked(entries, if Candidate(vals[i], k) then candidates + [entries[i]] else candidates, vals, k, i + 1)
  {
    var e := entries[i];
    var more := if Candidate(vals[i], k) then candidates + [e] else candidates;
    CandidatesSnoc(vals, k, i);
    assert e !in entries[..i] && entries[..i + 1] == entries[..i] + [e];
    DistinctSnoc(candidates, e);
    forall t | 0 <= t < i + 1 ensures PickedAt(entries[t], more, vals, k, t) {
      if t < i {
        assert PickedAt(entries[t], candidates, vals, k, t);
        PickedAtSnoc(entries[t], candidates, e, vals, k, t);
      }
    }
  }

  ghost predicate Picking(entries: seq<LedgerEntry>, candidates: seq<LedgerEntry>, vals: seq<Entry>, k: Key, i: nat)
    reads entries, candidates
  {
    Picked(entries, candidates, vals, k, i) && vals == Values(entries) && Values(candidates) == Candidates(vals[..i], k)
  }

  /** An entry that may be drawn on is picked; any other is not. */
  lemma PickingNext(entries: seq<LedgerEntry>, candidates: seq<LedgerEntry>, vals: seq<Entry>, k: Key, i: nat)
    requires Picking(entries, candidates, vals, k, i) && i < |entries| && Distinct(entries)
    ensures var e := entries[i];
            if Reduces(e.fill, k) && e.remaining > 0.0 then Picking(entries, candidates + [e], vals, k, i + 1)
            else Picking(entries, candidates, vals, k, i + 1)
  {
    PickedSnoc(entries, candidates, vals, k, i);
    CandidatesSnoc(vals, k, i);
    ValuesSnoc(candidates, entries[i]);
  }

  lemma PickingAll(entries: seq<LedgerEntry>, candidates: seq<LedgerEntry>, vals: seq<Entry>, k: Key, i: nat)
    requires Picking(entries, candidates, vals, k, i) && i >= |entries|
    ensures Picked(entries, candidates, Values(entries), k, |entries|)
    ensures forall j :: 0 <= j < |candidates| ==> candidates[j] in entries
    ensures Values(candidates) == Candidates(Values(entries), k)
  {
    assert vals[..i] == vals && entries[..i] == entries;
    forall j | 0 <= j < |candidates| ensures candidates[j] in entries {
      assert candidates[j] in candidates;
    }
  }

  lemma PickingNone(entries: seq<LedgerEntry>, k: Key)
    ensures Picking(entries, [], Values(entries), k, 0)
  {
  }

  /** The unspent entries a take may draw on, oldest first. */
  method CandidatesFor(entries: seq<LedgerEntry>, k: Key) returns (candidates: seq<LedgerEntry>)
    requires Distinct(entries)
    ensures Picked(entries, candidates, Values(entries), k, |entries|)
    ensures forall j :: 0 <= j < |candidates| ==> candidates[j] in entries
    ensures Values(candidates) == Candidates(Values(entries), k)
  {
    ghost var vals := Values(entries);
    PickingNone(entries, k);
    candidates := [];
    var i := 0;
    while i < |entries|
      invariant Picking(entries, candidates, vals, k, i)
    {
      var e := entries[i];
      PickingNext(entries, candidates, vals, k, i);
      if Reduces(e.fill, k) && e.remaining > 0.0 {
        candidates := candidates + [e];
      }
      i := i + 1;
    }
    PickingAll(entries, candidates, vals, k, i);
  }

  lemma UnexcludedSnoc(es: seq<Entry>, excluded: set<string>, i: nat)
    requires i < |es|
    ensures Unexcluded(es[..i + 1], excluded)
         == Unexcluded(es[..i], excluded) + (if Admitted(es[i].fill, excluded) then [es[i]] else [])
  {
    assert es[..i + 1] == es[..i] + [es[i]];
    KeepAppend(es[..i], [es[i]], (e: Entry) => Admitted(e.fill, excluded));
    assert [es[i]][1..] == [];
  }

  /** One new entry for each parsed fill that is not excluded. */
  method NewEntries(parsed: seq<Entry>, excluded: set<string>) returns (entries: seq<LedgerEntry>)
    requires forall e :: e in parsed ==> e.remaining == e.fill.size
    ensures Distinct(entries) && fresh(entries) && Values(entries) == Unexcluded(parsed, excluded)
  {
    entries := [];
    var i := 0;
    while i < |parsed|
      invariant i <= |parsed| && Distinct(entries) && fresh(entries)
      invariant Values(entries) == Unexcluded(parsed[..i], excluded)
    {
      var f := parsed[i].fill;
      UnexcludedSnoc(parsed, excluded, i);
      if Admitted(f, excluded) {
        var e := new LedgerEntry(f);
        ValuesSnoc(entries, e);
        entries := entries + [e];
      }
      i := i + 1;
    }
    assert parsed[..i] == parsed;
  }

  /** One pass's fills, each spendable once. */
  class FillLedger {
    var entries: seq<LedgerEntry>

    ghost predicate Valid()
      reads this, entries
    {
      Distinct(entries) && Wf(Values(entries))
    }

    ghost function State(): seq<Entry>
      reads this, entries
    {
      Values(entries)
    }

    constructor (fills: seq<Fill>, excluded: set<string>)
      ensures Valid() && State() == Ledger(fills, excluded)
      ensures fresh(entries)
    {
      var parsed := Parse(fills);
      var usable := NewEntries(parsed, excluded);
      entries := usable;
    }

    /** Spend `size` of unspent fills that close a position. */
    method Take(k: Key, size: real) returns (r: Option<Summary>)
      requires Valid()
      modifies entries
      ensures Valid() && entries == old(entries)
      ensures (r, State()) == Fills.Take(old(State()), k, size)
    {
      ghost var vals := State();
      var candidates := CandidatesFor(entries, k);
      assert Wf(Values(candidates));
      r := ConsumeEntries(candidates, size, true);
      forall t | 0 <= t < |entries|
        ensures SettledAt(vals, k, State()[t], Values(candidates), t)
      {
        assert PickedAt(entries[t], candidates, vals, k, t);
      }
      TakeSettles(vals, k, size, State(), Values(candidates));
      TakeKeepsWf(vals, k, size);
    }
  }

  /** The entry is as the draw on the candidates left it. */
  ghost predicate SettledAt(vals: seq<Entry>, k: Key, now: Entry, drawn: seq<Entry>, t: nat)
    requires t < |vals|
  {
    if Candidate(vals[t], k) then
      var place := |Candidates(vals[..t], k)|;
      place < |drawn| && now == drawn[place]
    else now == vals[t]
  }

  /** A ledger whose candidates were drawn on, and nothing else, is the
      ledger the take leaves. */
  lemma TakeSettles(vals: seq<Entry>, k: Key, size: real, left: seq<Entry>, drawn: seq<Entry>)
    requires Wf(vals) && |left| == |vals| && |drawn| == |Candidates(vals, k)|
    requires var cs := Candidates(vals, k);
             drawn == if Consume(cs, size).Some? then After(cs, Draw(cs, size)) else cs
    requires forall t :: 0 <= t < |vals| ==> SettledAt(vals, k, left[t], drawn, t)
    ensures left == Fills.Take(vals, k, size).1
  {
    forall t | 0 <= t < |vals| ensures left[t] == Fills.Take(vals, k, size).1[t] {
      SpentAt(vals, k, size, t);
    }
  }
}
