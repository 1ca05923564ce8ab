/**
 What the funding ingest guarantees (bot/hypertrade/engine/funding.py).
 */
module FundingLaws {
  import opened Common
  import opened Funding

  // ----- One page ---------------------------------------------------------

  /** Every storable record of a page is read: now, or before. */
  lemma {:induction false} UnseenCovers(page: seq<Record>, seen: set<Key>)
    ensures seen + Keys(Unseen(page, seen)) == seen + Keys(page)
  {
    if page != [] {
      var r, rest := page[0], page[1..];
      assert Keys(page) == Keys(rest) + (if r.event.Some? then {KeyOf(r)} else {});
      if r.event.None? || KeyOf(r) in seen {
        UnseenCovers(rest, seen);
      } else {
        UnseenCovers(rest, seen + {KeyOf(r)});
        KeysCons(r, Unseen(rest, seen + {KeyOf(r)}));
      }
    }
  }

  lemma KeysCons(r: Record, rest: seq<Record>)
    requires r.event.Some?
    ensures Keys([r] + rest) == {KeyOf(r)} + Keys(rest)
  {
  }

  predicate DistinctKeys(rs: seq<Record>)
    requires forall r :: r in rs ==> r.event.Some?
  {
    forall i, j :: 0 <= i < j < |rs| ==> KeyOf(rs[i]) != KeyOf(rs[j])
  }

  lemma {:induction false} UnseenDistinct(page: seq<Record>, seen: set<Key>)
    ensures forall r :: r in Unseen(page, seen) ==> r.event.Some?
    ensures DistinctKeys(Unseen(page, seen))
  {
    UnseenStorable(page, seen);
    if page != [] {
      var r := page[0];
      if r.event.None? || KeyOf(r) in seen {
        UnseenDistinct(page[1..], seen);
      } else {
        UnseenDistinct(page[1..], seen + {KeyOf(r)});
        var rest := Unseen(page[1..], seen + {KeyOf(r)});
        UnseenStorable(page[1..], seen + {KeyOf(r)});
        forall j | 0 <= j < |rest| ensures KeyOf(rest[j]) != KeyOf(r) {
          assert rest[j] in rest;
        }
      }
    }
  }

  /** An insert adds exactly the keys that were missing, and changes no payment
      that was there. */
  lemma {:induction false} InsertExact(store: Store, rs: seq<Record>, hs: seq<Holding>)
    requires forall r :: r in rs ==> r.event.Some?
    ensures Insert(store, rs, hs).Keys == store.Keys + Keys(rs)
    ensures forall k :: k in store ==> Insert(store, rs, hs)[k] == store[k]
    decreases rs
  {
    if rs != [] {
      var k := KeyOf(rs[0]);
      InsertExact(if k in store then store else store[k := PaymentOf(rs[0], hs)], rs[1..], hs);
      assert rs == [rs[0]] + rs[1..];
      KeysCons(rs[0], rs[1..]);
    }
  }

  lemma {:induction false} InsertCounts(store: Store, rs: seq<Record>, hs: seq<Holding>)
    requires (forall r :: r in rs ==> r.event.Some?) && DistinctKeys(rs)
    ensures |Insert(store, rs, hs)| == |store| + |Lacking(store, rs)|
    decreases rs
  {
    if rs != [] {
      var k := KeyOf(rs[0]);
      if k in store {
        InsertCounts(store, rs[1..], hs);
      } else {
        var next := store[k := PaymentOf(rs[0], hs)];
        InsertCounts(next, rs[1..], hs);
        assert |next| == |store| + 1;
        assert Lacking(store, rs[1..]) == Lacking(next, rs[1..]) by { LackingCong(store, next, rs[1..]); }
        assert Lacking(store, rs) == [rs[0]] + Lacking(store, rs[1..]);
      }
    }
  }

  lemma {:induction false} LackingCong(a: Store, b: Store, rs: seq<Record>)
    requires forall r :: r in rs ==> r.event.Some? && (KeyOf(r) in a <==> KeyOf(r) in b)
    ensures Lacking(a, rs) == Lacking(b, rs)
    decreases rs
  {
    if rs != [] {
      LackingCong(a, b, rs[1..]);
    }
  }

  // ----- What a page leaves out -------------------------------------------

  lemma {:induction false} KeepOrdered(rs: seq<Record>, p: Record -> bool)
    requires TimeOrdered(rs)
    ensures TimeOrdered(Keep(rs, p))
  {
    if rs != [] {
      KeepOrdered(rs[1..], p);
      var kept := Keep(rs[1..], p);
      forall j | 0 <= j < |kept| ensures rs[0].ts <= kept[j].ts {
        assert kept[j] in rs[1..];
      }
    }
  }

  /** A page shorter than the cap leaves nothing out. */
  lemma ShortPageIsAll(all: seq<Record>, visible: nat, cursor: int, endMs: Option<int>, e: Record)
    requires e in Visible(all, visible) && Asked(e, cursor, endMs) && |Page(all, visible, cursor, endMs)| < PAGE_CAP
    ensures e in Page(all, visible, cursor, endMs)
  {
    KeepMember(Visible(all, visible), (r: Record) => Asked(r, cursor, endMs), e);
  }

  /** Any page holds everything asked for that is older than something on it;
      what the history gained later is no older. */
  lemma PageHasOlder(all: seq<Record>, visible: nat, cursor: int, endMs: Option<int>, e: Record, r: Record)
    requires TimeOrdered(all) && e in all && Asked(e, cursor, endMs)
    requires r in Page(all, visible, cursor, endMs) && e.ts < r.ts
    ensures e in Page(all, visible, cursor, endMs)
  {
    var shown := Visible(all, visible);
    var p := (x: Record) => Asked(x, cursor, endMs);
    OlderIsShown(all, visible, e, r);
    KeepMember(shown, p, e);
    KeepOrdered(shown, p);
    PrefixHasOlder(Keep(shown, p), Page(all, visible, cursor, endMs), e, r);
  }

  lemma OlderIsShown(all: seq<Record>, visible: nat, e: Record, r: Record)
    requires TimeOrdered(all) && e in all && r in Visible(all, visible) && e.ts < r.ts
    ensures e in Visible(all, visible)
  {
    var shown := Visible(all, visible);
    var i :| 0 <= i < |all| && all[i] == e;
    var n :| 0 <= n < |shown| && shown[n] == r;
    assert all[n] == r;
    assert shown[i] == e;
  }

  lemma PrefixHasOlder(whole: seq<Record>, prefix: seq<Record>, e: Record, r: Record)
    requires TimeOrdered(whole) && prefix <= whole && e in whole && r in prefix && e.ts < r.ts
    ensures e in prefix
  {
    var a :| 0 <= a < |whole| && whole[a] == e;
    var b :| 0 <= b < |prefix| && prefix[b] == r;
    assert whole[b] == r;
    assert prefix[a] == e;
  }

  // ----- Completeness -----------------------------------------------------

  predicate Stored(store: Store, r: Record) {
    r.event.Some? ==> KeyOf(r) in store
  }

  /** Everything read is stored, and so is everything older than the cursor. */
  ghost predicate Covered(j: Job, start: int, s: State) {
    && s.seen <= s.store.Keys
    && forall e :: e in j.all && Asked(e, start, j.endMs) && e.ts < s.cursor ==> Stored(s.store, e)
  }

  lemma IngestPageStores(j: Job, s: State, page: seq<Record>)
    requires j.apply && s.seen <= s.store.Keys
    ensures var s' := IngestPage(j, s, page);
            && s'.store.Keys == s.store.Keys + Keys(page)
            && s'.seen <= s'.store.Keys
            && forall k :: k in s.store ==> s'.store[k] == s.store[k]
  {
    UnseenStorable(page, s.seen);
    InsertExact(s.store, Unseen(page, s.seen), j.holdings);
    UnseenCovers(page, s.seen);
  }

  /** The last page asked for was answered from `visible` records. */
  ghost predicate AllStored(j: Job, start: int, visible: nat, store: Store) {
    forall e :: e in Visible(j.all, visible) && Asked(e, start, j.endMs) ==> Stored(store, e)
  }

  lemma TurnCovers(j: Job, start: int, s: State, s1: State, more: bool)
    requires History(j.all) && j.apply && Covered(j, start, s) && (s1, more) == Turn(j, s)
    ensures more ==> Covered(j, start, s1)
    ensures !more && s1.tally.complete && !s1.raised && j.answers(s.fetched).Serves? ==>
              AllStored(j, start, j.answers(s.fetched).visible, s1.store)
  {
    if j.answers(s.fetched).Serves? {
      var visible := j.answers(s.fetched).visible;
      var page := Page(j.all, visible, s.cursor, j.endMs);
      ServedCovers(j, start, s.(fetched := s.fetched + 1), visible, page, j.answers(s.fetched).stores);
    }
  }

  lemma ServedCovers(j: Job, start: int, s: State, visible: nat, page: seq<Record>, stores: Storing)
    requires History(j.all) && j.apply && Covered(j, start, s) && page == Page(j.all, visible, s.cursor, j.endMs)
    ensures var (s1, more) := Served(j, s, page, stores);
            && (more ==> Covered(j, start, s1))
            && (!more && s1.tally.complete && !s1.raised ==> AllStored(j, start, visible, s1.store))
  {
    var after := IngestPage(j, s, page);
    IngestPageStores(j, s, page);
    assert forall e :: e in j.all && Asked(e, start, j.endMs) && e.ts < Newest(page) ==> Stored(after.store, e) by {
      OlderStored(j, start, s, visible, page, after.store);
    }
    if |page| < PAGE_CAP {
      LastStored(j, start, s, visible, page, after.store);
      if page == [] {
        LastStored(j, start, s, visible, page, s.store);
      }
    }
  }

  lemma OlderStored(j: Job, start: int, s: State, visible: nat, page: seq<Record>, after: Store)
    requires History(j.all) && Covered(j, start, s) && after.Keys == s.store.Keys + Keys(page)
    requires page == Page(j.all, visible, s.cursor, j.endMs)
    ensures forall e :: e in j.all && Asked(e, start, j.endMs) && e.ts < Newest(page) ==> Stored(after, e)
  {
    PageBounded(j.all, page);
    forall e | e in j.all && Asked(e, start, j.endMs) && e.ts < Newest(page) ensures Stored(after, e) {
      if e.event.Some? && e.ts >= s.cursor {
        var r :| r in page && r.event.Some? && r.ts == Newest(page);
        PageHasOlder(j.all, visible, s.cursor, j.endMs, e, r);
      }
    }
  }

  lemma LastStored(j: Job, start: int, s: State, visible: nat, page: seq<Record>, after: Store)
    requires History(j.all) && Covered(j, start, s) && after.Keys == s.store.Keys + Keys(page) && |page| < PAGE_CAP
    requires page == Page(j.all, visible, s.cursor, j.endMs)
    ensures AllStored(j, start, visible, after)
  {
    forall e | e in Visible(j.all, visible) && Asked(e, start, j.endMs) ensures Stored(after, e) {
      if e.ts >= s.cursor {
        ShortPageIsAll(j.all, visible, s.cursor, j.endMs, e);
      }
    }
  }

  /** A fetch that never passes a failure off as an empty page. */
  ghost predicate Strict(j: Job) {
    forall k: nat :: !j.answers(k).Blank?
  }

  lemma TurnProgress(j: Job, s: State, s1: State, more: bool)
    requires History(j.all) && (s1, more) == Turn(j, s)
    ensures s1.fetched == s.fetched + 1
    ensures !more && !s1.raised ==> !j.answers(s.fetched).FetchFails?
    ensures more ==> s.cursor < s1.cursor <= Bound(j.all)
  {
    if j.answers(s.fetched).Serves? {
      PageBounded(j.all, Page(j.all, j.answers(s.fetched).visible, s.cursor, j.endMs));
    }
  }

  lemma IngestUnfolds(j: Job, s: State, s1: State, more: bool)
    requires History(j.all) && (s1, more) == Turn(j, s)
    ensures Ingest(j, s) == if more then Ingest(j, s1) else s1
  {
  }

  /** The last fetch answered, and all it could see is stored. */
  ghost predicate Exhausted(j: Job, start: int, last: State) {
    last.fetched > 0 && j.answers(last.fetched - 1).Serves?
    && AllStored(j, start, j.answers(last.fetched - 1).visible, last.store)
  }

  lemma LastTurnExhausts(j: Job, start: int, s: State, s1: State)
    requires History(j.all) && j.apply && Strict(j) && Covered(j, start, s) && (s1, false) == Turn(j, s)
    ensures s1.tally.complete && !s1.raised ==> Exhausted(j, start, s1)
  {
    TurnCovers(j, start, s, s1, false);
    TurnProgress(j, s, s1, false);
  }

  lemma {:induction false} IngestCovers(j: Job, start: int, s: State, last: State)
    requires History(j.all) && j.apply && Strict(j) && Covered(j, start, s) && last == Ingest(j, s)
    ensures last.tally.complete && !last.raised ==> Exhausted(j, start, last)
    decreases Bound(j.all) - s.cursor
  {
    var (s1, more) := Turn(j, s);
    IngestUnfolds(j, s, s1, more);
    if more {
      TurnCovers(j, start, s, s1, more);
      TurnProgress(j, s, s1, more);
      IngestCovers(j, start, s1, last);
    } else {
      LastTurnExhausts(j, start, s, s1);
    }
  }

  /** With a strict fetch, a complete ingest has stored every storable event the
      exchange had from the start time on, whatever pages it came in. */
  lemma CompleteMeansAllStored(j: Job, store: Store, start: int)
    requires History(j.all) && j.apply && Strict(j)
    requires Ingest(j, Begin(store, start)).tally.complete && !Ingest(j, Begin(store, start)).raised
    ensures var last := Ingest(j, Begin(store, start));
            Exhausted(j, start, last)
  {
    IngestCovers(j, start, Begin(store, start), Ingest(j, Begin(store, start)));
  }

  // ----- Counts -----------------------------------------------------------

  lemma TurnCounts(j: Job, s: State, s1: State, more: bool)
    requires j.apply && (s1, more) == Turn(j, s)
    ensures |s1.store| - |s.store| == s1.tally.added - s.tally.added
    ensures forall k :: k in s.store ==> k in s1.store && s1.store[k] == s.store[k]
  {
    if j.answers(s.fetched).Serves? {
      PageCounts(j, s.(fetched := s.fetched + 1), Page(j.all, j.answers(s.fetched).visible, s.cursor, j.endMs));
    }
  }

  lemma PageCounts(j: Job, s: State, page: seq<Record>)
    requires j.apply
    ensures var s1 := IngestPage(j, s, page);
            && |s1.store| - |s.store| == s1.tally.added - s.tally.added
            && forall k :: k in s.store ==> k in s1.store && s1.store[k] == s.store[k]
  {
    UnseenDistinct(page, s.seen);
    InsertCounts(s.store, Unseen(page, s.seen), j.holdings);
    InsertExact(s.store, Unseen(page, s.seen), j.holdings);
  }

  /** What an ingest reports as new is what the table gained, even when it is
      cut short, and no payment already stored is changed. */
  lemma {:induction false} AddedIsGrowth(j: Job, s: State, last: State)
    requires History(j.all) && j.apply && last == Ingest(j, s)
    ensures |last.store| - |s.store| == last.tally.added - s.tally.added
    ensures forall k :: k in s.store ==> k in last.store && last.store[k] == s.store[k]
    decreases Bound(j.all) - s.cursor
  {
    var (s1, more) := Turn(j, s);
    IngestUnfolds(j, s, s1, more);
    TurnCounts(j, s, s1, more);
    TurnProgress(j, s, s1, more);
    if more {
      AddedIsGrowth(j, s1, last);
    }
  }

  // ----- Dry runs ---------------------------------------------------------

  /** A dry run and a real one over the same pages: the real one's table has
      gained what both have read. */
  ghost predicate InStep(before: Store, dry: State, wet: State) {
    && dry.store == before && wet.store.Keys == before.Keys + dry.seen
    && wet == dry.(store := wet.store)
  }

  lemma PageInStep(dry: Job, wet: Job, before: Store, a: State, b: State, page: seq<Record>)
    requires wet == dry.(apply := true) && !dry.apply && InStep(before, a, b)
    ensures InStep(before, IngestPage(dry, a, page), IngestPage(wet, b, page))
  {
    UnseenStorable(page, a.seen);
    UnseenCovers(page, a.seen);
    InsertExact(b.store, Unseen(page, a.seen), dry.holdings);
    LackingCong(a.store, b.store, Unseen(page, a.seen));
  }

  lemma PageOnInStep(dry: Job, wet: Job, before: Store, a: State, b: State, page: seq<Record>)
    requires wet == dry.(apply := true) && InStep(before, a, b)
    ensures PageOn(dry, a, page).1 == PageOn(wet, b, page).1
    ensures InStep(before, PageOn(dry, a, page).0, PageOn(wet, b, page).0)
  {
  }

  ghost predicate BothInStep(before: Store, dry: (State, bool), wet: (State, bool)) {
    dry.1 == wet.1 && InStep(before, dry.0, wet.0)
  }

  lemma ServedInStep(dry: Job, wet: Job, before: Store, a: State, b: State, page: seq<Record>, stores: Storing)
    requires wet == dry.(apply := true) && !dry.apply && InStep(before, a, b)
    ensures BothInStep(before, Served(dry, a, page, stores), Served(wet, b, page, stores))
  {
    PageInStep(dry, wet, before, a, b, page);
    PageOnInStep(dry, wet, before, IngestPage(dry, a, page), IngestPage(wet, b, page), page);
  }

  lemma TurnInStep(dry: Job, wet: Job, before: Store, a: State, b: State)
    requires wet == dry.(apply := true) && !dry.apply && InStep(before, a, b)
    ensures BothInStep(before, Turn(dry, a), Turn(wet, b))
  {
    match dry.answers(a.fetched)
    case Serves(visible, stores) => ServesInStep(dry, wet, before, a, b, visible, stores);
    case _ =>
  }

  lemma ServesInStep(dry: Job, wet: Job, before: Store, a: State, b: State, visible: nat, stores: Storing)
    requires wet == dry.(apply := true) && !dry.apply && InStep(before, a, b)
    requires dry.answers(a.fetched) == Serves(visible, stores)
    ensures BothInStep(before, Turn(dry, a), Turn(wet, b))
  {
    var page := Page(dry.all, visible, a.cursor, dry.endMs);
    var a0, b0 := a.(fetched := a.fetched + 1), b.(fetched := b.fetched + 1);
    ServedInStep(dry, wet, before, a0, b0, page, stores);
    TurnServes(dry, a, visible, stores, page);
    TurnServes(wet, b, visible, stores, page);
  }

  lemma TurnServes(j: Job, s: State, visible: nat, stores: Storing, page: seq<Record>)
    requires j.answers(s.fetched) == Serves(visible, stores) && page == Page(j.all, visible, s.cursor, j.endMs)
    ensures Turn(j, s) == Served(j, s.(fetched := s.fetched + 1), page, stores)
  {
  }

  lemma {:induction false} DryInStep(dry: Job, wet: Job, before: Store, a: State, b: State)
    requires wet == dry.(apply := true) && !dry.apply && InStep(before, a, b) && History(dry.all)
    ensures Ingest(dry, a).store == before
    ensures Ingest(dry, a).tally == Ingest(wet, b).tally && Ingest(dry, a).raised == Ingest(wet, b).raised
    decreases Bound(dry.all) - a.cursor
  {
    var (a1, more) := Turn(dry, a);
    var b1 := Turn(wet, b).0;
    TurnInStep(dry, wet, before, a, b);
    TurnProgress(dry, a, a1, more);
    IngestUnfolds(dry, a, a1, more);
    IngestUnfolds(wet, b, b1, more);
    if more {
      DryInStep(dry, wet, before, a1, b1);
    }
  }

  /** A dry run writes nothing and predicts every count and amount of the run
      that would. */
  lemma DryRunPredicts(dry: Job, store: Store, start: int)
    requires !dry.apply && History(dry.all)
    ensures Ingest(dry, Begin(store, start)).store == store
    ensures Ingest(dry, Begin(store, start)).tally == Ingest(dry.(apply := true), Begin(store, start)).tally
  {
    DryInStep(dry, dry.(apply := true), store, Begin(store, start), Begin(store, start));
  }

  // ----- Reruns -----------------------------------------------------------

  lemma {:induction false} NothingLacking(store: Store, rs: seq<Record>, hs: seq<Holding>)
    requires forall r :: r in rs ==> r.event.Some? && KeyOf(r) in store
    ensures Lacking(store, rs) == [] && Insert(store, rs, hs) == store
    decreases rs
  {
    if rs != [] {
      NothingLacking(store, rs[1..], hs);
    }
  }

  /** No fetch shows more than the first `visible` records. */
  ghost predicate ShowsAtMost(j: Job, visible: nat) {
    forall k: nat :: j.answers(k).Serves? ==> j.answers(k).visible <= visible
  }

  lemma RerunTurn(j: Job, start: int, visible: nat, s: State, s1: State, more: bool)
    requires History(j.all) && AllStored(j, start, visible, s.store) && ShowsAtMost(j, visible)
    requires start <= s.cursor && (s1, more) == Turn(j, s)
    ensures s1.store == s.store && s1.tally.added == s.tally.added
  {
    if j.answers(s.fetched).Serves? {
      var page := Page(j.all, j.answers(s.fetched).visible, s.cursor, j.endMs);
      UnseenStorable(page, s.seen);
      forall r | r in Unseen(page, s.seen) ensures KeyOf(r) in s.store {
        assert r in Visible(j.all, j.answers(s.fetched).visible);
        assert r in Visible(j.all, visible);
        assert Asked(r, start, j.endMs);
      }
      NothingLacking(s.store, Unseen(page, s.seen), j.holdings);
    }
  }

  /** Once everything visible is stored, running again, from the same time or a
      later one, inserts nothing and counts nothing as new. */
  lemma {:induction false} RerunAddsNothing(j: Job, start: int, visible: nat, s: State, last: State)
    requires History(j.all) && AllStored(j, start, visible, s.store) && ShowsAtMost(j, visible)
    requires start <= s.cursor && last == Ingest(j, s)
    ensures last.store == s.store && last.tally.added == s.tally.added
    decreases Bound(j.all) - s.cursor
  {
    var (s1, more) := Turn(j, s);
    IngestUnfolds(j, s, s1, more);
    RerunTurn(j, start, visible, s, s1, more);
    TurnProgress(j, s, s1, more);
    if more {
      RerunAddsNothing(j, start, visible, s1, last);
    }
  }

  // ----- Interrupted polls ------------------------------------------------

  /** No gap: whatever the history has between `from` and something stored is
      stored. */
  ghost predicate NoGap(all: seq<Record>, from: int, store: Store) {
    forall k, e :: k in store && e in all && from <= e.ts < k.ts ==> Stored(store, e)
  }

  /** Paging goes on from no later than what is stored. */
  ghost predicate Reaches(from: int, cursor: int, store: Store) {
    cursor <= from || exists k :: k in store && cursor <= k.ts
  }

  lemma NothingOlderMissing(j: Job, from: int, s: State, visible: nat, page: seq<Record>, r: Record, e: Record)
    requires History(j.all) && NoGap(j.all, from, s.store) && Reaches(from, s.cursor, s.store)
    requires page == Page(j.all, visible, s.cursor, None) && r in page && e in j.all && from <= e.ts < r.ts
    ensures e in page || Stored(s.store, e)
  {
    if e.ts >= s.cursor {
      PageHasOlder(j.all, visible, s.cursor, None, e, r);
    } else {
      var k0 :| k0 in s.store && s.cursor <= k0.ts;
      assert e.ts < k0.ts;
    }
  }

  lemma KeyMember(page: seq<Record>, k: Key) returns (r: Record)
    requires k in Keys(page)
    ensures r in page && r.event.Some? && KeyOf(r) == k
  {
    r :| r in page && r.event.Some? && KeyOf(r) == k;
  }

  lemma NoGapAt(j: Job, from: int, s: State, visible: nat, page: seq<Record>, after: Store, k: Key, e: Record)
    requires History(j.all) && NoGap(j.all, from, s.store) && Reaches(from, s.cursor, s.store)
    requires page == Page(j.all, visible, s.cursor, None) && after.Keys == s.store.Keys + Keys(page)
    requires k in after && e in j.all && from <= e.ts < k.ts
    ensures Stored(after, e)
  {
    if k in s.store {
      assert Stored(s.store, e);
    } else {
      var r := KeyMember(page, k);
      NothingOlderMissing(j, from, s, visible, page, r, e);
    }
  }

  lemma PageKeepsNoGap(j: Job, from: int, s: State, visible: nat, page: seq<Record>, after: Store)
    requires History(j.all) && NoGap(j.all, from, s.store) && Reaches(from, s.cursor, s.store)
    requires page == Page(j.all, visible, s.cursor, None) && after.Keys == s.store.Keys + Keys(page)
    ensures NoGap(j.all, from, after)
  {
    forall k, e | k in after && e in j.all && from <= e.ts < k.ts ensures Stored(after, e) {
      NoGapAt(j, from, s, visible, page, after, k, e);
    }
  }

  /** What every turn of a poll keeps, finished or not. */
  ghost predicate Gapless(all: seq<Record>, from: int, s: State) {
    s.seen <= s.store.Keys && NoGap(all, from, s.store)
  }

  lemma ServedGapless(j: Job, from: int, s: State, visible: nat, page: seq<Record>, stores: Storing, s1: State,
                      more: bool)
    requires History(j.all) && j.apply && j.endMs.None? && 0 <= from
    requires Gapless(j.all, from, s) && Reaches(from, s.cursor, s.store)
    requires page == Page(j.all, visible, s.cursor, None) && (s1, more) == Served(j, s, page, stores)
    ensures NoGap(j.all, from, s1.store)
    ensures more ==> Gapless(j.all, from, s1) && Reaches(from, s1.cursor, s1.store)
  {
    var after := IngestPage(j, s, page);
    assert Gapless(j.all, from, after) && after.store.Keys == s.store.Keys + Keys(page) by {
      IngestPageStores(j, s, page);
      PageKeepsNoGap(j, from, s, visible, page, after.store);
    }
    if more {
      NewestReaches(j, from, page, after.store);
    }
  }

  lemma NewestReaches(j: Job, from: int, page: seq<Record>, store: Store)
    requires History(j.all) && 0 <= from && Keys(page) <= store.Keys && forall r :: r in page ==> r in j.all
    ensures Reaches(from, Newest(page), store)
  {
    PageBounded(j.all, page);
    if Newest(page) > 0 {
      var r :| r in page && r.event.Some? && r.ts == Newest(page);
      assert KeyOf(r) in store;
    }
  }

  lemma TurnGapless(j: Job, from: int, s: State, s1: State, more: bool)
    requires History(j.all) && j.apply && j.endMs.None? && 0 <= from
    requires Gapless(j.all, from, s) && Reaches(from, s.cursor, s.store) && (s1, more) == Turn(j, s)
    ensures NoGap(j.all, from, s1.store)
    ensures more ==> Gapless(j.all, from, s1) && Reaches(from, s1.cursor, s1.store)
  {
    if j.answers(s.fetched).Serves? {
      var visible := j.answers(s.fetched).visible;
      ServedGapless(j, from, s.(fetched := s.fetched + 1), visible, Page(j.all, visible, s.cursor, None),
                    j.answers(s.fetched).stores, s1, more);
    }
  }

  lemma {:induction false} IngestKeepsNoGap(j: Job, from: int, s: State, last: State)
    requires History(j.all) && j.apply && j.endMs.None? && 0 <= from && last == Ingest(j, s)
    requires Gapless(j.all, from, s) && Reaches(from, s.cursor, s.store)
    ensures NoGap(j.all, from, last.store)
    decreases Bound(j.all) - s.cursor
  {
    var (s1, more) := Turn(j, s);
    IngestUnfolds(j, s, s1, more);
    TurnGapless(j, from, s, s1, more);
    TurnProgress(j, s, s1, more);
    if more {
      IngestKeepsNoGap(j, from, s1, last);
    }
  }

  // ----- Polls ------------------------------------------------------------

  const DAY_MS: int := 86400000
  const OVERLAP_MS: int := 60000

  /** A newest stored key. */
  predicate IsNewest(store: Store, k: Key) {
    k in store && forall k' :: k' in store ==> k'.ts <= k.ts
  }

  /** One poll: the answers it meets, the clock, and the newest key it reads back
      (irrelevant while the table is empty). */
  datatype Poll = Poll(holdings: seq<Holding>, answers: nat -> Answer, maxPages: nat, now: int, newest: Key)

  predicate ReadsBack(store: Store, p: Poll) {
    p.now >= DAY_MS && (store == map[] || IsNewest(store, p.newest))
  }

  function StartOf(store: Store, p: Poll): int {
    if store == map[] then p.now - DAY_MS else p.newest.ts - OVERLAP_MS
  }

  function PollOnce(all: seq<Record>, store: Store, p: Poll): Store
    requires History(all)
  {
    Ingest(Job(all, p.holdings, p.answers, None, Some(p.maxPages), true), Begin(store, StartOf(store, p))).store
  }

  /** The time the table is about: the start of the first poll that stored
      something, as long as nothing is stored the start of the next one. */
  function FromOf(store: Store, from: int, p: Poll): int {
    if store == map[] then p.now - DAY_MS else from
  }

  /** However each poll ends, by a failed fetch, a refused write, the page limit
      or a full page at one time, and whatever the exchange gains in between:
      the table has no gap below its newest payment. */
  lemma PollKeepsNoGap(all: seq<Record>, store: Store, from: int, p: Poll)
    requires History(all) && NoGap(all, from, store) && 0 <= from && ReadsBack(store, p)
    ensures NoGap(all, FromOf(store, from, p), PollOnce(all, store, p)) && 0 <= FromOf(store, from, p)
  {
    var j := Job(all, p.holdings, p.answers, None, Some(p.maxPages), true);
    var s := Begin(store, StartOf(store, p));
    assert store != map[] ==> p.newest in store && s.cursor <= p.newest.ts;
    IngestKeepsNoGap(j, FromOf(store, from, p), s, Ingest(j, s));
  }

  /** Every sequence of polls, from an empty table. */
  predicate PollsReadBack(all: seq<Record>, store: Store, ps: seq<Poll>)
    requires History(all)
    decreases ps
  {
    ps == [] || (ReadsBack(store, ps[0]) && PollsReadBack(all, PollOnce(all, store, ps[0]), ps[1..]))
  }

  function PollAll(all: seq<Record>, store: Store, from: int, ps: seq<Poll>): (Store, int)
    requires History(all)
    decreases ps
  {
    if ps == [] then (store, from)
    else PollAll(all, PollOnce(all, store, ps[0]), FromOf(store, from, ps[0]), ps[1..])
  }

  lemma {:induction false} PollsLeaveNoGap(all: seq<Record>, store: Store, from: int, ps: seq<Poll>)
    requires History(all) && NoGap(all, from, store) && 0 <= from && PollsReadBack(all, store, ps)
    ensures var (last, since) := PollAll(all, store, from, ps); NoGap(all, since, last)
    decreases ps
  {
    if ps != [] {
      PollKeepsNoGap(all, store, from, ps[0]);
      PollsLeaveNoGap(all, PollOnce(all, store, ps[0]), FromOf(store, from, ps[0]), ps[1..]);
    }
  }
}
