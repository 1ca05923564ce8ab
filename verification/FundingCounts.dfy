/**
 What a funding ingest counts and adds up, payment by payment
 (bot/hypertrade/engine/funding.py).
 */
module FundingCountLaws {
  import opened Common
  import opened Funding
  import opened FundingLaws

  /** The amounts of some events. */
  function Usdc(rs: seq<Record>): real {
    if rs == [] then 0.0
    else
      var n := |rs| - 1;
      Usdc(rs[..n]) + if rs[n].event.Some? then rs[n].event.value.usdc else 0.0
  }

  lemma {:induction false} UsdcAdds(a: seq<Record>, b: seq<Record>)
    ensures Usdc(a + b) == Usdc(a) + Usdc(b)
  {
    if b == [] {
      assert a + b == a;
    } else {
      var n := |b| - 1;
      assert (a + b)[..|a| + n] == a + b[..n];
      UsdcAdds(a, b[..n]);
    }
  }

  lemma {:induction false} AmountIsUsdc(rs: seq<Record>)
    requires forall r :: r in rs ==> r.event.Some?
    ensures Amount(rs) == Usdc(rs)
  {
    if rs != [] {
      AmountIsUsdc(rs[1..]);
      UsdcAdds([rs[0]], rs[1..]);
      assert rs == [rs[0]] + rs[1..] && [rs[0]][..0] == [];
    }
  }

  /** Storable events of the history, asked for, each key once. */
  ghost predicate Events(j: Job, cursor: int, rs: seq<Record>) {
    && (forall r :: r in rs ==>
          r.event.Some? && r in j.all && cursor <= r.ts && (j.endMs.Some? ==> r.ts <= j.endMs.value))
    && forall a, b :: 0 <= a < b < |rs| ==> KeyOf(rs[a]) != KeyOf(rs[b])
  }

  ghost predicate EventsOf(j: Job, cursor: int, rs: seq<Record>, keys: set<Key>) {
    Events(j, cursor, rs) && forall k :: k in keys <==> exists r :: r in rs && KeyOf(r) == k
  }

  lemma EventsAppend(j: Job, cursor: int, later: int, a: seq<Record>, b: seq<Record>, ka: set<Key>, kb: set<Key>)
    requires EventsOf(j, cursor, a, ka) && EventsOf(j, later, b, kb) && cursor <= later && ka !! kb
    ensures EventsOf(j, cursor, a + b, ka + kb)
  {
    var both := a + b;
    forall r ensures r in both <==> r in a || r in b {
    }
    forall x, y | 0 <= x < y < |both| ensures KeyOf(both[x]) != KeyOf(both[y]) {
      if x < |a| <= y {
        assert both[x] in a && both[y] in b;
        assert KeyOf(both[x]) in ka && KeyOf(both[y]) in kb;
      }
    }
  }

  /** One page: the events read from it now, and those of them the table lacked. */
  lemma PageEvents(j: Job, s: State, page: seq<Record>, visible: nat)
    requires page == Page(j.all, visible, s.cursor, j.endMs)
    ensures var s1, unread := IngestPage(j, s, page), Unseen(page, s.seen);
            && EventsOf(j, s.cursor, unread, s1.seen - s.seen) && s.seen <= s1.seen
            && s1.tally.events == s.tally.events + |unread| && s1.tally.usdc == s.tally.usdc + Usdc(unread)
  {
    var unread := Unseen(page, s.seen);
    UnseenStorable(page, s.seen);
    UnseenDistinct(page, s.seen);
    UnseenCovers(page, s.seen);
    AmountIsUsdc(unread);
    forall r | r in unread ensures r in j.all && s.cursor <= r.ts && (j.endMs.Some? ==> r.ts <= j.endMs.value) {
      assert r in page && Asked(r, s.cursor, j.endMs);
    }
    assert forall k :: k in Keys(unread) <==> exists r :: r in unread && KeyOf(r) == k;
    assert s.seen + Keys(page) - s.seen == Keys(unread);
  }

  /** The page an ingest was last served, and how storing it went. */
  function LastPage(j: Job, last: State): seq<Record>
    requires last.fetched > 0
  {
    match j.answers(last.fetched - 1)
    case Serves(visible, _) => Page(j.all, visible, last.cursor, j.endMs)
    case _ => []
  }

  /** What was counted of the last page although it could not be written. */
  function Unwritten(j: Job, last: State): seq<Record>
    requires last.fetched > 0
  {
    if last.raised && j.answers(last.fetched - 1).Serves? && j.answers(last.fetched - 1).stores.NoWrite?
    then Unseen(LastPage(j, last), last.seen) else []
  }

  /** Over a whole ingest the events counted and their amount are those of the events
      read, each once and none from outside what was asked for; and, when it ends on a
      page that could not be written, those of that page. */
  lemma {:induction false} ReadIsCounted(j: Job, s: State, last: State) returns (read: seq<Record>)
    requires History(j.all) && last == Ingest(j, s) && !s.raised
    ensures EventsOf(j, s.cursor, read, last.seen - s.seen) && s.seen <= last.seen && last.fetched > s.fetched
    ensures last.tally.events == s.tally.events + |read| + |Unwritten(j, last)|
    ensures last.tally.usdc == s.tally.usdc + Usdc(read) + Usdc(Unwritten(j, last))
    decreases Bound(j.all) - s.cursor
  {
    var (s1, more) := Turn(j, s);
    IngestUnfolds(j, s, s1, more);
    TurnProgress(j, s, s1, more);
    if more { TurnKeepsRaised(j, s, s1, more); }
    var first := TurnEvents(j, s, s1, more);
    if more {
      var rest := ReadIsCounted(j, s1, last);
      read := first + rest;
      EventsAppend(j, s.cursor, s1.cursor, first, rest, s1.seen - s.seen, last.seen - s1.seen);
      assert last.seen - s.seen == (s1.seen - s.seen) + (last.seen - s1.seen);
      UsdcAdds(first, rest);
    } else {
      read := first;
    }
  }

  lemma TurnKeepsRaised(j: Job, s: State, s1: State, more: bool)
    requires (s1, more) == Turn(j, s) && more
    ensures s1.raised == s.raised
  {
  }

  lemma TurnEvents(j: Job, s: State, s1: State, more: bool) returns (read: seq<Record>)
    requires History(j.all) && (s1, more) == Turn(j, s) && !s.raised
    ensures EventsOf(j, s.cursor, read, s1.seen - s.seen) && s.seen <= s1.seen && s1.fetched > 0
    ensures s1.tally.events == s.tally.events + |read| + |Unwritten(j, s1)|
    ensures s1.tally.usdc == s.tally.usdc + Usdc(read) + Usdc(Unwritten(j, s1))
  {
    read := [];
    var answer := j.answers(s.fetched);
    if answer.Serves? {
      var page := Page(j.all, answer.visible, s.cursor, j.endMs);
      read := if page == [] || s1.raised then [] else Unseen(page, s.seen);
      ServedEvents(j, s.(fetched := s.fetched + 1), s1, more, page, answer);
      assert s1.raised ==> LastPage(j, s1) == page;
      assert Unwritten(j, s1) == if s1.raised && answer.stores.NoWrite? then Unseen(page, s.seen) else [];
    }
  }

  lemma ServedEvents(j: Job, s: State, s1: State, more: bool, page: seq<Record>, answer: Answer)
    requires answer.Serves? && page == Page(j.all, answer.visible, s.cursor, j.endMs)
    requires (s1, more) == Served(j, s, page, answer.stores) && !s.raised
    ensures var read := if page == [] || s1.raised then [] else Unseen(page, s.seen);
            var unwritten := if s1.raised && answer.stores.NoWrite? then Unseen(page, s.seen) else [];
            && EventsOf(j, s.cursor, read, s1.seen - s.seen) && s.seen <= s1.seen && s1.fetched == s.fetched
            && s1.tally.events == s.tally.events + |read| + |unwritten|
            && s1.tally.usdc == s.tally.usdc + Usdc(read) + Usdc(unwritten)
            && (s1.raised ==> s1.cursor == s.cursor && s1.seen == s.seen)
  {
    if s1.raised {
      UnseenStorable(page, s.seen);
      AmountIsUsdc(Unseen(page, s.seen));
    } else if page != [] {
      PageEvents(j, s, page, answer.visible);
    }
  }

  // ----- What the table gains -------------------------------------------------

  /** The payments of `rs` are in the table, each with its event's amount and the
      strategy it is attributed to. */
  ghost predicate Paid(j: Job, store: Store, rs: seq<Record>) {
    forall r :: r in rs && r.event.Some? ==>
      KeyOf(r) in store && store[KeyOf(r)].usdc == r.event.value.usdc
      && store[KeyOf(r)].strategy == Attribute(j.holdings, r.event.value.coin, r.ts, r.event.value.szi)
  }

  lemma {:induction false} InsertPays(store: Store, rs: seq<Record>, hs: seq<Holding>, r: Record)
    requires (forall x :: x in rs ==> x.event.Some?) && DistinctKeys(rs) && r in rs && KeyOf(r) !in store
    ensures KeyOf(r) in Insert(store, rs, hs) && Insert(store, rs, hs)[KeyOf(r)] == PaymentOf(r, hs)
    decreases rs
  {
    var k := KeyOf(rs[0]);
    var next := if k in store then store else store[k := PaymentOf(rs[0], hs)];
    if r == rs[0] {
      InsertExact(next, rs[1..], hs);
    } else {
      assert r in rs[1..];
      var i :| 0 <= i < |rs| && rs[i] == r;
      InsertPays(next, rs[1..], hs, r);
    }
  }

  lemma {:induction false} LackingDistinct(store: Store, rs: seq<Record>)
    requires (forall r :: r in rs ==> r.event.Some?) && DistinctKeys(rs)
    ensures forall r :: r in Lacking(store, rs) ==> r.event.Some?
    ensures DistinctKeys(Lacking(store, rs))
    decreases rs
  {
    LackingSubset(store, rs);
    if rs != [] {
      LackingDistinct(store, rs[1..]);
      LackingSubset(store, rs[1..]);
      var rest := Lacking(store, rs[1..]);
      forall i | 0 <= i < |rest| ensures KeyOf(rest[i]) != KeyOf(rs[0]) {
        assert rest[i] in rest && rest[i] in rs[1..];
        var n :| 0 <= n < |rs[1..]| && rs[1..][n] == rest[i];
        assert rs[n + 1] == rest[i];
      }
    }
  }

  lemma PageGains(j: Job, s: State, page: seq<Record>, visible: nat, unread: seq<Record>)
    requires page == Page(j.all, visible, s.cursor, j.endMs) && j.apply
    requires unread == Unseen(page, s.seen) && forall r :: r in unread ==> r.event.Some?
    ensures var s1, gained := IngestPage(j, s, page), Lacking(s.store, unread);
            && EventsOf(j, s.cursor, gained, s1.store.Keys - s.store.Keys) && Paid(j, s1.store, gained)
            && s1.tally.added == s.tally.added + |gained| && s1.tally.addedUsdc == s.tally.addedUsdc + Usdc(gained)
            && s.store.Keys <= s1.store.Keys && forall k :: k in s.store ==> s1.store[k] == s.store[k]
  {
    var s1, gained := IngestPage(j, s, page), Lacking(s.store, unread);
    UnseenStorable(page, s.seen);
    UnseenDistinct(page, s.seen);
    LackingSubset(s.store, unread);
    LackingDistinct(s.store, unread);
    InsertExact(s.store, unread, j.holdings);
    AmountIsUsdc(gained);
    forall r | r in gained ensures r in j.all && s.cursor <= r.ts && (j.endMs.Some? ==> r.ts <= j.endMs.value) {
      assert r in page && Asked(r, s.cursor, j.endMs);
    }
    forall r | r in gained ensures KeyOf(r) in s1.store && s1.store[KeyOf(r)] == PaymentOf(r, j.holdings) {
      InsertPays(s.store, unread, j.holdings, r);
    }
    forall k ensures k in s1.store.Keys - s.store.Keys <==> exists r :: r in gained && KeyOf(r) == k {
      assert k in Keys(unread) <==> exists r :: r in unread && KeyOf(r) == k;
    }
  }

  lemma TurnGains(j: Job, s: State, s1: State, more: bool) returns (gained: seq<Record>)
    requires History(j.all) && (s1, more) == Turn(j, s) && j.apply
    ensures EventsOf(j, s.cursor, gained, s1.store.Keys - s.store.Keys) && Paid(j, s1.store, gained)
    ensures s1.tally.added == s.tally.added + |gained| && s1.tally.addedUsdc == s.tally.addedUsdc + Usdc(gained)
    ensures s.store.Keys <= s1.store.Keys && forall k :: k in s.store ==> s1.store[k] == s.store[k]
  {
    gained := [];
    var answer := j.answers(s.fetched);
    if answer.Serves? {
      var page := Page(j.all, answer.visible, s.cursor, j.endMs);
      gained := ServedGains(j, s.(fetched := s.fetched + 1), s1, more, page, answer);
    }
  }

  lemma ServedGains(j: Job, s: State, s1: State, more: bool, page: seq<Record>, answer: Answer)
    returns (gained: seq<Record>)
    requires answer.Serves? && page == Page(j.all, answer.visible, s.cursor, j.endMs)
    requires (s1, more) == Served(j, s, page, answer.stores) && j.apply
    ensures EventsOf(j, s.cursor, gained, s1.store.Keys - s.store.Keys) && Paid(j, s1.store, gained)
    ensures s1.tally.added == s.tally.added + |gained| && s1.tally.addedUsdc == s.tally.addedUsdc + Usdc(gained)
    ensures s.store.Keys <= s1.store.Keys && forall k :: k in s.store ==> s1.store[k] == s.store[k]
  {
    gained := [];
    var paged := IngestPage(j, s, page);
    if page != [] && (answer.stores.Works? || Unseen(page, s.seen) == []) {
      gained := PageGained(j, s, page, answer.visible);
      ServedPages(j, s, s1, more, page, answer.stores, paged);
    } else {
      ServedNothing(j, s, s1, more, page, answer.stores);
    }
  }

  lemma PageGained(j: Job, s: State, page: seq<Record>, visible: nat) returns (gained: seq<Record>)
    requires page == Page(j.all, visible, s.cursor, j.endMs) && j.apply
    ensures var s1 := IngestPage(j, s, page);
            && EventsOf(j, s.cursor, gained, s1.store.Keys - s.store.Keys) && Paid(j, s1.store, gained)
            && s1.tally.added == s.tally.added + |gained| && s1.tally.addedUsdc == s.tally.addedUsdc + Usdc(gained)
            && s.store.Keys <= s1.store.Keys && forall k :: k in s.store ==> s1.store[k] == s.store[k]
  {
    UnseenStorable(page, s.seen);
    gained := Lacking(s.store, Unseen(page, s.seen));
    PageGains(j, s, page, visible, Unseen(page, s.seen));
  }

  lemma ServedPages(j: Job, s: State, s1: State, more: bool, page: seq<Record>, stores: Storing, paged: State)
    requires (s1, more) == Served(j, s, page, stores) && paged == IngestPage(j, s, page)
    requires page != [] && (stores.Works? || Unseen(page, s.seen) == [])
    ensures s1.store == paged.store && s1.tally.added == paged.tally.added
    ensures s1.tally.addedUsdc == paged.tally.addedUsdc
  {
  }

  lemma ServedNothing(j: Job, s: State, s1: State, more: bool, page: seq<Record>, stores: Storing)
    requires (s1, more) == Served(j, s, page, stores)
    requires page == [] || (!stores.Works? && Unseen(page, s.seen) != [])
    ensures s1.store == s.store && s1.tally.added == s.tally.added && s1.tally.addedUsdc == s.tally.addedUsdc
  {
  }

  /** And what the table gained, even when the ingest is cut short, is the events
      reported as new: as many, of that amount, each stored with its own amount and
      attribution, none from outside what was asked for. */
  lemma {:induction false} GainIsReported(j: Job, s: State, last: State) returns (gained: seq<Record>)
    requires History(j.all) && last == Ingest(j, s) && j.apply
    ensures EventsOf(j, s.cursor, gained, last.store.Keys - s.store.Keys) && Paid(j, last.store, gained)
    ensures last.tally.added == s.tally.added + |gained| && last.tally.addedUsdc == s.tally.addedUsdc + Usdc(gained)
    ensures s.store.Keys <= last.store.Keys && forall k :: k in s.store ==> last.store[k] == s.store[k]
    decreases Bound(j.all) - s.cursor
  {
    var (s1, more) := Turn(j, s);
    IngestUnfolds(j, s, s1, more);
    TurnProgress(j, s, s1, more);
    var first := TurnGains(j, s, s1, more);
    if more {
      var rest := GainIsReported(j, s1, last);
      gained := first + rest;
      EventsAppend(j, s.cursor, s1.cursor, first, rest, s1.store.Keys - s.store.Keys, last.store.Keys - s1.store.Keys);
      assert last.store.Keys - s.store.Keys == (s1.store.Keys - s.store.Keys) + (last.store.Keys - s1.store.Keys);
      UsdcAdds(first, rest);
    } else {
      gained := first;
    }
  }

  // ----- Ends -----------------------------------------------------------------

  /** Nothing fails: every fetch answers, and every page can be stored. */
  ghost predicate Works(j: Job) {
    forall k: nat :: j.answers(k).Blank? || (j.answers(k).Serves? && j.answers(k).stores == Storing.Works)
  }

  /** No full page ends where it was asked from, and there is no page limit. */
  ghost predicate NeverStuck(j: Job) {
    j.maxPages.None? &&
    forall visible: nat, cursor: int :: |Page(j.all, visible, cursor, j.endMs)| == 500 ==>
      cursor < Newest(Page(j.all, visible, cursor, j.endMs))
  }

  lemma {:induction false} EndsWell(j: Job, s: State, last: State)
    requires History(j.all) && last == Ingest(j, s)
    ensures Works(j) && !s.raised ==> !last.raised
    ensures NeverStuck(j) && s.tally.complete ==> last.tally.complete
    decreases Bound(j.all) - s.cursor
  {
    var (s1, more) := Turn(j, s);
    IngestUnfolds(j, s, s1, more);
    TurnProgress(j, s, s1, more);
    TurnEndsWell(j, s, s1, more);
    if more {
      EndsWell(j, s1, last);
    }
  }

  lemma TurnEndsWell(j: Job, s: State, s1: State, more: bool)
    requires History(j.all) && (s1, more) == Turn(j, s)
    ensures Works(j) && !s.raised ==> !s1.raised
    ensures NeverStuck(j) && s.tally.complete ==> s1.tally.complete
  {
    if j.answers(s.fetched).Serves? {
      var page := Page(j.all, j.answers(s.fetched).visible, s.cursor, j.endMs);
    }
  }

  /** An ingest raises only where something fails, and is incomplete only where a full
      page ends where it was asked from, or at its page limit. */
  lemma IngestEndsWell(j: Job, store: Store, start: int)
    requires History(j.all)
    ensures Works(j) ==> !Ingest(j, Begin(store, start)).raised
    ensures NeverStuck(j) ==> Ingest(j, Begin(store, start)).tally.complete
  {
    EndsWell(j, Begin(store, start), Ingest(j, Begin(store, start)));
  }

  /** Storing failed while an event of the page had not been read before. */
  ghost predicate NotStored(answer: Answer, page: seq<Record>, seen: set<Key>) {
    answer.Serves? && answer.stores != Storing.Works
    && exists r :: r in page && r.event.Some? && KeyOf(r) !in seen
  }

  /** A full page ended where it was asked from, or reached the page limit. */
  ghost predicate CutShort(j: Job, s: State, page: seq<Record>) {
    |page| == 500 && (Newest(page) <= s.cursor || (j.maxPages.Some? && s.tally.pages >= j.maxPages.value))
  }

  /** How an ingest ends, by its last fetch: it raises exactly when that failed or brought
      an event not read before that could not be stored; and it is incomplete exactly
      when that brought a full page which ended where it was asked from, or was the last
      of a page limit. Every fetch with something on it counts as a page. */
  lemma {:induction false} EndsHow(j: Job, s: State, last: State)
    requires History(j.all) && last == Ingest(j, s) && s.tally.complete && !s.raised
    ensures last.fetched > s.fetched
    ensures var answer, page := j.answers(last.fetched - 1), LastPage(j, last);
            && (last.raised <==> answer.FetchFails? || NotStored(answer, page, last.seen))
            && (!last.tally.complete <==> !last.raised && CutShort(j, last, page))
            && last.tally.pages - s.tally.pages == last.fetched - s.fetched - (if page == [] then 1 else 0)
    decreases Bound(j.all) - s.cursor
  {
    var (s1, more) := Turn(j, s);
    IngestUnfolds(j, s, s1, more);
    TurnProgress(j, s, s1, more);
    if more {
      TurnGoesOn(j, s, s1);
      EndsHow(j, s1, last);
    } else {
      TurnEnds(j, s, s1);
    }
  }

  /** A turn goes on exactly after a full page that moved on, below the page limit. */
  lemma TurnGoesOn(j: Job, s: State, s1: State)
    requires History(j.all) && (s1, true) == Turn(j, s)
    ensures s1.tally.complete == s.tally.complete && s1.raised == s.raised && s1.tally.pages == s.tally.pages + 1
    ensures j.maxPages.Some? ==> s1.tally.pages < j.maxPages.value
  {
  }

  lemma UnreadIff(page: seq<Record>, seen: set<Key>)
    ensures Unseen(page, seen) != [] <==> exists r :: r in page && r.event.Some? && KeyOf(r) !in seen
  {
    UnseenStorable(page, seen);
    UnseenCovers(page, seen);
    if Unseen(page, seen) != [] {
      assert Unseen(page, seen)[0] in Unseen(page, seen);
    }
    if r :| r in page && r.event.Some? && KeyOf(r) !in seen {
      assert KeyOf(r) in Keys(page);
      assert KeyOf(r) in Keys(Unseen(page, seen));
    }
  }

  lemma TurnEnds(j: Job, s: State, s1: State)
    requires History(j.all) && (s1, false) == Turn(j, s) && s.tally.complete && !s.raised
    ensures s1.fetched == s.fetched + 1 && s1.cursor == s.cursor
    ensures var answer, page := j.answers(s.fetched), LastPage(j, s1);
            && (s1.raised <==> answer.FetchFails? || NotStored(answer, page, s1.seen))
            && (!s1.tally.complete <==> !s1.raised && CutShort(j, s1, page))
            && s1.tally.pages == s.tally.pages + (if page == [] then 0 else 1)
  {
    var answer := j.answers(s.fetched);
    if answer.Serves? {
      ServedEnds(j, s.(fetched := s.fetched + 1), s1, Page(j.all, answer.visible, s.cursor, j.endMs), answer);
    }
  }

  lemma ServedEnds(j: Job, s: State, s1: State, page: seq<Record>, answer: Answer)
    requires answer.Serves? && (s1, false) == Served(j, s, page, answer.stores) && s.tally.complete && !s.raised
    requires |page| <= 500
    ensures s1.fetched == s.fetched && s1.cursor == s.cursor
    ensures s1.raised <==> NotStored(answer, page, s1.seen)
    ensures !s1.tally.complete <==> !s1.raised && CutShort(j, s1, page)
    ensures s1.tally.pages == s.tally.pages + (if page == [] then 0 else 1)
  {
    UnreadIff(page, s.seen);
    if page != [] && !s1.raised {
      assert s1.seen == s.seen + Keys(page);
      NothingUnread(page, s1.seen);
    }
  }

  lemma NothingUnread(page: seq<Record>, seen: set<Key>)
    requires Keys(page) <= seen
    ensures forall r :: r in page && r.event.Some? ==> KeyOf(r) in seen
  {
    assert forall r :: r in page && r.event.Some? ==> KeyOf(r) in Keys(page);
  }

  /** The rows asked for beforehand are those that held a coin of the page at some time on
      it. */
  lemma CandidateIff(h: Holding, coins: set<string>, lo: int, hi: int)
    requires lo <= hi && (h.closedMs.Some? ==> h.openedMs < h.closedMs.value)
    ensures MayCover(h, coins, lo, hi) <==> h.coin in coins && exists ts :: lo <= ts <= hi && HeldThen(h, h.coin, ts)
  {
    if MayCover(h, coins, lo, hi) {
      assert HeldThen(h, h.coin, if h.openedMs < lo then lo else h.openedMs);
    }
  }
}
