/**
 The funding table, filled page by page in place (bot/hypertrade/engine/funding.py,
 bot/hypertrade/db/repo.py).
 */
module FundingTables {
  import opened Common
  import opened Funding
  import FundingLaws

  lemma InsertNext(store: Store, rs: seq<Record>, hs: seq<Holding>)
    requires rs != [] && forall r :: r in rs ==> r.event.Some?
    ensures forall r :: r in rs[1..] ==> r.event.Some?
    ensures var k := KeyOf(rs[0]);
            Insert(store, rs, hs) == Insert(if k in store then store else store[k := PaymentOf(rs[0], hs)], rs[1..], hs)
  {
  }

  class FundingTable {
    var payments: Store

    constructor ()
      ensures payments == map[]
    {
      payments := map[];
    }

    /** Insert, leaving a key that is already there alone; the keys written. */
    method InsertFundingPayments(rs: seq<Record>, hs: seq<Holding>) returns (written: set<Key>)
      requires forall r :: r in rs ==> r.event.Some?
      modifies this
      ensures payments == Insert(old(payments), rs, hs)
      ensures written == payments.Keys - old(payments).Keys
    {
      written := {};
      var i := 0;
      assert rs[0..] == rs;
      while i < |rs|
        invariant i <= |rs| && forall r :: r in rs[i..] ==> r.event.Some?
        invariant Insert(old(payments), rs, hs) == Insert(payments, rs[i..], hs)
        invariant payments.Keys == old(payments).Keys + written && written !! old(payments).Keys
      {
        var r := rs[i];
        InsertNext(payments, rs[i..], hs);
        assert rs[i..][0] == r && rs[i..][1..] == rs[i + 1..];
        if KeyOf(r) !in payments {
          written := written + {KeyOf(r)};
          payments := payments[KeyOf(r) := PaymentOf(r, hs)];
        }
        i := i + 1;
      }
    }
  }

  /** The storable records not read before, and the newest storable time. */
  method ReadPage(page: seq<Record>, seen: set<Key>) returns (events: seq<Record>, seen': set<Key>, newest: int)
    ensures events == Unseen(page, seen) && seen' == seen + Keys(page) && newest == Newest(page)
  {
    events, seen', newest := [], seen, 0;
    var i := 0;
    assert page[0..] == page;
    while i < |page|
      invariant i <= |page| && 0 <= newest
      invariant Unseen(page, seen) == events + Unseen(page[i..], seen')
      invariant seen' == seen + Keys(page[..i])
      invariant Newest(page) == if newest > Newest(page[i..]) then newest else Newest(page[i..])
    {
      var r := page[i];
      assert page[i..][0] == r && page[i..][1..] == page[i + 1..];
      KeysSnoc(page, i);
      if r.event.Some? {
        if r.ts > newest {
          newest := r.ts;
        }
        if KeyOf(r) !in seen' {
          seen' := seen' + {KeyOf(r)};
          events := events + [r];
        }
      }
      i := i + 1;
    }
    assert page[..i] == page;
  }

  lemma KeysSnoc(page: seq<Record>, i: nat)
    requires i < |page|
    ensures Keys(page[..i + 1]) == Keys(page[..i]) + if page[i].event.Some? then {KeyOf(page[i])} else {}
  {
    assert page[..i + 1] == page[..i] + [page[i]];
  }

  method Total(rs: seq<Record>) returns (usdc: real)
    requires forall r :: r in rs ==> r.event.Some?
    ensures usdc == Amount(rs)
  {
    usdc := 0.0;
    var i := 0;
    assert rs[0..] == rs;
    while i < |rs|
      invariant i <= |rs| && Amount(rs) == usdc + Amount(rs[i..])
    {
      assert rs[i..][0] == rs[i] && rs[i..][1..] == rs[i + 1..];
      usdc := usdc + rs[i].event.value.usdc;
      i := i + 1;
    }
  }

  lemma LackingNext(events: seq<Record>, had: Store, i: nat)
    requires i < |events| && forall r :: r in events ==> r.event.Some?
    ensures Lacking(had, events[i..])
         == (if KeyOf(events[i]) in had then [] else [events[i]]) + Lacking(had, events[i + 1..])
  {
    assert events[i..][0] == events[i] && events[i..][1..] == events[i + 1..];
  }

  /** The events a table lacks. */
  method Missing(events: seq<Record>, had: Store) returns (missing: seq<Record>)
    requires forall r :: r in events ==> r.event.Some?
    ensures missing == Lacking(had, events)
  {
    missing := [];
    var i := 0;
    assert events[0..] == events;
    while i < |events|
      invariant i <= |events| && Lacking(had, events) == missing + Lacking(had, events[i..])
    {
      LackingNext(events, had, i);
      var found := if KeyOf(events[i]) in had then [] else [events[i]];
      Chain(Lacking(had, events), missing, Lacking(had, events[i..]), found, Lacking(had, events[i + 1..]));
      missing := missing + found;
      i := i + 1;
    }
  }

  /** `_ingest_page`: store, or on a dry run only count, one page. */
  method StorePage(table: FundingTable, j: Job, page: seq<Record>, events: seq<Record>, tally: Tally, ghost s: State)
    returns (tally': Tally)
    requires s.store == table.payments && s.tally == tally && events == Unseen(page, s.seen)
    modifies table
    ensures var s' := IngestPage(j, s, page);
            table.payments == s'.store && tally' == s'.tally && s'.seen == s.seen + Keys(page)
  {
    UnseenStorable(page, s.seen);
    LackingSubset(table.payments, events);
    var missing := Missing(events, table.payments);
    var usdc := Total(events);
    var addedUsdc := Total(missing);
    if j.apply {
      var _ := table.InsertFundingPayments(events, j.holdings);
    }
    tally' := tally.(pages := tally.pages + 1, events := tally.events + |events|, added := tally.added + |missing|,
                     usdc := tally.usdc + usdc, addedUsdc := tally.addedUsdc + addedUsdc);
  }

  /** One answered page: whether to go on, and from where. */
  method ServePage(table: FundingTable, j: Job, page: seq<Record>, stores: Storing, k: nat, seen: set<Key>, cursor: int,
                   tally: Tally) returns (seen': set<Key>, cursor': int, tally': Tally, raised: bool, more: bool)
    modifies table
    ensures (State(table.payments, seen', cursor', k, tally', raised), more)
         == Served(j, State(old(table.payments), seen, cursor, k, tally, false), page, stores)
  {
    seen', cursor', tally', raised, more := seen, cursor, tally, false, false;
    if page == [] {
      return;
    }
    var events, seen1, newest := ReadPage(page, seen);
    UnseenStorable(page, seen);
    if !stores.Works? && events != [] {
      tally', raised := Unstored(tally, events, stores), true;
      return;
    }
    tally' := StorePage(table, j, page, events, tally, State(table.payments, seen, cursor, k, tally, false));
    seen' := seen1;
    if |page| < PAGE_CAP {
      return;
    }
    if newest <= cursor || (j.maxPages.Some? && tally'.pages >= j.maxPages.value) {
      tally' := tally'.(complete := false);
      return;
    }
    cursor', more := newest, true;
  }

  /** The run from `s` on ends where the whole run ends. */
  ghost predicate OnCourse(j: Job, start: State, s: State, more: bool)
    requires History(j.all)
  {
    if more then !s.raised && Ingest(j, start) == Ingest(j, s) else Ingest(j, start) == s
  }

  lemma CourseTurn(j: Job, start: State, s: State, s1: State, more: bool)
    requires History(j.all) && OnCourse(j, start, s, true) && (s1, more) == Turn(j, s)
    ensures OnCourse(j, start, s1, more)
    ensures more ==> s.cursor < s1.cursor <= Bound(j.all)
  {
    FundingLaws.IngestUnfolds(j, s, s1, more);
    FundingLaws.TurnProgress(j, s, s1, more);
  }

  /** One turn of the paging loop: a fetch and what it serves. */
  method OneTurn(table: FundingTable, j: Job, k: nat, seen: set<Key>, cursor: int, tally: Tally)
    returns (seen': set<Key>, cursor': int, tally': Tally, raised: bool, more: bool)
    modifies table
    ensures (State(table.payments, seen', cursor', k + 1, tally', raised), more)
         == Turn(j, State(old(table.payments), seen, cursor, k, tally, false))
  {
    seen', cursor', tally', raised, more := seen, cursor, tally, false, false;
    match j.answers(k) {
      case FetchFails => raised := true;
      case Blank =>
      case Serves(visible, stores) =>
        var page := Page(j.all, visible, cursor, j.endMs);
        seen', cursor', tally', raised, more := ServePage(table, j, page, stores, k + 1, seen, cursor, tally);
    }
  }

  /** `ingest_funding` on a table; with `apply` off it only counts. */
  method IngestFunding(table: FundingTable, j: Job, startMs: int) returns (tally: Tally, raised: bool)
    requires History(j.all)
    modifies table
    ensures var last := Ingest(j, Begin(old(table.payments), startMs));
            table.payments == last.store && tally == last.tally && raised == last.raised
  {
    tally, raised := Tally(0, 0, 0, 0.0, 0.0, true), false;
    var seen, cursor, k, more := {}, startMs, 0, true;
    ghost var start := State(table.payments, seen, cursor, k, tally, false);
    while more
      invariant OnCourse(j, start, State(table.payments, seen, cursor, k, tally, raised), more)
      decreases more, Bound(j.all) - cursor
    {
      ghost var s := State(table.payments, seen, cursor, k, tally, false);
      seen, cursor, tally, raised, more := OneTurn(table, j, k, seen, cursor, tally);
      k := k + 1;
      CourseTurn(j, start, s, State(table.payments, seen, cursor, k, tally, raised), more);
    }
  }
}
