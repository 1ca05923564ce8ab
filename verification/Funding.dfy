/**
 Funding payments: paging through the exchange's capped history and storing each
 payment once (bot/hypertrade/engine/funding.py).
 */
module Funding {
  import opened Common

  /** The exchange's cap on records per answer. */
  const PAGE_CAP: nat := 500

  datatype Event = Event(coin: string, usdc: real, szi: Option<real>)

  /** One raw record; `event` is None when it cannot be stored. */
  datatype Record = Record(ts: int, event: Option<Event>)

  datatype Key = Key(coin: string, ts: int)

  datatype Payment = Payment(usdc: real, strategy: Option<string>)

  type Store = map<Key, Payment>

  function KeyOf(r: Record): Key
    requires r.event.Some?
  {
    Key(r.event.value.coin, r.ts)
  }

  /** A storable record has a positive time. */
  predicate WellTimed(rs: seq<Record>) {
    forall r :: r in rs && r.event.Some? ==> r.ts > 0
  }

  predicate TimeOrdered(rs: seq<Record>) {
    forall i, j :: 0 <= i < j < |rs| ==> rs[i].ts <= rs[j].ts
  }

  /** The exchange's history: time-ordered, and only ever appended to. */
  predicate History(all: seq<Record>) {
    TimeOrdered(all) && WellTimed(all)
  }

  // ----- Attribution ------------------------------------------------------

  datatype Holding = Holding(strategy: string, coin: string, side: Side, openedMs: int, closedMs: Option<int>,
                             isOpen: bool)

  /** Held at `ts`: from its opening up to, not including, its close. */
  predicate Covers(h: Holding, ts: int) {
    h.openedMs <= ts && if h.closedMs.None? then h.isOpen else ts < h.closedMs.value
  }

  function Covering(hs: seq<Holding>, coin: string, ts: int): seq<Holding> {
    Keep(hs, (h: Holding) => h.coin == coin && Covers(h, ts))
  }

  /** The one position a payment was made on, or nobody. */
  function Attribute(hs: seq<Holding>, coin: string, ts: int, szi: Option<real>): Option<string> {
    var covering := Covering(hs, coin, ts);
    if |covering| == 1 then Some(covering[0].strategy)
    else if |covering| > 1 && szi.Some? && szi.value != 0.0 then
      var side := if szi.value > 0.0 then Long else Short;
      var matching := Keep(covering, (h: Holding) => h.side == side);
      if |matching| == 1 then Some(matching[0].strategy) else None
    else None
  }

  /** `get_positions_covering`: the rows that may matter to a page. */
  predicate MayCover(h: Holding, coins: set<string>, lo: int, hi: int) {
    && h.coin in coins && h.openedMs <= hi
    && if h.closedMs.Some? then h.closedMs.value > lo else h.isOpen
  }

  function Candidates(hs: seq<Holding>, coins: set<string>, lo: int, hi: int): seq<Holding> {
    Keep(hs, (h: Holding) => MayCover(h, coins, lo, hi))
  }

  /** Asking only for the rows that overlap the page changes no attribution. */
  lemma PrefilterIsHarmless(hs: seq<Holding>, coins: set<string>, lo: int, hi: int, coin: string, ts: int,
                            szi: Option<real>)
    requires coin in coins && lo <= ts <= hi
    ensures Attribute(Candidates(hs, coins, lo, hi), coin, ts, szi) == Attribute(hs, coin, ts, szi)
  {
    KeepKeep(hs, (h: Holding) => MayCover(h, coins, lo, hi), (h: Holding) => h.coin == coin && Covers(h, ts),
             (h: Holding) => h.coin == coin && Covers(h, ts));
  }

  /** Held on the coin at the time: opened by then, and open still or closed later. */
  predicate HeldThen(h: Holding, coin: string, ts: int) {
    h.coin == coin && h.openedMs <= ts && (if h.closedMs.Some? then ts < h.closedMs.value else h.isOpen)
  }

  /** Who a payment is for: the strategy of the one position held then; or, with
      several, of the one on the side the paid size was on. */
  ghost predicate PaidOn(hs: seq<Holding>, coin: string, ts: int, szi: Option<real>, i: int) {
    && 0 <= i < |hs| && HeldThen(hs[i], coin, ts)
    && ((forall j :: 0 <= j < |hs| && j != i ==> !HeldThen(hs[j], coin, ts)) ||
        (szi.Some? && szi.value != 0.0 && hs[i].side == (if szi.value > 0.0 then Long else Short)
         && forall j :: 0 <= j < |hs| && j != i && HeldThen(hs[j], coin, ts) ==> hs[j].side != hs[i].side))
  }

  lemma CoveringIs(hs: seq<Holding>, coin: string, ts: int)
    ensures Covering(hs, coin, ts) == Keep(hs, (h: Holding) => HeldThen(h, coin, ts))
  {
    KeepCong(hs, (h: Holding) => h.coin == coin && Covers(h, ts), (h: Holding) => HeldThen(h, coin, ts));
  }

  /** Those of them on one side. */
  lemma SidedIs(hs: seq<Holding>, coin: string, ts: int, side: Side)
    ensures Keep(Covering(hs, coin, ts), (h: Holding) => h.side == side)
         == Keep(hs, (h: Holding) => HeldThen(h, coin, ts) && h.side == side)
  {
    CoveringIs(hs, coin, ts);
    KeepKeep(hs, (h: Holding) => HeldThen(h, coin, ts), (h: Holding) => h.side == side,
             (h: Holding) => HeldThen(h, coin, ts) && h.side == side);
  }

  /** A payment on such a position is attributed to its strategy. */
  lemma PaidIsAttributed(hs: seq<Holding>, coin: string, ts: int, szi: Option<real>, i: int)
    requires PaidOn(hs, coin, ts, szi, i)
    ensures Attribute(hs, coin, ts, szi) == Some(hs[i].strategy)
  {
    var held := (h: Holding) => HeldThen(h, coin, ts);
    CoveringIs(hs, coin, ts);
    KeepMember(hs, held, hs[i]);
    if Only(hs, held, i) {
      OnlyKept(hs, held, i);
    } else {
      var side := hs[i].side;
      SidedIs(hs, coin, ts, side);
      OnlyKept(hs, (h: Holding) => HeldThen(h, coin, ts) && h.side == side, i);
      if |Keep(hs, held)| == 1 {
        var n := OneKept(hs, held);
      }
    }
  }

  /** And any other to nobody. */
  lemma AttributedIsPaid(hs: seq<Holding>, coin: string, ts: int, szi: Option<real>) returns (i: int)
    requires Attribute(hs, coin, ts, szi).Some?
    ensures PaidOn(hs, coin, ts, szi, i) && Attribute(hs, coin, ts, szi) == Some(hs[i].strategy)
  {
    CoveringIs(hs, coin, ts);
    if |Covering(hs, coin, ts)| == 1 {
      i := OneKept(hs, (h: Holding) => HeldThen(h, coin, ts));
    } else {
      var side := if szi.value > 0.0 then Long else Short;
      SidedIs(hs, coin, ts, side);
      i := OneKept(hs, (h: Holding) => HeldThen(h, coin, ts) && h.side == side);
    }
    PaidIsAttributed(hs, coin, ts, szi, i);
  }

  // ----- One page ---------------------------------------------------------

  /** The storable records not read before, each key once. */
  function Unseen(page: seq<Record>, seen: set<Key>): seq<Record> {
    if page == [] then []
    else if page[0].event.None? || KeyOf(page[0]) in seen then Unseen(page[1..], seen)
    else [page[0]] + Unseen(page[1..], seen + {KeyOf(page[0])})
  }

  /** The newest storable time on a page, or 0. */
  function Newest(page: seq<Record>): (newest: int)
    ensures 0 <= newest
  {
    if page == [] then 0
    else
      var rest := Newest(page[1..]);
      if page[0].event.Some? && page[0].ts > rest then page[0].ts else rest
  }

  function PaymentOf(r: Record, hs: seq<Holding>): Payment
    requires r.event.Some?
  {
    var e := r.event.value;
    Payment(e.usdc, Attribute(hs, e.coin, r.ts, e.szi))
  }

  /** Insert, leaving a key that is already there alone. */
  function Insert(store: Store, rs: seq<Record>, hs: seq<Holding>): Store
    requires forall r :: r in rs ==> r.event.Some?
    decreases rs
  {
    if rs == [] then store
    else
      var k := KeyOf(rs[0]);
      Insert(if k in store then store else store[k := PaymentOf(rs[0], hs)], rs[1..], hs)
  }

  function Lacking(store: Store, rs: seq<Record>): seq<Record>
    requires forall r :: r in rs ==> r.event.Some?
    decreases rs
  {
    if rs == [] then []
    else (if KeyOf(rs[0]) in store then [] else [rs[0]]) + Lacking(store, rs[1..])
  }

  function Amount(rs: seq<Record>): real
    requires forall r :: r in rs ==> r.event.Some?
  {
    if rs == [] then 0.0 else rs[0].event.value.usdc + Amount(rs[1..])
  }

  lemma {:induction false} LackingSubset(store: Store, rs: seq<Record>)
    requires forall r :: r in rs ==> r.event.Some?
    ensures forall r :: r in Lacking(store, rs) <==> r in rs && KeyOf(r) !in store
  {
    if rs != [] {
      LackingSubset(store, rs[1..]);
    }
  }

  lemma {:induction false} UnseenStorable(page: seq<Record>, seen: set<Key>)
    ensures forall r :: r in Unseen(page, seen) ==> r in page && r.event.Some? && KeyOf(r) !in seen
  {
    if page != [] {
      if page[0].event.None? || KeyOf(page[0]) in seen {
        UnseenStorable(page[1..], seen);
      } else {
        UnseenStorable(page[1..], seen + {KeyOf(page[0])});
      }
    }
  }

  function Keys(rs: seq<Record>): set<Key> {
    set r | r in rs && r.event.Some? :: KeyOf(r)
  }

  // ----- The whole ingest -------------------------------------------------

  /** What one fetch does. `Serves` answers from the first `visible` records of
      the history, and says how storing the page then goes; a lenient fetch may
      also answer a failure with an empty page. */
  datatype Answer = Serves(visible: nat, stores: Storing) | Blank | FetchFails

  /** Storing works, the positions of the page cannot be read, or its payments
      cannot be written or, on a dry run, looked up. */
  datatype Storing = Works | NoPositions | NoWrite

  datatype Tally = Tally(pages: nat, events: nat, added: nat, usdc: real, addedUsdc: real, complete: bool)

  /** What a run of pages is about. */
  datatype Job = Job(all: seq<Record>, holdings: seq<Holding>, answers: nat -> Answer, endMs: Option<int>,
                     maxPages: Option<nat>, apply: bool)

  /** Where it stands before the `fetched`-th fetch. */
  datatype State = State(store: Store, seen: set<Key>, cursor: int, fetched: nat, tally: Tally, raised: bool)

  function Begin(store: Store, startMs: int): State {
    State(store, {}, startMs, 0, Tally(0, 0, 0, 0.0, 0.0, true), false)
  }

  predicate Asked(r: Record, cursor: int, endMs: Option<int>) {
    r.ts >= cursor && (endMs.Some? ==> r.ts <= endMs.value)
  }

  function Visible(all: seq<Record>, visible: nat): seq<Record> {
    if visible <= |all| then all[..visible] else all
  }

  function Matching(all: seq<Record>, visible: nat, cursor: int, endMs: Option<int>): seq<Record> {
    Keep(Visible(all, visible), (r: Record) => Asked(r, cursor, endMs))
  }

  /** The oldest PAGE_CAP records asked for. */
  function Page(all: seq<Record>, visible: nat, cursor: int, endMs: Option<int>): (page: seq<Record>)
    ensures |page| <= PAGE_CAP
    ensures forall r :: r in page ==> r in all && Asked(r, cursor, endMs)
  {
    var matching := Matching(all, visible, cursor, endMs);
    if |matching| <= PAGE_CAP then matching else matching[..PAGE_CAP]
  }

  function Bound(all: seq<Record>): int {
    if all == [] || all[|all| - 1].ts < 0 then 0 else all[|all| - 1].ts
  }

  lemma {:induction false} NewestBounds(page: seq<Record>, bound: int)
    requires 0 <= bound && forall r :: r in page ==> r.ts <= bound
    ensures 0 <= Newest(page) <= bound
    ensures forall r :: r in page && r.event.Some? ==> r.ts <= Newest(page)
    ensures Newest(page) > 0 ==> exists r :: r in page && r.event.Some? && r.ts == Newest(page)
  {
    if page != [] {
      NewestBounds(page[1..], bound);
    }
  }

  lemma PageBounded(all: seq<Record>, page: seq<Record>)
    requires TimeOrdered(all) && forall r :: r in page ==> r in all
    ensures 0 <= Newest(page) <= Bound(all)
    ensures forall r :: r in page && r.event.Some? ==> r.ts <= Newest(page)
    ensures Newest(page) > 0 ==> exists r :: r in page && r.event.Some? && r.ts == Newest(page)
  {
    forall r | r in page ensures r.ts <= Bound(all) {
      var i :| 0 <= i < |all| && all[i] == r;
    }
    NewestBounds(page, Bound(all));
  }

  /** Store, or on a dry run only count, one page. */
  function IngestPage(j: Job, s: State, page: seq<Record>): State {
    UnseenStorable(page, s.seen);
    var unread := Unseen(page, s.seen);
    LackingSubset(s.store, unread);
    var lacking := Lacking(s.store, unread);
    var t := s.tally;
    s.(store := if j.apply then Insert(s.store, unread, j.holdings) else s.store,
       seen := s.seen + Keys(page),
       tally := t.(pages := t.pages + 1, events := t.events + |unread|, added := t.added + |lacking|,
                   usdc := t.usdc + Amount(unread), addedUsdc := t.addedUsdc + Amount(lacking)))
  }

  /** After a page: stop, give up, or go on from its newest time. */
  function PageOn(j: Job, s: State, page: seq<Record>): (State, bool) {
    if |page| < PAGE_CAP then (s, false)
    else if Newest(page) <= s.cursor || (j.maxPages.Some? && s.tally.pages >= j.maxPages.value) then
      (s.(tally := s.tally.(complete := false)), false)
    else (s.(cursor := Newest(page)), true)
  }

  /** A page that could not be stored: it counts as read, and its events too
      when only the last step failed. */
  function Unstored(t: Tally, unread: seq<Record>, stores: Storing): Tally
    requires forall r :: r in unread ==> r.event.Some?
  {
    var counted := t.(pages := t.pages + 1);
    if stores.NoWrite? then counted.(events := t.events + |unread|, usdc := t.usdc + Amount(unread)) else counted
  }

  /** A page has been answered. */
  function Served(j: Job, s: State, page: seq<Record>, stores: Storing): (State, bool) {
    UnseenStorable(page, s.seen);
    var unread := Unseen(page, s.seen);
    if page == [] then (s, false)
    else if !stores.Works? && unread != [] then (s.(raised := true, tally := Unstored(s.tally, unread, stores)), false)
    else PageOn(j, IngestPage(j, s, page), page)
  }

  /** One turn of the loop, and whether to go on. */
  function Turn(j: Job, s: State): (State, bool) {
    var s1 := s.(fetched := s.fetched + 1);
    match j.answers(s.fetched)
    case FetchFails => (s1.(raised := true), false)
    case Blank => (s1, false)
    case Serves(visible, stores) => Served(j, s1, Page(j.all, visible, s.cursor, j.endMs), stores)
  }

  /** `ingest_funding`: it ends, because the cursor strictly rises. */
  function Ingest(j: Job, s: State): State
    requires History(j.all)
    decreases Bound(j.all) - s.cursor
  {
    var (s1, more) := Turn(j, s);
    if more then
      assert s1.cursor <= Bound(j.all) by {
        PageBounded(j.all, Page(j.all, j.answers(s.fetched).visible, s.cursor, j.endMs));
      }
      Ingest(j, s1)
    else s1
  }
}
