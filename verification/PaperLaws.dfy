/**
 The paper account balances (bot/hypertrade/exchange/paper.py).
 */
module PaperLaws {
  import opened Common
  import opened Reconcile
  import opened Paper

  function ValueOf(p: Option<Position>): real {
    if p.None? then 0.0 else SignedWorth(p.value, p.value.entry)
  }

  function WorthOf(p: Option<Position>, prices: map<string, real>): real {
    if p.None? then 0.0 else SignedWorth(p.value, Mark(p.value, prices))
  }

  lemma {:induction false} PutSums(d: seq<Position>, q: Position, prices: map<string, real>)
    ensures BookValue(Put(d, q)) == BookValue(d) - ValueOf(Get(d, q.coin)) + ValueOf(Some(q))
    ensures MarketValue(Put(d, q), prices)
            == MarketValue(d, prices) - WorthOf(Get(d, q.coin), prices) + WorthOf(Some(q), prices)
  {
    if d == [] {
      assert [q][1..] == [];
    } else if d[0].coin == q.coin {
      assert ([q] + d[1..])[1..] == d[1..];
    } else {
      PutSums(d[1..], q, prices);
      assert ([d[0]] + Put(d[1..], q))[1..] == Put(d[1..], q);
    }
  }

  lemma {:induction false} DropSums(d: seq<Position>, coin: string, prices: map<string, real>)
    ensures BookValue(Drop(d, coin)) == BookValue(d) - ValueOf(Get(d, coin))
    ensures MarketValue(Drop(d, coin), prices) == MarketValue(d, prices) - WorthOf(Get(d, coin), prices)
  {
    if d != [] && d[0].coin != coin {
      DropSums(d[1..], coin, prices);
      assert ([d[0]] + Drop(d[1..], coin))[1..] == Drop(d[1..], coin);
    }
  }

  lemma {:induction false} DropKeepsOnePerCoin(d: seq<Position>, coin: string)
    requires OnePerCoin(d)
    ensures OnePerCoin(Drop(d, coin)) && forall p :: p in Drop(d, coin) ==> p in d && p.coin != coin
  {
    if d != [] && d[0].coin != coin {
      DropKeepsOnePerCoin(d[1..], coin);
      var rest := Drop(d[1..], coin);
      forall j | 0 <= j < |rest| ensures rest[j].coin != d[0].coin {
        assert rest[j] in d[1..];
      }
    }
  }

  lemma {:induction false} GetPut(d: seq<Position>, q: Position, coin: string)
    ensures Get(Put(d, q), coin) == if coin == q.coin then Some(q) else Get(d, coin)
  {
    if d != [] && d[0].coin != q.coin {
      GetPut(d[1..], q, coin);
      assert ([d[0]] + Put(d[1..], q))[1..] == Put(d[1..], q);
    }
  }

  lemma {:induction false} GetDrop(d: seq<Position>, dropped: string, coin: string)
    requires OnePerCoin(d)
    ensures Get(Drop(d, dropped), coin) == if coin == dropped then None else Get(d, coin)
  {
    if d != [] {
      if d[0].coin == dropped {
        GetAbsent(d[1..], dropped);
      } else {
        GetDrop(d[1..], dropped, coin);
        assert ([d[0]] + Drop(d[1..], dropped))[1..] == Drop(d[1..], dropped);
      }
    }
  }

  lemma {:induction false} GetAbsent(d: seq<Position>, coin: string)
    requires forall i :: 0 <= i < |d| ==> d[i].coin != coin
    ensures Get(d, coin) == None
  {
    if d != [] {
      GetAbsent(d[1..], coin);
    }
  }

  /** Replacing one coin's position changes the sums by that position alone. */
  lemma PlaceSums(d: seq<Position>, coin: string, q: Option<Position>, prices: map<string, real>)
    requires OnePerCoin(d) && (q.Some? ==> q.value.coin == coin)
    ensures BookValue(Place(d, coin, q)) == BookValue(d) - ValueOf(Get(d, coin)) + ValueOf(q)
    ensures MarketValue(Place(d, coin, q), prices)
         == MarketValue(d, prices) - WorthOf(Get(d, coin), prices) + WorthOf(q, prices)
  {
    DropSums(d, coin, prices);
    GetDrop(d, coin, coin);
    if q.Some? {
      PutSums(d, q.value, prices);
      PutSums(Drop(d, coin), q.value, prices);
    }
  }

  lemma FillKeepsValid(a: Account, coin: string, o: OrderSide, size: real, price: real)
    requires Valid(a) && 0.0 < size
    ensures Valid(Fill(a, coin, o, size, price))
  {
    GetIsMember(a.positions, coin);
    var q := After(Get(a.positions, coin), coin, o, size, price);
    DropKeepsOnePerCoin(a.positions, coin);
    if q.Some? {
      PutOnePerCoin(a.positions, q.value);
      PutOnePerCoin(Drop(a.positions, coin), q.value);
    }
  }

  /** What the account holds of each coin after a fill: the coin's own position
      as `After` says, every other untouched. */
  lemma FillLeaves(a: Account, coin: string, o: OrderSide, size: real, price: real, other: string)
    requires Valid(a) && 0.0 < size
    ensures (Get(a.positions, coin).Some? ==> 0.0 < Get(a.positions, coin).value.size)
    ensures Get(Fill(a, coin, o, size, price).positions, other)
         == if other == coin then After(Get(a.positions, coin), coin, o, size, price) else Get(a.positions, other)
  {
    GetIsMember(a.positions, coin);
    var q := After(Get(a.positions, coin), coin, o, size, price);
    GetDrop(a.positions, coin, other);
    if q.Some? {
      GetPut(a.positions, q.value, other);
      GetPut(Drop(a.positions, coin), q.value, other);
    }
  }

  // ----- Net size ---------------------------------------------------------

  function Net(p: Option<Position>): real {
    if p.None? then 0.0 else if p.value.side.Long? then p.value.size else -p.value.size
  }

  /** Whatever a fill does, open, add, cut, close or flip, the coin's signed
      size moves by exactly the order's. */
  lemma FillMovesNet(a: Account, coin: string, o: OrderSide, size: real, price: real)
    requires Valid(a) && 0.0 < size
    ensures Net(Get(Fill(a, coin, o, size, price).positions, coin))
         == Net(Get(a.positions, coin)) + (if o.Buy? then size else -size)
  {
    FillLeaves(a, coin, o, size, price, coin);
  }

  // ----- Conservation -----------------------------------------------------

  lemma WorthSplit(price: real, a: real, b: real)
    ensures Worth(price, a) + Worth(price, b) == Worth(price, a + b)
    ensures Worth(price, a) - Worth(price, b) == Worth(price, a - b)
  {
  }

  lemma WorthLess(p: real, q: real, size: real)
    ensures Worth(p - q, size) == Worth(p, size) - Worth(q, size)
  {
  }

  /** A fill books at entry prices what it pays, less what it earns. */
  lemma AfterValue(existing: Option<Position>, coin: string, o: OrderSide, size: real, price: real)
    requires 0.0 < size && (existing.Some? ==> 0.0 < existing.value.size)
    ensures ValueOf(After(existing, coin, o, size, price))
         == ValueOf(existing) + (if o.Buy? then Worth(price, size) else -Worth(price, size))
          + Earned(existing, o, size, price)
  {
    if existing.Some? && existing.value.side != Opens(o) {
      var p := existing.value;
      WorthSplit(p.entry, p.size, size);
      WorthSplit(price, size, p.size);
      WorthLess(price, p.entry, Min(size, p.size));
      WorthLess(p.entry, price, Min(size, p.size));
    }
  }

  /** Cash and the positions at entry: what a fill changes is what it earns and
      costs. */
  lemma FillConserves(a: Account, coin: string, o: OrderSide, size: real, price: real, b: Account)
    requires Valid(a) && 0.0 < size && b == Fill(a, coin, o, size, price)
    ensures b.cash + BookValue(b.positions)
         == a.cash + BookValue(a.positions) + Earned(Get(a.positions, coin), o, size, price) - FeeOf(price, size)
  {
    GetIsMember(a.positions, coin);
    var existing := Get(a.positions, coin);
    AfterValue(existing, coin, o, size, price);
    PlaceSums(a.positions, coin, After(existing, coin, o, size, price), a.prices);
  }

  lemma AfterWorth(existing: Option<Position>, coin: string, o: OrderSide, size: real, price: real,
                   prices: map<string, real>)
    requires 0.0 < size && (existing.Some? ==> 0.0 < existing.value.size && existing.value.coin == coin)
    requires coin in prices && prices[coin] == price
    ensures WorthOf(After(existing, coin, o, size, price), prices)
         == WorthOf(existing, prices) + (if o.Buy? then Worth(price, size) else -Worth(price, size))
  {
    if existing.Some? {
      WorthSplit(price, existing.value.size, size);
      WorthSplit(price, size, existing.value.size);
    }
  }

  /** A fill at the mark costs exactly its fee. */
  lemma FillAtMarkCostsFee(a: Account, coin: string, o: OrderSide, size: real, price: real)
    requires Valid(a) && 0.0 < size && coin in a.prices && a.prices[coin] == price
    ensures Equity(Fill(a, coin, o, size, price)) == Equity(a) - FeeOf(price, size)
  {
    GetIsMember(a.positions, coin);
    var existing := Get(a.positions, coin);
    AfterWorth(existing, coin, o, size, price, a.prices);
    PlaceSums(a.positions, coin, After(existing, coin, o, size, price), a.prices);
  }

  /** A market order, filled or rejected, changes equity by its fee alone. */
  lemma MarketOrderCostsFee(a: Account, t: Ticket)
    requires Valid(a) && 0.0 < t.size && (t.price.None? || t.price.value == 0.0)
    ensures var size := Accepted(a, t);
            Equity(PlaceOrder(a, t)) == Equity(a) - if size.Some? then FeeOf(FillPrice(a, t), size.value) else 0.0
  {
    GetIsMember(a.positions, t.coin);
    if Accepted(a, t).Some? {
      FillAtMarkCostsFee(a, t.coin, t.side, Accepted(a, t).value, FillPrice(a, t));
    }
  }

  /** A reduce-only order only ever shrinks the coin's position: it never opens,
      grows or turns one, and is rejected where it could not shrink it. */
  lemma ReduceOnlyShrinks(a: Account, t: Ticket)
    requires Valid(a) && 0.0 < t.size && t.reduceOnly
    ensures var was, is_ := Get(a.positions, t.coin), Get(PlaceOrder(a, t).positions, t.coin);
            && (was.None? ==> is_.None?)
            && (is_.Some? ==> was.Some? && is_.value.side == was.value.side && is_.value.size <= was.value.size)
            && (Accepted(a, t).Some? <==>
                  was.Some? && was.value.side != Opens(t.side) && FillPrice(a, t) > 0.0)
            && (Accepted(a, t).Some? ==> is_.None? || is_.value.size < was.value.size)
  {
    GetIsMember(a.positions, t.coin);
    if Accepted(a, t).Some? {
      FillLeaves(a, t.coin, t.side, Accepted(a, t).value, FillPrice(a, t), t.coin);
    }
  }

  // ----- Any sequence of orders and price moves ---------------------------

  datatype Event = Order(t: Ticket) | Price(coin: string, price: real)

  function Next(a: Account, e: Event): Account
    requires Valid(a) && (e.Order? ==> 0.0 < e.t.size)
  {
    match e
    case Order(t) => PlaceOrder(a, t)
    case Price(coin, price) => a.(prices := a.prices[coin := price])
  }

  /** The account after `es`, with what was earned and paid in fees on the way. */
  datatype Ledger = Ledger(account: Account, earned: real, fees: real)

  function Record(l: Ledger, e: Event): Ledger
    requires Valid(l.account) && (e.Order? ==> 0.0 < e.t.size)
  {
    var a := l.account;
    var next := Next(a, e);
    if e.Order? && Accepted(a, e.t).Some? then
      var size, price := Accepted(a, e.t).value, FillPrice(a, e.t);
      Ledger(next, l.earned + Earned(Get(a.positions, e.t.coin), e.t.side, size, price), l.fees + FeeOf(price, size))
    else l.(account := next)
  }

  ghost predicate Balanced(l: Ledger, initial: real) {
    Valid(l.account) && l.account.cash + BookValue(l.account.positions) == initial + l.earned - l.fees
  }

  lemma RecordBalances(l: Ledger, e: Event, initial: real)
    requires Balanced(l, initial) && (e.Order? ==> 0.0 < e.t.size)
    ensures Balanced(Record(l, e), initial)
  {
    var a := l.account;
    if e.Order? && Accepted(a, e.t).Some? {
      var size, price := Accepted(a, e.t).value, FillPrice(a, e.t);
      GetIsMember(a.positions, e.t.coin);
      FillKeepsValid(a, e.t.coin, e.t.side, size, price);
      FillConserves(a, e.t.coin, e.t.side, size, price, Next(a, e));
    }
  }

  /** The books always balance: cash, plus longs and less shorts at entry, is
      the initial balance plus what was realised less the fees, over any
      sequence of positive-size orders and price moves. */
  lemma {:induction false} BooksBalance(l: Ledger, es: seq<Event>, initial: real)
    requires Balanced(l, initial) && forall e :: e in es && e.Order? ==> 0.0 < e.t.size
    ensures Balanced(RecordAll(l, es), initial)
    decreases es
  {
    if es != [] {
      RecordBalances(l, es[0], initial);
      BooksBalance(Record(l, es[0]), es[1..], initial);
    }
  }

  function RecordAll(l: Ledger, es: seq<Event>): Ledger
    requires Valid(l.account) && forall e :: e in es && e.Order? ==> 0.0 < e.t.size
    decreases es
  {
    if es == [] then l
    else
      RecordKeepsValid(l, es[0]);
      RecordAll(Record(l, es[0]), es[1..])
  }

  lemma RecordKeepsValid(l: Ledger, e: Event)
    requires Valid(l.account) && (e.Order? ==> 0.0 < e.t.size)
    ensures Valid(Record(l, e).account)
  {
    RecordBalances(l.(earned := 0.0, fees := 0.0), e, l.account.cash + BookValue(l.account.positions));
  }

  // ----- What one order pays, and where its position is listed ---------------

  /** The price an order meets: its own unless it has none or gives zero, else the last
      one seen. */
  function Meets(a: Account, t: Ticket): real {
    if t.price.Some? && (t.price.value < 0.0 || t.price.value > 0.0) then t.price.value
    else if t.coin in a.prices then a.prices[t.coin] else 0.0
  }

  /** An order without a positive price is rejected; one that is not reduce-only pays or
      brings that price for its whole size, and the fee. */
  lemma OrderPays(a: Account, t: Ticket)
    requires Valid(a) && 0.0 < t.size
    ensures Meets(a, t) <= 0.0 ==> PlaceOrder(a, t) == a
    ensures Meets(a, t) > 0.0 && !t.reduceOnly ==>
              PlaceOrder(a, t).cash
              == a.cash + CashFlow(t.side, Meets(a, t), t.size) - Meets(a, t) * t.size * 0.00045
  {
  }

  lemma CoinsCons(p: Position, d: seq<Position>)
    ensures Coins([p] + d) == [p.coin] + Coins(d)
  {
  }

  lemma KeepHead(c: string, cs: seq<string>, p: string -> bool)
    ensures Keep([c] + cs, p) == (if p(c) then [c] else []) + Keep(cs, p)
  {
    assert ([c] + cs)[1..] == cs;
  }

  lemma {:induction false} DropCoins(d: seq<Position>, coin: string, other: string -> bool)
    requires OnePerCoin(d) && forall c :: other(c) <==> c != coin
    ensures Coins(Drop(d, coin)) == Keep(Coins(d), other)
    ensures Get(Drop(d, coin), coin) == None
  {
    if d != [] {
      assert d == [d[0]] + d[1..];
      CoinsCons(d[0], d[1..]);
      KeepHead(d[0].coin, Coins(d[1..]), other);
      if d[0].coin == coin {
        DropAbsent(d[1..], coin, other);
      } else {
        DropCoins(d[1..], coin, other);
        CoinsCons(d[0], Drop(d[1..], coin));
      }
    }
  }

  lemma {:induction false} DropAbsent(d: seq<Position>, coin: string, other: string -> bool)
    requires forall i :: 0 <= i < |d| ==> d[i].coin != coin
    requires forall c :: other(c) <==> c != coin
    ensures Keep(Coins(d), other) == Coins(d) && Get(d, coin) == None
  {
    if d != [] {
      assert d == [d[0]] + d[1..];
      CoinsCons(d[0], d[1..]);
      KeepHead(d[0].coin, Coins(d[1..]), other);
      DropAbsent(d[1..], coin, other);
    }
  }

  lemma {:induction false} PutCoins(d: seq<Position>, p: Position)
    ensures Coins(Put(d, p)) == if Get(d, p.coin).Some? then Coins(d) else Coins(d) + [p.coin]
  {
    if d != [] {
      assert d == [d[0]] + d[1..];
      CoinsCons(d[0], d[1..]);
      if d[0].coin == p.coin {
        CoinsCons(p, d[1..]);
      } else {
        PutCoins(d[1..], p);
        CoinsCons(d[0], Put(d[1..], p));
      }
    }
  }

  /** Positions are listed as they were opened: one that is added to or cut stays where
      it is, a new one and one that turned go last, a closed one is gone. */
  lemma ListedAsOpened(a: Account, coin: string, o: OrderSide, size: real, price: real, was: Option<Position>,
                       after: Option<Position>)
    requires Valid(a) && 0.0 < size && was == Get(a.positions, coin) && (was.Some? ==> 0.0 < was.value.size)
    requires after == After(was, coin, o, size, price)
    ensures var coins := Coins(a.positions); var others := Keep(coins, (c: string) => c != coin);
            Coins(Fill(a, coin, o, size, price).positions)
            == if after.None? then others
               else if was.None? then coins + [coin]
               else if was.value.side == after.value.side then coins
               else others + [coin]
  {
    GetIsMember(a.positions, coin);
    DropCoins(a.positions, coin, (c: string) => c != coin);
    if after.Some? {
      PutCoins(a.positions, after.value);
      PutCoins(Drop(a.positions, coin), after.value);
    }
  }
}
