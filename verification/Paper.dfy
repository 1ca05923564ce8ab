/**
 The paper exchange's account: cash, one netted position per coin, and what an
 order does to both (bot/hypertrade/exchange/paper.py).
 */
module Paper {
  import opened Common
  import opened Reconcile

  const TAKER_FEE: real := 0.00045

  /** `positions` has at most one entry per coin. */
  datatype Account = Account(cash: real, positions: seq<Position>, prices: map<string, real>)

  datatype Ticket = Ticket(coin: string, side: OrderSide, size: real, price: Option<real>, reduceOnly: bool)

  function Worth(price: real, size: real): real {
    price * size
  }

  function FeeOf(price: real, size: real): real {
    Worth(price, size) * TAKER_FEE
  }

  function Opens(o: OrderSide): Side {
    if o.Buy? then Long else Short
  }

  /** Removes the coin's position. */
  function Drop(d: seq<Position>, coin: string): seq<Position> {
    if d == [] then [] else if d[0].coin == coin then d[1..] else [d[0]] + Drop(d[1..], coin)
  }

  /** The entry price after adding to a position. */
  function Vwap(p: Position, size: real, price: real): (e: real)
    requires 0.0 < p.size && 0.0 < size
    ensures Worth(e, p.size + size) == Worth(p.entry, p.size) + Worth(price, size)
  {
    (Worth(p.entry, p.size) + Worth(price, size)) / (p.size + size)
  }

  /** The position a fill leaves on its coin; None is flat. */
  function After(existing: Option<Position>, coin: string, o: OrderSide, size: real, price: real): Option<Position>
    requires 0.0 < size && (existing.Some? ==> 0.0 < existing.value.size)
  {
    match existing
    case None => Some(Position(coin, Opens(o), size, price))
    case Some(p) =>
      if p.side == Opens(o) then Some(p.(size := p.size + size, entry := Vwap(p, size, price)))
      else if size < p.size then Some(p.(size := p.size - size))
      else if size == p.size then None
      else Some(Position(coin, Opens(o), size - p.size, price))
  }

  /** A position that turned is a new one: it goes to the end. */
  function Place(d: seq<Position>, coin: string, p: Option<Position>): seq<Position> {
    var was := Get(d, coin);
    match p
    case None => Drop(d, coin)
    case Some(q) => Put(if was.Some? && was.value.side != q.side then Drop(d, coin) else d, q)
  }

  ghost predicate Valid(a: Account) {
    OnePerCoin(a.positions) && forall p :: p in a.positions ==> 0.0 < p.size
  }

  /** A fill: cash moves by the notional and the fee, the position by the size. */
  function Fill(a: Account, coin: string, o: OrderSide, size: real, price: real): Account
    requires Valid(a) && 0.0 < size
  {
    var flow := Worth(price, size);
    GetIsMember(a.positions, coin);
    a.(cash := a.cash + (if o.Buy? then -flow else flow) - FeeOf(price, size),
       positions := Place(a.positions, coin, After(Get(a.positions, coin), coin, o, size, price)))
  }

  lemma {:induction false} GetIsMember(d: seq<Position>, coin: string)
    ensures Get(d, coin).Some? ==> Get(d, coin).value in d && Get(d, coin).value.coin == coin
  {
    if d != [] && d[0].coin != coin {
      GetIsMember(d[1..], coin);
    }
  }

  function FillPrice(a: Account, t: Ticket): real {
    if t.price.Some? && t.price.value != 0.0 then t.price.value
    else if t.coin in a.prices then a.prices[t.coin]
    else 0.0
  }

  /** The size that will fill; None when the order is rejected. */
  function Accepted(a: Account, t: Ticket): Option<real> {
    var existing := Get(a.positions, t.coin);
    if FillPrice(a, t) <= 0.0 then None
    else if !t.reduceOnly then Some(t.size)
    else if existing.None? || existing.value.side == Opens(t.side) then None
    else Some(Min(t.size, existing.value.size))
  }

  /** `place_order`. */
  function PlaceOrder(a: Account, t: Ticket): Account
    requires Valid(a) && 0.0 < t.size
  {
    var size := Accepted(a, t);
    GetIsMember(a.positions, t.coin);
    if size.None? then a else Fill(a, t.coin, t.side, size.value, FillPrice(a, t))
  }

  // ----- What the positions are worth --------------------------------------

  function SignedWorth(p: Position, price: real): real {
    if p.side.Long? then Worth(price, p.size) else -Worth(price, p.size)
  }

  /** At entry prices. */
  function BookValue(d: seq<Position>): real {
    if d == [] then 0.0 else SignedWorth(d[0], d[0].entry) + BookValue(d[1..])
  }

  function Mark(p: Position, prices: map<string, real>): real {
    if p.coin in prices then prices[p.coin] else p.entry
  }

  /** At current prices. */
  function MarketValue(d: seq<Position>, prices: map<string, real>): real {
    if d == [] then 0.0 else SignedWorth(d[0], Mark(d[0], prices)) + MarketValue(d[1..], prices)
  }

  /** `get_balance().total`. */
  function Equity(a: Account): real {
    a.cash + MarketValue(a.positions, a.prices)
  }

  /** What closing part or all of a position earns. */
  function Earned(existing: Option<Position>, o: OrderSide, size: real, price: real): real {
    if existing.None? || existing.value.side == Opens(o) then 0.0
    else
      var p := existing.value;
      var covered := Min(size, p.size);
      if p.side.Long? then Worth(price - p.entry, covered) else Worth(p.entry - price, covered)
  }
}
