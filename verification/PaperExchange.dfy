/**
 The paper exchange as an object; buys and sells are two mirrored procedures that
 both do what `Paper.Fill` says (bot/hypertrade/exchange/paper.py).
 */
module PaperExchanges {
  import opened Common
  import opened Reconcile
  import opened Paper
  import PaperLaws

  class PaperExchange {
    var balance: real
    var positions: seq<Position>
    var prices: map<string, real>

    ghost function Account(): Account
      reads this
    {
      Paper.Account(balance, positions, prices)
    }

    constructor (initial: real)
      ensures Account() == Paper.Account(initial, [], map[]) && Valid(Account())
    {
      balance, positions, prices := initial, [], map[];
    }

    method SetPrice(coin: string, price: real)
      modifies this`prices
      ensures Account() == old(Account()).(prices := old(prices)[coin := price])
    {
      prices := prices[coin := price];
    }

    /** Covers a short first and opens a long with what is left over, or adds to
        the long. */
    method HandleBuy(coin: string, size: real, price: real, fee: real)
      requires Valid(Account()) && 0.0 < size && fee == FeeOf(price, size)
      modifies this`balance, this`positions
      ensures Account() == Fill(old(Account()), coin, Buy, size, price)
    {
      GetIsMember(positions, coin);
      var existing := Get(positions, coin);
      if existing.Some? && existing.value.side.Short? {
        var covered := Min(size, existing.value.size);
        PaperLaws.WorthSplit(price, covered, size - covered);
        balance := balance - (Worth(price, covered) + fee);
        var left := existing.value.size - covered;
        if left > 0.0 {
          positions := Put(positions, existing.value.(size := left));
          return;
        }
        var flip := size - existing.value.size;
        if flip > 0.0 {
          balance := balance - Worth(price, flip);
          positions := Put(Drop(positions, coin), Position(coin, Long, flip, price));
        } else {
          positions := Drop(positions, coin);
        }
        return;
      }
      balance := balance - (Worth(price, size) + fee);
      if existing.Some? {
        var p := existing.value;
        positions := Put(positions, p.(size := p.size + size, entry := Vwap(p, size, price)));
      } else {
        positions := Put(positions, Position(coin, Long, size, price));
      }
    }

    /** Sells a long first and opens a short with what is left over, or adds to
        the short. */
    method HandleSell(coin: string, size: real, price: real, fee: real)
      requires Valid(Account()) && 0.0 < size && fee == FeeOf(price, size)
      modifies this`balance, this`positions
      ensures Account() == Fill(old(Account()), coin, Sell, size, price)
    {
      GetIsMember(positions, coin);
      var existing := Get(positions, coin);
      if existing.Some? && existing.value.side.Long? {
        var closing := Min(size, existing.value.size);
        PaperLaws.WorthSplit(price, closing, size - closing);
        balance := balance + (Worth(price, closing) - fee);
        var left := existing.value.size - closing;
        if left > 0.0 {
          positions := Put(positions, existing.value.(size := left));
          return;
        }
        var flip := size - existing.value.size;
        if flip > 0.0 {
          balance := balance + Worth(price, flip);
          positions := Put(Drop(positions, coin), Position(coin, Short, flip, price));
        } else {
          positions := Drop(positions, coin);
        }
        return;
      }
      balance := balance + (Worth(price, size) - fee);
      if existing.Some? {
        var p := existing.value;
        positions := Put(positions, p.(size := p.size + size, entry := Vwap(p, size, price)));
      } else {
        positions := Put(positions, Position(coin, Short, size, price));
      }
    }

    /** False when the order is rejected. */
    method PlaceOrder(t: Ticket) returns (filled: bool)
      requires Valid(Account()) && 0.0 < t.size
      modifies this`balance, this`positions
      ensures Account() == Paper.PlaceOrder(old(Account()), t) && Valid(Account())
      ensures filled == Accepted(old(Account()), t).Some?
    {
      var price := if t.price.Some? && t.price.value != 0.0 then t.price.value
                   else if t.coin in prices then prices[t.coin] else 0.0;
      if price <= 0.0 {
        return false;
      }
      GetIsMember(positions, t.coin);
      var size := t.size;
      if t.reduceOnly {
        var existing := Get(positions, t.coin);
        if existing.None? || existing.value.side == Opens(t.side) {
          return false;
        }
        size := Min(size, existing.value.size);
      }
      PaperLaws.FillKeepsValid(Account(), t.coin, t.side, size, price);
      var fee := FeeOf(price, size);
      if t.side.Buy? {
        HandleBuy(t.coin, size, price, fee);
      } else {
        HandleSell(t.coin, size, price, fee);
      }
      return true;
    }
  }
}
