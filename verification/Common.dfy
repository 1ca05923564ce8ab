/** Vocabulary shared by every component of the engine model. */
module Common {

  datatype Option<+T> = None | Some(value: T)

  datatype Side = Long | Short

  datatype OrderSide = Buy | Sell

  /** The order side that reduces a `side` position. */
  function ClosingSide(side: Side): OrderSide {
    if side.Long? then Sell else Buy
  }

  /** The order side that opens a `side` position. */
  function OpeningSide(side: Side): OrderSide {
    if side.Long? then Buy else Sell
  }

  function Min(a: real, b: real): real {
    if a < b then a else b
  }

  function Max(a: real, b: real): real {
    if a < b then b else a
  }

  function Abs(a: real): real {
    if a < 0.0 then -a else a
  }

  /** Side-aware realised PnL of one close, net of `fee`. */
  function RealizedPnl(side: Side, entry: real, exit: real, size: real, fee: real): real {
    (if side.Long? then (exit - entry) * size else (entry - exit) * size) - fee
  }

  /** The cash an order moves: a buy pays price times size, a sell receives it. */
  function CashFlow(side: OrderSide, price: real, size: real): real {
    if side.Buy? then -(price * size) else price * size
  }

  /** The cash of opening `size` at `entry` and closing it at `exit`. */
  function RoundTrip(side: Side, entry: real, exit: real, size: real): real {
    match side
    case Long => CashFlow(Buy, entry, size) + CashFlow(Sell, exit, size)
    case Short => CashFlow(Sell, entry, size) + CashFlow(Buy, exit, size)
  }

  /** Realised PnL and fee are the cash of the round trip. */
  lemma RealizedIsRoundTrip(side: Side, entry: real, exit: real, size: real, fee: real)
    ensures RealizedPnl(side, entry, exit, size, fee) + fee == RoundTrip(side, entry, exit, size)
  {
    assert (exit - entry) * size == exit * size - entry * size;
  }

  /** The elements of `xs` that satisfy `p`, in order. */
  function Keep<T(!new)>(xs: seq<T>, p: T -> bool): (r: seq<T>)
    ensures forall x :: x in r ==> x in xs && p(x)
    ensures |r| <= |xs|
  {
    if xs == [] then []
    else if p(xs[0]) then [xs[0]] + Keep(xs[1..], p)
    else Keep(xs[1..], p)
  }

  lemma {:induction false} KeepMember<T(!new)>(xs: seq<T>, p: T -> bool, x: T)
    requires x in xs && p(x)
    ensures x in Keep(xs, p)
  {
    if x != xs[0] {
      KeepMember(xs[1..], p, x);
    }
  }

  lemma {:induction false} KeepAppend<T(!new)>(a: seq<T>, b: seq<T>, p: T -> bool)
    ensures Keep(a + b, p) == Keep(a, p) + Keep(b, p)
  {
    if a == [] {
      assert a + b == b;
    } else {
      assert (a + b)[1..] == a[1..] + b;
      KeepAppend(a[1..], b, p);
    }
  }

  lemma {:induction false} KeepKeep<T(!new)>(xs: seq<T>, p: T -> bool, q: T -> bool, both: T -> bool)
    requires forall x :: x in xs ==> both(x) == (p(x) && q(x))
    ensures Keep(Keep(xs, p), q) == Keep(xs, both)
  {
    if xs != [] {
      KeepKeep(xs[1..], p, q, both);
    }
  }

  lemma {:induction false} KeepCong<T(!new)>(xs: seq<T>, p: T -> bool, q: T -> bool)
    requires forall x :: x in xs ==> p(x) == q(x)
    ensures Keep(xs, p) == Keep(xs, q)
  {
    if xs != [] {
      KeepCong(xs[1..], p, q);
    }
  }

  /** A loop that moves the head of what is left to what is done. */
  lemma Chain<T>(whole: seq<T>, done: seq<T>, left: seq<T>, head: seq<T>, tail: seq<T>)
    requires whole == done + left && left == head + tail
    ensures whole == done + head + tail
  {
  }

  lemma MultisetCons<T>(xs: seq<T>)
    requires xs != []
    ensures multiset(xs) == multiset{xs[0]} + multiset(xs[1..])
  {
    assert xs == [xs[0]] + xs[1..];
  }

  lemma MultisetSnoc<T>(xs: seq<T>)
    requires xs != []
    ensures multiset(xs) == multiset(xs[..|xs| - 1]) + multiset{xs[|xs| - 1]}
  {
    assert xs == xs[..|xs| - 1] + [xs[|xs| - 1]];
  }

  /** Filtering by a condition and by its opposite splits a sequence. */
  lemma {:induction false} KeepSplits<T(!new)>(xs: seq<T>, p: T -> bool, q: T -> bool)
    requires forall x :: x in xs ==> q(x) == !p(x)
    ensures multiset(Keep(xs, p)) + multiset(Keep(xs, q)) == multiset(xs)
  {
    if xs != [] {
      KeepSplits(xs[1..], p, q);
      MultisetCons(xs);
      var kept := if p(xs[0]) then Keep(xs, p) else Keep(xs, q);
      assert kept[1..] == if p(xs[0]) then Keep(xs[1..], p) else Keep(xs[1..], q);
      MultisetCons(kept);
    }
  }

  lemma {:induction false} KeepNone<T(!new)>(xs: seq<T>, p: T -> bool)
    requires forall x :: x in xs ==> !p(x)
    ensures Keep(xs, p) == []
  {
    if xs != [] {
      KeepNone(xs[1..], p);
    }
  }

  /** Exactly one element satisfies `p`. */
  ghost predicate Only<T(!new)>(xs: seq<T>, p: T -> bool, i: int) {
    0 <= i < |xs| && p(xs[i]) && forall j :: 0 <= j < |xs| && j != i ==> !p(xs[j])
  }

  lemma {:induction false} OnlyKept<T(!new)>(xs: seq<T>, p: T -> bool, i: int)
    requires Only(xs, p, i)
    ensures Keep(xs, p) == [xs[i]]
  {
    var rest := xs[1..];
    if i == 0 {
      forall x | x in rest ensures !p(x) {
        var j :| 0 <= j < |rest| && rest[j] == x;
        assert xs[j + 1] == x;
      }
      KeepNone(rest, p);
    } else {
      forall j | 0 <= j < |rest| && j != i - 1 ensures !p(rest[j]) { assert rest[j] == xs[j + 1]; }
      assert !p(xs[0]);
      OnlyKept(rest, p, i - 1);
    }
  }

  lemma {:induction false} OneKept<T(!new)>(xs: seq<T>, p: T -> bool) returns (i: int)
    requires |Keep(xs, p)| == 1
    ensures Only(xs, p, i)
  {
    var rest := xs[1..];
    if p(xs[0]) {
      i := 0;
      forall j | 0 < j < |xs| ensures !p(xs[j]) {
        assert xs[j] == rest[j - 1] && xs[j] in rest;
        if p(xs[j]) { KeepMember(rest, p, xs[j]); }
      }
    } else {
      var n := OneKept(rest, p);
      i := n + 1;
      forall j | 0 <= j < |xs| && j != i ensures !p(xs[j]) {
        if j > 0 { assert xs[j] == rest[j - 1]; }
      }
    }
  }
}
