/** Runs of a step machine. */
module Traces {

  function Run<S, E>(step: (S, E) -> S, s: S, es: seq<E>): S {
    if es == [] then s else step(Run(step, s, es[..|es| - 1]), es[|es| - 1])
  }

  /** The state the `i`-th event of a run meets. */
  function Before<S, E>(step: (S, E) -> S, s: S, es: seq<E>, i: nat): S
    requires i <= |es|
  {
    Run(step, s, es[..i])
  }

  lemma RunNext<S, E>(step: (S, E) -> S, s: S, es: seq<E>, i: nat)
    requires i < |es|
    ensures Before(step, s, es, i + 1) == step(Before(step, s, es, i), es[i])
  {
    assert es[..i + 1][..i] == es[..i];
  }

  lemma RunAll<S, E>(step: (S, E) -> S, s: S, es: seq<E>)
    ensures Before(step, s, es, |es|) == Run(step, s, es)
  {
    assert es[..|es|] == es;
  }

  /** What holds first, and is kept by every step whose event is allowed,
      holds before every event and at the end. */
  lemma {:induction false} Always<S(!new), E(!new)>(step: (S, E) -> S, s: S, es: seq<E>, inv: S -> bool,
                                                     allowed: (S, E) -> bool, i: nat)
    requires i <= |es| && inv(s)
    requires forall x, e :: inv(x) && allowed(x, e) ==> inv(step(x, e))
    requires forall j :: 0 <= j < i ==> allowed(Before(step, s, es, j), es[j])
    ensures inv(Before(step, s, es, i))
  {
    if i > 0 {
      Always(step, s, es, inv, allowed, i - 1);
      RunNext(step, s, es, i - 1);
    }
  }

  /** Event `k` switched something on, and nothing has switched it off since. */
  ghost predicate OnSince<S, E>(step: (S, E) -> S, s: S, es: seq<E>, on: (S, E) -> bool, off: (S, E) -> bool, k: nat) {
    && k < |es| && on(Before(step, s, es, k), es[k])
    && forall j :: k < j < |es| ==> !off(Before(step, s, es, j), es[j])
  }

  lemma OnSinceWeaken<S(!new), E(!new)>(step: (S, E) -> S, s: S, es: seq<E>, on: (S, E) -> bool, off: (S, E) -> bool,
                                        weaker: (S, E) -> bool)
    requires exists k :: OnSince(step, s, es, on, off, k)
    requires forall x, e :: on(x, e) ==> weaker(x, e)
    ensures exists k :: OnSince(step, s, es, weaker, off, k)
  {
    var k :| OnSince(step, s, es, on, off, k);
    assert OnSince(step, s, es, weaker, off, k);
  }

  /** The same, when what makes up the difference holds all along the run. */
  lemma OnSinceWith<S(!new), E(!new)>(step: (S, E) -> S, s: S, es: seq<E>, on: (S, E) -> bool, off: (S, E) -> bool,
                                      also: (S, E) -> bool, both: (S, E) -> bool)
    requires exists k :: OnSince(step, s, es, on, off, k)
    requires forall j :: 0 <= j < |es| ==> also(Before(step, s, es, j), es[j])
    requires forall x, e :: on(x, e) && also(x, e) ==> both(x, e)
    ensures exists k :: OnSince(step, s, es, both, off, k)
  {
    var k :| OnSince(step, s, es, on, off, k);
    assert OnSince(step, s, es, both, off, k);
  }

  lemma OnSinceInit<S, E>(step: (S, E) -> S, s: S, es: seq<E>, on: (S, E) -> bool, off: (S, E) -> bool, n: nat, k: nat)
    requires |es| == n + 1 && k < n
    ensures OnSince(step, s, es, on, off, k)
       <==> OnSince(step, s, es[..n], on, off, k) && !off(Before(step, s, es, n), es[n])
  {
    assert forall i :: 0 <= i <= n ==> es[..n][..i] == es[..i];
  }

  /** A property that each step switches on or off by its own conditions holds
      exactly when something switched it on, or it was on at first, and nothing did
      off since. */
  lemma {:induction false} LatchWithin<S(!new), E(!new)>(step: (S, E) -> S, s: S, es: seq<E>, inv: S -> bool,
                                                         allowed: (S, E) -> bool, ready: S -> bool,
                                                         on: (S, E) -> bool, off: (S, E) -> bool)
    requires inv(s) && forall j :: 0 <= j < |es| ==> allowed(Before(step, s, es, j), es[j])
    requires forall x, e :: inv(x) && allowed(x, e) ==> inv(step(x, e))
    requires forall x, e :: inv(x) && allowed(x, e) ==> (ready(step(x, e)) <==> on(x, e) || (ready(x) && !off(x, e)))
    ensures ready(Run(step, s, es))
       <==> (exists k :: OnSince(step, s, es, on, off, k)) || (ready(s) && NeverOff(step, s, es, off))
  {
    if es != [] {
      var n := |es| - 1;
      var last := Before(step, s, es, n);
      assert inv(last) && allowed(last, es[n]) by { Always(step, s, es, inv, allowed, n); }
      BeforeInit(step, s, es, n);
      LatchWithin(step, s, es[..n], inv, allowed, ready, on, off);
      OnSinceSnoc(step, s, es, on, off, n);
      NeverOffSnoc(step, s, es, off, n);
    }
  }

  lemma OnSinceSnoc<S(!new), E(!new)>(step: (S, E) -> S, s: S, es: seq<E>, on: (S, E) -> bool, off: (S, E) -> bool,
                                      n: nat)
    requires |es| == n + 1
    ensures (exists k :: OnSince(step, s, es, on, off, k))
       <==> || on(Before(step, s, es, n), es[n])
            || ((exists k :: OnSince(step, s, es[..n], on, off, k)) && !off(Before(step, s, es, n), es[n]))
  {
    forall k | 0 <= k < n
      ensures OnSince(step, s, es, on, off, k)
         <==> OnSince(step, s, es[..n], on, off, k) && !off(Before(step, s, es, n), es[n])
    {
      OnSinceInit(step, s, es, on, off, n, k);
    }
    assert on(Before(step, s, es, n), es[n]) <==> OnSince(step, s, es, on, off, n);
  }

  lemma NeverOffSnoc<S, E>(step: (S, E) -> S, s: S, es: seq<E>, off: (S, E) -> bool, n: nat)
    requires |es| == n + 1
    ensures NeverOff(step, s, es, off) <==> NeverOff(step, s, es[..n], off) && !off(Before(step, s, es, n), es[n])
  {
    BeforeInit(step, s, es, n);
  }

  ghost predicate NeverOff<S, E>(step: (S, E) -> S, s: S, es: seq<E>, off: (S, E) -> bool) {
    forall j :: 0 <= j < |es| ==> !off(Before(step, s, es, j), es[j])
  }

  lemma BeforeInit<S, E>(step: (S, E) -> S, s: S, es: seq<E>, n: nat)
    requires n <= |es|
    ensures forall j :: 0 <= j <= n ==> Before(step, s, es[..n], j) == Before(step, s, es, j)
  {
    assert forall j :: 0 <= j <= n ==> es[..n][..j] == es[..j];
  }

  /** The same for a property that is off at first, without conditions. */
  lemma LatchIff<S(!new), E(!new)>(step: (S, E) -> S, s: S, es: seq<E>, ready: S -> bool, on: (S, E) -> bool,
                                   off: (S, E) -> bool)
    requires !ready(s)
    requires forall x, e :: ready(step(x, e)) <==> on(x, e) || (ready(x) && !off(x, e))
    ensures ready(Run(step, s, es)) <==> exists k :: OnSince(step, s, es, on, off, k)
  {
    LatchWithin(step, s, es, (x: S) => true, (x: S, e: E) => true, ready, on, off);
  }
}
