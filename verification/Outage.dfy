/**
 Fetch failures gathered into outage windows, each alerted at most once
 (bot/hypertrade/engine/runner.py).
 */
module Outage {
  import opened Common

  /** One tick that settles: when, and which strategies' fetches failed. */
  datatype Tick = Tick(now: real, failures: set<string>)

  datatype Window = Window(start: Option<real>, affected: set<string>, alerted: bool)

  const CLOSED := Window(None, {}, false)

  /** One settled tick; the alert names everyone affected so far. */
  function Settle(w: Window, t: Tick, threshold: real): (Window, Option<set<string>>) {
    if t.failures == {} then
      (if w.start.None? then w else CLOSED, None)
    else
      var running := if w.start.None? then Window(Some(t.now), {}, false) else w;
      var affected := running.affected + t.failures;
      if threshold > 0.0 && !running.alerted && t.now - running.start.value >= threshold then
        (running.(affected := affected, alerted := true), Some(affected))
      else (running.(affected := affected), None)
  }

  /** The window after `ts`, and each tick's alert. */
  function SettleAll(ts: seq<Tick>, threshold: real): (r: (Window, seq<Option<set<string>>>))
    ensures |r.1| == |ts|
  {
    if ts == [] then (CLOSED, [])
    else
      var (w, alerts) := SettleAll(ts[..|ts| - 1], threshold);
      var (w', alert) := Settle(w, ts[|ts| - 1], threshold);
      (w', alerts + [alert])
  }

  class OutageAggregator {
    var start: Option<real>
    var affected: set<string>
    var alerted: bool

    ghost function State(): Window
      reads this
    {
      Window(start, affected, alerted)
    }

    constructor ()
      ensures State() == CLOSED
    {
      start, affected, alerted := None, {}, false;
    }

    method SettleFetchOutage(failures: set<string>, now: real, threshold: real) returns (alert: Option<set<string>>)
      modifies this
      ensures (State(), alert) == Settle(old(State()), Tick(now, failures), threshold)
    {
      if failures == {} {
        if start.Some? {
          start, affected, alerted := None, {}, false;
        }
        return None;
      }
      if start.None? {
        start, affected, alerted := Some(now), {}, false;
      }
      affected := affected + failures;
      if threshold > 0.0 && !alerted && now - start.value >= threshold {
        alerted := true;
        return Some(affected);
      }
      return None;
    }
  }

  // ----- The same, read off the trace -------------------------------------

  predicate Fails(ts: seq<Tick>, i: int) {
    0 <= i < |ts| && ts[i].failures != {}
  }

  /** The first tick of the unbroken failing block that `i` is in. */
  function BlockStart(ts: seq<Tick>, i: nat): (b: nat)
    requires Fails(ts, i)
    ensures b <= i && Fails(ts, b) && !Fails(ts, b - 1) && forall j :: b <= j <= i ==> Fails(ts, j)
  {
    if Fails(ts, i - 1) then BlockStart(ts, i - 1) else i
  }

  /** How long the block has lasted at tick `i`. */
  function Lasted(ts: seq<Tick>, i: nat): real
    requires Fails(ts, i)
  {
    ts[i].now - ts[BlockStart(ts, i)].now
  }

  /** Everyone who failed from tick `b` up to tick `i`. */
  function FailedIn(ts: seq<Tick>, b: nat, i: nat): set<string>
    requires i < |ts|
  {
    set j, name | b <= j <= i && name in ts[j].failures :: name
  }

  /** Tick `i` is the first of its block to have lasted the threshold. */
  predicate Crosses(ts: seq<Tick>, i: nat, threshold: real) {
    Fails(ts, i) && Lasted(ts, i) >= threshold && (Fails(ts, i - 1) ==> Lasted(ts, i - 1) < threshold)
  }

  /** The alert the trace calls for at tick `i`. */
  function AlertAt(ts: seq<Tick>, i: nat, threshold: real): Option<set<string>>
    requires i < |ts|
  {
    if Crosses(ts, i, threshold) then Some(FailedIn(ts, BlockStart(ts, i), i)) else None
  }

  /** The block that tick `i` ends lasted the threshold. */
  predicate EndsLongBlock(ts: seq<Tick>, i: nat, threshold: real) {
    Fails(ts, i) && !Fails(ts, i + 1) && Lasted(ts, i) >= threshold
  }

  predicate TimeFlows(ts: seq<Tick>) {
    forall i, j :: 0 <= i < j < |ts| ==> ts[i].now <= ts[j].now
  }

  lemma {:induction false} BlockStartInit(ts: seq<Tick>, n: nat, i: nat)
    requires i < n <= |ts| && Fails(ts, i)
    ensures Fails(ts[..n], i) && BlockStart(ts[..n], i) == BlockStart(ts, i) && Lasted(ts[..n], i) == Lasted(ts, i)
  {
    if Fails(ts, i - 1) {
      BlockStartInit(ts, n, i - 1);
    }
  }

  /** What the window holds after `ts`, read off the trace. */
  ghost predicate Mirrors(ts: seq<Tick>, w: Window, threshold: real) {
    var n := |ts| - 1;
    if Fails(ts, n) then
      var b := BlockStart(ts, n);
      w == Window(Some(ts[b].now), FailedIn(ts, b, n), Lasted(ts, n) >= threshold)
    else w == CLOSED
  }

  lemma FailedInSnoc(ts: seq<Tick>, b: nat, i: int)
    requires -1 <= i && b <= i + 1 < |ts|
    ensures FailedIn(ts, b, i + 1) == (if b <= i then FailedIn(ts, b, i) else {}) + ts[i + 1].failures
  {
  }

  lemma FailedInInit(ts: seq<Tick>, n: nat, b: nat, i: nat)
    requires i < n <= |ts|
    ensures FailedIn(ts[..n], b, i) == FailedIn(ts, b, i)
  {
    assert forall j :: 0 <= j <= i ==> ts[..n][j] == ts[j];
  }

  /** The window a failing tick left, in the terms of the longer trace. */
  lemma WindowBefore(ts: seq<Tick>, n: nat, b: nat, w: Window, threshold: real)
    requires n < |ts| && Mirrors(ts[..n + 1], w, threshold) && Fails(ts, n) && b == BlockStart(ts, n)
    ensures w == Window(Some(ts[b].now), FailedIn(ts, b, n), Lasted(ts, n) >= threshold)
  {
    BlockStartInit(ts, n + 1, n);
    FailedInInit(ts, n + 1, b, n);
  }

  /** A failing tick that carries a block on. */
  lemma SettleCarriesOn(ts: seq<Tick>, n: nat, b: nat, w: Window, threshold: real)
    requires |ts| == n + 1 && TimeFlows(ts) && threshold > 0.0 && Mirrors(ts[..n], w, threshold)
    requires Fails(ts, n) && Fails(ts, n - 1) && b == BlockStart(ts, n)
    ensures w == Window(Some(ts[b].now), FailedIn(ts, b, n - 1), Lasted(ts, n - 1) >= threshold)
    ensures FailedIn(ts, b, n) == FailedIn(ts, b, n - 1) + ts[n].failures
    ensures Lasted(ts, n - 1) <= Lasted(ts, n)
  {
    assert b == BlockStart(ts, n - 1) && Lasted(ts, n - 1) <= Lasted(ts, n);
    assert w == Window(Some(ts[b].now), FailedIn(ts, b, n - 1), Lasted(ts, n - 1) >= threshold) by {
      WindowBefore(ts, n - 1, b, w, threshold);
    }
    assert FailedIn(ts, b, n) == FailedIn(ts, b, n - 1) + ts[n].failures by { FailedInSnoc(ts, b, n - 1); }
  }

  lemma SettleMirrors(ts: seq<Tick>, n: nat, w: Window, threshold: real)
    requires |ts| == n + 1 && TimeFlows(ts) && threshold > 0.0 && Mirrors(ts[..n], w, threshold)
    ensures Mirrors(ts, Settle(w, ts[n], threshold).0, threshold)
    ensures Settle(w, ts[n], threshold).1 == AlertAt(ts, n, threshold)
  {
    if Fails(ts, n) {
      var b := BlockStart(ts, n);
      if Fails(ts, n - 1) {
        SettleCarriesOn(ts, n, b, w, threshold);
      } else {
        FailedInSnoc(ts, n, n - 1);
      }
    }
  }

  /** What the aggregator sends, tick by tick: an alert exactly when a block
      first lasts the threshold, naming everyone who failed in it so far. */
  lemma {:induction false} WindowMirrors(ts: seq<Tick>, threshold: real)
    requires TimeFlows(ts) && threshold > 0.0
    ensures Mirrors(ts, SettleAll(ts, threshold).0, threshold)
    ensures forall i :: 0 <= i < |ts| ==> SettleAll(ts, threshold).1[i] == AlertAt(ts, i, threshold)
  {
    if ts != [] {
      var n := |ts| - 1;
      WindowMirrors(ts[..n], threshold);
      SettleMirrors(ts, n, SettleAll(ts[..n], threshold).0, threshold);
      forall i | 0 <= i < n
        ensures SettleAll(ts, threshold).1[i] == AlertAt(ts, i, threshold)
      {
        AlertInit(ts, n, i, threshold);
      }
    }
  }

  lemma AlertInit(ts: seq<Tick>, n: nat, i: nat, threshold: real)
    requires i < n <= |ts|
    ensures Crosses(ts[..n], i, threshold) == Crosses(ts, i, threshold)
    ensures Fails(ts, i) ==> Fails(ts[..n], i) && BlockStart(ts[..n], i) == BlockStart(ts, i)
    ensures Fails(ts, i) ==> FailedIn(ts[..n], BlockStart(ts, i), i) == FailedIn(ts, BlockStart(ts, i), i)
  {
    if Fails(ts, i) {
      BlockStartInit(ts, n, i);
      FailedInInit(ts, n, BlockStart(ts, i), i);
      if Fails(ts, i - 1) {
        BlockStartInit(ts, n, i - 1);
      }
    }
  }

  /** Without a positive threshold it never sends one. */
  lemma {:induction false} OffMeansSilent(ts: seq<Tick>, threshold: real)
    requires threshold <= 0.0
    ensures forall i :: 0 <= i < |ts| ==> SettleAll(ts, threshold).1[i] == None
  {
    if ts != [] {
      OffMeansSilent(ts[..|ts| - 1], threshold);
    }
  }

  // ----- As many alerts as long blocks ------------------------------------

  function Alerts(ts: seq<Tick>, threshold: real): (r: set<nat>) {
    set i | 0 <= i < |ts| && Crosses(ts, i, threshold)
  }

  function LongBlocks(ts: seq<Tick>, threshold: real): set<nat> {
    set i | 0 <= i < |ts| && EndsLongBlock(ts, i, threshold)
  }

  lemma CountsInit(ts: seq<Tick>, n: nat, threshold: real)
    requires |ts| == n + 1
    ensures Alerts(ts, threshold) == Alerts(ts[..n], threshold) + if Crosses(ts, n, threshold) then {n} else {}
    ensures LongBlocks(ts, threshold)
         == (if Fails(ts, n) then LongBlocks(ts[..n], threshold) - {n - 1} else LongBlocks(ts[..n], threshold))
            + if EndsLongBlock(ts, n, threshold) then {n} else {}
  {
    forall i | 0 <= i < n ensures Crosses(ts[..n], i, threshold) == Crosses(ts, i, threshold) {
      AlertInit(ts, n, i, threshold);
    }
    forall i | 0 <= i < n
      ensures EndsLongBlock(ts, i, threshold) == (EndsLongBlock(ts[..n], i, threshold) && !(i == n - 1 && Fails(ts, n)))
    {
      if Fails(ts, i) {
        BlockStartInit(ts, n, i);
      }
    }
  }

  lemma LastTick(ts: seq<Tick>, n: nat, threshold: real)
    requires |ts| == n + 1 && TimeFlows(ts) && threshold > 0.0 && Fails(ts, n)
    ensures var before := n - 1 in LongBlocks(ts[..n], threshold);
            && (EndsLongBlock(ts, n, threshold) <==> Lasted(ts, n) >= threshold)
            && (Crosses(ts, n, threshold) <==> Lasted(ts, n) >= threshold && !before)
            && (before ==> Lasted(ts, n) >= threshold)
  {
    if Fails(ts, n - 1) {
      BlockStartInit(ts, n, n - 1);
      assert ts[n - 1].now <= ts[n].now;
    }
  }

  /** Over any ticks in time order, there is one alert for each maximal failing
      block that lasted the threshold, and none for any other. */
  lemma {:induction false} OneAlertPerLongBlock(ts: seq<Tick>, threshold: real)
    requires TimeFlows(ts) && threshold > 0.0
    ensures |Alerts(ts, threshold)| == |LongBlocks(ts, threshold)|
  {
    if ts != [] {
      var n := |ts| - 1;
      OneAlertPerLongBlock(ts[..n], threshold);
      CountsInit(ts, n, threshold);
      if Fails(ts, n) {
        LastTick(ts, n, threshold);
        CountsAgree(n, Alerts(ts[..n], threshold), LongBlocks(ts[..n], threshold), Lasted(ts, n) >= threshold);
      }
    }
  }

  /** The ticks at which the aggregator sends an alert. */
  function Sent(ts: seq<Tick>, threshold: real): set<nat> {
    set i | 0 <= i < |ts| && SettleAll(ts, threshold).1[i].Some?
  }

  /** So the aggregator sends as many alerts as there are such blocks. */
  lemma SendsOnePerLongBlock(ts: seq<Tick>, threshold: real)
    requires TimeFlows(ts) && threshold > 0.0
    ensures |Sent(ts, threshold)| == |LongBlocks(ts, threshold)|
  {
    WindowMirrors(ts, threshold);
    assert Sent(ts, threshold) == Alerts(ts, threshold);
    OneAlertPerLongBlock(ts, threshold);
  }

  lemma CountsAgree(n: nat, alerts: set<nat>, longs: set<nat>, lasted: bool)
    requires |alerts| == |longs| && n !in alerts && n !in longs && (n - 1 in longs ==> lasted)
    ensures |alerts + (if lasted && n - 1 !in longs then {n} else {})|
            == |(longs - {n - 1}) + (if lasted then {n} else {})|
  {
  }

  /** No block alerts twice. */
  lemma NoBlockAlertsTwice(ts: seq<Tick>, i: nat, j: nat, threshold: real)
    requires TimeFlows(ts) && i < j && Crosses(ts, i, threshold) && Crosses(ts, j, threshold)
    ensures BlockStart(ts, i) != BlockStart(ts, j)
  {
    if BlockStart(ts, i) == BlockStart(ts, j) {
      SameBlock(ts, i, j - 1, j);
    }
  }

  lemma {:induction false} SameBlock(ts: seq<Tick>, i: nat, k: nat, j: nat)
    requires i <= k <= j && Fails(ts, i) && Fails(ts, j) && BlockStart(ts, i) == BlockStart(ts, j)
    ensures Fails(ts, k) && BlockStart(ts, k) == BlockStart(ts, j)
    decreases j - k
  {
    if k < j {
      SameBlock(ts, i, k + 1, j);
    }
  }
}
