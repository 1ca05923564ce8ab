/**
 The tenant's cap on enabled strategies, applied at boot
 (bot/hypertrade/strategy_cap.py).
 */
module StrategyCap {
  import opened Common
  import opened RestoreGuard

  datatype Cap = NoCap | Malformed | Limit(n: nat)

  /** The switches as Redis has them; `optedIn` is None off mainnet. */
  datatype Switches = Switches(disabled: set<string>, optedIn: Option<set<string>>)

  /** What a boot meets: the strategies holding a position, the switches, each
      None when unreadable, and how each disable write ends. */
  datatype Boot = Boot(holding: Option<set<string>>, switches: Option<Switches>, onMainnet: bool,
                       writes: string -> Write)

  /** The strategies to run, and the disabled set afterwards. */
  datatype Outcome = Outcome(names: seq<string>, disabled: set<string>)

  function Enabled(names: seq<string>, disabled: set<string>): seq<string> {
    Keep(names, (n: string) => n !in disabled)
  }

  function Holders(names: seq<string>, holding: set<string>): seq<string> {
    Keep(names, (n: string) => n in holding)
  }

  function FirstOf(names: seq<string>, room: nat): seq<string> {
    if room < |names| then names[..room] else names
  }

  /** Every strategy holding a position, and the first flat ones the cap has
      room for, in registry order. */
  function HoldingPlusFirstFlat(names: seq<string>, holding: set<string>, cap: nat): seq<string> {
    var held := |Holders(names, holding)|;
    var flat := FirstOf(Keep(names, (n: string) => n !in holding), if cap < held then 0 else cap - held);
    Keep(names, (n: string) => n in holding || n in flat)
  }

  /** 0 holds a position, 1 may trade, 2 is not opted in. */
  function Priority(n: string, holding: set<string>, optedIn: Option<set<string>>): nat {
    if n in holding then 0 else if optedIn.None? || n in optedIn.value then 1 else 2
  }

  function Class(names: seq<string>, holding: set<string>, optedIn: Option<set<string>>, p: nat): seq<string> {
    Keep(names, (n: string) => Priority(n, holding, optedIn) == p)
  }

  /** The stable sort by priority. */
  function Ordered(names: seq<string>, holding: set<string>, optedIn: Option<set<string>>): seq<string> {
    Class(names, holding, optedIn, 0) + Class(names, holding, optedIn, 1) + Class(names, holding, optedIn, 2)
  }

  function LimitOf(enabled: seq<string>, holding: set<string>, cap: nat): nat {
    var held := |Holders(enabled, holding)|;
    if cap < held then held else cap
  }

  function Surplus(enabled: seq<string>, holding: set<string>, optedIn: Option<set<string>>, cap: nat): seq<string> {
    var ordered, limit := Ordered(enabled, holding, optedIn), LimitOf(enabled, holding, cap);
    if limit < |ordered| then ordered[limit..] else []
  }

  function Landed(surplus: seq<string>, writes: string -> Write): set<string> {
    set n | n in surplus && !writes(n).Fails?
  }

  function Failed(surplus: seq<string>, writes: string -> Write): set<string> {
    set n | n in surplus && !writes(n).Lands?
  }

  /** `enforce_strategy_cap`. */
  function Enforce(names: seq<string>, cap: Cap, disabled: set<string>, b: Boot): Outcome
    requires b.switches.Some? ==> b.switches.value.disabled == disabled
  {
    if cap.NoCap? || b.holding.None? then Outcome(names, disabled)
    else
      var holding := b.holding.value;
      if cap.Malformed? then Outcome(Holders(names, holding), disabled)
      else if b.switches.None? then
        Outcome(if b.onMainnet then Holders(names, holding) else HoldingPlusFirstFlat(names, holding, cap.n), disabled)
      else
        var surplus := Surplus(Enabled(names, disabled), holding, b.switches.value.optedIn, cap.n);
        var failed := Failed(surplus, b.writes);
        Outcome(Keep(names, (n: string) => n !in failed), disabled + Landed(surplus, b.writes))
  }

  /** The disabled set, written strategy by strategy. */
  class StrategySwitches {
    var disabled: set<string>

    constructor ()
      ensures disabled == {}
    {
      disabled := {};
    }

    /** False when the write raises. */
    method DisableStrategy(n: string, w: Write) returns (ok: bool)
      modifies this
      ensures disabled == old(disabled) + (if w.Fails? then {} else {n}) && ok == w.Lands?
    {
      if !w.Fails? {
        disabled := disabled + {n};
      }
      return w.Lands?;
    }

    method TrimSurplus(surplus: seq<string>, writes: string -> Write) returns (failed: set<string>)
      modifies this
      ensures failed == Failed(surplus, writes) && disabled == old(disabled) + Landed(surplus, writes)
    {
      failed := {};
      var i := 0;
      while i < |surplus|
        invariant i <= |surplus|
        invariant failed == Failed(surplus[..i], writes) && disabled == old(disabled) + Landed(surplus[..i], writes)
      {
        assert surplus[..i + 1] == surplus[..i] + [surplus[i]];
        var ok := DisableStrategy(surplus[i], writes(surplus[i]));
        if !ok {
          failed := failed + {surplus[i]};
        }
        i := i + 1;
      }
      assert surplus[..i] == surplus;
    }

    method EnforceStrategyCap(names: seq<string>, cap: Cap, b: Boot) returns (run: seq<string>)
      requires b.switches.Some? ==> b.switches.value.disabled == disabled
      modifies this
      ensures Outcome(run, disabled) == Enforce(names, cap, old(disabled), b)
    {
      if cap.NoCap? || b.holding.None? {
        return names;
      }
      var holding := b.holding.value;
      if cap.Malformed? || (b.switches.None? && b.onMainnet) {
        return Holders(names, holding);
      }
      if b.switches.None? {
        return HoldingPlusFirstFlat(names, holding, cap.n);
      }
      var surplus := Surplus(Enabled(names, disabled), holding, b.switches.value.optedIn, cap.n);
      var failed := TrimSurplus(surplus, b.writes);
      return Keep(names, (n: string) => n !in failed);
    }
  }

  // ----- Who is trimmed ---------------------------------------------------

  predicate Distinct(names: seq<string>) {
    forall i, j :: 0 <= i < j < |names| ==> names[i] != names[j]
  }

  lemma {:induction false} ClassesPermute(names: seq<string>, holding: set<string>, optedIn: Option<set<string>>)
    ensures multiset(Class(names, holding, optedIn, 0)) + multiset(Class(names, holding, optedIn, 1))
            + multiset(Class(names, holding, optedIn, 2)) == multiset(names)
  {
    if names != [] {
      ClassesPermute(names[1..], holding, optedIn);
      ClassHead(names, holding, optedIn, 0);
      ClassHead(names, holding, optedIn, 1);
      ClassHead(names, holding, optedIn, 2);
      MultisetCons(names);
      assert Priority(names[0], holding, optedIn) in {0, 1, 2};
    }
  }

  lemma ClassHead(names: seq<string>, holding: set<string>, optedIn: Option<set<string>>, p: nat)
    requires names != []
    ensures multiset(Class(names, holding, optedIn, p))
         == (if Priority(names[0], holding, optedIn) == p then multiset{names[0]} else multiset{})
            + multiset(Class(names[1..], holding, optedIn, p))
  {
  }

  lemma OrderedPermutes(names: seq<string>, holding: set<string>, optedIn: Option<set<string>>)
    ensures multiset(Ordered(names, holding, optedIn)) == multiset(names)
  {
    ClassesPermute(names, holding, optedIn);
  }

  /** No strategy that holds a position is surplus. */
  lemma HoldersAreKept(enabled: seq<string>, holding: set<string>, optedIn: Option<set<string>>, cap: nat, n: string)
    requires n in Surplus(enabled, holding, optedIn, cap)
    ensures n !in holding && n in enabled
  {
    KeepCong(enabled, (m: string) => Priority(m, holding, optedIn) == 0, (m: string) => m in holding);
    var ordered, limit := Ordered(enabled, holding, optedIn), LimitOf(enabled, holding, cap);
    var i :| limit <= i < |ordered| && ordered[i] == n;
    assert n in Class(enabled, holding, optedIn, 1) || n in Class(enabled, holding, optedIn, 2);
  }

  /** A strategy holding a position is never newly disabled and never dropped,
      whatever cannot be read or written. */
  lemma HoldersSurvive(names: seq<string>, cap: Cap, disabled: set<string>, b: Boot, n: string)
    requires b.switches.Some? ==> b.switches.value.disabled == disabled
    requires n in names && (b.holding.Some? ==> n in b.holding.value)
    ensures var o := Enforce(names, cap, disabled, b); n in o.names && (n in o.disabled <==> n in disabled)
  {
    if b.holding.Some? && cap.Limit? {
      var holding := b.holding.value;
      KeepMember(names, (m: string) => m in holding, n);
      if b.switches.None? {
        var flat := FirstOf(Keep(names, (m: string) => m !in holding),
                            if cap.n < |Holders(names, holding)| then 0 else cap.n - |Holders(names, holding)|);
        KeepMember(names, (m: string) => m in holding || m in flat, n);
      } else {
        var surplus := Surplus(Enabled(names, disabled), holding, b.switches.value.optedIn, cap.n);
        if n in surplus {
          HoldersAreKept(Enabled(names, disabled), holding, b.switches.value.optedIn, cap.n, n);
        }
        KeepMember(names, (m: string) => m !in Failed(surplus, b.writes), n);
      }
    } else if b.holding.Some? {
      KeepMember(names, (m: string) => m in b.holding.value, n);
    }
  }

  /** No opted-in flat strategy is trimmed while one that is not opted in keeps
      running. */
  lemma OptedInGoFirst(enabled: seq<string>, holding: set<string>, optedIn: set<string>, cap: nat, n: string, m: string)
    requires n in Surplus(enabled, holding, Some(optedIn), cap) && n in optedIn
    requires m in enabled && m !in holding && m !in optedIn
    ensures m in Surplus(enabled, holding, Some(optedIn), cap)
  {
    var some := Some(optedIn);
    HoldersAreKept(enabled, holding, some, cap, n);
    KeepMember(enabled, (x: string) => Priority(x, holding, some) == 2, m);
    var ordered, limit := Ordered(enabled, holding, some), LimitOf(enabled, holding, cap);
    var i :| limit <= i < |ordered| && ordered[i] == n;
    var last := Class(enabled, holding, some, 2);
    assert n !in last;
    assert i < |ordered| - |last|;
    var k :| 0 <= k < |last| && last[k] == m;
    assert ordered[|ordered| - |last| + k] == m;
  }

  predicate Subsequence(xs: seq<string>, ys: seq<string>) {
    xs == [] || (ys != [] && if xs[0] == ys[0] then Subsequence(xs[1..], ys[1..]) else Subsequence(xs, ys[1..]))
  }

  lemma {:induction false} KeepIsSubsequence(names: seq<string>, p: string -> bool)
    requires Distinct(names)
    ensures Subsequence(Keep(names, p), names)
  {
    if names != [] {
      KeepIsSubsequence(names[1..], p);
      var kept := Keep(names[1..], p);
      if p(names[0]) {
        assert ([names[0]] + kept)[1..] == kept;
      } else if kept != [] {
        assert kept[0] in names[1..];
      }
    }
  }

  /** Whatever is dropped, what runs stays in registry order. */
  lemma RegistryOrderKept(names: seq<string>, cap: Cap, disabled: set<string>, b: Boot)
    requires Distinct(names) && (b.switches.Some? ==> b.switches.value.disabled == disabled)
    ensures Subsequence(Enforce(names, cap, disabled, b).names, names)
  {
    KeepIsSubsequence(names, (n: string) => true);
    KeepAll(names, (n: string) => true);
    if b.holding.Some? && cap.Limit? {
      var holding := b.holding.value;
      KeepIsSubsequence(names, (n: string) => n in holding);
      if b.switches.None? {
        var held := |Holders(names, holding)|;
        var flat := FirstOf(Keep(names, (n: string) => n !in holding), if cap.n < held then 0 else cap.n - held);
        KeepIsSubsequence(names, (n: string) => n in holding || n in flat);
      } else {
        var surplus := Surplus(Enabled(names, disabled), holding, b.switches.value.optedIn, cap.n);
        var failed := Failed(surplus, b.writes);
        KeepIsSubsequence(names, (n: string) => n !in failed);
      }
    } else if b.holding.Some? {
      var holding := b.holding.value;
      KeepIsSubsequence(names, (n: string) => n in holding);
    }
  }

  // ----- How many run -----------------------------------------------------

  lemma {:induction false} KeepDistinct(names: seq<string>, p: string -> bool)
    requires Distinct(names)
    ensures Distinct(Keep(names, p))
  {
    if names != [] {
      KeepDistinct(names[1..], p);
      var kept := Keep(names[1..], p);
      forall j | 0 <= j < |kept| ensures kept[j] != names[0] {
        assert kept[j] in names[1..];
      }
    }
  }

  lemma {:induction false} DistinctWithin(xs: seq<string>, ys: seq<string>)
    requires Distinct(xs) && forall x :: x in xs ==> x in ys
    ensures |xs| <= |ys|
    decreases xs
  {
    if xs != [] {
      assert xs[0] in ys;
      var i :| 0 <= i < |ys| && ys[i] == xs[0];
      var rest := ys[..i] + ys[i + 1..];
      forall x | x in xs[1..] ensures x in rest {
        assert x in ys;
        var j :| 0 <= j < |ys| && ys[j] == x;
        assert j != i;
        if j < i { assert rest[j] == x; } else { assert rest[j - 1] == x; }
      }
      DistinctWithin(xs[1..], rest);
    }
  }

  /** What runs after the trim: enabled, and instantiated. */
  function Running(o: Outcome): seq<string> {
    Enabled(o.names, o.disabled)
  }

  lemma RunningIsKept(names: seq<string>, disabled: set<string>, b: Boot, cap: nat, n: string)
    requires b.holding.Some? && b.switches.Some? && b.switches.value.disabled == disabled
    requires n in Running(Enforce(names, Limit(cap), disabled, b))
    ensures var enabled := Enabled(names, disabled);
            n in FirstOf(Ordered(enabled, b.holding.value, b.switches.value.optedIn),
                         LimitOf(enabled, b.holding.value, cap))
  {
    var enabled, holding, optedIn := Enabled(names, disabled), b.holding.value, b.switches.value.optedIn;
    KeepMember(names, (m: string) => m !in disabled, n);
    assert n !in Surplus(enabled, holding, optedIn, cap);
    FirstOrSurplus(enabled, holding, optedIn, cap, n);
  }

  lemma FirstOrSurplus(enabled: seq<string>, holding: set<string>, optedIn: Option<set<string>>, cap: nat, n: string)
    requires n in enabled
    ensures n in FirstOf(Ordered(enabled, holding, optedIn), LimitOf(enabled, holding, cap))
         || n in Surplus(enabled, holding, optedIn, cap)
  {
    var ordered := Ordered(enabled, holding, optedIn);
    OrderedPermutes(enabled, holding, optedIn);
    assert n in multiset(ordered);
    SplitAt(ordered, LimitOf(enabled, holding, cap), n);
  }

  lemma SplitAt(xs: seq<string>, limit: nat, n: string)
    requires n in xs
    ensures n in FirstOf(xs, limit) || (limit < |xs| && n in xs[limit..])
  {
    if limit < |xs| {
      assert xs == xs[..limit] + xs[limit..];
    }
  }

  /** After the trim, however many writes fail, no more strategies run than the
      cap allows or hold positions already. */
  lemma TrimMeetsCap(names: seq<string>, disabled: set<string>, b: Boot, cap: nat)
    requires Distinct(names) && b.holding.Some? && b.switches.Some? && b.switches.value.disabled == disabled
    ensures |Running(Enforce(names, Limit(cap), disabled, b))|
            <= LimitOf(Enabled(names, disabled), b.holding.value, cap)
  {
    var o := Enforce(names, Limit(cap), disabled, b);
    var surplus := Surplus(Enabled(names, disabled), b.holding.value, b.switches.value.optedIn, cap);
    var failed := Failed(surplus, b.writes);
    KeepDistinct(names, (n: string) => n !in failed);
    KeepDistinct(o.names, (n: string) => n !in o.disabled);
    forall n | n in Running(o)
      ensures n in FirstOf(Ordered(Enabled(names, disabled), b.holding.value, b.switches.value.optedIn),
                           LimitOf(Enabled(names, disabled), b.holding.value, cap))
    {
      RunningIsKept(names, disabled, b, cap, n);
    }
    DistinctWithin(Running(o), FirstOf(Ordered(Enabled(names, disabled), b.holding.value, b.switches.value.optedIn),
                                       LimitOf(Enabled(names, disabled), b.holding.value, cap)));
  }

  /** Without Redis: the holders, and no more flat strategies than the cap has
      room for. */
  lemma BlindTrimMeetsCap(names: seq<string>, holding: set<string>, cap: nat)
    requires Distinct(names)
    ensures |HoldingPlusFirstFlat(names, holding, cap)| <= LimitOf(names, holding, cap)
  {
    var held := Holders(names, holding);
    var flat := FirstOf(Keep(names, (n: string) => n !in holding), if cap < |held| then 0 else cap - |held|);
    var kept := HoldingPlusFirstFlat(names, holding, cap);
    KeepDistinct(names, (n: string) => n in holding || n in flat);
    forall n | n in kept ensures n in held + flat {
      if n in holding {
        KeepMember(names, (m: string) => m in holding, n);
      }
    }
    DistinctWithin(kept, held + flat);
  }

  /** A second boot from the same state, once every disable write has landed,
      changes nothing. */
  lemma SecondBootChangesNothing(names: seq<string>, disabled: set<string>, b: Boot, again: Boot, cap: nat)
    requires Distinct(names) && b.holding.Some? && b.switches.Some? && b.switches.value.disabled == disabled
    requires forall n :: b.writes(n).Lands?
    requires var o := Enforce(names, Limit(cap), disabled, b);
             again.holding == b.holding && again.switches == Some(Switches(o.disabled, b.switches.value.optedIn))
    ensures var o := Enforce(names, Limit(cap), disabled, b);
            o.names == names && Enforce(names, Limit(cap), o.disabled, again) == o
  {
    var o, holding := Enforce(names, Limit(cap), disabled, b), b.holding.value;
    KeepAll(names, (n: string) => n !in {});
    var surplus := Surplus(Enabled(names, disabled), holding, b.switches.value.optedIn, cap);
    assert Failed(surplus, b.writes) == {};
    KeepCong(names, (n: string) => n !in Failed(surplus, b.writes), (n: string) => n !in {});
    TrimMeetsCap(names, disabled, b, cap);
    SameHolders(names, disabled, o.disabled, b, cap);
    OrderedPermutes(Running(o), holding, b.switches.value.optedIn);
    SameLength(Ordered(Running(o), holding, b.switches.value.optedIn), Running(o));
    var surplus2 := Surplus(Enabled(names, o.disabled), holding, b.switches.value.optedIn, cap);
    assert surplus2 == [];
    assert Failed(surplus2, again.writes) == {} && Landed(surplus2, again.writes) == {};
    KeepCong(names, (n: string) => n !in Failed(surplus2, again.writes), (n: string) => n !in {});
  }

  lemma SameLength(a: seq<string>, b: seq<string>)
    requires multiset(a) == multiset(b)
    ensures |a| == |b|
  {
    assert |multiset(a)| == |multiset(b)|;
  }

  lemma {:induction false} KeepAll(names: seq<string>, p: string -> bool)
    requires forall n :: n in names ==> p(n)
    ensures Keep(names, p) == names
  {
    if names != [] {
      KeepAll(names[1..], p);
    }
  }

  lemma SameHolders(names: seq<string>, disabled: set<string>, after: set<string>, b: Boot, cap: nat)
    requires b.holding.Some? && b.switches.Some? && b.switches.value.disabled == disabled
    requires after == Enforce(names, Limit(cap), disabled, b).disabled
    ensures Holders(Enabled(names, after), b.holding.value) == Holders(Enabled(names, disabled), b.holding.value)
  {
    var holding := b.holding.value;
    forall n | n in names && n in holding ensures n in after <==> n in disabled {
      HoldersSurvive(names, Limit(cap), disabled, b, n);
    }
    KeepKeep(names, (n: string) => n !in after, (n: string) => n in holding,
             (n: string) => n !in after && n in holding);
    KeepKeep(names, (n: string) => n !in disabled, (n: string) => n in holding,
             (n: string) => n !in disabled && n in holding);
    KeepCong(names, (n: string) => n !in after && n in holding, (n: string) => n !in disabled && n in holding);
  }

  // ----- Who is trimmed -----------------------------------------------------

  /** How many of the names ahead of `i` satisfy `p`. */
  function CountBefore(names: seq<string>, i: nat, p: string -> bool): nat
    requires i <= |names|
  {
    |Keep(names[..i], p)|
  }

  /** A name that is kept stands behind as many as are kept ahead of it. */
  lemma {:induction false} KeptAt(names: seq<string>, i: nat, p: string -> bool)
    requires i < |names| && p(names[i])
    ensures CountBefore(names, i, p) < |Keep(names, p)| && Keep(names, p)[CountBefore(names, i, p)] == names[i]
  {
    assert names == names[..i] + names[i..];
    KeepAppend(names[..i], names[i..], p);
  }

  /** A name of a sequence without duplicates is among its first `n` exactly when it
      stands there. */
  lemma StandsAt(xs: seq<string>, k: nat, n: nat)
    requires Distinct(xs) && k < |xs|
    ensures xs[k] in FirstOf(xs, n) <==> k < n
    ensures n < |xs| ==> (xs[k] in xs[n..] <==> n <= k)
  {
    if k >= n { assert xs[n..][k - n] == xs[k]; }
    if k < n { assert FirstOf(xs, n)[k] == xs[k]; }
  }

  lemma OrderedDistinct(names: seq<string>, holding: set<string>, optedIn: Option<set<string>>)
    requires Distinct(names)
    ensures Distinct(Ordered(names, holding, optedIn))
  {
    KeepDistinct(names, (n: string) => Priority(n, holding, optedIn) == 0);
    KeepDistinct(names, (n: string) => Priority(n, holding, optedIn) == 1);
    KeepDistinct(names, (n: string) => Priority(n, holding, optedIn) == 2);
    var a, b := Class(names, holding, optedIn, 0), Class(names, holding, optedIn, 1);
    var c := Class(names, holding, optedIn, 2);
    Joined(a, b);
    Joined(a + b, c);
  }

  lemma Joined(a: seq<string>, b: seq<string>)
    requires Distinct(a) && Distinct(b) && forall x :: x in a ==> x !in b
    ensures Distinct(a + b)
  {
    forall i, j | 0 <= i < j < |a + b| ensures (a + b)[i] != (a + b)[j] {
      if i < |a| <= j {
        assert (a + b)[i] in a && (a + b)[j] in b;
      }
    }
  }

  /** Which enabled strategies are surplus: those holding nothing that stand, in the order
      they are kept, behind as many as the cap allows or hold positions. Ahead of one
      that may trade are the holders and the earlier ones that may trade; ahead of one
      that is not opted in are also all that are. */
  lemma SurplusIff(enabled: seq<string>, holding: set<string>, optedIn: Option<set<string>>, cap: nat, i: nat,
                   may: string -> bool, mayNot: string -> bool)
    requires Distinct(enabled) && i < |enabled|
    requires forall n :: may(n) <==> n !in holding && (optedIn.None? || n in optedIn.value)
    requires forall n :: mayNot(n) <==> n !in holding && !may(n)
    ensures var held := |Holders(enabled, holding)|; var limit := if cap < held then held else cap;
            enabled[i] in Surplus(enabled, holding, optedIn, cap)
            <==> enabled[i] !in holding
                 && (if may(enabled[i]) then held + CountBefore(enabled, i, may)
                     else held + |Keep(enabled, may)| + CountBefore(enabled, i, mayNot)) >= limit
  {
    var held := |Holders(enabled, holding)|;
    var k := PlaceOf(enabled, holding, optedIn, i, may, mayNot);
    SurplusAt(enabled, holding, optedIn, cap, k);
  }

  lemma PlaceOf(enabled: seq<string>, holding: set<string>, optedIn: Option<set<string>>, i: nat,
                may: string -> bool, mayNot: string -> bool) returns (k: nat)
    requires i < |enabled|
    requires forall n :: may(n) <==> n !in holding && (optedIn.None? || n in optedIn.value)
    requires forall n :: mayNot(n) <==> n !in holding && !may(n)
    ensures k < |Ordered(enabled, holding, optedIn)| && Ordered(enabled, holding, optedIn)[k] == enabled[i]
    ensures var held := |Holders(enabled, holding)|;
            if enabled[i] in holding then k < held
            else if may(enabled[i]) then k == held + CountBefore(enabled, i, may)
            else k == held + |Keep(enabled, may)| + CountBefore(enabled, i, mayNot)
  {
    OrderedIs(enabled, holding, optedIn, may, mayNot);
    var held, first := Holders(enabled, holding), Keep(enabled, may);
    if enabled[i] in holding {
      KeptAt(enabled, i, (n: string) => n in holding);
      k := CountBefore(enabled, i, (n: string) => n in holding);
    } else if may(enabled[i]) {
      KeptAt(enabled, i, may);
      k := |held| + CountBefore(enabled, i, may);
    } else {
      KeptAt(enabled, i, mayNot);
      k := |held| + |first| + CountBefore(enabled, i, mayNot);
    }
  }

  lemma OrderedIs(enabled: seq<string>, holding: set<string>, optedIn: Option<set<string>>, may: string -> bool,
                  mayNot: string -> bool)
    requires forall n :: may(n) <==> n !in holding && (optedIn.None? || n in optedIn.value)
    requires forall n :: mayNot(n) <==> n !in holding && !may(n)
    ensures Ordered(enabled, holding, optedIn) == Holders(enabled, holding) + Keep(enabled, may) + Keep(enabled, mayNot)
  {
    KeepCong(enabled, (n: string) => Priority(n, holding, optedIn) == 0, (n: string) => n in holding);
    KeepCong(enabled, (n: string) => Priority(n, holding, optedIn) == 1, may);
    KeepCong(enabled, (n: string) => Priority(n, holding, optedIn) == 2, mayNot);
  }

  /** What stands `k`-th in the order is surplus exactly from the limit on. */
  lemma SurplusAt(enabled: seq<string>, holding: set<string>, optedIn: Option<set<string>>, cap: nat, k: nat)
    requires Distinct(enabled) && k < |Ordered(enabled, holding, optedIn)|
    ensures var held := |Holders(enabled, holding)|;
            Ordered(enabled, holding, optedIn)[k] in Surplus(enabled, holding, optedIn, cap)
            <==> (if cap < held then held else cap) <= k
  {
    OrderedDistinct(enabled, holding, optedIn);
    StandsAt(Ordered(enabled, holding, optedIn), k, LimitOf(enabled, holding, cap));
  }

  /** What becomes of each strategy when the switches can be read: the surplus ones are
      disabled where the write got through, and not run where it was not seen to. */
  lemma TrimIs(names: seq<string>, disabled: set<string>, b: Boot, cap: nat, n: string)
    requires b.holding.Some? && b.switches.Some? && b.switches.value.disabled == disabled
    ensures var o := Enforce(names, Limit(cap), disabled, b);
            var surplus := n in Surplus(Enabled(names, disabled), b.holding.value, b.switches.value.optedIn, cap);
            && (n in o.disabled <==> n in disabled || (surplus && b.writes(n) != Fails))
            && (n in o.names <==> n in names && !(surplus && b.writes(n) != Lands))
  {
    var failed := Failed(Surplus(Enabled(names, disabled), b.holding.value, b.switches.value.optedIn, cap), b.writes);
    if n in names && n !in failed {
      KeepMember(names, (m: string) => m !in failed, n);
    }
  }

  /** And when they cannot: a strategy runs when it holds a position, or when off mainnet
      and fewer stand ahead of it than the cap. Nothing is disabled. */
  lemma BlindTrimIs(names: seq<string>, disabled: set<string>, b: Boot, cap: nat, i: nat)
    requires Distinct(names) && i < |names| && b.holding.Some? && b.switches.None?
    ensures var o, holding := Enforce(names, Limit(cap), disabled, b), b.holding.value;
            && o.disabled == disabled
            && (names[i] in o.names
                <==> names[i] in holding
                     || (!b.onMainnet
                         && |Holders(names, holding)| + CountBefore(names, i, (n: string) => n !in holding) < cap))
  {
    var holding := b.holding.value;
    var held := |Holders(names, holding)|;
    var isFlat := (n: string) => n !in holding;
    var room := if cap < held then 0 else cap - held;
    var flat := FirstOf(Keep(names, isFlat), room);
    KeepDistinct(names, isFlat);
    if names[i] in holding {
      KeepMember(names, (n: string) => n in holding, names[i]);
    }
    if names[i] in holding || names[i] in flat {
      KeepMember(names, (n: string) => n in holding || n in flat, names[i]);
    }
    if isFlat(names[i]) {
      KeptAt(names, i, isFlat);
      StandsAt(Keep(names, isFlat), CountBefore(names, i, isFlat), room);
    }
  }

  /** Without a cap or without the positions nothing is trimmed; under a cap that is not
      a number only those holding a position run. Neither disables anything. */
  lemma NoTrimIs(names: seq<string>, cap: Cap, disabled: set<string>, b: Boot, n: string)
    requires b.switches.Some? ==> b.switches.value.disabled == disabled
    ensures var o := Enforce(names, cap, disabled, b);
            && (cap == NoCap || b.holding.None? ==> o == Outcome(names, disabled))
            && (cap == Malformed && b.holding.Some? ==>
                  o.disabled == disabled && (n in o.names <==> n in names && n in b.holding.value))
  {
    if b.holding.Some? && n in names && n in b.holding.value {
      KeepMember(names, (m: string) => m in b.holding.value, n);
    }
  }
}
