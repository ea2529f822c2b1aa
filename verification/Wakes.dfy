/**
 The gate on scheduled wakes: that what it counts bounds, in any 60-minute window and
 whatever the wakes' phases, the processor time they take.
 */
module Wakes {
  import opened Common
  import opened Text

  /** Seconds. */
  const WINDOW: real := 3600.0
  /** Milliseconds of processor time: what one wake may take, and what all may in one window. */
  const BOUND_CAP: real := 50.0
  const WINDOW_CAP: real := 500.0
  const MAX_SIZE: int := 0x7FFF_FFFF_FFFF_FFFF

  // ---- firings ----

  /** How many firings the gate counts a wake with this period for. */
  function FiringsInWindow(period: real): int
    requires period > 0.0
  {
    var firings := (WINDOW / period).Floor;
    if firings > MAX_SIZE then MAX_SIZE else firings + 1
  }

  predicate Clamped(period: real)
    requires period > 0.0
  {
    (WINDOW / period).Floor > MAX_SIZE
  }

  function WorstFirings(period: real): int
    requires period > 0.0
  {
    (WINDOW / period).Floor + 1
  }

  /** A wake's `k`th firing falls in the closed window opening at `t`. */
  predicate FiresIn(phase: real, period: real, t: real, k: int) {
    t <= phase + k as real * period <= t + WINDOW
  }

  function Range(lo: int, hi: int): (r: set<int>)
    ensures forall k :: k in r <==> lo <= k < hi
    ensures |r| == if lo < hi then hi - lo else 0
    decreases hi - lo
  {
    if hi <= lo then {} else Range(lo, hi - 1) + {hi - 1}
  }

  /** All of a wake's firings in a window, by number. */
  function Firings(phase: real, period: real, t: real): (ks: set<int>)
    requires period > 0.0
    ensures forall k :: k in ks <==> FiresIn(phase, period, t, k)
  {
    var first, last := -((phase - t) / period).Floor, ((t + WINDOW - phase) / period).Floor;
    FiringsLieBetween(phase, period, t);
    Range(first, last + 1)
  }

  lemma QuotientOrder(x: real, period: real, k: int)
    requires period > 0.0
    ensures k as real * period <= x <==> k <= (x / period).Floor
  {
    var q := x / period;
    assert q * period == x;
    assert q < k as real ==> q * period < k as real * period;
    assert k as real <= q ==> k as real * period <= q * period;
  }

  lemma Negated(k: int, x: real)
    ensures (-k) as real * x == -(k as real * x)
  {
  }

  lemma FiresIffBetween(phase: real, period: real, t: real, k: int)
    requires period > 0.0
    ensures -((phase - t) / period).Floor <= k <= ((t + WINDOW - phase) / period).Floor <==> FiresIn(phase, period, t, k)
  {
    var x, back := k as real * period, (-k) as real * period;
    var first, last := ((phase - t) / period).Floor, ((t + WINDOW - phase) / period).Floor;
    QuotientOrder(t + WINDOW - phase, period, k);
    QuotientOrder(phase - t, period, -k);
    Negated(k, period);
    assert back == -x;
    assert k <= last <==> x <= t + WINDOW - phase;
    assert -k <= first <==> back <= phase - t;
  }

  lemma FiringsLieBetween(phase: real, period: real, t: real)
    requires period > 0.0
    ensures forall k: int :: -((phase - t) / period).Floor <= k <= ((t + WINDOW - phase) / period).Floor
                             <==> FiresIn(phase, period, t, k)
  {
    forall k: int
      ensures -((phase - t) / period).Floor <= k <= ((t + WINDOW - phase) / period).Floor
              <==> FiresIn(phase, period, t, k)
    {
      FiresIffBetween(phase, period, t, k);
    }
  }

  /** The window opens on the wake's `k`th firing. */
  predicate OpensOn(phase: real, period: real, t: real, k: int) { t == phase + k as real * period }

  /** No window holds more firings than the count, and one that opens on a firing holds as many. */
  lemma WorstFiringsIsTheWorst(phase: real, period: real, t: real)
    requires period > 0.0
    ensures |Firings(phase, period, t)| <= WorstFirings(period)
    ensures (exists k :: OpensOn(phase, period, t, k)) ==> |Firings(phase, period, t)| == WorstFirings(period)
  {
    var a, b := (phase - t) / period, (t + WINDOW - phase) / period;
    assert a + b == WINDOW / period;
    assert a.Floor + b.Floor <= (a + b).Floor;
    if k :| OpensOn(phase, period, t, k) {
      assert phase - t == -(k as real * period) == (-k) as real * period;
      QuotientOf(phase - t, period, -k);
    }
    var firings := Firings(phase, period, t);
    assert firings == Range(-a.Floor, b.Floor + 1) by {
      FiringsLieBetween(phase, period, t);
    }
  }

  lemma QuotientOf(x: real, period: real, k: int)
    requires period > 0.0 && x == k as real * period
    ensures x / period == k as real
  {
  }

  // ---- all wakes together ----

  type Positive = x: real | x > 0.0 witness 1.0

  datatype Wake = Wake(period: Positive, bound: Positive)

  function Cost(bound: real, firings: int): real { bound * firings as real }

  /** What the gate adds up. */
  function GateTotal(wakes: seq<Wake>): real {
    if wakes == [] then 0.0
    else
      var last := wakes[|wakes| - 1];
      GateTotal(wakes[..|wakes| - 1]) + Cost(last.bound, FiringsInWindow(last.period))
  }

  /** The processor time the wakes take, each at its bound, in the window opening at `t`. */
  function TimeIn(wakes: seq<Wake>, phases: seq<real>, t: real): real
    requires |phases| == |wakes|
  {
    if wakes == [] then 0.0
    else
      var n := |wakes| - 1;
      TimeIn(wakes[..n], phases[..n], t) + Cost(wakes[n].bound, |Firings(phases[n], wakes[n].period, t)|)
  }

  function WorstTotal(wakes: seq<Wake>): real {
    if wakes == [] then 0.0
    else
      var last := wakes[|wakes| - 1];
      WorstTotal(wakes[..|wakes| - 1]) + Cost(last.bound, WorstFirings(last.period))
  }

  predicate WithinBoundCap(wakes: seq<Wake>) { forall i | 0 <= i < |wakes| :: wakes[i].bound <= BOUND_CAP }

  predicate Passes(wakes: seq<Wake>) { WithinBoundCap(wakes) && GateTotal(wakes) <= WINDOW_CAP }

  /** What the gate is for: no wake, and no window whatever the phases, takes more than it may. */
  ghost predicate Safe(wakes: seq<Wake>) {
    && WithinBoundCap(wakes)
    && forall phases: seq<real>, t: real | |phases| == |wakes| :: TimeIn(wakes, phases, t) <= WINDOW_CAP
  }

  predicate NoneClamped(wakes: seq<Wake>) { forall i | 0 <= i < |wakes| :: !Clamped(wakes[i].period) }

  lemma MoreCostsMore(bound: Positive, a: int, b: int)
    requires a <= b
    ensures Cost(bound, a) <= Cost(bound, b)
    ensures a < b ==> Cost(bound, a) < Cost(bound, b)
  {
  }

  lemma {:induction false} WorstIsWorst(wakes: seq<Wake>, phases: seq<real>, t: real)
    requires |phases| == |wakes|
    ensures TimeIn(wakes, phases, t) <= WorstTotal(wakes)
  {
    hide Cost, WorstFirings, Firings;
    if wakes != [] {
      var n := |wakes| - 1;
      WorstIsWorst(wakes[..n], phases[..n], t);
      WorstFiringsIsTheWorst(phases[n], wakes[n].period, t);
      MoreCostsMore(wakes[n].bound, |Firings(phases[n], wakes[n].period, t)|, WorstFirings(wakes[n].period));
    }
  }

  function InPhase(n: nat, t: real): (phases: seq<real>)
    ensures |phases| == n && forall i | 0 <= i < n :: phases[i] == t
  {
    seq(n, _ => t)
  }

  lemma InPhaseIsWorst(period: Positive, t: real)
    ensures |Firings(t, period, t)| == WorstFirings(period)
  {
  }

  /** The worst comes about, in every window, when all the wakes fire as it opens. */
  lemma {:induction false} WorstComesAbout(wakes: seq<Wake>, t: real)
    ensures TimeIn(wakes, InPhase(|wakes|, t), t) == WorstTotal(wakes)
  {
    hide Cost, WorstFirings, Firings;
    if wakes != [] {
      var n := |wakes| - 1;
      WorstComesAbout(wakes[..n], t);
      assert InPhase(|wakes|, t)[..n] == InPhase(n, t);
      InPhaseIsWorst(wakes[n].period, t);
    }
  }

  /** The gate never adds up more than the worst, and less just where it clamps a count. */
  lemma {:induction false} GateAgainstWorst(wakes: seq<Wake>)
    ensures GateTotal(wakes) <= WorstTotal(wakes)
    ensures NoneClamped(wakes) <==> GateTotal(wakes) == WorstTotal(wakes)
  {
    hide Cost, WorstFirings, Clamped, FiringsInWindow;
    if wakes != [] {
      var n := |wakes| - 1;
      GateAgainstWorst(wakes[..n]);
      assert NoneClamped(wakes) <==> NoneClamped(wakes[..n]) && !Clamped(wakes[n].period);
      ClampCountsFewer(wakes[n].period);
      MoreCostsMore(wakes[n].bound, FiringsInWindow(wakes[n].period), WorstFirings(wakes[n].period));
    }
  }

  lemma ClampCountsFewer(period: Positive)
    ensures FiringsInWindow(period) <= WorstFirings(period)
    ensures Clamped(period) <==> FiringsInWindow(period) < WorstFirings(period)
    ensures FiringsInWindow(period) >= 1
    ensures Clamped(period) ==> FiringsInWindow(period) >= 1000
  {
  }

  lemma SafeIffWorstIsWithinCap(wakes: seq<Wake>)
    ensures Safe(wakes) <==> WithinBoundCap(wakes) && WorstTotal(wakes) <= WINDOW_CAP
  {
    WorstComesAbout(wakes, 0.0);
    forall phases: seq<real>, t: real | |phases| == |wakes| ensures TimeIn(wakes, phases, t) <= WorstTotal(wakes) {
      WorstIsWorst(wakes, phases, t);
    }
  }

  /** Wakes that are safe pass; wakes that pass are safe where no count is clamped. */
  lemma GateDecidesSafety(wakes: seq<Wake>)
    ensures Safe(wakes) ==> Passes(wakes)
    ensures NoneClamped(wakes) ==> (Passes(wakes) <==> Safe(wakes))
  {
    SafeIffWorstIsWithinCap(wakes);
    GateAgainstWorst(wakes);
  }

  // ---- what the clamp hides ----

  /** `k` of `n` equal parts of one. */
  function Part(n: nat, k: nat): real
    requires n > 0
  {
    k as real * (1.0 / n as real)
  }

  lemma Parts(n: nat, k: nat)
    requires 0 < k <= n
    ensures Part(n, k) == Part(n, k - 1) + Part(n, 1)
    ensures Part(n, 0) == 0.0 && Part(n, n) == 1.0 && 0.0 < Part(n, 1) <= 1.0
  {
  }

  function Share(n: nat, i: nat, j: nat): Positive
    requires n > 0
  {
    if j == i then Part(n, 1) + 499.0 else Part(n, 1)
  }

  /** Bounds that spend the cap exactly, as the gate counts, almost all of it on the `i`th wake. */
  function Spending(periods: seq<Positive>, i: nat, k: nat): (wakes: seq<Wake>)
    requires i < |periods| && k <= |periods|
    ensures |wakes| == k
    ensures forall j | 0 <= j < k :: wakes[j].period == periods[j]
    decreases k
  {
    if k == 0 then []
    else
      assert FiringsInWindow(periods[k - 1]) > 0;
      Spending(periods, i, k - 1)
      + [Wake(periods[k - 1], Share(|periods|, i, k - 1) / FiringsInWindow(periods[k - 1]) as real)]
  }

  lemma ShareSpent(share: Positive, f: int)
    requires f >= 1
    ensures Cost(share / f as real, f) == share
  {
  }

  lemma {:induction false} SpendingTotals(periods: seq<Positive>, i: nat, k: nat)
    requires i < |periods| && k <= |periods|
    ensures GateTotal(Spending(periods, i, k)) == Part(|periods|, k) + if i < k then 499.0 else 0.0
    decreases k
  {
    hide Cost, FiringsInWindow, Part;
    Parts(|periods|, if k == 0 then 1 else k);
    if k > 0 {
      SpendingTotals(periods, i, k - 1);
      var wakes := Spending(periods, i, k);
      assert wakes[..k - 1] == Spending(periods, i, k - 1);
      ClampCountsFewer(periods[k - 1]);
      ShareSpent(Share(|periods|, i, k - 1), FiringsInWindow(periods[k - 1]));
    }
  }

  lemma {:induction false} SpendingIsWithinCap(periods: seq<Positive>, i: nat, k: nat)
    requires i < |periods| && k <= |periods| && Clamped(periods[i])
    ensures WithinBoundCap(Spending(periods, i, k))
    decreases k
  {
    hide FiringsInWindow, Clamped, Part;
    if k > 0 {
      SpendingIsWithinCap(periods, i, k - 1);
      ClampCountsFewer(periods[k - 1]);
      var f := FiringsInWindow(periods[k - 1]) as real;
      var share := Share(|periods|, i, k - 1);
      Parts(|periods|, k);
      assert k - 1 == i ==> f >= 1000.0;
      Divided(share, f, if k - 1 == i then 1000.0 else 1.0);
    }
  }

  lemma Divided(x: Positive, f: real, least: Positive)
    requires f >= least
    ensures x / f <= x / least
  {
  }

  ghost predicate HasPeriods(wakes: seq<Wake>, periods: seq<Positive>) {
    |wakes| == |periods| && forall i | 0 <= i < |periods| :: wakes[i].period == periods[i]
  }

  /** Passing the gate means being safe, whatever the bounds, exactly where no wake's period is so short that
      its count is clamped. */
  lemma PassingIsSafeIffNothingIsClamped(periods: seq<Positive>)
    ensures (forall wakes | HasPeriods(wakes, periods) :: Passes(wakes) ==> Safe(wakes))
            <==> (forall i | 0 <= i < |periods| :: !Clamped(periods[i]))
  {
    hide Clamped, Safe, WithinBoundCap, GateTotal, WorstTotal, Part;
    if i :| 0 <= i < |periods| && Clamped(periods[i]) {
      var n := |periods|;
      var wakes := Spending(periods, i, n);
      SpendingTotals(periods, i, n);
      SpendingIsWithinCap(periods, i, n);
      Parts(n, n);
      assert HasPeriods(wakes, periods) && Clamped(wakes[i].period) && !NoneClamped(wakes);
      GateAgainstWorst(wakes);
      SafeIffWorstIsWithinCap(wakes);
      assert Passes(wakes) && !Safe(wakes);
    } else {
      forall wakes | HasPeriods(wakes, periods) && Passes(wakes) ensures Safe(wakes) {
        GateDecidesSafety(wakes);
      }
    }
  }

  /** Such a wake, of decimals a file can state: it passes, and takes over three times the cap in every window. */
  lemma ClampHidesCost()
    ensures var wakes := [Wake(0.000_000_000_000_000_1, 0.000_000_000_000_000_05)];
            Passes(wakes) && !Safe(wakes) && WorstTotal(wakes) > 3.0 * WINDOW_CAP
  {
    var period: Positive := 0.000_000_000_000_000_1;
    var bound: Positive := 0.000_000_000_000_000_05;
    var wakes := [Wake(period, bound)];
    assert WINDOW / period == 36_000_000_000_000_000_000.0;
    assert wakes[..0] == [];
    assert GateTotal(wakes) == Cost(bound, MAX_SIZE) <= WINDOW_CAP;
    assert WorstTotal(wakes) == Cost(bound, 36_000_000_000_000_000_001) > 3.0 * WINDOW_CAP;
    SafeIffWorstIsWithinCap(wakes);
  }

  // ---- the gate's loop ----

  /** A wake as the file records it; a field is `None` when it is absent or not what its schema accepts. */
  datatype Record = Record(name: Option<string>, period: Option<Positive>, bound: Option<Positive>,
                           requirement: Option<string>, extraFields: bool)

  predicate WellFormed(r: Record) {
    IsText(r.name) && r.period.Some? && r.bound.Some? && IsText(r.requirement) && !r.extraFields
  }

  datatype Failure =
    | Defective(position: nat)
    | EnumeratedTwice(position: nat)
    | BoundAboveCap(position: nat)
    | SumAboveCap(total: real)

  /** The wakes whose bounds are summed: those the schema can read. */
  function Readable(records: seq<Record>): seq<Wake> {
    if records == [] then []
    else
      var n := |records| - 1;
      if WellFormed(records[n]) then Readable(records[..n]) + [Wake(records[n].period.value, records[n].bound.value)]
      else Readable(records[..n])
  }

  predicate AllWellFormed(records: seq<Record>) { forall i | 0 <= i < |records| :: WellFormed(records[i]) }

  predicate NoneTwice(records: seq<Record>) {
    forall i, j | 0 <= i < j < |records| && IsText(records[i].name) && IsText(records[j].name) ::
      records[i].name != records[j].name
  }

  predicate EnumerationIsSound(records: seq<Record>) {
    AllWellFormed(records) && NoneTwice(records) && Passes(Readable(records))
  }

  /** The names so far. */
  function NamesOf(records: seq<Record>): set<string> {
    if records == [] then {}
    else
      var n := |records| - 1;
      if IsText(records[n].name) then NamesOf(records[..n]) + {records[n].name.value} else NamesOf(records[..n])
  }

  lemma {:induction false} NamesOfHas(records: seq<Record>, name: string)
    ensures name in NamesOf(records) <==> exists k :: 0 <= k < |records| && records[k].name == Some(name) && !Blank(name)
  {
    hide Blank;
    if records != [] {
      var n := |records| - 1;
      NamesOfHas(records[..n], name);
      if k :| 0 <= k < n && records[k].name == Some(name) && !Blank(name) {
        assert records[..n][k].name == Some(name);
      }
    }
  }

  /** Each record in order is sound on its own and names no wake an earlier one does. */
  predicate SoundEach(records: seq<Record>) {
    records == [] ||
    (var n := |records| - 1;
     && SoundEach(records[..n]) && WellFormed(records[n])
     && records[n].name.value !in NamesOf(records[..n]) && records[n].bound.value <= BOUND_CAP)
  }

  lemma {:induction false} SoundEachIs(records: seq<Record>)
    ensures SoundEach(records) <==> AllWellFormed(records) && NoneTwice(records) && WithinBoundCap(Readable(records))
    ensures AllWellFormed(records) ==> |Readable(records)| == |records|
  {
    hide Blank;
    if records != [] {
      var n := |records| - 1;
      SoundEachIs(records[..n]);
      if WellFormed(records[n]) {
        NamesOfHas(records[..n], records[n].name.value);
        if k :| 0 <= k < n && records[..n][k].name == records[n].name {
          assert records[k].name == records[n].name;
        }
        var wakes := Readable(records);
        assert wakes[..|wakes| - 1] == Readable(records[..n]) && wakes[|wakes| - 1].bound == records[n].bound.value;
        WithinBoundCapLast(wakes);
      } else {
        assert !AllWellFormed(records);
      }
      assert AllWellFormed(records) ==> AllWellFormed(records[..n]);
      assert NoneTwice(records) ==> NoneTwice(records[..n]);
    }
  }

  lemma WithinBoundCapLast(wakes: seq<Wake>)
    requires wakes != []
    ensures WithinBoundCap(wakes)
            <==> WithinBoundCap(wakes[..|wakes| - 1]) && wakes[|wakes| - 1].bound <= BOUND_CAP
  {
  }

  /** Every fault is reported, and only faults are. */
  method CheckWakes(records: seq<Record>) returns (failures: seq<Failure>)
    ensures failures == [] <==> EnumerationIsSound(records)
  {
    hide Cost, FiringsInWindow, Blank;
    failures := [];
    var names: set<string> := {};
    var total := 0.0;
    for i := 0 to |records|
      invariant names == NamesOf(records[..i])
      invariant total == GateTotal(Readable(records[..i]))
      invariant failures == [] <==> SoundEach(records[..i])
    {
      var r := records[i];
      assert records[..i + 1][..i] == records[..i];
      if !WellFormed(r) {
        failures := failures + [Defective(i)];
      }
      if IsText(r.name) {
        if r.name.value in names {
          failures := failures + [EnumeratedTwice(i)];
        }
        names := names + {r.name.value};
      }
      if WellFormed(r) {
        if r.bound.value > BOUND_CAP {
          failures := failures + [BoundAboveCap(i)];
        }
        var wake := Wake(r.period.value, r.bound.value);
        assert (Readable(records[..i]) + [wake])[..|Readable(records[..i])|] == Readable(records[..i]);
        total := total + Cost(r.bound.value, FiringsInWindow(r.period.value));
      }
    }
    assert records[..|records|] == records;
    SoundEachIs(records);
    if total > WINDOW_CAP {
      failures := failures + [SumAboveCap(total)];
    }
  }
}
