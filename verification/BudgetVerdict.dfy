/**
 What each entry's gates say of a measurement, and what a passing verdict means
 for every budget the specification states.
 */
module BudgetVerdict {
  import opened Common
  import opened Text
  import Wakes
  import opened BudgetGates

  /** What was measured, by entry. */
  type Measurements = map<Key, real>

  datatype Reason = NoTierForPlatform | NoRunnerForTier | NoPinnedRunner | OtherHost | NotProduced

  datatype Unmeasured = Unmeasured(position: nat, reason: Reason, blocking: bool)

  datatype TierState = UnknownTier | NotDeclared | NotPinned | Ready

  function TierStateOf(platform: string, runners: map<string, Runner>): TierState {
    if TierOf(platform).None? then UnknownTier
    else if TierOf(platform).value !in runners then NotDeclared
    else if Pinned(runners[TierOf(platform).value]) then Ready
    else NotPinned
  }

  predicate Hardware(e: Entry) { e.criterion in HARDWARE_DEPENDENT }

  /** An entry with no figure to compare, or one in another unit, is left to the budget file's gate. */
  predicate Comparable(e: Entry) {
    HasIdentity(e) && e.figure.Some? && e.baseline.Some? && e.unit == UnitOf(e.criterion)
  }

  function WhyUnmeasured(e: Entry, runners: map<string, Runner>, host: Option<string>): Reason {
    if Hardware(e) then
      match TierStateOf(e.platform, runners)
      case UnknownTier => NoTierForPlatform
      case NotDeclared => NoRunnerForTier
      case NotPinned => NoPinnedRunner
      case Ready => NotProduced
    else if host != Some(e.platform) then OtherHost
    else NotProduced
  }

  /** Why a measurement above the figure is advice rather than a failure, or a failure. */
  function WhyAbove(e: Entry, runners: map<string, Runner>): Why {
    if ExemptionHolds(e) then Exempt
    else if !Hardware(e) then Breach
    else
      match TierStateOf(e.platform, runners)
      case UnknownTier => NoTier
      case NotDeclared => UndeclaredTier
      case NotPinned => Why.UnpinnedTier
      case Ready => Breach
  }

  predicate Advice(why: Why) { why == Exempt || why == Why.UnpinnedTier }

  function Allowed(e: Entry): real
    requires e.baseline.Some?
  {
    e.baseline.value * (1.0 + ToleranceOf(e) / 100.0)
  }

  function UnmeasuredOf(e: Entry, i: nat, m: Measurements, runners: map<string, Runner>, host: Option<string>): seq<Unmeasured> {
    if Comparable(e) && KeyOf(e) !in m then
      var why := WhyUnmeasured(e, runners, host);
      [Unmeasured(i, why, why != NoPinnedRunner)]
    else []
  }

  /** What the absolute gate says of an entry: as failures, or as advice. */
  function AbsoluteOf(e: Entry, i: nat, m: Measurements, runners: map<string, Runner>, advice: bool): seq<Failure> {
    if Comparable(e) && KeyOf(e) in m && m[KeyOf(e)] > e.figure.value && Advice(WhyAbove(e, runners)) == advice
    then [AboveFigure(i, WhyAbove(e, runners))]
    else []
  }

  function RegressionOf(e: Entry, i: nat, m: Measurements): seq<Failure> {
    if Comparable(e) && KeyOf(e) in m && e.baseline.value > 0.0 && m[KeyOf(e)] > Allowed(e) then [WorseThanBaseline(i)]
    else []
  }

  function AllUnmeasured(entries: seq<Entry>, m: Measurements, runners: map<string, Runner>, host: Option<string>): seq<Unmeasured> {
    if entries == [] then []
    else
      var n := |entries| - 1;
      AllUnmeasured(entries[..n], m, runners, host) + UnmeasuredOf(entries[n], n, m, runners, host)
  }

  function AllAbsolute(entries: seq<Entry>, m: Measurements, runners: map<string, Runner>, advice: bool): seq<Failure> {
    if entries == [] then []
    else
      var n := |entries| - 1;
      AllAbsolute(entries[..n], m, runners, advice) + AbsoluteOf(entries[n], n, m, runners, advice)
  }

  function AllRegressions(entries: seq<Entry>, m: Measurements): seq<Failure> {
    if entries == [] then []
    else
      var n := |entries| - 1;
      AllRegressions(entries[..n], m) + RegressionOf(entries[n], n, m)
  }

  /** One entry's turn: unmeasured, or compared with its figure and with its baseline. */
  method CompareEntry(e: Entry, i: nat, m: Measurements, runners: map<string, Runner>, host: Option<string>,
                      absolute: Gate, regression: Gate)
    returns (unmeasured: seq<Unmeasured>)
    requires absolute.Valid() && regression.Valid() && absolute != regression
    modifies absolute, regression
    ensures absolute.Valid() && regression.Valid()
    ensures absolute.blocking == old(absolute.blocking) + AbsoluteOf(e, i, m, runners, false)
    ensures absolute.advisory == old(absolute.advisory) + AbsoluteOf(e, i, m, runners, true)
    ensures regression.blocking == old(regression.blocking) + RegressionOf(e, i, m)
    ensures unmeasured == UnmeasuredOf(e, i, m, runners, host)
  {
    hide Comparable, WhyUnmeasured, WhyAbove, Picked, Allowed, Advice;
    ComparableHasFigures(e);
    var key := KeyOf(e);
    if !Comparable(e) {
      return [];
    }
    if key !in m {
      var why := WhyUnmeasured(e, runners, host);
      return [Unmeasured(i, why, why != NoPinnedRunner)];
    }
    if m[key] > e.figure.value {
      var why := WhyAbove(e, runners);
      if Advice(why) {
        absolute.Advise(AboveFigure(i, why));
      } else {
        absolute.Block(AboveFigure(i, why), false);
      }
    }
    if e.baseline.value > 0.0 && m[key] > Allowed(e) {
      regression.Block(WorseThanBaseline(i), false);
    }
    unmeasured := [];
  }

  lemma ComparableHasFigures(e: Entry)
    ensures Comparable(e) ==> e.figure.Some? && e.baseline.Some?
  {
  }

  method RunGates(b: Budgets, m: Measurements, host: Option<string>)
    returns (absolute: Gate, regression: Gate, unmeasured: seq<Unmeasured>)
    ensures fresh(absolute) && fresh(regression)
    ensures absolute.blocking == AllAbsolute(b.entries, m, b.runners, false)
    ensures absolute.advisory == AllAbsolute(b.entries, m, b.runners, true)
    ensures regression.blocking == AllRegressions(b.entries, m)
    ensures unmeasured == AllUnmeasured(b.entries, m, b.runners, host)
  {
    hide AbsoluteOf, RegressionOf, UnmeasuredOf, Picked;
    absolute := new Gate();
    regression := new Gate();
    unmeasured := [];
    for i := 0 to |b.entries|
      invariant absolute.Valid() && regression.Valid() && absolute != regression && fresh(absolute) && fresh(regression)
      invariant absolute.blocking == AllAbsolute(b.entries[..i], m, b.runners, false)
      invariant absolute.advisory == AllAbsolute(b.entries[..i], m, b.runners, true)
      invariant regression.blocking == AllRegressions(b.entries[..i], m)
      invariant unmeasured == AllUnmeasured(b.entries[..i], m, b.runners, host)
    {
      assert b.entries[..i + 1][..i] == b.entries[..i];
      var more := CompareEntry(b.entries[i], i, m, b.runners, host, absolute, regression);
      unmeasured := unmeasured + more;
    }
    assert b.entries[..|b.entries|] == b.entries;
  }

  // ---- the verdict ----

  datatype Flags = Flags(allowUnmeasured: bool, allowUnpinned: bool)

  predicate NoneBlocks(unmeasured: seq<Unmeasured>) { forall u | u in unmeasured :: !u.blocking }

  predicate Passes(b: Budgets, m: Measurements, host: Option<string>, flags: Flags) {
    && FileIsSound(b)
    && (flags.allowUnpinned || AllPinned(b.runners))
    && AllAbsolute(b.entries, m, b.runners, false) == []
    && AllRegressions(b.entries, m) == []
    && (flags.allowUnmeasured || NoneBlocks(AllUnmeasured(b.entries, m, b.runners, host)))
  }

  method Verdict(b: Budgets, m: Measurements, host: Option<string>, flags: Flags) returns (passed: bool)
    ensures passed <==> Passes(b, m, host, flags)
  {
    hide FileIsSound, AllPinned, AllAbsolute, AllRegressions, AllUnmeasured;
    var file := new Gate();
    CheckBudgetFile(b, file);
    PickedParts(file.blocking, file.tags);
    if flags.allowUnpinned {
      file.DeferUnpinned();
    }
    var absolute, regression, unmeasured := RunGates(b, m, host);
    var blocked := false;
    for i := 0 to |unmeasured|
      invariant blocked <==> exists k :: 0 <= k < i && unmeasured[k].blocking
    {
      if unmeasured[i].blocking {
        blocked := true;
      }
    }
    passed := file.blocking == [] && regression.blocking == [] && absolute.blocking == [] && (flags.allowUnmeasured || !blocked);
  }

  // ---- what passing means ----

  lemma {:induction false} SilentGatesAreSilentOnEach(entries: seq<Entry>, m: Measurements, runners: map<string, Runner>,
                                                     host: Option<string>, i: nat)
    requires i < |entries|
    ensures AllAbsolute(entries, m, runners, false) == [] ==> AbsoluteOf(entries[i], i, m, runners, false) == []
    ensures AllRegressions(entries, m) == [] ==> RegressionOf(entries[i], i, m) == []
    ensures NoneBlocks(AllUnmeasured(entries, m, runners, host)) ==> NoneBlocks(UnmeasuredOf(entries[i], i, m, runners, host))
  {
    hide AbsoluteOf, RegressionOf, UnmeasuredOf;
    var n := |entries| - 1;
    if i < n {
      SilentGatesAreSilentOnEach(entries[..n], m, runners, host, i);
    }
  }

  /** The one entry that declares a budget. */
  ghost predicate DeclaredAt(entries: seq<Entry>, key: Key, i: int) {
    && 0 <= i < |entries| && KeyOf(entries[i]) == key
    && forall j | 0 <= j < |entries| && j != i :: KeyOf(entries[j]) != key
  }

  /** A hardware-dependent budget whose tier has no pinned machine, when that is allowed to wait. */
  predicate Deferred(e: Entry, runners: map<string, Runner>, flags: Flags) {
    flags.allowUnpinned && Hardware(e) && TierStateOf(e.platform, runners) == NotPinned
  }

  predicate BudgetIsMet(e: Entry, runners: map<string, Runner>, m: Measurements, flags: Flags) {
    && e.figure.Some? && e.baseline.Some?
    && if KeyOf(e) in m then
         && (m[KeyOf(e)] <= e.figure.value || ExemptionHolds(e) || Deferred(e, runners, flags))
         && (e.baseline.value > 0.0 ==> m[KeyOf(e)] <= 1.05 * e.baseline.value)
       else flags.allowUnmeasured || Deferred(e, runners, flags)
  }

  ghost predicate StatedBudgetIsMet(b: Budgets, m: Measurements, flags: Flags, key: Key) {
    exists i :: DeclaredAt(b.entries, key, i) && BudgetIsMet(b.entries[i], b.runners, m, flags)
  }

  /** With nothing deferred: measured, at most its figure unless exempt, and no worse than its baseline by over 5%. */
  ghost predicate StatedBudgetIsKept(b: Budgets, m: Measurements, key: Key) {
    && key in m
    && exists i ::
         && DeclaredAt(b.entries, key, i) && b.entries[i].figure.Some? && b.entries[i].baseline.Some?
         && (m[key] <= b.entries[i].figure.value || ExemptionHolds(b.entries[i]))
         && (b.entries[i].baseline.value > 0.0 ==> m[key] <= 1.05 * b.entries[i].baseline.value)
  }

  /**
   What a pass says of every budget the specification states: one entry declares it. Measured, it is at most its
   figure, unless the entry holds a spike exemption naming that figure or waits for its machine; and exempt or
   waiting, it is at most 5% above a baseline that was ever measured. Unmeasured, it waits, or a flag says so.
   */
  lemma PassingMeansWithinBudget(b: Budgets, m: Measurements, host: Option<string>, flags: Flags, key: Key)
    requires Passes(b, m, host, flags) && key in ClosedList()
    ensures StatedBudgetIsMet(b, m, flags, key)
  {
    hide ClosedList, EntryIsSound, HasIdentity, Wakes.EnumerationIsSound, ExemptionHolds, Pinned;
    var i :| 0 <= i < |b.entries| && KeyOf(b.entries[i]) == key;
    assert DeclaredAt(b.entries, key, i);
    var e := b.entries[i];
    assert Comparable(e) && 0.0 <= e.baseline.value && 0.0 <= ToleranceOf(e) <= MAX_TOLERANCE by {
      SoundEntry(e);
    }
    SilentGatesAreSilentOnEach(b.entries, m, b.runners, host, i);
    DeclaredTier(b, key);
    if key in m {
      assert e.baseline.value > 0.0 ==> m[key] <= Allowed(e);
      ToleranceIsSmall(e);
    } else if !flags.allowUnmeasured {
      var why := WhyUnmeasured(e, b.runners, host);
      assert UnmeasuredOf(e, i, m, b.runners, host)[0] == Unmeasured(i, why, why != NoPinnedRunner);
    }
  }

  lemma SoundEntry(e: Entry)
    requires EntryIsSound(e) && HasIdentity(e)
    ensures Comparable(e) && 0.0 <= e.baseline.value && 0.0 <= ToleranceOf(e) <= MAX_TOLERANCE
  {
  }

  /** Every budget's platform has a tier, and a sound file declares it; unless deferred, it is pinned. */
  lemma DeclaredTier(b: Budgets, key: Key)
    requires RunnersAreSound(b.runners) && key in ClosedList()
    ensures TierStateOf(key.2, b.runners) in {NotPinned, Ready}
    ensures AllPinned(b.runners) ==> TierStateOf(key.2, b.runners) == Ready
  {
  }

  lemma ToleranceIsSmall(e: Entry)
    requires e.baseline.Some? && 0.0 <= e.baseline.value && 0.0 <= ToleranceOf(e) <= MAX_TOLERANCE
    ensures Allowed(e) <= 1.05 * e.baseline.value
  {
  }

  /** With nothing deferred, every budget stated was measured, and is at most its figure unless exempt. */
  lemma PassingUndeferred(b: Budgets, m: Measurements, host: Option<string>, key: Key)
    requires Passes(b, m, host, Flags(false, false)) && key in ClosedList()
    ensures StatedBudgetIsKept(b, m, key)
  {
    hide Passes, ExemptionHolds;
    PassingMeansWithinBudget(b, m, host, Flags(false, false), key);
    var i :| DeclaredAt(b.entries, key, i) && BudgetIsMet(b.entries[i], b.runners, m, Flags(false, false));
  }

  /** The wakes a passing file enumerates take no more than they may in any window, where no count is clamped. */
  lemma PassingWakesAreSafe(b: Budgets, m: Measurements, host: Option<string>, flags: Flags)
    requires Passes(b, m, host, flags)
    ensures b.wakes.Some? && |Wakes.Readable(b.wakes.value)| == |b.wakes.value|
    ensures var wakes := Wakes.Readable(b.wakes.value); Wakes.NoneClamped(wakes) ==> Wakes.Safe(wakes)
  {
    hide RunnersAreSound, EntriesAreSound;
    Wakes.SoundEachIs(b.wakes.value);
    Wakes.GateDecidesSafety(Wakes.Readable(b.wakes.value));
  }

  // ---- exemptions ----

  /** `entries` with another exemption, or none, on the `i`th. */
  function WithExemption(entries: seq<Entry>, i: nat, exemption: Option<Exemption>): (changed: seq<Entry>)
    requires i < |entries|
    ensures |changed| == |entries|
  {
    entries[i := entries[i].(exemption := exemption)]
  }

  /** The failures of entries other than the `i`th. */
  function OfOthers(failures: seq<Failure>, i: nat): seq<Failure> {
    if failures == [] then []
    else
      var n := |failures| - 1;
      if failures[n].AboveFigure? && failures[n].position == i then OfOthers(failures[..n], i)
      else OfOthers(failures[..n], i) + [failures[n]]
  }

  lemma {:induction false} OfOthersConcat(a: seq<Failure>, b: seq<Failure>, i: nat)
    ensures OfOthers(a + b, i) == OfOthers(a, i) + OfOthers(b, i)
  {
    if b == [] {
      assert a + b == a;
    } else {
      var n := |b| - 1;
      OfOthersConcat(a, b[..n], i);
      assert (a + b)[..|a + b| - 1] == a + b[..n];
    }
  }

  /** One entry's exemption changes no regression verdict, no measurement's standing, and no other entry's
      absolute verdict or advice. */
  lemma {:induction false} ExemptionsDoNotInterfere(entries: seq<Entry>, i: nat, exemption: Option<Exemption>, m: Measurements,
                                                   runners: map<string, Runner>, host: Option<string>, advice: bool)
    requires i < |entries|
    ensures var changed := WithExemption(entries, i, exemption);
            && AllRegressions(changed, m) == AllRegressions(entries, m)
            && AllUnmeasured(changed, m, runners, host) == AllUnmeasured(entries, m, runners, host)
            && OfOthers(AllAbsolute(changed, m, runners, advice), i) == OfOthers(AllAbsolute(entries, m, runners, advice), i)
  {
    var changed := WithExemption(entries, i, exemption);
    var n := |entries| - 1;
    OneExemption(entries[n], changed[n], n, i, m, runners, host, advice);
    hide AbsoluteOf, RegressionOf, UnmeasuredOf;
    OfOthersConcat(AllAbsolute(changed[..n], m, runners, advice), AbsoluteOf(changed[n], n, m, runners, advice), i);
    OfOthersConcat(AllAbsolute(entries[..n], m, runners, advice), AbsoluteOf(entries[n], n, m, runners, advice), i);
    if i < n {
      ExemptionsDoNotInterfere(entries[..n], i, exemption, m, runners, host, advice);
      assert changed[..n] == WithExemption(entries[..n], i, exemption);
    } else {
      assert changed[..n] == entries[..n];
    }
  }

  lemma OneExemption(e: Entry, c: Entry, n: nat, i: nat, m: Measurements, runners: map<string, Runner>, host: Option<string>,
                     advice: bool)
    requires c == e || (n == i && c == e.(exemption := c.exemption))
    ensures RegressionOf(c, n, m) == RegressionOf(e, n, m)
    ensures UnmeasuredOf(c, n, m, runners, host) == UnmeasuredOf(e, n, m, runners, host)
    ensures OfOthers(AbsoluteOf(c, n, m, runners, advice), i) == OfOthers(AbsoluteOf(e, n, m, runners, advice), i)
  {
    hide Blank, UnitOf, TierStateOf, ExemptionHolds;
  }
}
