/** Exactly when a budget run passes, and exactly what its gates report. */
module BudgetExactness {
  import opened Common
  import opened Text
  import opened BudgetGates
  import opened BudgetVerdict

  /** Measured on the reference machine of its platform's tier. */
  predicate NeedsMachine(e: Entry) { e.criterion in {"SC-002", "SC-004", "SC-005", "SC-006"} }

  /** A machine is pinned once it is named in full and its display's refresh rate is known. */
  predicate IsNamed(r: Runner) {
    !Blank(r.identity) && !Blank(r.runnerLabel) && !Blank(r.osVersion) && !Blank(r.memory) && r.displayRefresh > 0.0
  }

  /** The tier an entry's platform is measured on. */
  predicate HasTier(e: Entry, tier: string) {
    (e.platform == "windows" && tier == "tier1") || (e.platform == "macos" && tier == "tier2")
  }

  /** Its machine is declared and not pinned yet. */
  predicate WaitsForMachine(e: Entry, runners: map<string, Runner>) {
    NeedsMachine(e) && exists tier | tier in runners :: HasTier(e, tier) && !IsNamed(runners[tier])
  }

  /** The entry records a spike exemption of its own figure, with a pull request and nothing else. */
  predicate IsExempt(e: Entry) {
    && e.exemption.Some? && e.exemption.value.figure == Some(e.name) && !Blank(e.name) && !e.exemption.value.extraFields
    && e.exemption.value.pullRequest.Some? && e.exemption.value.pullRequest.value >= 1
  }

  lemma ExemptIs(e: Entry)
    ensures IsExempt(e) <==> ExemptionHolds(e)
  {
    hide Blank;
  }

  lemma WaitsIs(e: Entry, runners: map<string, Runner>)
    ensures WaitsForMachine(e, runners) <==>
            NeedsMachine(e) && TierOf(e.platform).Some? && TierOf(e.platform).value in runners
            && !Pinned(runners[TierOf(e.platform).value])
  {
    hide Blank;
  }

  /** One entry's standing: measured, at most its figure, or exempt, or waiting for its machine, and in any case no further
      above a baseline that was ever measured than its tolerance; unmeasured, let off by the flag, or waiting. */
  predicate Stands(e: Entry, runners: map<string, Runner>, m: Measurements, flags: Flags) {
    && e.figure.Some? && e.baseline.Some?
    && if KeyOf(e) in m then
         && (m[KeyOf(e)] <= e.figure.value || IsExempt(e) || WaitsForMachine(e, runners))
         && (e.baseline.value > 0.0 ==>
               m[KeyOf(e)] <= e.baseline.value * (1.0 + (if e.tolerance.Some? then e.tolerance.value else 0.0) / 100.0))
       else flags.allowUnmeasured || WaitsForMachine(e, runners)
  }

  ghost predicate BudgetStands(b: Budgets, m: Measurements, flags: Flags, key: Key) {
    exists i :: DeclaredAt(b.entries, key, i) && Stands(b.entries[i], b.runners, m, flags)
  }

  // ---- one entry ----

  /** Why a measurement above the figure is advice or a failure. */
  predicate IsWhy(e: Entry, runners: map<string, Runner>, why: Why) {
    match why
    case Exempt => IsExempt(e)
    case Breach => !IsExempt(e) && (!NeedsMachine(e) || exists tier | tier in runners :: HasTier(e, tier) && IsNamed(runners[tier]))
    case NoTier => !IsExempt(e) && NeedsMachine(e) && e.platform !in {"windows", "macos"}
    case UndeclaredTier =>
      && !IsExempt(e) && NeedsMachine(e) && e.platform in {"windows", "macos"}
      && forall tier | tier in runners :: !HasTier(e, tier)
    case UnpinnedTier => !IsExempt(e) && WaitsForMachine(e, runners)
  }

  lemma WhyIs(e: Entry, runners: map<string, Runner>, why: Why)
    ensures WhyAbove(e, runners) == why <==> IsWhy(e, runners, why)
  {
    ExemptIs(e);
    WaitsIs(e, runners);
    NamedIs(runners);
    hide ExemptionHolds, IsExempt, Pinned, IsNamed;
  }

  lemma NamedIs(runners: map<string, Runner>)
    ensures forall tier | tier in runners :: IsNamed(runners[tier]) <==> Pinned(runners[tier])
  {
    hide Blank;
  }

  /** An entry the gates compare: named, with a figure and a baseline, in its criterion's unit. */
  predicate IsCompared(e: Entry) {
    && !Blank(e.criterion) && !Blank(e.name) && !Blank(e.platform)
    && e.figure.Some? && e.baseline.Some? && e.unit == UnitOf(e.criterion)
  }

  // ---- what is reported ----

  lemma {:induction false} AbsoluteReports(entries: seq<Entry>, m: Measurements, runners: map<string, Runner>, advice: bool, f: Failure)
    ensures f in AllAbsolute(entries, m, runners, advice) <==>
            && f.AboveFigure? && f.position < |entries|
            && var e := entries[f.position];
               && IsCompared(e) && KeyOf(e) in m && m[KeyOf(e)] > e.figure.value
               && IsWhy(e, runners, f.why) && (f.why in {Exempt, Why.UnpinnedTier} <==> advice)
  {
    hide IsWhy, WhyAbove, UnitOf, Blank;
    if entries != [] {
      var n := |entries| - 1;
      AbsoluteReports(entries[..n], m, runners, advice, f);
      AbsoluteReportsOne(entries[n], n, m, runners, advice, f);
      hide AbsoluteOf;
      assert f.AboveFigure? && f.position < n ==> entries[..n][f.position] == entries[f.position];
    }
  }

  lemma AbsoluteReportsOne(e: Entry, n: nat, m: Measurements, runners: map<string, Runner>, advice: bool, f: Failure)
    ensures f in AbsoluteOf(e, n, m, runners, advice) <==>
            && f.AboveFigure? && f.position == n
            && IsCompared(e) && KeyOf(e) in m && m[KeyOf(e)] > e.figure.value
            && IsWhy(e, runners, f.why) && (f.why in {Exempt, Why.UnpinnedTier} <==> advice)
  {
    hide IsWhy, WhyAbove, UnitOf, Blank;
    WhyIs(e, runners, WhyAbove(e, runners));
    if f.AboveFigure? {
      WhyIs(e, runners, f.why);
    }
  }

  lemma {:induction false} RegressionReports(entries: seq<Entry>, m: Measurements, f: Failure)
    ensures f in AllRegressions(entries, m) <==>
            && f.WorseThanBaseline? && f.position < |entries|
            && var e := entries[f.position];
               && IsCompared(e) && KeyOf(e) in m && e.baseline.value > 0.0
               && m[KeyOf(e)] > e.baseline.value * (1.0 + (if e.tolerance.Some? then e.tolerance.value else 0.0) / 100.0)
  {
    hide UnitOf, Blank;
    if entries != [] {
      var n := |entries| - 1;
      RegressionReports(entries[..n], m, f);
      assert f in RegressionOf(entries[n], n, m) <==>
             && f == WorseThanBaseline(n) && IsCompared(entries[n]) && KeyOf(entries[n]) in m && entries[n].baseline.value > 0.0
             && m[KeyOf(entries[n])] > Allowed(entries[n]);
      hide RegressionOf;
      assert f.WorseThanBaseline? && f.position < n ==> entries[..n][f.position] == entries[f.position];
    }
  }

  lemma {:induction false} UnmeasuredReports(entries: seq<Entry>, m: Measurements, runners: map<string, Runner>, host: Option<string>,
                                             u: Unmeasured)
    requires u in AllUnmeasured(entries, m, runners, host)
    ensures u.position < |entries| && IsCompared(entries[u.position]) && KeyOf(entries[u.position]) !in m
    ensures IsReason(entries[u.position], runners, host, u.reason)
    ensures u.blocking <==> !WaitsForMachine(entries[u.position], runners)
  {
    hide UnitOf, Blank, WhyUnmeasured, IsReason;
    var n := |entries| - 1;
    WaitsIffNoPinnedRunner(entries[n], runners, host);
    ReasonIs(entries[n], runners, host);
    if u in AllUnmeasured(entries[..n], m, runners, host) {
      UnmeasuredReports(entries[..n], m, runners, host, u);
      assert entries[..n][u.position] == entries[u.position];
    }
  }

  /** Why an entry has no measurement. */
  predicate IsReason(e: Entry, runners: map<string, Runner>, host: Option<string>, reason: Reason) {
    match reason
    case NoTierForPlatform => NeedsMachine(e) && e.platform !in {"windows", "macos"}
    case NoRunnerForTier =>
      NeedsMachine(e) && e.platform in {"windows", "macos"} && forall tier | tier in runners :: !HasTier(e, tier)
    case NoPinnedRunner => WaitsForMachine(e, runners)
    case OtherHost => !NeedsMachine(e) && host != Some(e.platform)
    case NotProduced =>
      if NeedsMachine(e) then exists tier | tier in runners :: HasTier(e, tier) && IsNamed(runners[tier])
      else host == Some(e.platform)
  }

  lemma ReasonIs(e: Entry, runners: map<string, Runner>, host: Option<string>)
    ensures IsReason(e, runners, host, WhyUnmeasured(e, runners, host))
  {
    WaitsIs(e, runners);
    NamedIs(runners);
    hide Pinned, IsNamed;
  }

  /** A decision is cited as its directory and four digits, after which one line break may stand. */
  lemma CitationsAre(number: string, end: string)
    requires |number| == 4
    ensures IsCitation("decisions/" + number + end) <==>
            end in {"", "\n"} && forall i | 0 <= i < 4 :: '0' <= number[i] <= '9'
  {
    var s := "decisions/" + number + end;
    assert forall i | 0 <= i < 4 :: s[10 + i] == number[i];
    assert |end| == 1 ==> end == [s[14]];
    assert s[..10] == "decisions/";
  }

  lemma WaitsIffNoPinnedRunner(e: Entry, runners: map<string, Runner>, host: Option<string>)
    ensures WhyUnmeasured(e, runners, host) == NoPinnedRunner <==> WaitsForMachine(e, runners)
  {
    WaitsIs(e, runners);
    hide Pinned, WaitsForMachine;
  }

  lemma {:induction false} UnmeasuredIsReported(entries: seq<Entry>, m: Measurements, runners: map<string, Runner>,
                                                host: Option<string>, i: nat)
    requires i < |entries| && IsCompared(entries[i]) && KeyOf(entries[i]) !in m
    ensures exists u :: u in AllUnmeasured(entries, m, runners, host) && u.position == i
                        && (u.blocking <==> !WaitsForMachine(entries[i], runners))
  {
    hide UnitOf, Blank, WhyUnmeasured, WaitsForMachine;
    var n := |entries| - 1;
    WaitsIffNoPinnedRunner(entries[n], runners, host);
    if i < n {
      UnmeasuredIsReported(entries[..n], m, runners, host, i);
    } else {
      var why := WhyUnmeasured(entries[n], runners, host);
      assert UnmeasuredOf(entries[n], n, m, runners, host)[0] == Unmeasured(n, why, why != NoPinnedRunner);
    }
  }

  // ---- the verdict ----

  lemma EntryIsSilentIff(e: Entry, n: nat, m: Measurements, runners: map<string, Runner>, host: Option<string>, flags: Flags)
    ensures && AbsoluteOf(e, n, m, runners, false) == [] && RegressionOf(e, n, m) == []
            && (flags.allowUnmeasured || NoneBlocks(UnmeasuredOf(e, n, m, runners, host)))
            <==> (IsCompared(e) ==> Stands(e, runners, m, flags))
  {
    hide Blank, UnitOf, IsExempt, ExemptionHolds, Pinned, WhyUnmeasured, WhyAbove, WaitsForMachine, IsWhy;
    WaitsIffNoPinnedRunner(e, runners, host);
    WhyIs(e, runners, WhyAbove(e, runners));
    AdviceIff(e, runners);
    if IsCompared(e) && KeyOf(e) !in m {
      var why := WhyUnmeasured(e, runners, host);
      assert UnmeasuredOf(e, n, m, runners, host) == [Unmeasured(n, why, why != NoPinnedRunner)];
      assert UnmeasuredOf(e, n, m, runners, host)[0] == Unmeasured(n, why, why != NoPinnedRunner);
    }
  }

  lemma AdviceIff(e: Entry, runners: map<string, Runner>)
    ensures Advice(WhyAbove(e, runners)) <==> IsExempt(e) || WaitsForMachine(e, runners)
  {
    ExemptIs(e);
    WaitsIs(e, runners);
    hide ExemptionHolds, IsExempt, Pinned, WaitsForMachine;
  }

  lemma NoneBlocksJoin(a: seq<Unmeasured>, b: seq<Unmeasured>)
    ensures NoneBlocks(a + b) <==> NoneBlocks(a) && NoneBlocks(b)
  {
    assert forall u :: u in a + b <==> u in a || u in b;
  }

  ghost predicate EachStands(entries: seq<Entry>, runners: map<string, Runner>, m: Measurements, flags: Flags) {
    forall i | 0 <= i < |entries| && IsCompared(entries[i]) :: Stands(entries[i], runners, m, flags)
  }

  /** The three gates are silent exactly if every entry they compare stands. */
  lemma {:induction false} GatesAreSilentIff(entries: seq<Entry>, m: Measurements, runners: map<string, Runner>,
                                             host: Option<string>, flags: Flags)
    ensures && AllAbsolute(entries, m, runners, false) == [] && AllRegressions(entries, m) == []
            && (flags.allowUnmeasured || NoneBlocks(AllUnmeasured(entries, m, runners, host)))
            <==> EachStands(entries, runners, m, flags)
  {
    hide AbsoluteOf, RegressionOf, UnmeasuredOf, NoneBlocks, IsCompared, Stands;
    if entries == [] {
      NothingBlocks();
    } else {
      var n := |entries| - 1;
      GatesAreSilentIff(entries[..n], m, runners, host, flags);
      EntryIsSilentIff(entries[n], n, m, runners, host, flags);
      NoneBlocksJoin(AllUnmeasured(entries[..n], m, runners, host), UnmeasuredOf(entries[n], n, m, runners, host));
      EachStandsOn(entries, runners, m, flags);
      hide EachStands;
    }
  }

  lemma NothingBlocks()
    ensures NoneBlocks([])
  {
  }

  lemma EachStandsOn(entries: seq<Entry>, runners: map<string, Runner>, m: Measurements, flags: Flags)
    requires entries != []
    ensures var n := |entries| - 1;
            EachStands(entries, runners, m, flags) <==>
            EachStands(entries[..n], runners, m, flags) && (IsCompared(entries[n]) ==> Stands(entries[n], runners, m, flags))
  {
    hide IsCompared, Stands;
    var n := |entries| - 1;
    if EachStands(entries[..n], runners, m, flags) && (IsCompared(entries[n]) ==> Stands(entries[n], runners, m, flags)) {
      forall i | 0 <= i < |entries| && IsCompared(entries[i]) ensures Stands(entries[i], runners, m, flags) {
        assert i < n ==> entries[..n][i] == entries[i];
      }
    }
    if EachStands(entries, runners, m, flags) {
      forall i | 0 <= i < n && IsCompared(entries[..n][i]) ensures Stands(entries[..n][i], runners, m, flags) {
        assert entries[..n][i] == entries[i];
      }
    }
  }

  lemma SoundIsCompared(e: Entry)
    requires HasIdentity(e) && EntryIsSound(e)
    ensures IsCompared(e) && KeyOf(e) in ClosedList()
  {
  }

  /** A sound file's entries all stand exactly if each budget the specification states does. */
  lemma EachBudgetStandsIff(b: Budgets, m: Measurements, flags: Flags)
    requires EntriesAreSound(b.entries)
    ensures EachStands(b.entries, b.runners, m, flags) <==> forall key | key in ClosedList() :: BudgetStands(b, m, flags, key)
  {
    hide ClosedList, EntryIsSound, HasIdentity, IsCompared, Stands;
    forall i | 0 <= i < |b.entries|
      ensures IsCompared(b.entries[i]) && KeyOf(b.entries[i]) in ClosedList() && DeclaredAt(b.entries, KeyOf(b.entries[i]), i)
    {
      SoundIsCompared(b.entries[i]);
    }
    if EachStands(b.entries, b.runners, m, flags) {
      forall key | key in ClosedList() ensures BudgetStands(b, m, flags, key) {
        var i :| 0 <= i < |b.entries| && KeyOf(b.entries[i]) == key;
        assert DeclaredAt(b.entries, key, i);
      }
    }
    if forall key | key in ClosedList() :: BudgetStands(b, m, flags, key) {
      forall i | 0 <= i < |b.entries| && IsCompared(b.entries[i]) ensures Stands(b.entries[i], b.runners, m, flags) {
        var j :| DeclaredAt(b.entries, KeyOf(b.entries[i]), j) && Stands(b.entries[j], b.runners, m, flags);
        assert i == j;
      }
    }
  }

  /** A run passes exactly if its file is sound, every runner is pinned or may wait, and each budget the specification
      states is declared once and stands. */
  lemma PassesIff(b: Budgets, m: Measurements, host: Option<string>, flags: Flags)
    ensures Passes(b, m, host, flags) <==>
            && FileIsSound(b) && (flags.allowUnpinned || AllPinned(b.runners))
            && forall key | key in ClosedList() :: BudgetStands(b, m, flags, key)
  {
    hide RunnersAreSound, AllPinned, ClosedList, AllAbsolute, AllRegressions, AllUnmeasured, NoneBlocks, EachStands, BudgetStands;
    GatesAreSilentIff(b.entries, m, b.runners, host, flags);
    if FileIsSound(b) {
      EachBudgetStandsIff(b, m, flags);
    }
  }

  /** The budgets the specification states: nine, on each of two platforms. */
  lemma StatedBudgets(criterion: string, name: string, platform: string)
    ensures (criterion, name, platform) in ClosedList() <==>
            && platform in {"windows", "macos"}
            && (criterion, name) in {("SC-001", "download size"), ("SC-001", "installed footprint"), ("SC-002", "warm start"),
                                     ("SC-002", "cold start"), ("SC-004", "ten-tab memory"), ("SC-005", "60-minute window"),
                                     ("SC-005", "wake-free 1-second sample"), ("SC-006", "tab switch"),
                                     ("SC-006", "address-field keystroke")}
  {
  }
}
