/**
 The budget file, and the gate on it: what a sound file is, and that the gate is silent on a sound file and
 only then. Failures are recorded with a tag where a flag may defer them, so that what is written in the file
 cannot decide what a flag defers.
 */
module BudgetGates {
  import opened Common
  import opened Text
  import Wakes

  /** Criterion, name and platform. */
  type Key = (string, string, string)

  datatype Runner = Runner(identity: string, runnerLabel: string, osVersion: string, memory: string, displayRefresh: real)

  /** A field is `None` when it is absent or not what its schema accepts. */
  datatype Exemption = Exemption(pullRequest: Option<int>, figure: Option<string>, extraFields: bool)

  datatype Reset = Reset(dated: bool, measuredCost: Option<real>, requirement: Option<string>, decision: Option<string>,
                         extraFields: bool)

  datatype Entry = Entry(criterion: string, name: string, platform: string, status: string, retired: bool,
                         unit: Option<string>, figure: Option<real>, baseline: Option<real>, tolerance: Option<real>,
                         margin: Option<real>, decision: Option<string>, exemption: Option<Exemption>, reset: Option<Reset>)

  datatype Budgets = Budgets(runners: map<string, Runner>, entries: seq<Entry>, wakes: Option<seq<Wakes.Record>>)

  // ---- the closed lists ----

  const PLATFORMS := {"windows", "macos"}
  const TIERS := {"tier1", "tier2"}
  const UNITS := {"MB", "ms", "percent-of-core"}
  const HARDWARE_DEPENDENT := {"SC-002", "SC-004", "SC-005", "SC-006"}
  const MAX_TOLERANCE: real := 5.0

  function TierOf(platform: string): Option<string> {
    if platform == "windows" then Some("tier1") else if platform == "macos" then Some("tier2") else None
  }

  function UnitOf(criterion: string): Option<string> {
    if criterion == "SC-001" || criterion == "SC-004" then Some("MB")
    else if criterion == "SC-002" || criterion == "SC-006" then Some("ms")
    else if criterion == "SC-005" then Some("percent-of-core")
    else None
  }

  /** The entries each criterion states. */
  function Stated(criterion: string): set<string> {
    if criterion == "SC-001" then {"download size", "installed footprint"}
    else if criterion == "SC-002" then {"warm start", "cold start"}
    else if criterion == "SC-004" then {"ten-tab memory"}
    else if criterion == "SC-005" then {"60-minute window", "wake-free 1-second sample"}
    else if criterion == "SC-006" then {"tab switch", "address-field keystroke"}
    else {}
  }

  function ClosedList(): (keys: set<Key>)
    ensures forall k: Key :: k in keys <==> k.1 in Stated(k.0) && k.2 in PLATFORMS
  {
    set c, n, p | c in HARDWARE_DEPENDENT + {"SC-001"} && n in Stated(c) && p in PLATFORMS :: (c, n, p)
  }

  // ---- one entry ----

  function KeyOf(e: Entry): Key { (e.criterion, e.name, e.platform) }

  predicate HasIdentity(e: Entry) { !Blank(e.criterion) && !Blank(e.name) && !Blank(e.platform) }

  predicate IsDigit(c: char) { '0' <= c <= '9' }

  /** `decisions/` and four digits; the pattern's end also lets one line break stand after them. */
  predicate IsCitation(s: string) {
    && (|s| == 14 || (|s| == 15 && s[14] == '\n'))
    && s[..10] == "decisions/"
    && forall i | 10 <= i < 14 :: IsDigit(s[i])
  }

  /** A spike exemption holds only where it names a pull request and this entry's own figure. */
  predicate ExemptionHolds(e: Entry) {
    && e.exemption.Some?
    && e.exemption.value.pullRequest.Some? && e.exemption.value.pullRequest.value > 0
    && IsText(e.exemption.value.figure) && e.exemption.value.figure.value == e.name
    && !e.exemption.value.extraFields
  }

  predicate ResetHolds(r: Reset) {
    r.dated && r.measuredCost.Some? && IsText(r.requirement) && r.decision.Some? && IsCitation(r.decision.value) && !r.extraFields
  }

  function ToleranceOf(e: Entry): real { if e.tolerance.Some? then e.tolerance.value else 0.0 }

  datatype Fault =
    | NoIdentity | DeclaredTwice | BadStatus | RetiredField | StatesNoEntry | NotInClosedList | NoUnit | BadUnit | WrongUnit
    | NoDecision | BadDecision | NoMargin | MarginOutOfRange | MarginNotDeclarable | BadExemption | BadReset
    | MissingFigure | NegativeBaseline | FigureNotPositive | BaselineAboveFigure | ToleranceOutOfRange

  function When(condition: bool, fault: Fault): seq<Fault> { if condition then [fault] else [] }

  function UnitFaults(e: Entry): seq<Fault> {
    When(UnitOf(e.criterion).None?, StatesNoEntry)
    + When(UnitOf(e.criterion).Some? && KeyOf(e) !in ClosedList(), NotInClosedList)
    + When(e.unit.None?, NoUnit)
    + When(e.unit.Some? && e.unit.value !in UNITS, BadUnit)
    + When(e.unit.Some? && e.unit.value in UNITS && UnitOf(e.criterion).Some? && e.unit != UnitOf(e.criterion), WrongUnit)
  }

  function RecordFaults(e: Entry): seq<Fault> {
    When(e.decision.None? && e.status == "ratified", NoDecision)
    + When(e.decision.Some? && !IsCitation(e.decision.value), BadDecision)
    + When(e.criterion == "SC-004" && e.margin.None?, NoMargin)
    + When(e.criterion == "SC-004" && e.margin.Some? && !(0.0 <= e.margin.value <= MAX_TOLERANCE), MarginOutOfRange)
    + When(e.criterion != "SC-004" && e.margin.Some?, MarginNotDeclarable)
    + When(e.exemption.Some? && !ExemptionHolds(e), BadExemption)
    + When(e.reset.Some? && !ResetHolds(e.reset.value), BadReset)
  }

  function FigureFaults(e: Entry): seq<Fault> {
    if e.figure.None? || e.baseline.None? then [MissingFigure]
    else if e.baseline.value < 0.0 then [NegativeBaseline]
    else if e.figure.value <= 0.0 then [FigureNotPositive]
    else
      When(e.baseline.value > e.figure.value, BaselineAboveFigure)
      + When(!(0.0 <= ToleranceOf(e) <= MAX_TOLERANCE), ToleranceOutOfRange)
  }

  /** Everything wrong with an entry that names itself, apart from its being declared twice. */
  function Faults(e: Entry): seq<Fault> {
    When(e.status != "ratified" && e.status != "provisional", BadStatus)
    + When(e.retired, RetiredField)
    + UnitFaults(e) + RecordFaults(e) + FigureFaults(e)
  }

  /** What the specification asks of one entry. */
  predicate EntryIsSound(e: Entry) {
    && KeyOf(e) in ClosedList()
    && e.unit == UnitOf(e.criterion)
    && (e.status == "ratified" || e.status == "provisional")
    && (e.status == "ratified" ==> e.decision.Some?)
    && (e.decision.Some? ==> IsCitation(e.decision.value))
    && (if e.criterion == "SC-004" then e.margin.Some? && 0.0 <= e.margin.value <= MAX_TOLERANCE else e.margin.None?)
    && (e.exemption.Some? ==> ExemptionHolds(e))
    && (e.reset.Some? ==> ResetHolds(e.reset.value))
    && !e.retired
    && e.figure.Some? && e.baseline.Some?
    && 0.0 <= e.baseline.value <= e.figure.value && e.figure.value > 0.0
    && 0.0 <= ToleranceOf(e) <= MAX_TOLERANCE
  }

  lemma FaultlessIsSound(e: Entry)
    ensures Faults(e) == [] <==> EntryIsSound(e)
  {
  }

  // ---- a gate's verdict ----

  datatype Why = Breach | NoTier | UndeclaredTier | UnpinnedTier | Exempt

  datatype Failure =
    | NoRunners | TierMissing(tier: string) | NegativeRefresh(tier: string) | RunnerUnpinned(tier: string)
    | NoEntries | EntryFault(position: nat, fault: Fault) | EntryAbsent(key: Key)
    | NoWakeEnumeration | WakeFault(failure: Wakes.Failure)
    | AboveFigure(position: nat, why: Why) | WorseThanBaseline(position: nat)

  /** The failures with the tag, or those without it, in order. */
  function Picked(blocking: seq<Failure>, tags: seq<bool>, tagged: bool): seq<Failure>
    requires |blocking| == |tags|
  {
    if blocking == [] then []
    else
      var n := |blocking| - 1;
      if tags[n] == tagged then Picked(blocking[..n], tags[..n], tagged) + [blocking[n]]
      else Picked(blocking[..n], tags[..n], tagged)
  }

  lemma {:induction false} PickedParts(blocking: seq<Failure>, tags: seq<bool>)
    requires |blocking| == |tags|
    ensures multiset(Picked(blocking, tags, true)) + multiset(Picked(blocking, tags, false)) == multiset(blocking)
    ensures blocking == [] <==> Picked(blocking, tags, true) == [] && Picked(blocking, tags, false) == []
  {
    if blocking != [] {
      var n := |blocking| - 1;
      PickedParts(blocking[..n], tags[..n]);
      assert blocking == blocking[..n] + [blocking[n]];
    }
  }

  class Gate {
    var blocking: seq<Failure>
    /** Which failures carry the tag the deferral of unpinned runners selects on. */
    var tags: seq<bool>
    var advisory: seq<Failure>

    ghost predicate Valid()
      reads this
    {
      |blocking| == |tags|
    }

    /** No failure with the tag, or none without it. */
    ghost predicate Free(tagged: bool)
      reads this
      requires Valid()
    {
      Picked(blocking, tags, tagged) == []
    }

    constructor ()
      ensures Valid() && blocking == [] && tags == [] && advisory == []
    {
      blocking, tags, advisory := [], [], [];
    }

    method Block(failure: Failure, tag: bool)
      requires Valid()
      modifies this
      ensures Valid() && blocking == old(blocking) + [failure] && tags == old(tags) + [tag] && advisory == old(advisory)
      ensures !Free(tag) && (Free(!tag) <==> old(Free(!tag)))
    {
      blocking := blocking + [failure];
      tags := tags + [tag];
      assert blocking[..|blocking| - 1] == old(blocking) && tags[..|tags| - 1] == old(tags);
    }

    method Advise(failure: Failure)
      modifies this
      ensures blocking == old(blocking) && tags == old(tags) && advisory == old(advisory) + [failure]
    {
      advisory := advisory + [failure];
    }

    /** Moves the tagged failures to the advice, in order, and no other. */
    method DeferUnpinned()
      requires Valid()
      modifies this
      ensures Valid()
      ensures blocking == Picked(old(blocking), old(tags), false)
      ensures tags == seq(|blocking|, _ => false)
      ensures advisory == old(advisory) + Picked(old(blocking), old(tags), true)
      ensures multiset(blocking) + multiset(advisory) == multiset(old(blocking)) + multiset(old(advisory))
    {
      var kept: seq<Failure>, keptTags: seq<bool> := [], [];
      ghost var advice := advisory;
      for i := 0 to |blocking|
        invariant Valid() && blocking == old(blocking) && tags == old(tags)
        invariant kept == Picked(blocking[..i], tags[..i], false)
        invariant keptTags == seq(|kept|, _ => false)
        invariant advisory == advice + Picked(blocking[..i], tags[..i], true)
      {
        assert blocking[..i + 1][..i] == blocking[..i] && tags[..i + 1][..i] == tags[..i];
        if tags[i] {
          advisory := advisory + [blocking[i]];
        } else {
          kept := kept + [blocking[i]];
          keptTags := keptTags + [false];
        }
      }
      assert blocking[..|blocking|] == blocking && tags[..|blocking|] == tags;
      PickedParts(blocking, tags);
      blocking, tags := kept, keptTags;
    }
  }

  // ---- the budget file's gate ----

  predicate Pinned(r: Runner) {
    !Blank(r.identity) && !Blank(r.runnerLabel) && !Blank(r.osVersion) && !Blank(r.memory) && r.displayRefresh > 0.0
  }

  predicate AllPinned(runners: map<string, Runner>) { forall tier | tier in runners :: Pinned(runners[tier]) }

  predicate RunnersAreSound(runners: map<string, Runner>) {
    TIERS <= runners.Keys && forall tier | tier in runners :: runners[tier].displayRefresh >= 0.0
  }

  /** Each entry of the closed list is declared once, soundly, and nothing else is. */
  predicate EntriesAreSound(entries: seq<Entry>) {
    && (forall i | 0 <= i < |entries| :: HasIdentity(entries[i]) && EntryIsSound(entries[i]))
    && (forall i, j | 0 <= i < j < |entries| :: KeyOf(entries[i]) != KeyOf(entries[j]))
    && (forall key | key in ClosedList() :: exists i :: 0 <= i < |entries| && KeyOf(entries[i]) == key)
  }

  predicate FileIsSound(b: Budgets) {
    && RunnersAreSound(b.runners)
    && EntriesAreSound(b.entries)
    && b.wakes.Some? && Wakes.EnumerationIsSound(b.wakes.value)
  }

  method CheckRunners(runners: map<string, Runner>, gate: Gate)
    requires gate.Valid()
    modifies gate
    ensures gate.Valid()
    ensures gate.Free(false) <==> old(gate.Free(false)) && RunnersAreSound(runners)
    ensures gate.Free(true) <==> old(gate.Free(true)) && AllPinned(runners)
  {
    hide Picked, Pinned;
    if runners == map[] {
      assert "tier1" !in runners;
      gate.Block(NoRunners, false);
    }
    var missing := TIERS - runners.Keys;
    while missing != {}
      invariant gate.Valid()
      invariant missing <= TIERS - runners.Keys
      invariant gate.Free(true) <==> old(gate.Free(true))
      invariant gate.Free(false) ==> old(gate.Free(false)) && missing == TIERS - runners.Keys
      invariant old(gate.Free(false)) && TIERS <= runners.Keys ==> gate.Free(false)
    {
      var tier :| tier in missing;
      gate.Block(TierMissing(tier), false);
      missing := missing - {tier};
    }
    assert TIERS - runners.Keys == {} ==> TIERS <= runners.Keys by {
      forall tier | tier in TIERS && tier !in runners.Keys ensures tier in TIERS - runners.Keys {
      }
    }
    assert gate.Free(false) <==> old(gate.Free(false)) && TIERS <= runners.Keys;
    label Tiers:
    var todo := runners.Keys;
    while todo != {}
      invariant gate.Valid() && todo <= runners.Keys
      invariant gate.Free(false) <==> old@Tiers(gate.Free(false))
                                      && forall tier | tier in runners.Keys - todo :: runners[tier].displayRefresh >= 0.0
      invariant gate.Free(true) <==> old@Tiers(gate.Free(true))
                                     && forall tier | tier in runners.Keys - todo :: Pinned(runners[tier])
    {
      var tier :| tier in todo;
      ghost var before := runners.Keys - todo;
      assert runners.Keys - (todo - {tier}) == before + {tier};
      if runners[tier].displayRefresh < 0.0 {
        gate.Block(NegativeRefresh(tier), false);
      }
      if !Pinned(runners[tier]) {
        gate.Block(RunnerUnpinned(tier), true);
      }
      todo := todo - {tier};
    }
    assert runners.Keys - todo == runners.Keys;
  }

  function KeysOf(entries: seq<Entry>): set<Key> {
    if entries == [] then {}
    else
      var n := |entries| - 1;
      if HasIdentity(entries[n]) then KeysOf(entries[..n]) + {KeyOf(entries[n])} else KeysOf(entries[..n])
  }

  predicate SoundEach(entries: seq<Entry>) {
    entries == [] ||
    (var n := |entries| - 1;
     && SoundEach(entries[..n]) && HasIdentity(entries[n]) && EntryIsSound(entries[n])
     && KeyOf(entries[n]) !in KeysOf(entries[..n]))
  }

  lemma {:induction false} KeysOfHas(entries: seq<Entry>, key: Key)
    ensures key in KeysOf(entries) <==> exists i :: 0 <= i < |entries| && KeyOf(entries[i]) == key && HasIdentity(entries[i])
  {
    hide HasIdentity;
    if entries != [] {
      var n := |entries| - 1;
      KeysOfHas(entries[..n], key);
      if i :| 0 <= i < n && KeyOf(entries[i]) == key && HasIdentity(entries[i]) {
        assert KeyOf(entries[..n][i]) == key;
      }
    }
  }

  lemma {:induction false} SoundEachIs(entries: seq<Entry>)
    ensures SoundEach(entries)
            <==> (forall i | 0 <= i < |entries| :: HasIdentity(entries[i]) && EntryIsSound(entries[i]))
                 && (forall i, j | 0 <= i < j < |entries| :: KeyOf(entries[i]) != KeyOf(entries[j]))
  {
    hide HasIdentity, EntryIsSound;
    if entries != [] {
      var n := |entries| - 1;
      SoundEachIs(entries[..n]);
      KeysOfHas(entries[..n], KeyOf(entries[n]));
      if SoundEach(entries) {
        forall i, j | 0 <= i < j < |entries| ensures KeyOf(entries[i]) != KeyOf(entries[j]) {
          assert KeyOf(entries[..n][i]) == KeyOf(entries[i]);
          if j < n {
            assert KeyOf(entries[..n][j]) == KeyOf(entries[j]);
          }
        }
        forall i | 0 <= i < |entries| ensures HasIdentity(entries[i]) && EntryIsSound(entries[i]) {
          if i < n {
            assert HasIdentity(entries[..n][i]);
          }
        }
      }
    }
  }

  lemma EntriesAreSoundIff(entries: seq<Entry>)
    ensures EntriesAreSound(entries) <==> SoundEach(entries) && ClosedList() <= KeysOf(entries)
  {
    hide HasIdentity, EntryIsSound, ClosedList;
    SoundEachIs(entries);
    if SoundEach(entries) {
      forall key | key in ClosedList()
        ensures key in KeysOf(entries) <==> exists i :: 0 <= i < |entries| && KeyOf(entries[i]) == key
      {
        KeysOfHas(entries, key);
      }
    }
  }

  method BlockFaults(gate: Gate, position: nat, faults: seq<Fault>)
    requires gate.Valid()
    modifies gate
    ensures gate.Valid()
    ensures gate.Free(false) <==> old(gate.Free(false)) && faults == []
    ensures gate.Free(true) <==> old(gate.Free(true))
  {
    hide Picked;
    for i := 0 to |faults|
      invariant gate.Valid()
      invariant gate.Free(false) <==> old(gate.Free(false)) && i == 0
      invariant gate.Free(true) <==> old(gate.Free(true))
    {
      gate.Block(EntryFault(position, faults[i]), false);
    }
  }

  method CheckEntries(entries: seq<Entry>, gate: Gate)
    requires gate.Valid()
    modifies gate
    ensures gate.Valid()
    ensures gate.Free(false) <==> old(gate.Free(false)) && EntriesAreSound(entries)
    ensures gate.Free(true) <==> old(gate.Free(true))
  {
    hide Picked, HasIdentity, EntryIsSound, Faults, EntriesAreSound;
    EntriesAreSoundIff(entries);
    SomethingIsStated();
    hide ClosedList;
    if entries == [] {
      gate.Block(NoEntries, false);
    }
    var seen: set<Key> := {};
    for i := 0 to |entries|
      invariant gate.Valid() && seen == KeysOf(entries[..i])
      invariant gate.Free(false) <==> old(gate.Free(false)) && entries != [] && SoundEach(entries[..i])
      invariant gate.Free(true) <==> old(gate.Free(true))
    {
      var e := entries[i];
      assert entries[..i + 1][..i] == entries[..i];
      if !HasIdentity(e) {
        gate.Block(EntryFault(i, NoIdentity), false);
      } else {
        var key := KeyOf(e);
        if key in seen {
          gate.Block(EntryFault(i, DeclaredTwice), false);
        }
        seen := seen + {key};
        FaultlessIsSound(e);
        BlockFaults(gate, i, Faults(e));
      }
    }
    assert entries[..|entries|] == entries;
    label Each:
    var absent := ClosedList() - seen;
    while absent != {}
      invariant gate.Valid() && absent <= ClosedList() - seen
      invariant gate.Free(true) <==> old(gate.Free(true))
      invariant gate.Free(false) ==> old@Each(gate.Free(false)) && absent == ClosedList() - seen
      invariant old@Each(gate.Free(false)) && ClosedList() <= seen ==> gate.Free(false)
    {
      var key :| key in absent;
      gate.Block(EntryAbsent(key), false);
      absent := absent - {key};
    }
    assert gate.Free(false) <==> old@Each(gate.Free(false)) && ClosedList() <= seen;
  }

  lemma SomethingIsStated()
    ensures ClosedList() != {}
  {
    assert ("SC-004", "ten-tab memory", "macos") in ClosedList();
  }

  method CheckWakes(wakes: Option<seq<Wakes.Record>>, gate: Gate)
    requires gate.Valid()
    modifies gate
    ensures gate.Valid()
    ensures gate.Free(false) <==> old(gate.Free(false)) && wakes.Some? && Wakes.EnumerationIsSound(wakes.value)
    ensures gate.Free(true) <==> old(gate.Free(true))
  {
    hide Picked, Wakes.EnumerationIsSound;
    if wakes.None? {
      gate.Block(NoWakeEnumeration, false);
      return;
    }
    var failures := Wakes.CheckWakes(wakes.value);
    for i := 0 to |failures|
      invariant gate.Valid()
      invariant gate.Free(false) <==> old(gate.Free(false)) && i == 0
      invariant gate.Free(true) <==> old(gate.Free(true))
    {
      gate.Block(WakeFault(failures[i]), false);
    }
  }

  /** The gate is silent on a sound file, and only then; its tagged failures are those of runners not pinned. */
  method CheckBudgetFile(b: Budgets, gate: Gate)
    requires gate.Valid() && gate.blocking == []
    modifies gate
    ensures gate.Valid()
    ensures gate.Free(false) <==> FileIsSound(b)
    ensures gate.Free(true) <==> AllPinned(b.runners)
  {
    hide RunnersAreSound, EntriesAreSound, Wakes.EnumerationIsSound;
    CheckRunners(b.runners, gate);
    CheckEntries(b.entries, gate);
    CheckWakes(b.wakes, gate);
  }
}
