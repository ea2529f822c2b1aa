/** Unregistering, as calls of a registry in which any call may fail. */
module RegistrationRemoval {
  import opened Common
  import opened Registration
  import opened Registry
  import opened RegistrationStates

  datatype RegisterError = Invalid(invalid: InvalidApplication) | Io(error: IoError)

  /** The first error since the registry had returned `before`; success if there was none. */
  ghost predicate FirstError(r: Result<(), IoError>, before: seq<Failure>, after: seq<Failure>) {
    && |before| <= |after| && after[..|before|] == before
    && (r.Ok? <==> after == before)
    && (r.Err? ==> r.error == after[|before|].error)
  }

  /** Every failure after those of `before` is of a call made when at least `calls` had been. */
  ghost predicate FailuresAreFrom(before: seq<Failure>, after: seq<Failure>, calls: nat) {
    forall e | |before| <= e < |after| :: after[e].at >= calls
  }

  /** And of a call made before `calls` had been. */
  ghost predicate FailuresAreBefore(before: seq<Failure>, after: seq<Failure>, calls: nat) {
    forall e | |before| <= e < |after| :: after[e].at < calls
  }

  ghost predicate NothingTrimmable(s: Store, p: Plan, keep: Option<string>, unicode: char -> char) {
    forall slot :: !Trimmable(s, slot, p, keep, unicode)
  }

  /** A pointer that was to go is there yet. */
  ghost predicate StillTrimmable(s: Store, t: Store, p: Plan, keep: Option<string>, unicode: char -> char) {
    exists slot :: Trimmable(s, slot, p, keep, unicode) && slot in t.values
  }

  /** Whether the call made after `call` others failed. */
  ghost predicate FailedAt(before: seq<Failure>, after: seq<Failure>, call: int) {
    exists e :: |before| <= e < |after| && after[e].at == call
  }

  // ---- removing pointers ----

  function EntrySlot(entry: Held, unicode: char -> char): Slot {
    Slot(PointerKey(unicode), Fold(entry.name, unicode))
  }

  /** Whether a value listed is a pointer to be removed. */
  predicate Doomed(entry: Held, p: Plan, keep: Option<string>, unicode: char -> char) {
    && !(keep.Some? && SameValueName(keep.value, entry.name, unicode))
    && EqIgnoreAsciiCase(entry.data, p.capabilities)
  }

  /** Some of the pointers listed are gone: all of the first `i` to be removed, or else one of them is there yet. */
  ghost predicate TrimmedThrough(s: Store, t: Store, entries: seq<Held>, i: nat, ok: bool, p: Plan, keep: Option<string>,
                                 unicode: char -> char)
    requires i <= |entries|
  {
    && Trimming(s, t, p, keep, unicode)
    && (ok ==> forall j | 0 <= j < i && Doomed(entries[j], p, keep, unicode) :: EntrySlot(entries[j], unicode) !in t.values)
    && (!ok ==> exists j :: 0 <= j < i && Doomed(entries[j], p, keep, unicode) && EntrySlot(entries[j], unicode) in t.values)
  }

  lemma DoomedIsTrimmable(s: Store, entries: seq<Held>, i: nat, p: Plan, keep: Option<string>, unicode: char -> char)
    requires i < |entries| && Lists(s, PointerKey(unicode), entries, unicode)
    ensures Doomed(entries[i], p, keep, unicode) <==> Trimmable(s, EntrySlot(entries[i], unicode), p, keep, unicode)
  {
  }

  lemma TrimmedPastOther(s: Store, t: Store, entries: seq<Held>, i: nat, ok: bool, p: Plan, keep: Option<string>,
                         unicode: char -> char)
    requires i < |entries| && TrimmedThrough(s, t, entries, i, ok, p, keep, unicode)
    requires !Doomed(entries[i], p, keep, unicode) || EntrySlot(entries[i], unicode) !in t.values
    ensures TrimmedThrough(s, t, entries, i + 1, ok, p, keep, unicode)
  {
    hide Trimming;
  }

  /** A removal that succeeds takes the entry's pointer and leaves every other. */
  lemma TrimmedPastRemoved(s: Store, t: Store, u: Store, entries: seq<Held>, i: nat, ok: bool, p: Plan, keep: Option<string>,
                           unicode: char -> char)
    requires i < |entries| && TrimmedThrough(s, t, entries, i, ok, p, keep, unicode)
    requires Lists(s, PointerKey(unicode), entries, unicode) && Doomed(entries[i], p, keep, unicode)
    requires u.keys == t.keys && u.values == t.values - {EntrySlot(entries[i], unicode)}
    ensures TrimmedThrough(s, u, entries, i + 1, ok, p, keep, unicode)
  {
    DoomedIsTrimmable(s, entries, i, p, keep, unicode);
    hide Doomed, Trimmable;
    if !ok {
      var j :| 0 <= j < i && Doomed(entries[j], p, keep, unicode) && EntrySlot(entries[j], unicode) in t.values;
      assert entries[j] != entries[i];
      assert EntrySlot(entries[j], unicode) in u.values;
    }
  }

  lemma TrimmedPastFailure(s: Store, t: Store, entries: seq<Held>, i: nat, ok: bool, p: Plan, keep: Option<string>,
                           unicode: char -> char)
    requires i < |entries| && TrimmedThrough(s, t, entries, i, ok, p, keep, unicode)
    requires Doomed(entries[i], p, keep, unicode) && EntrySlot(entries[i], unicode) in t.values
    ensures TrimmedThrough(s, t, entries, i + 1, false, p, keep, unicode)
  {
    hide Trimming;
  }

  lemma TrimmedThroughAll(s: Store, t: Store, entries: seq<Held>, ok: bool, p: Plan, keep: Option<string>,
                          unicode: char -> char)
    requires TrimmedThrough(s, t, entries, |entries|, ok, p, keep, unicode) && Lists(s, PointerKey(unicode), entries, unicode)
    requires Consistent(s, unicode)
    ensures ok ==> t == Trimmed(s, p, keep, unicode)
    ensures !ok ==> StillTrimmable(s, t, p, keep, unicode)
  {
    forall i | 0 <= i < |entries|
      ensures Doomed(entries[i], p, keep, unicode) <==> Trimmable(s, EntrySlot(entries[i], unicode), p, keep, unicode)
    {
      DoomedIsTrimmable(s, entries, i, p, keep, unicode);
    }
    hide Doomed;
    if ok {
      forall slot | Trimmable(s, slot, p, keep, unicode) ensures slot !in t.values {
        var i :| 0 <= i < |entries| && entries[i] == s.values[slot];
        assert EntrySlot(entries[i], unicode) == slot;
      }
    }
  }

  /** What a pointer's turn makes of the store, the states and the failures. */
  ghost predicate PointerCalled(entry: Held, s: Store, trace: seq<Store>, errors: seq<Failure>,
                                s': Store, trace': seq<Store>, errors': seq<Failure>, result: Result<(), IoError>,
                                p: Plan, keep: Option<string>, unicode: char -> char) {
    if !Doomed(entry, p, keep, unicode) then result.Ok? && s' == s && trace' == trace && errors' == errors
    else
      && trace' == trace + [s']
      && (result.Ok? ==> errors' == errors && s'.keys == s.keys && s'.values == s.values - {EntrySlot(entry, unicode)})
      && (result.Err? ==> errors' == errors + [Failure(result.error, |trace|)] && s' == s)
  }

  /** Removes a pointer listed, if it is to be removed. */
  method RemovePointer(hive: Hive, p: Plan, keep: Option<string>, entry: Held) returns (result: Result<(), IoError>)
    requires hive.Valid()
    modifies hive
    ensures hive.Valid()
    ensures PointerCalled(entry, old(hive.store), old(hive.trace), old(hive.errors), hive.store, hive.trace, hive.errors, result,
                          p, keep, hive.unicode)
  {
    hide EqIgnoreAsciiCase;
    result := Ok(());
    var kept := keep.Some? && SameValueName(keep.value, entry.name, hive.unicode);
    if !kept && EqIgnoreAsciiCase(entry.data, p.capabilities) {
      result := hive.RemoveValue(REGISTERED_APPLICATIONS, entry.name);
    }
  }

  /** The calls since `trace0` and `errors0`: every state a trimming of `s`, every failure one of these calls', and the
      first of them the result. */
  ghost predicate TrimCalls(s: Store, trace0: seq<Store>, errors0: seq<Failure>, trace: seq<Store>, errors: seq<Failure>,
                            result: Result<(), IoError>, p: Plan, keep: Option<string>, unicode: char -> char) {
    && trace0 <= trace && FirstError(result, errors0, errors)
    && FailuresAreBefore(errors0, errors, |trace|) && FailuresAreFrom(errors0, errors, |trace0|)
    && forall i | |trace0| <= i < |trace| :: Trimming(s, trace[i], p, keep, unicode)
  }

  lemma TrimCallsOn(s: Store, trace0: seq<Store>, errors0: seq<Failure>, trace: seq<Store>, errors: seq<Failure>,
                    result: Result<(), IoError>, p: Plan, keep: Option<string>, unicode: char -> char, t: Store,
                    called: Result<(), IoError>)
    requires TrimCalls(s, trace0, errors0, trace, errors, result, p, keep, unicode) && Trimming(s, t, p, keep, unicode)
    ensures called.Ok? ==> TrimCalls(s, trace0, errors0, trace + [t], errors, result, p, keep, unicode)
    ensures called.Err? ==> TrimCalls(s, trace0, errors0, trace + [t], errors + [Failure(called.error, |trace|)],
                                      if result.Ok? then called else result, p, keep, unicode)
  {
    hide Trimming;
    if called.Err? && result.Err? {
      assert (errors + [Failure(called.error, |trace|)])[|errors0|] == errors[|errors0|];
    }
  }

  /** Removes every pointer at the registration's capabilities but the one named `keep`, trying each even
      after one fails. */
  method RemovePointers(hive: Hive, p: Plan, keep: Option<string>) returns (result: Result<(), IoError>)
    requires hive.Valid()
    modifies hive
    ensures hive.Valid()
    ensures FirstError(result, old(hive.errors), hive.errors)
    ensures |old(hive.trace)| < |hive.trace| && hive.trace[..|old(hive.trace)|] == old(hive.trace)
    ensures Trimming(old(hive.store), hive.store, p, keep, hive.unicode)
    ensures forall i | |old(hive.trace)| <= i < |hive.trace| ::
              Trimming(old(hive.store), hive.trace[i], p, keep, hive.unicode)
    ensures FailuresAreBefore(old(hive.errors), hive.errors, |hive.trace|)
    ensures FailuresAreFrom(old(hive.errors), hive.errors, |old(hive.trace)|)
    ensures result.Ok? ==> hive.store == Trimmed(old(hive.store), p, keep, hive.unicode)
    ensures result.Err? ==> hive.store == old(hive.store) || StillTrimmable(old(hive.store), hive.store, p, keep, hive.unicode)
    ensures NothingTrimmable(old(hive.store), p, keep, hive.unicode) ==>
              && |hive.trace| == |old(hive.trace)| + 1 && hive.store == old(hive.store)
              && |hive.errors| <= |old(hive.errors)| + 1
  {
    ghost var s, unicode, trace0, errors0 := hive.store, hive.unicode, hive.trace, hive.errors;
    hide TrimCalls, Trimming, Trimmed, StillTrimmable, NothingTrimmable, PointerCalled, RemovalGoes, Lists, Fold,
      FirstError, FailuresAreBefore, FailuresAreFrom, EntrySlot;
    TrimCallsStart(s, trace0, errors0, p, keep, unicode);
    var listed := hive.StringValues(REGISTERED_APPLICATIONS);
    if listed.Err? {
      result := Err(listed.error);
      TrimCallsOn(s, trace0, errors0, trace0, errors0, Ok(()), p, keep, unicode, s, result);
      TrimCallsAre(s, trace0, errors0, hive.trace, hive.errors, result, p, keep, unicode);
      return;
    }
    var entries := listed.value;
    result := Ok(());
    RemovalStarts(s, trace0, errors0, entries, p, keep, unicode);
    for i := 0 to |entries|
      invariant hive.Valid()
      invariant RemovalGoes(s, trace0, errors0, entries, i, hive.store, hive.trace, hive.errors, result, p, keep, unicode)
    {
      ghost var t, trace, errors := hive.store, hive.trace, hive.errors;
      var removed := RemovePointer(hive, p, keep, entries[i]);
      RemovalGoesOn(s, trace0, errors0, entries, i, t, trace, errors, result, p, keep, unicode,
                    hive.store, hive.trace, hive.errors, removed);
      if result.Ok? {
        result := removed;
      }
    }
    RemovalEnds(s, trace0, errors0, entries, hive.store, hive.trace, hive.errors, result, p, keep, unicode);
  }

  /** The first `i` pointers listed have had their turn. */
  ghost predicate RemovalGoes(s: Store, trace0: seq<Store>, errors0: seq<Failure>, entries: seq<Held>, i: nat,
                              t: Store, trace: seq<Store>, errors: seq<Failure>, result: Result<(), IoError>,
                              p: Plan, keep: Option<string>, unicode: char -> char) {
    && i <= |entries| && Lists(s, PointerKey(unicode), entries, unicode) && |trace0| < |trace|
    && TrimCalls(s, trace0, errors0, trace, errors, result, p, keep, unicode)
    && TrimmedThrough(s, t, entries, i, result.Ok?, p, keep, unicode)
    && (NothingTrimmable(s, p, keep, unicode) ==> |trace| == |trace0| + 1 && t == s && errors == errors0)
    && (forall j | i <= j < |entries| :: EntrySlot(entries[j], unicode) in t.values)
  }

  lemma RemovalStarts(s: Store, trace0: seq<Store>, errors0: seq<Failure>, entries: seq<Held>, p: Plan, keep: Option<string>,
                      unicode: char -> char)
    requires Lists(s, PointerKey(unicode), entries, unicode)
    ensures RemovalGoes(s, trace0, errors0, entries, 0, s, trace0 + [s], errors0, Ok(()), p, keep, unicode)
  {
    TrimmedThroughNone(s, entries, p, keep, unicode);
    TrimCallsStart(s, trace0, errors0, p, keep, unicode);
    TrimCallsOn(s, trace0, errors0, trace0, errors0, Ok(()), p, keep, unicode, s, Ok(()));
  }

  lemma RemovalGoesOn(s: Store, trace0: seq<Store>, errors0: seq<Failure>, entries: seq<Held>, i: nat,
                      t: Store, trace: seq<Store>, errors: seq<Failure>, result: Result<(), IoError>,
                      p: Plan, keep: Option<string>, unicode: char -> char,
                      t': Store, trace': seq<Store>, errors': seq<Failure>, removed: Result<(), IoError>)
    requires RemovalGoes(s, trace0, errors0, entries, i, t, trace, errors, result, p, keep, unicode) && i < |entries|
    requires PointerCalled(entries[i], t, trace, errors, t', trace', errors', removed, p, keep, unicode)
    ensures RemovalGoes(s, trace0, errors0, entries, i + 1, t', trace', errors', if result.Ok? then removed else result,
                        p, keep, unicode)
  {
    hide TrimCalls, TrimmedThrough, NothingTrimmable, Trimming, Doomed, Lists, EntrySlot;
    NothingIsDoomed(s, entries, i, p, keep, unicode);
    if removed.Err? {
      TrimmedPastFailure(s, t, entries, i, result.Ok?, p, keep, unicode);
    } else if Doomed(entries[i], p, keep, unicode) {
      TrimmedPastRemoved(s, t, t', entries, i, result.Ok?, p, keep, unicode);
      LaterSlotsDiffer(s, entries, i, unicode);
    } else {
      TrimmedPastOther(s, t, entries, i, result.Ok?, p, keep, unicode);
    }
    TrimmedIsTrimming(s, t', entries, i + 1, result.Ok? && removed.Ok?, p, keep, unicode);
    TrimCallsOn(s, trace0, errors0, trace, errors, result, p, keep, unicode, t', removed);
    assert result.Ok? && removed.Ok? ==> result.value == () == removed.value;
  }

  lemma RemovalEnds(s: Store, trace0: seq<Store>, errors0: seq<Failure>, entries: seq<Held>,
                    t: Store, trace: seq<Store>, errors: seq<Failure>, result: Result<(), IoError>,
                    p: Plan, keep: Option<string>, unicode: char -> char)
    requires RemovalGoes(s, trace0, errors0, entries, |entries|, t, trace, errors, result, p, keep, unicode)
    requires Consistent(s, unicode)
    ensures |trace0| < |trace| && trace[..|trace0|] == trace0 && FirstError(result, errors0, errors)
    ensures FailuresAreBefore(errors0, errors, |trace|) && FailuresAreFrom(errors0, errors, |trace0|)
    ensures forall i | |trace0| <= i < |trace| :: Trimming(s, trace[i], p, keep, unicode)
    ensures Trimming(s, t, p, keep, unicode)
    ensures result.Ok? ==> t == Trimmed(s, p, keep, unicode)
    ensures result.Err? ==> StillTrimmable(s, t, p, keep, unicode)
    ensures NothingTrimmable(s, p, keep, unicode) ==> |trace| == |trace0| + 1 && t == s && errors == errors0
  {
    TrimmedIsTrimming(s, t, entries, |entries|, result.Ok?, p, keep, unicode);
    TrimmedThroughAll(s, t, entries, result.Ok?, p, keep, unicode);
  }

  lemma NothingIsDoomed(s: Store, entries: seq<Held>, i: nat, p: Plan, keep: Option<string>, unicode: char -> char)
    requires i < |entries| && Lists(s, PointerKey(unicode), entries, unicode)
    ensures NothingTrimmable(s, p, keep, unicode) ==> !Doomed(entries[i], p, keep, unicode)
  {
    DoomedIsTrimmable(s, entries, i, p, keep, unicode);
  }

  lemma TrimCallsStart(s: Store, trace0: seq<Store>, errors0: seq<Failure>, p: Plan, keep: Option<string>,
                       unicode: char -> char)
    ensures Trimming(s, s, p, keep, unicode)
    ensures TrimCalls(s, trace0, errors0, trace0, errors0, Ok(()), p, keep, unicode)
  {
  }

  lemma TrimCallsAre(s: Store, trace0: seq<Store>, errors0: seq<Failure>, trace: seq<Store>, errors: seq<Failure>,
                     result: Result<(), IoError>, p: Plan, keep: Option<string>, unicode: char -> char)
    requires TrimCalls(s, trace0, errors0, trace, errors, result, p, keep, unicode)
    ensures trace[..|trace0|] == trace0 && FirstError(result, errors0, errors)
    ensures FailuresAreBefore(errors0, errors, |trace|) && FailuresAreFrom(errors0, errors, |trace0|)
    ensures forall i | |trace0| <= i < |trace| :: Trimming(s, trace[i], p, keep, unicode)
  {
  }

  lemma TrimmedThroughNone(s: Store, entries: seq<Held>, p: Plan, keep: Option<string>, unicode: char -> char)
    requires Lists(s, PointerKey(unicode), entries, unicode)
    ensures TrimmedThrough(s, s, entries, 0, true, p, keep, unicode)
    ensures forall j | 0 <= j < |entries| :: EntrySlot(entries[j], unicode) in s.values
  {
  }

  lemma TrimmedIsTrimming(s: Store, t: Store, entries: seq<Held>, i: nat, ok: bool, p: Plan, keep: Option<string>,
                          unicode: char -> char)
    requires i <= |entries| && TrimmedThrough(s, t, entries, i, ok, p, keep, unicode)
    ensures Trimming(s, t, p, keep, unicode)
  {
  }

  lemma LaterSlotsDiffer(s: Store, entries: seq<Held>, i: nat, unicode: char -> char)
    requires i < |entries| && Lists(s, PointerKey(unicode), entries, unicode)
    ensures forall j | i < j < |entries| :: EntrySlot(entries[j], unicode) != EntrySlot(entries[i], unicode)
  {
    forall j | i < j < |entries| ensures EntrySlot(entries[j], unicode) != EntrySlot(entries[i], unicode) {
      assert entries[j] != entries[i];
    }
  }

  /** Everything a state holds under an owned key is still as it was. */
  ghost predicate OwnedIntact(s: Store, t: Store, p: Plan, unicode: char -> char) {
    && (forall k | k in s.keys && Owns(p, k, unicode) :: k in t.keys)
    && (forall slot | slot in s.values && Owns(p, slot.key, unicode) ::
          slot in t.values && t.values[slot] == s.values[slot])
  }

  /** Removes every owned key, trying each even after one fails. */
  method RemoveOwnedKeys(hive: Hive, p: Plan) returns (result: Result<(), IoError>)
    requires hive.Valid()
    modifies hive
    ensures hive.Valid()
    ensures FirstError(result, old(hive.errors), hive.errors)
    ensures |hive.trace| == |old(hive.trace)| + |p.ownedKeys| && hive.trace[..|old(hive.trace)|] == old(hive.trace)
    ensures Removing(old(hive.store), hive.store, p, hive.unicode)
    ensures forall i | |old(hive.trace)| <= i < |hive.trace| ::
              Removing(old(hive.store), hive.trace[i], p, hive.unicode)
    ensures FailuresAreFrom(old(hive.errors), hive.errors, |old(hive.trace)|)
    ensures result.Ok? ==> hive.store == WithoutKeys(old(hive.store), p.ownedKeys, hive.unicode)
  {
    ghost var s, unicode := hive.store, hive.unicode;
    result := Ok(());
    for i := 0 to |p.ownedKeys|
      invariant hive.Valid()
      invariant FirstError(result, old(hive.errors), hive.errors)
      invariant FailuresAreFrom(old(hive.errors), hive.errors, |old(hive.trace)|)
      invariant |old(hive.trace)| + i == |hive.trace| && hive.trace[..|old(hive.trace)|] == old(hive.trace)
      invariant Removing(s, hive.store, p, unicode)
      invariant forall t | |old(hive.trace)| <= t < |hive.trace| :: Removing(s, hive.trace[t], p, unicode)
      invariant result.Ok? ==> hive.store == WithoutKeys(s, p.ownedKeys[..i], unicode)
    {
      assert p.ownedKeys[..i + 1][..i] == p.ownedKeys[..i];
      RemovedUnderRoot(p, i, unicode);
      var removed := hive.RemoveKey(p.ownedKeys[i]);
      if result.Ok? {
        result := removed;
      }
    }
    assert p.ownedKeys[..|p.ownedKeys|] == p.ownedKeys;
  }

  /**
   What the removal keeps of the order between the pointers and what they point at, `keysFrom` being the calls made
   when it comes to the keys. Until then nothing owned is gone. From then on no pointer is there, if none was at first
   or none of those calls failed; and one always is, if one was and a call failed.
   */
  ghost predicate RemovalOrder(s: Store, trace: seq<Store>, before: seq<Failure>, after: seq<Failure>, from: nat, keysFrom: int,
                               p: Plan, unicode: char -> char) {
    && from < keysFrom <= |trace|
    && (forall i | from <= i < keysFrom :: OwnedIntact(s, trace[i], p, unicode))
    && forall i | keysFrom <= i < |trace| ::
         NoPointers(trace[i], p, unicode) <==> NoPointers(s, p, unicode) || FailuresAreFrom(before, after, keysFrom)
  }

  lemma FirstErrorOfParts(errors0: seq<Failure>, errors1: seq<Failure>, errors: seq<Failure>, to: nat,
                          trimmed: Result<(), IoError>, removed: Result<(), IoError>)
    requires FirstError(trimmed, errors0, errors1) && FirstError(removed, errors1, errors)
    requires FailuresAreBefore(errors0, errors1, to) && FailuresAreFrom(errors1, errors, to)
    ensures FirstError(if trimmed.Ok? then removed else trimmed, errors0, errors)
    ensures FailuresAreFrom(errors0, errors, to) <==> trimmed.Ok?
  {
    if trimmed.Err? {
      assert errors[|errors0|] == errors1[|errors0|];
    }
  }

  lemma RemovalStates(s: Store, c: Store, trace0: seq<Store>, trace1: seq<Store>, trace: seq<Store>, trimmed: bool,
                      p: Plan, unicode: char -> char)
    requires WellFormed(p, unicode) && |trace0| < |trace1| && trace1 <= trace && Trimming(s, c, p, None, unicode)
    requires forall i | |trace0| <= i < |trace1| :: Trimming(s, trace1[i], p, None, unicode)
    requires trimmed ==> c == Trimmed(s, p, None, unicode)
    requires !trimmed ==> c == s || StillTrimmable(s, c, p, None, unicode)
    requires forall i | |trace1| <= i < |trace| :: Removing(c, trace[i], p, unicode)
    ensures forall i | |trace0| <= i < |trace| :: LeavesOthers(s, trace[i], p, unicode)
    ensures forall i | |trace0| <= i < |trace1| :: OwnedIntact(s, trace[i], p, unicode)
    ensures forall i | |trace1| <= i < |trace| :: NoPointers(trace[i], p, unicode) <==> NoPointers(s, p, unicode) || trimmed
  {
    PointersAreNotOwned(p, unicode);
    TrimmingKeepsNoPointers(s, c, p, unicode);
    TrimmedKeepsOwned(s, c, p, None, unicode);
    hide *;
    forall i | |trace0| <= i < |trace1| ensures LeavesOthers(s, trace[i], p, unicode) && OwnedIntact(s, trace[i], p, unicode) {
      assert trace[i] == trace1[i];
      TrimmedKeepsOwned(s, trace[i], p, None, unicode);
    }
    forall i | |trace1| <= i < |trace|
      ensures LeavesOthers(s, trace[i], p, unicode)
      ensures NoPointers(trace[i], p, unicode) <==> NoPointers(s, p, unicode) || trimmed
    {
      RemovingLeavesOthers(c, trace[i], p, unicode);
      LeavesOthersTransitively(s, c, trace[i], p, unicode);
      if !NoPointers(s, p, unicode) && !trimmed {
        PointerStands(s, c, trace[i], p, unicode);
      }
    }
  }

  /** The removal: pointers first, then the owned keys whole, by as many calls as there are keys. */
  method Remove(hive: Hive, p: Plan) returns (result: Result<(), IoError>)
    requires hive.Valid() && WellFormed(p, hive.unicode)
    modifies hive
    ensures hive.Valid()
    ensures FirstError(result, old(hive.errors), hive.errors)
    ensures old(hive.trace) <= hive.trace
    ensures forall i | |old(hive.trace)| <= i < |hive.trace| ::
              LeavesOthers(old(hive.store), hive.trace[i], p, hive.unicode)
    ensures RemovalOrder(old(hive.store), hive.trace, old(hive.errors), hive.errors, |old(hive.trace)|,
                         |hive.trace| - |p.ownedKeys|, p, hive.unicode)
    ensures result.Ok? ==> hive.store == Unregistered(old(hive.store), p, hive.unicode)
  {
    hide NoPointers, OwnedIntact, LeavesOthers, Removing, Trimming, Trimmed, WellFormed, FirstError, FailuresAreFrom,
      FailuresAreBefore, StillTrimmable, WithoutKeys;
    ghost var s, unicode, trace0, errors0 := hive.store, hive.unicode, hive.trace, hive.errors;
    result := RemovePointers(hive, p, None);
    ghost var trimmed, c, trace1, errors1 := result, hive.store, hive.trace, hive.errors;
    var removed := RemoveOwnedKeys(hive, p);
    FirstErrorOfParts(errors0, errors1, hive.errors, |trace1|, trimmed, removed);
    RemovalStates(s, c, trace0, trace1, hive.trace, trimmed.Ok?, p, unicode);
    if result.Ok? {
      result := removed;
    }
  }

  lemma TrimmingKeepsNoPointers(s: Store, t: Store, p: Plan, unicode: char -> char)
    requires Trimming(s, t, p, None, unicode)
    ensures NoPointers(s, p, unicode) || t == Trimmed(s, p, None, unicode) ==> NoPointers(t, p, unicode)
  {
    if NoPointers(s, p, unicode) {
      forall slot ensures !Points(t, slot, p, unicode) {
        assert !Points(s, slot, p, unicode);
      }
    }
  }

  /** A pointer still to be trimmed stands, and removing owned keys leaves it. */
  lemma PointerStands(s: Store, c: Store, t: Store, p: Plan, unicode: char -> char)
    requires WellFormed(p, unicode) && Trimming(s, c, p, None, unicode) && Removing(c, t, p, unicode)
    requires !NoPointers(s, p, unicode) && (c == s || StillTrimmable(s, c, p, None, unicode))
    ensures !NoPointers(t, p, unicode)
  {
    var slot :| Points(s, slot, p, unicode) && slot in c.values;
    assert Points(c, slot, p, unicode);
    assert Points(t, slot, p, unicode);
  }

  lemma PointersAreNotOwned(p: Plan, unicode: char -> char)
    requires WellFormed(p, unicode)
    ensures !Owns(p, PointerKey(unicode), unicode)
  {
  }

  lemma TrimmedKeepsOwned(s: Store, t: Store, p: Plan, keep: Option<string>, unicode: char -> char)
    requires Trimming(s, t, p, keep, unicode)
    ensures LeavesOthers(s, t, p, unicode)
    ensures !Owns(p, PointerKey(unicode), unicode) ==> OwnedIntact(s, t, p, unicode)
  {
  }

  lemma RemovedUnderRoot(p: Plan, i: nat, unicode: char -> char)
    requires i < |p.ownedKeys|
    ensures forall k | Under(k, Fold(p.ownedKeys[i], unicode)) :: Owns(p, k, unicode)
  {
  }

  /** What unregistering `app` does; an application that cannot be registered is refused before anything is touched. */
  method Unregister(hive: Hive, app: Application) returns (result: Result<(), RegisterError>)
    requires hive.Valid()
    modifies hive
    ensures hive.Valid()
    ensures PlanOf(app).Err? ==>
              && result == Err(Invalid(PlanOf(app).error))
              && hive.store == old(hive.store) && hive.trace == old(hive.trace) && hive.errors == old(hive.errors)
    ensures PlanOf(app).Ok? ==>
              var p := PlanOf(app).value;
              && old(hive.trace) <= hive.trace && old(hive.errors) <= hive.errors
              && (result.Ok? <==> hive.errors == old(hive.errors))
              && (result.Err? ==> result.error == Io(hive.errors[|old(hive.errors)|].error))
              && (result.Ok? ==> hive.store == Unregistered(old(hive.store), p, hive.unicode))
              && (forall i | |old(hive.trace)| <= i < |hive.trace| ::
                    LeavesOthers(old(hive.store), hive.trace[i], p, hive.unicode))
              && RemovalOrder(old(hive.store), hive.trace, old(hive.errors), hive.errors, |old(hive.trace)|,
                              |hive.trace| - |p.ownedKeys|, p, hive.unicode)
  {
    match PlanOf(app) {
      case Err(invalid) =>
        return Err(Invalid(invalid));
      case Ok(p) =>
        EveryPlanIsWellFormed(app, hive.unicode);
        var removed := Remove(hive, p);
        result := match removed case Ok(_) => Ok(()) case Err(e) => Err(Io(e));
    }
  }
}
