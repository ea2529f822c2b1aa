/** Registering, as calls of a registry in which any call may fail. */
module RegistrationTransaction {
  import opened Common
  import opened Registration
  import opened Registry
  import opened RegistrationStates
  import opened RegistrationRemoval
  import opened RegistrationUndo

  // ---- writing ----

  /** A state part-way through the writes: the first `m` values are written, and nothing else. */
  ghost predicate PartWritten(s: Store, t: Store, p: Plan, unicode: char -> char) {
    exists m :: 0 <= m <= |p.values| && t.values == Partly(s, p, m, unicode).values
  }

  /** The writes so far: the first `m`, each of whose states is part written. */
  ghost predicate WritesGo(s: Store, trace0: seq<Store>, m: nat, t: Store, trace: seq<Store>, p: Plan, unicode: char -> char) {
    && m <= |p.values| && t == Partly(s, p, m, unicode) && s.keys <= t.keys
    && trace0 <= trace && |trace| == |trace0| + m
    && forall i | |trace0| <= i < |trace| :: PartWritten(s, trace[i], p, unicode)
  }

  lemma WritesStart(s: Store, trace0: seq<Store>, p: Plan, unicode: char -> char)
    ensures WritesGo(s, trace0, 0, s, trace0, p, unicode)
  {
  }

  lemma WritesGoOn(s: Store, trace0: seq<Store>, m: nat, t: Store, trace: seq<Store>, p: Plan, unicode: char -> char)
    requires WritesGo(s, trace0, m, t, trace, p, unicode) && m < |p.values|
    ensures var t' := Stored(t, p.values[m], unicode); WritesGo(s, trace0, m + 1, t', trace + [t'], p, unicode)
  {
    hide Fold;
    assert p.values[..m + 1][..m] == p.values[..m];
    assert Stored(t, p.values[m], unicode) == Partly(s, p, m + 1, unicode);
  }

  /** Writes the registration's values in order, stopping at the first error. */
  method WriteValues(hive: Hive, p: Plan) returns (result: Result<(), IoError>)
    requires hive.Valid()
    modifies hive
    ensures hive.Valid()
    ensures old(hive.trace) <= hive.trace && old(hive.store).keys <= hive.store.keys
    ensures forall i | |old(hive.trace)| <= i < |hive.trace| ::
              PartWritten(old(hive.store), hive.trace[i], p, hive.unicode)
    ensures result.Ok? ==>
              && hive.store == Written(old(hive.store), p.values, hive.unicode)
              && |hive.trace| == |old(hive.trace)| + |p.values| && hive.errors == old(hive.errors)
    ensures result.Err? ==>
              var m := |hive.trace| - |old(hive.trace)| - 1;
              && 0 <= m < |p.values| && hive.errors == old(hive.errors) + [Failure(result.error, |hive.trace| - 1)]
              && hive.store.values == Partly(old(hive.store), p, m, hive.unicode).values
  {
    hide Fold, WritesGo, Partly, Stored, Written;
    ghost var s, trace0, unicode := hive.store, hive.trace, hive.unicode;
    WritesStart(s, trace0, p, unicode);
    for i := 0 to |p.values|
      invariant hive.Valid() && hive.errors == old(hive.errors)
      invariant WritesGo(s, trace0, i, hive.store, hive.trace, p, unicode)
    {
      ghost var t, trace := hive.store, hive.trace;
      result := hive.SetString(p.values[i]);
      if result.Err? {
        WritesStop(s, trace0, i, t, trace, hive.store, p, unicode);
        return;
      }
      WritesGoOn(s, trace0, i, t, trace, p, unicode);
    }
    WritesEnd(s, trace0, hive.store, hive.trace, p, unicode);
    result := Ok(());
  }

  lemma WritesStop(s: Store, trace0: seq<Store>, m: nat, t: Store, trace: seq<Store>, u: Store, p: Plan, unicode: char -> char)
    requires WritesGo(s, trace0, m, t, trace, p, unicode) && u.values == t.values && t.keys <= u.keys
    ensures |trace| == |trace0| + m && trace0 <= trace + [u] && s.keys <= u.keys && u.values == Partly(s, p, m, unicode).values
    ensures forall i | |trace0| <= i < |trace + [u]| :: PartWritten(s, (trace + [u])[i], p, unicode)
  {
  }

  lemma WritesEnd(s: Store, trace0: seq<Store>, t: Store, trace: seq<Store>, p: Plan, unicode: char -> char)
    requires WritesGo(s, trace0, |p.values|, t, trace, p, unicode)
    ensures t == Written(s, p.values, unicode) && s.keys <= t.keys && trace0 <= trace && |trace| == |trace0| + |p.values|
    ensures forall i | |trace0| <= i < |trace| :: PartWritten(s, trace[i], p, unicode)
  {
    assert p.values[..|p.values|] == p.values;
  }

  lemma PartWrittenLeaves(s: Store, t: Store, p: Plan, unicode: char -> char)
    requires WellFormed(p, unicode) && PartWritten(s, t, p, unicode)
    ensures LeavesOthers(s, t, p, unicode)
    ensures NoPointers(s, p, unicode) ==> ListsOnlyComplete(t, p, unicode)
  {
    var m :| 0 <= m <= |p.values| && t.values == Partly(s, p, m, unicode).values;
    var u := Partly(s, p, m, unicode);
    PartlyLeavesOthers(s, p, m, unicode);
    if NoPointers(s, p, unicode) {
      PartlyListsOnlyComplete(s, p, m, unicode);
    }
    hide Partly, Written, Owns, WellFormed, SlotOf;
    assert forall slot :: Points(t, slot, p, unicode) == Points(u, slot, p, unicode);
  }

  // ---- writing, and trimming what earlier names left ----

  /** What the first `g` calls of a registration make of the store `s`, when the next one fails. */
  ghost predicate Reached(s: Store, t: Store, p: Plan, g: int, unicode: char -> char) {
    && g >= 0
    && (g < |p.values| ==> t.values == Partly(s, p, g, unicode).values)
    && (g >= |p.values| ==> Trimming(Written(s, p.values, unicode), t, p, Some(p.name), unicode))
  }

  /** Whether the pointer is there yet, where none stood before: once every value is written. */
  lemma PointsOnceWritten(s: Store, t: Store, p: Plan, g: int, unicode: char -> char)
    requires WellFormed(p, unicode) && NoPointers(s, p, unicode) && Reached(s, t, p, g, unicode)
    ensures NoPointers(t, p, unicode) <==> g < |p.values|
  {
    if g < |p.values| {
      PartlyListsOnlyComplete(s, p, g, unicode);
      var u := Partly(s, p, g, unicode);
      hide Partly, Written, WellFormed, ListsOnlyComplete;
      forall slot ensures !Points(t, slot, p, unicode) {
        assert !Points(u, slot, p, unicode);
      }
    } else {
      WrittenHasOnePointer(s, p, unicode, OwnPointer(p, unicode));
      assert Points(t, OwnPointer(p, unicode), p, unicode);
    }
  }

  lemma NothingToTrim(s: Store, p: Plan, unicode: char -> char)
    requires WellFormed(p, unicode) && NoPointers(s, p, unicode)
    ensures NothingTrimmable(Written(s, p.values, unicode), p, Some(p.name), unicode)
  {
    hide Written;
    forall slot ensures !Trimmable(Written(s, p.values, unicode), slot, p, Some(p.name), unicode) {
      WrittenHasOnePointer(s, p, unicode, slot);
    }
  }

  /** What the writes and the trim make of the store `s`, whatever calls fail. */
  ghost predicate WroteAndTrimmed(s: Store, t: Store, trace0: seq<Store>, errors0: seq<Failure>, trace: seq<Store>,
                                  errors: seq<Failure>, result: Result<(), IoError>, p: Plan, unicode: char -> char) {
    && FirstError(result, errors0, errors) && trace0 < trace
    && FailuresAreFrom(errors0, errors, |trace0|) && FailuresAreBefore(errors0, errors, |trace|)
    && (result.Ok? ==> t == Registered(s, p, unicode))
    && (result.Err? ==>
          var g := errors[|errors0|].at - |trace0|;
          && Reached(s, t, p, g, unicode)
          && (NoPointers(s, p, unicode) ==> g == |trace| - |trace0| - 1 && g <= |p.values|))
    && LeavesOthers(s, t, p, unicode)
    && (NoPointers(s, p, unicode) ==> ListsOnlyComplete(t, p, unicode))
    && forall i | |trace0| <= i < |trace| ::
         LeavesOthers(s, trace[i], p, unicode) && (NoPointers(s, p, unicode) ==> ListsOnlyComplete(trace[i], p, unicode))
  }

  /** The writes and, if they all succeed, the removal of pointers left under earlier names. */
  method WriteAndTrim(hive: Hive, p: Plan) returns (result: Result<(), IoError>)
    requires hive.Valid() && WellFormed(p, hive.unicode)
    modifies hive
    ensures hive.Valid()
    ensures WroteAndTrimmed(old(hive.store), hive.store, old(hive.trace), old(hive.errors), hive.trace, hive.errors, result, p,
                            hive.unicode)
  {
    hide LeavesOthers, NoPointers, ListsOnlyComplete, Trimming, WellFormed, NothingTrimmable, Written, Partly, Trimmed, PartWritten,
      StillTrimmable;
    ghost var s, trace0, unicode := hive.store, hive.trace, hive.unicode;
    result := WriteValues(hive, p);
    ghost var w, trace1, errors1 := hive.store, hive.trace, hive.errors;
    WritesLeave(s, trace0, trace1, p, unicode);
    if result.Err? {
      ReachedByWrites(s, w, p, |trace1| - |trace0| - 1, unicode);
    } else {
      WrittenLeavesOthers(s, p, unicode);
      if NoPointers(s, p, unicode) {
        NothingToTrim(s, p, unicode);
      }
      result := RemovePointers(hive, p, Some(p.name));
      TrimLeaves(s, w, hive.store, trace1, hive.trace, p, unicode);
    }
  }

  lemma ReachedByWrites(s: Store, t: Store, p: Plan, m: nat, unicode: char -> char)
    requires m < |p.values| && WellFormed(p, unicode) && t.values == Partly(s, p, m, unicode).values
    ensures Reached(s, t, p, m, unicode) && LeavesOthers(s, t, p, unicode)
    ensures NoPointers(s, p, unicode) ==> ListsOnlyComplete(t, p, unicode)
  {
    assert PartWritten(s, t, p, unicode);
    PartWrittenLeaves(s, t, p, unicode);
  }

  lemma WrittenLeavesOthers(s: Store, p: Plan, unicode: char -> char)
    requires WellFormed(p, unicode)
    ensures LeavesOthers(s, Written(s, p.values, unicode), p, unicode)
    ensures NoPointers(s, p, unicode) ==> ListsOnlyComplete(Written(s, p.values, unicode), p, unicode)
  {
    assert p.values[..|p.values|] == p.values;
    PartlyLeavesOthers(s, p, |p.values|, unicode);
    if NoPointers(s, p, unicode) {
      PartlyListsOnlyComplete(s, p, |p.values|, unicode);
    }
  }

  lemma WritesLeave(s: Store, trace0: seq<Store>, trace: seq<Store>, p: Plan, unicode: char -> char)
    requires WellFormed(p, unicode) && forall i | |trace0| <= i < |trace| :: PartWritten(s, trace[i], p, unicode)
    ensures forall i | |trace0| <= i < |trace| ::
              LeavesOthers(s, trace[i], p, unicode)
              && (NoPointers(s, p, unicode) ==> ListsOnlyComplete(trace[i], p, unicode))
  {
    hide *;
    forall i | |trace0| <= i < |trace|
      ensures LeavesOthers(s, trace[i], p, unicode)
              && (NoPointers(s, p, unicode) ==> ListsOnlyComplete(trace[i], p, unicode))
    {
      PartWrittenLeaves(s, trace[i], p, unicode);
    }
  }

  lemma TrimLeaves(s: Store, w: Store, t: Store, trace1: seq<Store>, trace: seq<Store>, p: Plan, unicode: char -> char)
    requires WellFormed(p, unicode) && LeavesOthers(s, w, p, unicode) && Trimming(w, t, p, Some(p.name), unicode)
    requires NoPointers(s, p, unicode) ==> ListsOnlyComplete(w, p, unicode)
    requires forall i | |trace1| <= i < |trace| :: Trimming(w, trace[i], p, Some(p.name), unicode)
    ensures LeavesOthers(s, t, p, unicode)
    ensures NoPointers(s, p, unicode) ==> ListsOnlyComplete(t, p, unicode)
    ensures forall i | |trace1| <= i < |trace| ::
              LeavesOthers(s, trace[i], p, unicode)
              && (NoPointers(s, p, unicode) ==> ListsOnlyComplete(trace[i], p, unicode))
  {
    hide *;
    forall u | Trimming(w, u, p, Some(p.name), unicode)
      ensures LeavesOthers(s, u, p, unicode)
              && (NoPointers(s, p, unicode) ==> ListsOnlyComplete(u, p, unicode))
    {
      TrimmingLeavesOthers(w, u, p, Some(p.name), unicode);
      LeavesOthersTransitively(s, w, u, p, unicode);
      if NoPointers(s, p, unicode) {
        TrimmingListsOnlyComplete(w, u, p, Some(p.name), unicode);
      }
    }
  }

  // ---- registering ----

  /** Which owned keys there are. */
  function Existed(s: Store, p: Plan, unicode: char -> char): seq<bool> {
    seq(|p.ownedKeys|, i requires 0 <= i < |p.ownedKeys| => Fold(p.ownedKeys[i], unicode) in s.keys)
  }

  /** Asks which owned keys are there already, stopping at the first error. */
  method Survey(hive: Hive, p: Plan) returns (result: Result<seq<bool>, IoError>)
    requires hive.Valid()
    modifies hive`trace, hive`errors
    ensures hive.Valid()
    ensures result.Ok? ==>
              && hive.errors == old(hive.errors) && |hive.trace| == |old(hive.trace)| + |p.ownedKeys|
              && result.value == Existed(hive.store, p, hive.unicode)
    ensures result.Err? ==>
              && |old(hive.trace)| < |hive.trace| <= |old(hive.trace)| + |p.ownedKeys|
              && hive.errors == old(hive.errors) + [Failure(result.error, |hive.trace| - 1)]
    ensures old(hive.trace) <= hive.trace
    ensures forall i | |old(hive.trace)| <= i < |hive.trace| :: hive.trace[i] == hive.store
  {
    hide Fold;
    var existed: seq<bool> := [];
    for i := 0 to |p.ownedKeys|
      invariant hive.Valid() && hive.errors == old(hive.errors) && |existed| == i
      invariant forall j | 0 <= j < i :: existed[j] == (Fold(p.ownedKeys[j], hive.unicode) in hive.store.keys)
      invariant old(hive.trace) <= hive.trace && |hive.trace| == |old(hive.trace)| + i
      invariant forall t | |old(hive.trace)| <= t < |hive.trace| :: hive.trace[t] == hive.store
    {
      var present := hive.KeyExists(p.ownedKeys[i]);
      if present.Err? {
        return Err(present.error);
      }
      existed := existed + [present.value];
    }
    result := Ok(existed);
  }

  /** Whether the undo leaves the pointer it finds: all was written, so that it stands, and one of the undo's calls
      before `keysAt`, which are to remove it, failed. */
  ghost predicate PointerLeft(start: nat, before: seq<Failure>, after: seq<Failure>, undoAt: nat, keysAt: int, p: Plan) {
    undoAt == start + |p.ownedKeys| + |p.values| + 1 && FailedWithin(before, after, undoAt, keysAt)
  }

  /**
   The order between the pointer and the rest, in every state of a registration from the call `start` on, where none
   pointed at its capabilities before. The undo, if any, begins with the call `undoAt` and comes to the keys with the
   call `keysAt`. Whatever fails, no state before that lists what is not all written. Nor does any later one, unless
   the undo leaves the pointer it finds and something it points at is gone at the end, as it is once the undo takes a
   key without an error.
   */
  ghost predicate KeepsOrder(t: Store, trace: seq<Store>, start: nat, before: seq<Failure>, after: seq<Failure>,
                             undoAt: nat, keysAt: int, p: Plan, unicode: char -> char) {
    var left := PointerLeft(start, before, after, undoAt, keysAt, p);
    && start <= undoAt <= keysAt <= |trace|
    && (forall i | start <= i < keysAt :: ListsOnlyComplete(trace[i], p, unicode))
    && (forall i | keysAt <= i < |trace| :: NoPointers(trace[i], p, unicode) <==> !left)
    && ((forall i | start <= i < |trace| :: ListsOnlyComplete(trace[i], p, unicode))
        <==> (left ==> AllButPointerStored(t, p, unicode)))
    && (left && (exists i :: keysAt <= i < |trace| && !FailedAt(before, after, i)) ==> !AllButPointerStored(t, p, unicode))
  }

  /** What one registration leaves behind, whatever calls fail: `s` and `t` are the stores before and after it,
      `start` the call it begins with. */
  ghost predicate RegisterLeaves(s: Store, t: Store, trace: seq<Store>, start: nat, before: seq<Failure>, after: seq<Failure>,
                                 undoAt: nat, keysAt: int, p: Plan, unicode: char -> char)
    requires p.ownedKeys != [] && before <= after
  {
    var failed := |after| > |before|;
    // No value of another application changes, in any state.
    && start <= undoAt <= keysAt <= |trace|
    && (forall i | start <= i < |trace| :: LeavesOthers(s, trace[i], p, unicode))
    // The pointer is there only with everything it points at, or else the undo could not take it back.
    && (NoPointers(s, p, unicode) ==> KeepsOrder(t, trace, start, before, after, undoAt, keysAt, p, unicode))
    // A success leaves the registration, and one pointer.
    && (!failed ==> t == Registered(s, p, unicode) && undoAt == |trace|)
    && (failed ==> Failed(s, t, trace, start, before, after, undoAt, keysAt, after[|before|].at, p, unicode))
  }

  /** What a registration leaves whose first failure was of the call `f`. */
  ghost predicate Failed(s: Store, t: Store, trace: seq<Store>, start: nat, before: seq<Failure>, after: seq<Failure>,
                         undoAt: nat, keysAt: int, f: nat, p: Plan, unicode: char -> char)
    requires p.ownedKeys != []
  {
    var existed, surveyed := Existed(s, p, unicode), start + |p.ownedKeys|;
    && start <= f < undoAt
    // Nothing changes before the first write.
    && (f < surveyed ==> t == s && undoAt == |trace| && forall i | start <= i < |trace| :: trace[i] == s)
    // A registration that was there already keeps what is written, and the rest of its earlier values.
    && (f >= surveyed && existed[0] ==> undoAt == |trace| && Reached(s, t, p, f - surveyed, unicode))
    // A first one is undone: whole, if no call of the undo fails, but for what was at an owned key before.
    && (f >= surveyed && !existed[0] ==>
          && undoAt < keysAt == |trace| - CountNew(existed) < |trace|
          && (NoPointers(s, p, unicode) ==> f == undoAt - 1)
          && (FailuresAreBefore(before, after, undoAt) ==>
                NoPointers(t, p, unicode) && NewAreBare(t, p, existed, |existed|, unicode))
          && exists c :: Reached(s, c, p, f - surveyed, unicode) && KeepsExisting(c, t, p, existed, unicode))
  }

  /** A value written before the failure replaces its earlier copy, and the rest keep theirs. */
  lemma ReachedReplacesWhatWasWritten(s: Store, t: Store, p: Plan, g: int, unicode: char -> char)
    requires WellFormed(p, unicode) && Reached(s, t, p, g, unicode)
    ensures forall i | 0 <= i < g && i < |p.values| ::
              SlotOf(p.values[i], unicode) in t.values && t.values[SlotOf(p.values[i], unicode)].data == p.values[i].data
    ensures forall slot: Slot | Owns(p, slot.key, unicode)
                                && (forall i | 0 <= i < g && i < |p.values| :: SlotOf(p.values[i], unicode) != slot) ::
              && (slot in t.values <==> slot in s.values)
              && (slot in s.values ==> t.values[slot] == s.values[slot])
  {
    var m := if g < |p.values| then g else |p.values|;
    assert p.values[..|p.values|] == p.values;
    forall i | 0 <= i < m
      ensures SlotOf(p.values[i], unicode) in t.values && t.values[SlotOf(p.values[i], unicode)].data == p.values[i].data
    {
      WrittenHolds(s, p.values[..m], unicode, i);
      if g >= |p.values| {
        StandsOnceWritten(s, p, i, unicode);
      }
    }
    PointersAreNotOwned(p, unicode);
    if g >= |p.values| {
      TrimmedKeepsOwned(Written(s, p.values, unicode), t, p, Some(p.name), unicode);
    }
    hide WellFormed, LeavesOthers;
    forall slot: Slot | Owns(p, slot.key, unicode) && (forall i | 0 <= i < m :: SlotOf(p.values[i], unicode) != slot)
      ensures slot in t.values <==> slot in s.values
      ensures slot in s.values ==> t.values[slot] == s.values[slot]
    {
      WrittenLeaves(s, p.values[..m], unicode, slot);
    }
  }

  lemma StandsOnceWritten(s: Store, p: Plan, i: nat, unicode: char -> char)
    requires WellFormed(p, unicode) && i < |p.values|
    ensures !Trimmable(Written(s, p.values, unicode), SlotOf(p.values[i], unicode), p, Some(p.name), unicode)
  {
    if i == |p.values| - 1 {
      assert p.values[i].Key() == REGISTERED_APPLICATIONS;
    } else {
      assert Owns(p, SlotOf(p.values[i], unicode).key, unicode);
    }
  }

  // ---- registering a plan ----

  lemma LeavesItselfAlone(s: Store, p: Plan, unicode: char -> char)
    ensures LeavesOthers(s, s, p, unicode)
    ensures NoPointers(s, p, unicode) ==> ListsOnlyComplete(s, p, unicode)
  {
  }

  /** What the survey's calls leave: nothing changed. */
  ghost predicate Surveyed(s: Store, trace0: seq<Store>, trace: seq<Store>) {
    trace0 <= trace && forall i | |trace0| <= i < |trace| :: trace[i] == s
  }

  lemma SurveyFails(s: Store, trace0: seq<Store>, errors0: seq<Failure>, trace: seq<Store>, error: IoError,
                    p: Plan, unicode: char -> char)
    requires WellFormed(p, unicode) && Surveyed(s, trace0, trace) && |trace0| < |trace| <= |trace0| + |p.ownedKeys|
    ensures RegisterLeaves(s, s, trace, |trace0|, errors0, errors0 + [Failure(error, |trace| - 1)], |trace|, |trace|, p, unicode)
  {
    hide LeavesOthers, ListsOnlyComplete, NoPointers;
    LeavesItselfAlone(s, p, unicode);
  }

  /** A registration that succeeds, or that fails where one was already, has no undo. */
  lemma NotUndone(s: Store, t: Store, trace0: seq<Store>, errors0: seq<Failure>, trace1: seq<Store>, trace: seq<Store>,
                  errors: seq<Failure>, result: Result<(), IoError>, p: Plan, unicode: char -> char)
    requires WellFormed(p, unicode) && Surveyed(s, trace0, trace1) && |trace1| == |trace0| + |p.ownedKeys|
    requires WroteAndTrimmed(s, t, trace1, errors0, trace, errors, result, p, unicode)
    requires result.Ok? || Existed(s, p, unicode)[0]
    ensures RegisterLeaves(s, t, trace, |trace0|, errors0, errors, |trace|, |trace|, p, unicode)
  {
    hide LeavesOthers, ListsOnlyComplete, NoPointers, Reached;
    LeavesItselfAlone(s, p, unicode);
    StatesUpToUndo(s, trace0, trace1, trace, trace, p, unicode);
  }

  lemma StatesUpToUndo(s: Store, trace0: seq<Store>, trace1: seq<Store>, trace2: seq<Store>, trace: seq<Store>, p: Plan,
                       unicode: char -> char)
    requires Surveyed(s, trace0, trace1) && trace1 <= trace2 <= trace
    requires forall i | |trace1| <= i < |trace2| ::
               LeavesOthers(s, trace2[i], p, unicode) && (NoPointers(s, p, unicode) ==> ListsOnlyComplete(trace2[i], p, unicode))
    ensures forall i | |trace0| <= i < |trace2| ::
              LeavesOthers(s, trace[i], p, unicode) && (NoPointers(s, p, unicode) ==> ListsOnlyComplete(trace[i], p, unicode))
  {
    hide LeavesOthers, ListsOnlyComplete, NoPointers;
    LeavesItselfAlone(s, p, unicode);
    forall i | |trace0| <= i < |trace2| ensures trace[i] == if i < |trace1| then s else trace2[i] {
      assert trace[i] == trace2[i];
      if i < |trace1| {
        assert trace2[i] == trace1[i];
      }
    }
  }

  lemma LaterFailures(errors0: seq<Failure>, errors1: seq<Failure>, errors: seq<Failure>, from: nat)
    requires errors0 <= errors1 <= errors
    requires FailuresAreBefore(errors0, errors1, from) && FailuresAreFrom(errors1, errors, from)
    ensures forall i | i >= from :: FailedAt(errors1, errors, i) <==> FailedAt(errors0, errors, i)
    ensures FailuresAreBefore(errors0, errors, from) ==> errors == errors1
  {
    forall e | |errors0| <= e < |errors1| ensures errors[e] == errors1[e] {
    }
    assert |errors| > |errors1| ==> errors[|errors1|].at >= from;
  }

  lemma FirstFailureWasBefore(errors0: seq<Failure>, errors1: seq<Failure>, errors: seq<Failure>, from: nat, to: nat)
    requires errors0 < errors1 <= errors
    requires FailuresAreBefore(errors0, errors1, to) && FailuresAreFrom(errors0, errors1, from)
    ensures errors[|errors0|] == errors1[|errors0|] && from <= errors[|errors0|].at < to
  {
  }

  lemma UndoOrderStarts(c: Store, t: Store, trace: seq<Store>, before: seq<Failure>, after: seq<Failure>, from: nat,
                        keysFrom: int, p: Plan, unicode: char -> char)
    requires UndoOrder(c, t, trace, before, after, from, keysFrom, p, unicode)
    ensures from < keysFrom <= |trace|
  {
  }

  lemma UndoneKeepsOrder(s: Store, c: Store, t: Store, start: nat, errors0: seq<Failure>, trace2: seq<Store>,
                         errors2: seq<Failure>, trace: seq<Store>, errors: seq<Failure>, keysAt: nat, p: Plan,
                         unicode: char -> char)
    requires WellFormed(p, unicode) && NoPointers(s, p, unicode) && ListsOnlyComplete(c, p, unicode)
    requires errors0 < errors2 <= errors && start + |p.ownedKeys| < |trace2| <= |trace|
    requires FailuresAreBefore(errors0, errors2, |trace2|) && FailuresAreFrom(errors2, errors, |trace2|)
    requires var g := |trace2| - start - |p.ownedKeys| - 1; g <= |p.values| && Reached(s, c, p, g, unicode)
    requires forall i | start <= i < |trace2| :: ListsOnlyComplete(trace[i], p, unicode)
    requires UndoOrder(c, t, trace, errors2, errors, |trace2|, keysAt, p, unicode) && keysAt < |trace|
    ensures KeepsOrder(t, trace, start, errors0, errors, |trace2|, keysAt, p, unicode)
  {
    PointsOnceWritten(s, c, p, |trace2| - start - |p.ownedKeys| - 1, unicode);
    LaterFailures(errors0, errors2, errors, |trace2|);
    hide WellFormed, NoPointers, ListsOnlyComplete, AllButPointerStored, Reached, FailedAt, FailuresAreBefore, FailuresAreFrom;
  }

  lemma UndoneLeaves(s: Store, c: Store, t: Store, trace0: seq<Store>, errors0: seq<Failure>, trace1: seq<Store>,
                     trace2: seq<Store>, errors2: seq<Failure>, trace: seq<Store>, errors: seq<Failure>,
                     result: Result<(), IoError>, p: Plan, unicode: char -> char)
    requires WellFormed(p, unicode) && Surveyed(s, trace0, trace1) && |trace1| == |trace0| + |p.ownedKeys|
    requires WroteAndTrimmed(s, c, trace1, errors0, trace2, errors2, result, p, unicode) && result.Err?
    requires !Existed(s, p, unicode)[0]
    requires CleanedUp(c, t, trace2, errors2, trace, errors, Existed(s, p, unicode), p, unicode)
    ensures RegisterLeaves(s, t, trace, |trace0|, errors0, errors, |trace2|, |trace| - CountNew(Existed(s, p, unicode)), p, unicode)
    ensures FirstError(result, errors0, errors)
  {
    hide LeavesOthers, ListsOnlyComplete, NoPointers, Reached, KeepsExisting, NewAreBare, UndoOrder, Existed, CountNew,
      KeepsOrder, AllButPointerStored, FailuresAreFrom, FailuresAreBefore, Registered, WellFormed;
    var existed := Existed(s, p, unicode);
    var keysAt := |trace| - CountNew(existed);
    HasKeys(p, s, unicode);
    CountsOne(existed, 0);
    UndoOrderStarts(c, t, trace, errors2, errors, |trace2|, keysAt, p, unicode);
    StatesUpToUndo(s, trace0, trace1, trace2, trace, p, unicode);
    LaterFailures(errors0, errors2, errors, |trace2|);
    FirstFailureWasBefore(errors0, errors2, errors, |trace1|, |trace2|);
    if NoPointers(s, p, unicode) {
      UndoneKeepsOrder(s, c, t, |trace0|, errors0, trace2, errors2, trace, errors, keysAt, p, unicode);
    }
    forall i | |trace0| <= i < |trace| ensures LeavesOthers(s, trace[i], p, unicode) {
      if i >= |trace2| {
        LeavesOthersTransitively(s, c, trace[i], p, unicode);
      }
    }
  }

  /** Registers a well-formed plan, and undoes a first registration that fails. */
  method RegisterPlan(hive: Hive, p: Plan) returns (result: Result<(), IoError>, ghost undoAt: nat, ghost keysAt: nat)
    requires hive.Valid() && WellFormed(p, hive.unicode)
    modifies hive
    ensures hive.Valid()
    ensures FirstError(result, old(hive.errors), hive.errors) && old(hive.trace) <= hive.trace
    ensures RegisterLeaves(old(hive.store), hive.store, hive.trace, |old(hive.trace)|, old(hive.errors), hive.errors,
                           undoAt, keysAt, p, hive.unicode)
  {
    hide LeavesOthers, ListsOnlyComplete, NoPointers, Registered, Bare, WellFormed, Fold, Reached, KeepsExisting, UndoOrder,
      PointerLeft, KeepsOrder, Failed, FailuresAreFrom, FailuresAreBefore, Existed;
    ghost var s, unicode, trace0, errors0 := hive.store, hive.unicode, hive.trace, hive.errors;
    LeavesItselfAlone(s, p, unicode);
    var survey := Survey(hive, p);
    ghost var trace1 := hive.trace;
    if survey.Err? {
      SurveyFails(s, trace0, errors0, trace1, survey.error, p, unicode);
      return Err(survey.error), |hive.trace|, |hive.trace|;
    }
    var existed := survey.value;
    result := WriteAndTrim(hive, p);
    ghost var c, trace2, errors2 := hive.store, hive.trace, hive.errors;
    undoAt, keysAt := |hive.trace|, |hive.trace|;
    HasKeys(p, s, unicode);
    if result.Err? && !existed[0] {
      CleanUp(hive, p, existed);
      keysAt := |hive.trace| - CountNew(existed);
      UndoneLeaves(s, c, hive.store, trace0, errors0, trace1, trace2, errors2, hive.trace, hive.errors, result, p, unicode);
    } else {
      NotUndone(s, hive.store, trace0, errors0, trace1, hive.trace, hive.errors, result, p, unicode);
    }
  }

  lemma HasKeys(p: Plan, s: Store, unicode: char -> char)
    requires WellFormed(p, unicode)
    ensures |Existed(s, p, unicode)| == |p.ownedKeys| > 0
  {
  }

  /** What registering `app` does; an application that cannot be registered is refused before anything is touched. */
  method Register(hive: Hive, app: Application) returns (result: Result<(), RegisterError>, ghost undoAt: nat, ghost keysAt: nat)
    requires hive.Valid()
    modifies hive
    ensures hive.Valid()
    ensures PlanOf(app).Err? ==>
              && result == Err(Invalid(PlanOf(app).error))
              && hive.store == old(hive.store) && hive.trace == old(hive.trace) && hive.errors == old(hive.errors)
    ensures PlanOf(app).Ok? ==>
              && old(hive.trace) <= hive.trace && old(hive.errors) <= hive.errors
              && (result.Ok? <==> hive.errors == old(hive.errors))
              && (result.Err? ==> result.error == Io(hive.errors[|old(hive.errors)|].error))
              && PlanOf(app).value.ownedKeys != []
              && RegisterLeaves(old(hive.store), hive.store, hive.trace, |old(hive.trace)|, old(hive.errors), hive.errors,
                                undoAt, keysAt, PlanOf(app).value, hive.unicode)
  {
    hide RegisterLeaves;
    undoAt, keysAt := 0, 0;
    match PlanOf(app) {
      case Err(invalid) =>
        result := Err(Invalid(invalid));
      case Ok(p) =>
        EveryPlanIsWellFormed(app, hive.unicode);
        var registered;
        registered, undoAt, keysAt := RegisterPlan(hive, p);
        result := match registered case Ok(_) => Ok(()) case Err(e) => Err(Io(e));
    }
  }

  /** Registering and then unregistering, with no call failing, puts every value back but the registration's own. */
  method RegisterThenUnregister(hive: Hive, app: Application) returns (ok: bool)
    requires hive.Valid()
    modifies hive
    ensures ok ==>
              && PlanOf(app).Ok?
              && var p, s := PlanOf(app).value, old(hive.store);
                 hive.store.values ==
                 map slot | slot in s.values && Foreign(s, slot, p, hive.unicode) :: s.values[slot]
  {
    ghost var s := hive.store;
    var registered, _, _ := Register(hive, app);
    if registered.Err? {
      return false;
    }
    EveryPlanIsWellFormed(app, hive.unicode);
    UnregisterUndoesRegister(s, PlanOf(app).value, hive.unicode);
    var removed := Unregister(hive, app);
    ok := removed.Ok?;
  }
}
