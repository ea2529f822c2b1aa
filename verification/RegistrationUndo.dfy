/** Undoing a first registration that failed, in a registry in which the undo's calls may fail too. */
module RegistrationUndo {
  import opened Common
  import opened Registration
  import opened Registry
  import opened RegistrationStates
  import opened RegistrationRemoval

  // ---- removing the keys that were not there ----

  /** How many of the owned keys were not there. */
  function CountNew(existed: seq<bool>): (n: nat)
    ensures n <= |existed|
  {
    if existed == [] then 0
    else CountNew(existed[..|existed| - 1]) + if existed[|existed| - 1] then 0 else 1
  }

  lemma {:induction false} CountsOne(existed: seq<bool>, i: nat)
    requires i < |existed| && !existed[i]
    ensures CountNew(existed) > 0
  {
    if i < |existed| - 1 {
      CountsOne(existed[..|existed| - 1], i);
    }
  }

  /** `u` is `t` less some of what lies at or below an owned key. */
  ghost predicate LessOfKey(t: Store, u: Store, p: Plan, i: nat, unicode: char -> char)
    requires i < |p.ownedKeys|
  {
    && u.keys <= t.keys
    && (forall k | k in t.keys && !Under(k, Fold(p.ownedKeys[i], unicode)) :: k in u.keys)
    && Less(t, u)
    && (forall slot | slot in t.values && !Under(slot.key, Fold(p.ownedKeys[i], unicode)) :: slot in u.values)
  }

  /** Every value of `u` is in `t`. */
  ghost predicate Less(t: Store, u: Store) {
    forall slot | slot in u.values :: slot in t.values && u.values[slot] == t.values[slot]
  }

  /** The values below the keys that were there are as they were. */
  ghost predicate KeepsExisting(c: Store, t: Store, p: Plan, existed: seq<bool>, unicode: char -> char) {
    forall slot: Slot, j | 0 <= j < |existed| && j < |p.ownedKeys| && existed[j] && Under(slot.key, Fold(p.ownedKeys[j], unicode)) ::
      (slot in t.values <==> slot in c.values) && (slot in c.values ==> t.values[slot] == c.values[slot])
  }

  /** Every call since `calls` that did not fail took an owned key whole, and with it a value of the registration. */
  ghost predicate SuccessesTakeKeys(before: seq<Failure>, after: seq<Failure>, trace: seq<Store>, t: Store, calls: nat, p: Plan,
                                    unicode: char -> char) {
    forall i | calls <= i < |trace| && !FailedAt(before, after, i) ::
      !AllButPointerStored(trace[i], p, unicode) && !AllButPointerStored(t, p, unicode)
  }

  ghost predicate NewAreBare(t: Store, p: Plan, existed: seq<bool>, i: nat, unicode: char -> char)
    requires i <= |existed| == |p.ownedKeys|
  {
    forall j | 0 <= j < i && !existed[j] :: Bare(t, p.ownedKeys[j], unicode)
  }

  /** The first `i` owned keys have had their turn, since the store was `c`. */
  ghost predicate KeysGoing(c: Store, trace0: seq<Store>, errors0: seq<Failure>, existed: seq<bool>, i: nat,
                            t: Store, trace: seq<Store>, errors: seq<Failure>, p: Plan, unicode: char -> char) {
    && i <= |existed| == |p.ownedKeys|
    && trace0 <= trace && |trace| == |trace0| + CountNew(existed[..i]) && errors0 <= errors
    && (|trace| > |trace0| ==> trace[|trace| - 1] == t)
    && FailuresAreFrom(errors0, errors, |trace0|) && FailuresAreBefore(errors0, errors, |trace|)
    && SuccessesTakeKeys(errors0, errors, trace, t, |trace0|, p, unicode)
    && Removing(c, t, p, unicode)
    && (forall j | |trace0| <= j < |trace| :: Removing(c, trace[j], p, unicode) && Less(trace[j], t))
    && (errors == errors0 ==> NewAreBare(t, p, existed, i, unicode))
    && KeepsExisting(c, t, p, existed, unicode)
  }

  /** What the removal of an owned key makes of the store, the states and the failures. */
  ghost predicate KeyCalled(t: Store, trace: seq<Store>, errors: seq<Failure>, t': Store, trace': seq<Store>,
                            errors': seq<Failure>, p: Plan, i: nat, unicode: char -> char)
    requires i < |p.ownedKeys|
  {
    && trace' == trace + [t'] && LessOfKey(t, t', p, i, unicode)
    && ((errors' == errors && Bare(t', p.ownedKeys[i], unicode))
        || exists error :: errors' == errors + [Failure(error, |trace|)])
  }

  method RemoveNewKey(hive: Hive, p: Plan, i: nat)
    requires hive.Valid() && i < |p.ownedKeys|
    modifies hive
    ensures hive.Valid()
    ensures KeyCalled(old(hive.store), old(hive.trace), old(hive.errors), hive.store, hive.trace, hive.errors, p, i, hive.unicode)
  {
    hide Fold, Under;
    var _ := hive.RemoveKey(p.ownedKeys[i]);
  }

  lemma RootsAreDisjoint(p: Plan, i: nat, unicode: char -> char)
    requires WellFormed(p, unicode) && i < |p.ownedKeys|
    ensures forall k, j | 0 <= j < |p.ownedKeys| && j != i && Under(k, Fold(p.ownedKeys[j], unicode)) ::
              !Under(k, Fold(p.ownedKeys[i], unicode))
  {
  }

  lemma RemovingKeepsExisting(c: Store, t: Store, u: Store, p: Plan, existed: seq<bool>, i: nat, unicode: char -> char)
    requires WellFormed(p, unicode) && i < |existed| == |p.ownedKeys| && !existed[i]
    requires KeepsExisting(c, t, p, existed, unicode) && LessOfKey(t, u, p, i, unicode)
    ensures KeepsExisting(c, u, p, existed, unicode)
  {
    RootsAreDisjoint(p, i, unicode);
    hide WellFormed, Fold, Under;
  }

  lemma RemovingOn(c: Store, t: Store, u: Store, p: Plan, i: nat, unicode: char -> char)
    requires Removing(c, t, p, unicode) && i < |p.ownedKeys| && LessOfKey(t, u, p, i, unicode)
    ensures Removing(c, u, p, unicode)
  {
    hide Fold, Under;
    RemovedUnderRoot(p, i, unicode);
  }

  lemma LessIsBareYet(t: Store, u: Store, p: Plan, existed: seq<bool>, i: nat, unicode: char -> char)
    requires i < |existed| == |p.ownedKeys| && LessOfKey(t, u, p, i, unicode) && NewAreBare(t, p, existed, i, unicode)
    requires Bare(u, p.ownedKeys[i], unicode)
    ensures NewAreBare(u, p, existed, i + 1, unicode)
  {
  }

  lemma LessStoresNoMore(t: Store, u: Store, p: Plan, unicode: char -> char)
    requires Less(t, u) && AllButPointerStored(u, p, unicode)
    ensures AllButPointerStored(t, p, unicode)
  {
  }

  lemma LessOfItself(t: Store)
    ensures Less(t, t)
  {
  }

  lemma LessTransitively(t: Store, u: Store, v: Store)
    requires Less(t, u) && Less(u, v)
    ensures Less(t, v)
  {
  }

  lemma SuccessesTakeKeysOn(before: seq<Failure>, after: seq<Failure>, trace: seq<Store>, t: Store, calls: nat, p: Plan,
                            unicode: char -> char, i: nat, u: Store, after': seq<Failure>)
    requires SuccessesTakeKeys(before, after, trace, t, calls, p, unicode) && WellFormed(p, unicode) && i < |p.ownedKeys|
    requires |before| <= |after| && KeyCalled(t, trace, after, u, trace + [u], after', p, i, unicode)
    ensures SuccessesTakeKeys(before, after', trace + [u], u, calls, p, unicode)
  {
    hide Bare, WellFormed, AllButPointerStored, Less;
    if AllButPointerStored(u, p, unicode) {
      LessStoresNoMore(t, u, p, unicode);
    }
    if Bare(u, p.ownedKeys[i], unicode) {
      BareKeyIsIncomplete(u, p, i, unicode);
    }
    if after' != after {
      assert after'[|after|].at == |trace|;
      assert FailedAt(before, after', |trace|);
    }
    forall j | calls <= j < |trace + [u]| && !FailedAt(before, after', j)
      ensures !AllButPointerStored((trace + [u])[j], p, unicode) && !AllButPointerStored(u, p, unicode)
    {
      forall e | |before| <= e < |after| ensures after'[e] == after[e] {
      }
      if j < |trace| {
        assert !FailedAt(before, after, j);
      }
    }
  }

  lemma KeysGoOn(c: Store, trace0: seq<Store>, errors0: seq<Failure>, existed: seq<bool>, i: nat,
                 t: Store, trace: seq<Store>, errors: seq<Failure>, t': Store, trace': seq<Store>, errors': seq<Failure>,
                 p: Plan, unicode: char -> char)
    requires KeysGoing(c, trace0, errors0, existed, i, t, trace, errors, p, unicode) && WellFormed(p, unicode)
    requires i < |existed| && !existed[i] && KeyCalled(t, trace, errors, t', trace', errors', p, i, unicode)
    ensures KeysGoing(c, trace0, errors0, existed, i + 1, t', trace', errors', p, unicode)
  {
    hide Removing, KeepsExisting, SuccessesTakeKeys, NewAreBare, Bare, WellFormed, Less;
    assert Less(t, t');
    assert existed[..i + 1][..i] == existed[..i];
    SuccessesTakeKeysOn(errors0, errors, trace, t, |trace0|, p, unicode, i, t', errors');
    RemovingOn(c, t, t', p, i, unicode);
    RemovingKeepsExisting(c, t, t', p, existed, i, unicode);
    if errors' == errors0 {
      LessIsBareYet(t, t', p, existed, i, unicode);
    }
    LessOfItself(t');
    forall j | |trace0| <= j < |trace'| ensures Removing(c, trace'[j], p, unicode) && Less(trace'[j], t') {
      if j < |trace| {
        LessTransitively(trace[j], t, t');
      }
    }
  }

  lemma KeysGoPast(c: Store, trace0: seq<Store>, errors0: seq<Failure>, existed: seq<bool>, i: nat,
                   t: Store, trace: seq<Store>, errors: seq<Failure>, p: Plan, unicode: char -> char)
    requires KeysGoing(c, trace0, errors0, existed, i, t, trace, errors, p, unicode) && i < |existed| && existed[i]
    ensures KeysGoing(c, trace0, errors0, existed, i + 1, t, trace, errors, p, unicode)
  {
    hide Removing, KeepsExisting, SuccessesTakeKeys, Bare;
    assert existed[..i + 1][..i] == existed[..i];
  }

  lemma KeysStart(c: Store, trace0: seq<Store>, errors0: seq<Failure>, existed: seq<bool>, p: Plan, unicode: char -> char)
    requires |existed| == |p.ownedKeys|
    ensures KeysGoing(c, trace0, errors0, existed, 0, c, trace0, errors0, p, unicode)
  {
  }

  /** Removes the owned keys that were not there before, trying each even after one fails. */
  method RemoveNewKeys(hive: Hive, p: Plan, existed: seq<bool>)
    requires hive.Valid() && WellFormed(p, hive.unicode) && |existed| == |p.ownedKeys|
    modifies hive
    ensures hive.Valid()
    ensures KeysGoing(old(hive.store), old(hive.trace), old(hive.errors), existed, |existed|,
                      hive.store, hive.trace, hive.errors, p, hive.unicode)
  {
    hide KeysGoing, KeyCalled, WellFormed;
    ghost var c, trace0, errors0, unicode := hive.store, hive.trace, hive.errors, hive.unicode;
    KeysStart(c, trace0, errors0, existed, p, unicode);
    for i := 0 to |p.ownedKeys|
      invariant hive.Valid()
      invariant KeysGoing(c, trace0, errors0, existed, i, hive.store, hive.trace, hive.errors, p, unicode)
    {
      ghost var t, trace, errors := hive.store, hive.trace, hive.errors;
      if !existed[i] {
        RemoveNewKey(hive, p, i);
        KeysGoOn(c, trace0, errors0, existed, i, t, trace, errors, hive.store, hive.trace, hive.errors, p, unicode);
      } else {
        KeysGoPast(c, trace0, errors0, existed, i, t, trace, errors, p, unicode);
      }
    }
  }

  // ---- undoing a first registration ----

  /** Whether one of the calls from `from` up to `to` failed. */
  ghost predicate FailedWithin(before: seq<Failure>, after: seq<Failure>, from: int, to: int) {
    exists call :: from <= call < to && FailedAt(before, after, call)
  }

  /**
   What the undo keeps of the order between the pointer and the rest, `c` being the store it begins with, `t` the one
   it leaves, `from` the calls made by then and `keysFrom` those made when it comes to the keys. Taking pointers keeps
   the order. So does taking keys, once the pointers are gone. If their removal fails, a pointer stands in every later
   state, and dangles once a key that is there no more held what it points at.
   */
  ghost predicate UndoOrder(c: Store, t: Store, trace: seq<Store>, before: seq<Failure>, after: seq<Failure>, from: nat,
                            keysFrom: int, p: Plan, unicode: char -> char) {
    && from < keysFrom <= |trace|
    && (keysFrom < |trace| ==> trace[|trace| - 1] == t)
    && (ListsOnlyComplete(c, p, unicode) ==> forall i | from <= i < keysFrom :: ListsOnlyComplete(trace[i], p, unicode))
    && (NoPointers(c, p, unicode) || !FailedWithin(before, after, from, keysFrom) ==>
          forall i | keysFrom <= i < |trace| :: NoPointers(trace[i], p, unicode))
    && (!NoPointers(c, p, unicode) && FailedWithin(before, after, from, keysFrom) ==>
          forall i | keysFrom <= i < |trace| ::
            && !NoPointers(trace[i], p, unicode)
            && (AllButPointerStored(t, p, unicode) ==> AllButPointerStored(trace[i], p, unicode))
            && (!FailedAt(before, after, i) ==> !AllButPointerStored(t, p, unicode)))
  }

  lemma FailuresOfParts(errors0: seq<Failure>, errors1: seq<Failure>, errors: seq<Failure>, from: nat, to: nat,
                        trimmed: Result<(), IoError>)
    requires FirstError(trimmed, errors0, errors1) && errors1 <= errors
    requires FailuresAreFrom(errors0, errors1, from) && FailuresAreBefore(errors0, errors1, to)
    requires FailuresAreFrom(errors1, errors, to)
    ensures FailedWithin(errors0, errors, from, to) <==> trimmed.Err?
    ensures forall i | FailedAt(errors1, errors, i) :: FailedAt(errors0, errors, i)
    ensures from <= to ==> FailuresAreFrom(errors0, errors, from)
  {
    if trimmed.Err? {
      assert errors[|errors0|] == errors1[|errors0|];
      assert FailedAt(errors0, errors, errors[|errors0|].at);
    }
    forall e | |errors0| <= e < |errors1| ensures errors[e] == errors1[e] {
    }
  }

  /** What the undo's two parts did: the pointers' removal up to `trace1`, ending in `c`, and then the keys'. */
  ghost predicate Undone(s: Store, c: Store, t: Store, trace0: seq<Store>, errors0: seq<Failure>, trace1: seq<Store>,
                         errors1: seq<Failure>, trimmed: Result<(), IoError>, trace: seq<Store>, errors: seq<Failure>,
                         existed: seq<bool>, p: Plan, unicode: char -> char) {
    && |trace0| < |trace1| && FirstError(trimmed, errors0, errors1) && FailuresAreFrom(errors0, errors1, |trace0|)
    && FailuresAreBefore(errors0, errors1, |trace1|) && Trimming(s, c, p, None, unicode)
    && (forall i | |trace0| <= i < |trace1| :: Trimming(s, trace1[i], p, None, unicode))
    && (trimmed.Ok? ==> c == Trimmed(s, p, None, unicode))
    && (trimmed.Err? ==> c == s || StillTrimmable(s, c, p, None, unicode))
    && KeysGoing(c, trace1, errors1, existed, |existed|, t, trace, errors, p, unicode)
  }

  lemma UndoKeepsOrder(s: Store, c: Store, t: Store, trace0: seq<Store>, errors0: seq<Failure>, trace1: seq<Store>,
                       errors1: seq<Failure>, trimmed: Result<(), IoError>, trace: seq<Store>, errors: seq<Failure>,
                       existed: seq<bool>, p: Plan, unicode: char -> char)
    requires WellFormed(p, unicode)
    requires Undone(s, c, t, trace0, errors0, trace1, errors1, trimmed, trace, errors, existed, p, unicode)
    ensures UndoOrder(s, t, trace, errors0, errors, |trace0|, |trace1|, p, unicode)
  {
    FailuresOfParts(errors0, errors1, errors, |trace0|, |trace1|, trimmed);
    TrimmingKeepsNoPointers(s, c, p, unicode);
    hide FailedWithin, FailedAt, FirstError, FailuresAreFrom, FailuresAreBefore, Trimming, Removing, StillTrimmable, Trimmed,
      NoPointers, AllButPointerStored, WellFormed, Less, KeepsExisting, NewAreBare;
    forall i | |trace0| <= i < |trace1|
      ensures ListsOnlyComplete(s, p, unicode) ==> ListsOnlyComplete(trace[i], p, unicode)
    {
      assert trace[i] == trace1[i];
      if ListsOnlyComplete(s, p, unicode) {
        TrimmingListsOnlyComplete(s, trace[i], p, None, unicode);
      }
    }
    forall i | |trace1| <= i < |trace|
      ensures NoPointers(s, p, unicode) || trimmed.Ok? ==> NoPointers(trace[i], p, unicode)
      ensures !NoPointers(s, p, unicode) && trimmed.Err? ==> !NoPointers(trace[i], p, unicode)
      ensures AllButPointerStored(t, p, unicode) ==> AllButPointerStored(trace[i], p, unicode)
    {
      RemovingLeavesOthers(c, trace[i], p, unicode);
      if !NoPointers(s, p, unicode) && trimmed.Err? {
        PointerStands(s, c, trace[i], p, unicode);
      }
      if AllButPointerStored(t, p, unicode) {
        LessStoresNoMore(trace[i], t, p, unicode);
      }
    }
  }

  lemma UndoLeavesOthers(s: Store, c: Store, t: Store, trace0: seq<Store>, errors0: seq<Failure>, trace1: seq<Store>,
                         errors1: seq<Failure>, trimmed: Result<(), IoError>, trace: seq<Store>, errors: seq<Failure>,
                         existed: seq<bool>, p: Plan, unicode: char -> char)
    requires Undone(s, c, t, trace0, errors0, trace1, errors1, trimmed, trace, errors, existed, p, unicode)
    ensures forall i | |trace0| <= i < |trace| :: LeavesOthers(s, trace[i], p, unicode)
  {
    hide Trimming, Removing, LeavesOthers, Less, KeepsExisting, NewAreBare, SuccessesTakeKeys;
    TrimmingLeavesOthers(s, c, p, None, unicode);
    forall i | |trace0| <= i < |trace| ensures LeavesOthers(s, trace[i], p, unicode) {
      if i < |trace1| {
        assert trace[i] == trace1[i];
        TrimmingLeavesOthers(s, trace[i], p, None, unicode);
      } else {
        RemovingLeavesOthers(c, trace[i], p, unicode);
        LeavesOthersTransitively(s, c, trace[i], p, unicode);
      }
    }
  }

  /** Taking pointers leaves the values below the owned keys, so what existed there is as it was. */
  lemma TrimKeepsExisting(s: Store, c: Store, t: Store, p: Plan, keep: Option<string>, existed: seq<bool>, unicode: char -> char)
    requires WellFormed(p, unicode) && Trimming(s, c, p, keep, unicode) && KeepsExisting(c, t, p, existed, unicode)
    ensures KeepsExisting(s, t, p, existed, unicode)
  {
    PointersAreNotOwned(p, unicode);
    TrimmedKeepsOwned(s, c, p, keep, unicode);
    hide WellFormed, LeavesOthers, Fold, Under;
    forall slot: Slot, j | 0 <= j < |existed| && j < |p.ownedKeys| && existed[j] && Under(slot.key, Fold(p.ownedKeys[j], unicode))
      ensures slot in c.values <==> slot in s.values
      ensures slot in s.values ==> c.values[slot] == s.values[slot]
    {
      assert Owns(p, slot.key, unicode);
    }
  }

  /** If no call of the undo failed, no pointer is left and every key that was not there is gone. */
  lemma UndoneWhole(s: Store, c: Store, t: Store, trace0: seq<Store>, errors0: seq<Failure>, trace1: seq<Store>,
                    errors1: seq<Failure>, trimmed: Result<(), IoError>, trace: seq<Store>, errors: seq<Failure>,
                    existed: seq<bool>, p: Plan, unicode: char -> char)
    requires Undone(s, c, t, trace0, errors0, trace1, errors1, trimmed, trace, errors, existed, p, unicode)
    ensures errors == errors0 ==> NoPointers(t, p, unicode) && NewAreBare(t, p, existed, |existed|, unicode)
  {
    if errors == errors0 {
      TrimmingKeepsNoPointers(s, c, p, unicode);
      RemovingLeavesOthers(c, t, p, unicode);
    }
  }

  /** What the undo makes of the store `c`, whatever calls fail. */
  ghost predicate CleanedUp(c: Store, t: Store, trace0: seq<Store>, errors0: seq<Failure>, trace: seq<Store>,
                            errors: seq<Failure>, existed: seq<bool>, p: Plan, unicode: char -> char)
    requires |existed| == |p.ownedKeys|
  {
    && trace0 <= trace && errors0 <= errors && FailuresAreFrom(errors0, errors, |trace0|)
    && (forall i | |trace0| <= i < |trace| :: LeavesOthers(c, trace[i], p, unicode))
    && UndoOrder(c, t, trace, errors0, errors, |trace0|, |trace| - CountNew(existed), p, unicode)
    && (errors == errors0 ==> NoPointers(t, p, unicode) && NewAreBare(t, p, existed, |existed|, unicode))
    && KeepsExisting(c, t, p, existed, unicode)
  }

  /** Undoes a first registration that failed: its pointers, and the owned keys that were not there before. */
  method CleanUp(hive: Hive, p: Plan, existed: seq<bool>)
    requires hive.Valid() && WellFormed(p, hive.unicode) && |existed| == |p.ownedKeys|
    modifies hive
    ensures hive.Valid()
    ensures CleanedUp(old(hive.store), hive.store, old(hive.trace), old(hive.errors), hive.trace, hive.errors, existed, p,
                      hive.unicode)
  {
    hide LeavesOthers, NoPointers, ListsOnlyComplete, Trimming, Removing, Bare, KeepsExisting, SuccessesTakeKeys, Fold, WellFormed,
      UndoOrder, FailuresAreFrom, FailuresAreBefore, StillTrimmable, Trimmed, Less;
    ghost var s, unicode, trace0, errors0 := hive.store, hive.unicode, hive.trace, hive.errors;
    var trimmed := RemovePointers(hive, p, None);
    ghost var c, trace1, errors1 := hive.store, hive.trace, hive.errors;
    RemoveNewKeys(hive, p, existed);
    assert existed[..|existed|] == existed;
    UndoKeepsOrder(s, c, hive.store, trace0, errors0, trace1, errors1, trimmed, hive.trace, hive.errors, existed, p, unicode);
    UndoLeavesOthers(s, c, hive.store, trace0, errors0, trace1, errors1, trimmed, hive.trace, hive.errors, existed, p, unicode);
    UndoneWhole(s, c, hive.store, trace0, errors0, trace1, errors1, trimmed, hive.trace, hive.errors, existed, p, unicode);
    TrimKeepsExisting(s, c, hive.store, p, None, existed, unicode);
    FailuresOfParts(errors0, errors1, hive.errors, |trace0|, |trace1|, trimmed);
  }
}
