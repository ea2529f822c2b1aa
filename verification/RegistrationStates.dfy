/** The states a registration passes through, and what they keep. */
module RegistrationStates {
  import opened Common
  import opened Registration
  import opened Registry

  function PointerKey(unicode: char -> char): string {
    Fold(REGISTERED_APPLICATIONS, unicode)
  }

  /** The slot of the pointer a registration writes under its own name. */
  function OwnPointer(p: Plan, unicode: char -> char): Slot {
    Slot(PointerKey(unicode), Fold(p.name, unicode))
  }

  /** Whether a value lists this registration's capabilities. */
  predicate Points(s: Store, slot: Slot, p: Plan, unicode: char -> char) {
    slot in s.values && slot.key == PointerKey(unicode) && EqIgnoreAsciiCase(s.values[slot].data, p.capabilities)
  }

  predicate Kept(slot: Slot, keep: Option<string>, unicode: char -> char) {
    keep.Some? && Fold(keep.value, unicode) == slot.name
  }

  predicate Trimmable(s: Store, slot: Slot, p: Plan, keep: Option<string>, unicode: char -> char) {
    Points(s, slot, p, unicode) && !Kept(slot, keep, unicode)
  }

  // ---- what a call that meets no failure makes of a store ----

  function Written(s: Store, values: seq<Value>, unicode: char -> char): Store {
    if values == [] then s
    else Stored(Written(s, values[..|values| - 1], unicode), values[|values| - 1], unicode)
  }

  function Trimmed(s: Store, p: Plan, keep: Option<string>, unicode: char -> char): Store {
    Store(s.keys, map slot | slot in s.values && !Trimmable(s, slot, p, keep, unicode) :: s.values[slot])
  }

  function Registered(s: Store, p: Plan, unicode: char -> char): Store {
    Trimmed(Written(s, p.values, unicode), p, Some(p.name), unicode)
  }

  function WithoutKeys(s: Store, roots: seq<string>, unicode: char -> char): Store {
    if roots == [] then s
    else WithoutKey(WithoutKeys(s, roots[..|roots| - 1], unicode), Fold(roots[|roots| - 1], unicode))
  }

  function Unregistered(s: Store, p: Plan, unicode: char -> char): Store {
    WithoutKeys(Trimmed(s, p, None, unicode), p.ownedKeys, unicode)
  }

  // ---- what every state keeps ----

  /** A slot that is neither the registration's own nor a pointer of its. */
  ghost predicate Foreign(s: Store, slot: Slot, p: Plan, unicode: char -> char) {
    && !Owns(p, slot.key, unicode)
    && slot != OwnPointer(p, unicode)
    && !Points(s, slot, p, unicode)
  }

  /** Whatever is foreign in `s` is in `t` exactly as it was. */
  ghost predicate LeavesOthers(s: Store, t: Store, p: Plan, unicode: char -> char) {
    forall slot | Foreign(s, slot, p, unicode) ::
      (slot in t.values <==> slot in s.values) && (slot in s.values ==> t.values[slot] == s.values[slot])
  }

  lemma LeavesOthersTransitively(s: Store, t: Store, u: Store, p: Plan, unicode: char -> char)
    requires LeavesOthers(s, t, p, unicode) && LeavesOthers(t, u, p, unicode)
    ensures LeavesOthers(s, u, p, unicode)
  {
  }

  /** Every value but the pointer is stored. */
  ghost predicate AllButPointerStored(s: Store, p: Plan, unicode: char -> char) {
    forall i | 0 <= i < |p.values| - 1 ::
      SlotOf(p.values[i], unicode) in s.values
      && s.values[SlotOf(p.values[i], unicode)].data == p.values[i].data
  }

  ghost predicate NoPointers(s: Store, p: Plan, unicode: char -> char) {
    forall slot :: !Points(s, slot, p, unicode)
  }

  /** The system never lists capabilities that are not yet all written. */
  ghost predicate ListsOnlyComplete(s: Store, p: Plan, unicode: char -> char) {
    NoPointers(s, p, unicode) || AllButPointerStored(s, p, unicode)
  }

  // ---- writing ----

  lemma {:induction false} WrittenHolds(s: Store, values: seq<Value>, unicode: char -> char, i: nat)
    requires i < |values|
    requires forall a, b | 0 <= a < b < |values| :: SlotOf(values[a], unicode) != SlotOf(values[b], unicode)
    ensures var w := Written(s, values, unicode);
            SlotOf(values[i], unicode) in w.values && w.values[SlotOf(values[i], unicode)].data == values[i].data
  {
    if i < |values| - 1 {
      WrittenHolds(s, values[..|values| - 1], unicode, i);
      assert SlotOf(values[i], unicode) != SlotOf(values[|values| - 1], unicode);
    }
  }

  lemma {:induction false} WrittenLeaves(s: Store, values: seq<Value>, unicode: char -> char, slot: Slot)
    requires forall i | 0 <= i < |values| :: SlotOf(values[i], unicode) != slot
    ensures slot in Written(s, values, unicode).values <==> slot in s.values
    ensures slot in s.values ==> Written(s, values, unicode).values[slot] == s.values[slot]
  {
    if values != [] {
      WrittenLeaves(s, values[..|values| - 1], unicode, slot);
    }
  }

  lemma {:induction false} WrittenGrows(s: Store, values: seq<Value>, unicode: char -> char)
    ensures s.keys <= Written(s, values, unicode).keys
    ensures forall slot | slot in s.values :: slot in Written(s, values, unicode).values
  {
    if values != [] {
      WrittenGrows(s, values[..|values| - 1], unicode);
    }
  }

  /** The state after the first `m` writes. */
  function Partly(s: Store, p: Plan, m: nat, unicode: char -> char): Store
    requires m <= |p.values|
  {
    Written(s, p.values[..m], unicode)
  }

  lemma PartlyLeavesOthers(s: Store, p: Plan, m: nat, unicode: char -> char)
    requires WellFormed(p, unicode) && m <= |p.values|
    ensures LeavesOthers(s, Partly(s, p, m, unicode), p, unicode)
  {
    forall slot | Foreign(s, slot, p, unicode)
      ensures slot in Partly(s, p, m, unicode).values <==> slot in s.values
      ensures slot in s.values ==> Partly(s, p, m, unicode).values[slot] == s.values[slot]
    {
      forall i | 0 <= i < m ensures SlotOf(p.values[i], unicode) != slot {
        if i == |p.values| - 1 {
          assert SlotOf(p.values[i], unicode) == OwnPointer(p, unicode) by {
            assert p.values[i].Key() == REGISTERED_APPLICATIONS;
          }
        }
      }
      WrittenLeaves(s, p.values[..m], unicode, slot);
    }
  }

  lemma PartlyListsOnlyComplete(s: Store, p: Plan, m: nat, unicode: char -> char)
    requires WellFormed(p, unicode) && m <= |p.values| && NoPointers(s, p, unicode)
    ensures ListsOnlyComplete(Partly(s, p, m, unicode), p, unicode)
    ensures m < |p.values| ==> NoPointers(Partly(s, p, m, unicode), p, unicode)
  {
    var t := Partly(s, p, m, unicode);
    if m == |p.values| {
      assert p.values[..m] == p.values;
      forall i | 0 <= i < |p.values| - 1
        ensures SlotOf(p.values[i], unicode) in t.values
        ensures t.values[SlotOf(p.values[i], unicode)].data == p.values[i].data
      {
        WrittenHolds(s, p.values, unicode, i);
      }
    } else {
      forall slot: Slot | slot.key == PointerKey(unicode)
        ensures !Points(t, slot, p, unicode)
      {
        forall i | 0 <= i < m ensures SlotOf(p.values[i], unicode) != slot {
        }
        WrittenLeaves(s, p.values[..m], unicode, slot);
        assert !Points(s, slot, p, unicode);
      }
    }
  }

  // ---- trimming pointers ----

  /** A state on the way from `s` to `Trimmed(s)`: some of the trimmable pointers are gone, and nothing else. */
  ghost predicate Trimming(s: Store, t: Store, p: Plan, keep: Option<string>, unicode: char -> char) {
    && t.keys == s.keys
    && (forall slot | slot in t.values :: slot in s.values && t.values[slot] == s.values[slot])
    && (forall slot | slot in s.values && !Trimmable(s, slot, p, keep, unicode) :: slot in t.values)
  }

  lemma TrimmingLeavesOthers(s: Store, t: Store, p: Plan, keep: Option<string>, unicode: char -> char)
    requires Trimming(s, t, p, keep, unicode)
    ensures LeavesOthers(s, t, p, unicode)
  {
  }

  lemma TrimmingListsOnlyComplete(s: Store, t: Store, p: Plan, keep: Option<string>, unicode: char -> char)
    requires Trimming(s, t, p, keep, unicode) && WellFormed(p, unicode) && ListsOnlyComplete(s, p, unicode)
    ensures ListsOnlyComplete(t, p, unicode)
  {
    if AllButPointerStored(s, p, unicode) {
      forall i | 0 <= i < |p.values| - 1
        ensures SlotOf(p.values[i], unicode) in t.values
      {
        assert Owns(p, SlotOf(p.values[i], unicode).key, unicode);
      }
    } else {
      forall slot ensures !Points(t, slot, p, unicode) {
        assert !Points(s, slot, p, unicode);
      }
    }
  }

  // ---- removing owned keys ----

  /** A state on the way from `s` to one without its owned keys: some of what they hold is gone, and nothing else. */
  ghost predicate Removing(s: Store, t: Store, p: Plan, unicode: char -> char) {
    && t.keys <= s.keys
    && (forall k | k in s.keys && !Owns(p, k, unicode) :: k in t.keys)
    && (forall slot | slot in t.values :: slot in s.values && t.values[slot] == s.values[slot])
    && (forall slot | slot in s.values && !Owns(p, slot.key, unicode) :: slot in t.values)
  }

  lemma RemovingLeavesOthers(s: Store, t: Store, p: Plan, unicode: char -> char)
    requires Removing(s, t, p, unicode)
    ensures LeavesOthers(s, t, p, unicode)
    ensures NoPointers(s, p, unicode) ==> NoPointers(t, p, unicode)
  {
    if NoPointers(s, p, unicode) {
      forall slot ensures !Points(t, slot, p, unicode) {
        assert !Points(s, slot, p, unicode);
      }
    }
  }

  lemma {:induction false} WithoutKeysRemoves(s: Store, p: Plan, roots: seq<string>, unicode: char -> char)
    requires roots <= p.ownedKeys
    ensures Removing(s, WithoutKeys(s, roots, unicode), p, unicode)
    ensures forall k, i | 0 <= i < |roots| && k in WithoutKeys(s, roots, unicode).keys :: !Under(k, Fold(roots[i], unicode))
    ensures forall slot, i | 0 <= i < |roots| && slot in WithoutKeys(s, roots, unicode).values ::
              !Under(slot.key, Fold(roots[i], unicode))
    ensures forall slot | slot in s.values && (forall i | 0 <= i < |roots| :: !Under(slot.key, Fold(roots[i], unicode))) ::
              slot in WithoutKeys(s, roots, unicode).values
  {
    hide Fold, Under;
    if roots != [] {
      var init := roots[..|roots| - 1];
      WithoutKeysRemoves(s, p, init, unicode);
      var last := |roots| - 1;
      assert roots[last] == p.ownedKeys[last];
      var root := Fold(roots[last], unicode);
      forall k | Under(k, root) ensures Owns(p, k, unicode) {
        assert Under(k, Fold(p.ownedKeys[last], unicode));
      }
    }
  }

  // ---- the theorems ----

  /** A successful registration leaves exactly one pointer, the one under the product's own name. */
  lemma RegisteredHasOnePointer(s: Store, p: Plan, unicode: char -> char, slot: Slot)
    requires WellFormed(p, unicode)
    ensures Points(Registered(s, p, unicode), slot, p, unicode) <==> slot == OwnPointer(p, unicode)
    ensures AllButPointerStored(Registered(s, p, unicode), p, unicode)
  {
    var w := Written(s, p.values, unicode);
    var last := |p.values| - 1;
    WrittenHolds(s, p.values, unicode, last);
    assert p.values[last].Key() == REGISTERED_APPLICATIONS;
    assert SlotOf(p.values[last], unicode) == OwnPointer(p, unicode);
    assert Points(w, OwnPointer(p, unicode), p, unicode);
    forall i | 0 <= i < last
      ensures SlotOf(p.values[i], unicode) in Registered(s, p, unicode).values
      ensures Registered(s, p, unicode).values[SlotOf(p.values[i], unicode)].data == p.values[i].data
    {
      WrittenHolds(s, p.values, unicode, i);
      assert Owns(p, SlotOf(p.values[i], unicode).key, unicode);
    }
  }

  /** Where no pointer stood, the writes leave one. */
  lemma WrittenHasOnePointer(s: Store, p: Plan, unicode: char -> char, slot: Slot)
    requires WellFormed(p, unicode) && NoPointers(s, p, unicode)
    ensures Points(Written(s, p.values, unicode), slot, p, unicode) <==> slot == OwnPointer(p, unicode)
  {
    RegisteredHasOnePointer(s, p, unicode, slot);
    if slot.key == PointerKey(unicode) && slot != OwnPointer(p, unicode) {
      forall i | 0 <= i < |p.values| ensures SlotOf(p.values[i], unicode) != slot {
        if i == |p.values| - 1 {
          assert p.values[i].Key() == REGISTERED_APPLICATIONS;
        } else {
          assert Owns(p, SlotOf(p.values[i], unicode).key, unicode);
        }
      }
      WrittenLeaves(s, p.values, unicode, slot);
      assert !Points(s, slot, p, unicode);
    }
  }

  /** Neither a key nor a value at or below `root`. */
  ghost predicate Bare(s: Store, root: string, unicode: char -> char) {
    && (forall k | k in s.keys :: !Under(k, Fold(root, unicode)))
    && (forall slot | slot in s.values :: !Under(slot.key, Fold(root, unicode)))
  }

  /** With an owned key gone, so is a value the pointer's capabilities count on. */
  lemma BareKeyIsIncomplete(t: Store, p: Plan, r: nat, unicode: char -> char)
    requires WellFormed(p, unicode) && r < |p.ownedKeys| && Bare(t, p.ownedKeys[r], unicode)
    ensures !AllButPointerStored(t, p, unicode)
  {
    assert HoldsAValue(p, r, unicode);
    var i :| 0 <= i < |p.values| - 1 && Under(SlotOf(p.values[i], unicode).key, Fold(p.ownedKeys[r], unicode));
    assert SlotOf(p.values[i], unicode) !in t.values;
  }

  /** The state an undo ends in that could not take the pointer back: everything written but the keys removed. */
  lemma KeysRemovedUnderAPointerDangle(s: Store, p: Plan, unicode: char -> char)
    requires WellFormed(p, unicode)
    ensures !ListsOnlyComplete(WithoutKeys(Written(s, p.values, unicode), p.ownedKeys, unicode), p, unicode)
  {
    var w := Written(s, p.values, unicode);
    var t := WithoutKeys(w, p.ownedKeys, unicode);
    RegisteredHasOnePointer(s, p, unicode, OwnPointer(p, unicode));
    assert Points(w, OwnPointer(p, unicode), p, unicode);
    WithoutKeysRemoves(w, p, p.ownedKeys, unicode);
    assert Points(t, OwnPointer(p, unicode), p, unicode);
    BareKeyIsIncomplete(t, p, 0, unicode);
  }

  lemma RegisteringLeavesOthers(s: Store, p: Plan, unicode: char -> char)
    requires WellFormed(p, unicode)
    ensures LeavesOthers(s, Registered(s, p, unicode), p, unicode)
  {
    var w := Written(s, p.values, unicode);
    assert p.values[..|p.values|] == p.values;
    PartlyLeavesOthers(s, p, |p.values|, unicode);
    TrimmingLeavesOthers(w, Registered(s, p, unicode), p, Some(p.name), unicode);
    LeavesOthersTransitively(s, w, Registered(s, p, unicode), p, unicode);
  }

  lemma UnregisteringLeavesOthers(s: Store, p: Plan, unicode: char -> char)
    ensures LeavesOthers(s, Unregistered(s, p, unicode), p, unicode)
  {
    var t := Trimmed(s, p, None, unicode);
    TrimmingLeavesOthers(s, t, p, None, unicode);
    WithoutKeysRemoves(t, p, p.ownedKeys, unicode);
    RemovingLeavesOthers(t, Unregistered(s, p, unicode), p, unicode);
    LeavesOthersTransitively(s, t, Unregistered(s, p, unicode), p, unicode);
  }

  /** What unregistering leaves is neither owned nor a pointer. */
  lemma UnregisteredIsBare(s: Store, p: Plan, unicode: char -> char)
    ensures NoPointers(Unregistered(s, p, unicode), p, unicode)
    ensures forall k | k in Unregistered(s, p, unicode).keys :: !Owns(p, k, unicode)
    ensures forall slot | slot in Unregistered(s, p, unicode).values :: !Owns(p, slot.key, unicode)
    ensures forall slot | slot in Unregistered(s, p, unicode).values ::
              slot in s.values && Unregistered(s, p, unicode).values[slot] == s.values[slot]
              && !Points(s, slot, p, unicode)
    ensures forall k | k in s.keys && !Owns(p, k, unicode) :: k in Unregistered(s, p, unicode).keys
  {
    WithoutKeysRemoves(Trimmed(s, p, None, unicode), p, p.ownedKeys, unicode);
  }

  /** Registering and then unregistering leaves the store as it was, less what the registration owns:
      its keys' values, every pointer at its capabilities, and the value under its own name. */
  lemma UnregisterUndoesRegister(s: Store, p: Plan, unicode: char -> char)
    requires WellFormed(p, unicode)
    ensures Unregistered(Registered(s, p, unicode), p, unicode).values ==
            map slot | slot in s.values && Foreign(s, slot, p, unicode) :: s.values[slot]
    ensures forall k | k in s.keys && !Owns(p, k, unicode) ::
              k in Unregistered(Registered(s, p, unicode), p, unicode).keys
    ensures forall k | k in Unregistered(Registered(s, p, unicode), p, unicode).keys :: !Owns(p, k, unicode)
  {
    var r := Registered(s, p, unicode);
    var u := Unregistered(r, p, unicode);
    WrittenGrows(s, p.values, unicode);
    RegisteringLeavesOthers(s, p, unicode);
    UnregisteringLeavesOthers(r, p, unicode);
    LeavesOthersTransitively(s, r, u, p, unicode);
    UnregisteredIsBare(r, p, unicode);
    hide Registered, Unregistered;
    forall slot | slot in u.values ensures Foreign(s, slot, p, unicode) {
      RegisteredHasOnePointer(s, p, unicode, slot);
      if Points(s, slot, p, unicode) && slot != OwnPointer(p, unicode) {
        PointerSurvivesWriting(s, p, unicode, slot);
      }
    }
  }

  /** Writing leaves an older pointer under another name as it was. */
  lemma PointerSurvivesWriting(s: Store, p: Plan, unicode: char -> char, slot: Slot)
    requires WellFormed(p, unicode) && Points(s, slot, p, unicode) && slot != OwnPointer(p, unicode)
    ensures Points(Written(s, p.values, unicode), slot, p, unicode)
    ensures slot !in Registered(s, p, unicode).values
  {
    forall i | 0 <= i < |p.values| ensures SlotOf(p.values[i], unicode) != slot {
      if i == |p.values| - 1 {
        assert p.values[i].Key() == REGISTERED_APPLICATIONS;
      } else {
        assert Owns(p, SlotOf(p.values[i], unicode).key, unicode);
      }
    }
    WrittenLeaves(s, p.values, unicode, slot);
  }
}
