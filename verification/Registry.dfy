/** A registry in which any call may fail; for proof it keeps its states and its failures. */
module Registry {
  import opened Common
  import opened Registration

  /** A stored value: the name as first spelled, and the string. */
  datatype Held = Held(name: string, data: string)

  /** Every key that exists and every value, by the folded names the registry compares. */
  datatype Store = Store(keys: set<string>, values: map<Slot, Held>)

  datatype IoError = IoError(code: int)

  datatype Failure = Failure(error: IoError, at: nat)

  /** A key with every key above it. */
  function Path(key: string): set<string> {
    (set i | 0 <= i < |key| && key[i] == '\\' :: key[..i]) + {key}
  }

  function Stored(s: Store, v: Value, unicode: char -> char): Store {
    var slot := SlotOf(v, unicode);
    Store(s.keys + Path(slot.key),
          s.values[slot := Held(if slot in s.values then s.values[slot].name else v.name, v.data)])
  }

  function WithoutKey(s: Store, root: string): Store {
    Store(set k | k in s.keys && !Under(k, root),
          map slot | slot in s.values && !Under(slot.key, root) :: s.values[slot])
  }

  ghost predicate Consistent(s: Store, unicode: char -> char) {
    forall slot | slot in s.values :: Fold(s.values[slot].name, unicode) == slot.name
  }

  /** `entries` are the values a key holds, each once. */
  ghost predicate Lists(s: Store, key: string, entries: seq<Held>, unicode: char -> char) {
    && (forall i | 0 <= i < |entries| ::
          var slot := Slot(key, Fold(entries[i].name, unicode)); slot in s.values && s.values[slot] == entries[i])
    && (forall slot | slot in s.values && slot.key == key :: s.values[slot] in entries)
    && (forall i, j | 0 <= i < j < |entries| :: entries[i] != entries[j])
  }

  class Hive {
    const unicode: char -> char
    var store: Store
    ghost var trace: seq<Store>
    /** Every failure, with how many calls came before it. */
    ghost var errors: seq<Failure>

    ghost predicate Valid()
      reads this
    {
      Consistent(store, unicode)
    }

    method KeyExists(key: string) returns (r: Result<bool, IoError>)
      modifies this`trace, this`errors
      ensures r.Ok? ==> r.value == (Fold(key, unicode) in store.keys) && errors == old(errors)
      ensures r.Err? ==> errors == old(errors) + [Failure(r.error, |old(trace)|)]
      ensures trace == old(trace) + [store]
    {
      trace := trace + [store];
      var fails: bool := *;
      if fails {
        var code: int := *;
        errors := errors + [Failure(IoError(code), |old(trace)|)];
        return Err(IoError(code));
      }
      r := Ok(Fold(key, unicode) in store.keys);
    }

    /** A failure may leave the key created, and keys above it, but no value written. */
    method SetString(v: Value) returns (r: Result<(), IoError>)
      requires Valid()
      modifies this
      ensures Valid()
      ensures r.Ok? ==> store == Stored(old(store), v, unicode) && errors == old(errors)
      ensures r.Err? ==> errors == old(errors) + [Failure(r.error, |old(trace)|)] && store.values == old(store).values
      ensures old(store).keys <= store.keys <= old(store).keys + Path(SlotOf(v, unicode).key)
      ensures trace == old(trace) + [store]
    {
      var slot := SlotOf(v, unicode);
      var fails: bool := *;
      if fails {
        var created: bool := *;
        if created {
          store := Store(store.keys + Path(slot.key), store.values);
        }
        var code: int := *;
        errors := errors + [Failure(IoError(code), |old(trace)|)];
        r := Err(IoError(code));
      } else {
        store := Stored(store, v, unicode);
        r := Ok(());
      }
      trace := trace + [store];
    }

    /** A failure may leave any part of what lies below the key removed. */
    method RemoveKey(key: string) returns (r: Result<(), IoError>)
      requires Valid()
      modifies this
      ensures Valid()
      ensures r.Ok? ==> store == WithoutKey(old(store), Fold(key, unicode)) && errors == old(errors)
      ensures r.Err? ==> errors == old(errors) + [Failure(r.error, |old(trace)|)]
      ensures store.keys <= old(store).keys
      ensures forall k | k in old(store).keys && !Under(k, Fold(key, unicode)) :: k in store.keys
      ensures forall slot | slot in store.values ::
                slot in old(store).values && store.values[slot] == old(store).values[slot]
      ensures forall slot | slot in old(store).values && !Under(slot.key, Fold(key, unicode)) :: slot in store.values
      ensures trace == old(trace) + [store]
    {
      var root := Fold(key, unicode);
      var fails: bool := *;
      if fails {
        var below := set k | k in store.keys && Under(k, root);
        var held := set slot | slot in store.values && Under(slot.key, root);
        var goneKeys: set<string> :| goneKeys <= below;
        var goneSlots: set<Slot> :| goneSlots <= held;
        store := Store(store.keys - goneKeys, store.values - goneSlots);
        var code: int := *;
        errors := errors + [Failure(IoError(code), |old(trace)|)];
        r := Err(IoError(code));
      } else {
        store := WithoutKey(store, root);
        r := Ok(());
      }
      trace := trace + [store];
    }

    method StringValues(key: string) returns (r: Result<seq<Held>, IoError>)
      requires Valid()
      modifies this`trace, this`errors
      ensures r.Ok? ==> Lists(store, Fold(key, unicode), r.value, unicode) && errors == old(errors)
      ensures r.Err? ==> errors == old(errors) + [Failure(r.error, |old(trace)|)]
      ensures trace == old(trace) + [store]
    {
      trace := trace + [store];
      var fails: bool := *;
      if fails {
        var code: int := *;
        errors := errors + [Failure(IoError(code), |old(trace)|)];
        return Err(IoError(code));
      }
      var slots := set slot | slot in store.values && slot.key == Fold(key, unicode);
      var todo := slots;
      var entries: seq<Held> := [];
      while todo != {}
        invariant todo <= slots
        invariant forall i | 0 <= i < |entries| ::
                    var slot := Slot(Fold(key, unicode), Fold(entries[i].name, unicode));
                    slot in store.values && store.values[slot] == entries[i]
        invariant forall slot | slot in slots - todo :: store.values[slot] in entries
        invariant forall i | 0 <= i < |entries| :: Slot(Fold(key, unicode), Fold(entries[i].name, unicode)) !in todo
        invariant forall i, j | 0 <= i < j < |entries| :: entries[i] != entries[j]
        decreases todo
      {
        var slot :| slot in todo;
        todo := todo - {slot};
        entries := entries + [store.values[slot]];
      }
      r := Ok(entries);
    }

    method RemoveValue(key: string, name: string) returns (r: Result<(), IoError>)
      requires Valid()
      modifies this
      ensures Valid()
      ensures store.keys == old(store).keys
      ensures r.Ok? ==> errors == old(errors)
                        && store.values == old(store).values - {Slot(Fold(key, unicode), Fold(name, unicode))}
      ensures r.Err? ==> errors == old(errors) + [Failure(r.error, |old(trace)|)] && store.values == old(store).values
      ensures trace == old(trace) + [store]
    {
      var fails: bool := *;
      if fails {
        var code: int := *;
        errors := errors + [Failure(IoError(code), |old(trace)|)];
        r := Err(IoError(code));
      } else {
        store := Store(store.keys, store.values - {Slot(Fold(key, unicode), Fold(name, unicode))});
        r := Ok(());
      }
      trace := trace + [store];
    }
  }
}
