/**
 The keymap: which command each shortcut triggers, and for each command the shortcuts that trigger it, kept
 as two tables that every binding and unbinding updates together. The order of a command's shortcuts is that
 in which they were last bound.
 */
module Keymap {
  import opened Common
  import opened Shortcuts

  datatype Conflict<C> = ConflictingBinding(shortcut: Shortcut, existing: C, attempted: C)

  function Without(list: seq<Shortcut>, s: Shortcut): seq<Shortcut> {
    if list == [] then []
    else
      var n := |list| - 1;
      if list[n] == s then Without(list[..n], s) else Without(list[..n], s) + [list[n]]
  }

  lemma {:induction false} WithoutHas(list: seq<Shortcut>, s: Shortcut, x: Shortcut)
    ensures x in Without(list, s) <==> x in list && x != s
  {
    if list != [] {
      var n := |list| - 1;
      WithoutHas(list[..n], s, x);
      assert list == list[..n] + [list[n]];
    }
  }

  lemma {:induction false} WithoutKeepsOrder(list: seq<Shortcut>, s: Shortcut)
    requires NoRepeats(list)
    ensures NoRepeats(Without(list, s))
  {
    if list != [] {
      var n := |list| - 1;
      WithoutKeepsOrder(list[..n], s);
      WithoutHas(list[..n], s, list[n]);
    }
  }

  lemma {:induction false} WithoutAbsent(list: seq<Shortcut>, s: Shortcut)
    requires s !in list
    ensures Without(list, s) == list
  {
    if list != [] {
      var n := |list| - 1;
      assert list == list[..n] + [list[n]];
      WithoutAbsent(list[..n], s);
    }
  }

  /** What `bind`, `try_bind` and `unbind` may be asked. */
  datatype Operation<C> = Bind(shortcut: Shortcut, command: C) | TryBind(shortcut: Shortcut, command: C) | Unbind(shortcut: Shortcut)

  /** A plain table in which the last binding wins. */
  function Applied<C(==)>(table: map<Shortcut, C>, op: Operation<C>): map<Shortcut, C> {
    match op
    case Bind(s, c) => table[s := c]
    case TryBind(s, c) => if s in table && table[s] != c then table else table[s := c]
    case Unbind(s) => table - {s}
  }

  function AllApplied<C(==)>(ops: seq<Operation<C>>): map<Shortcut, C> {
    if ops == [] then map[] else Applied(AllApplied(ops[..|ops| - 1]), ops[|ops| - 1])
  }

  /** A command's shortcuts, none if it has no list. */
  function ListIn<C(==)>(table: map<C, seq<Shortcut>>, c: C): seq<Shortcut> {
    if c in table then table[c] else []
  }

  /** The tables are inverses: a shortcut is in a command's list just where it triggers it, and there once. */
  ghost predicate Inverse<C(!new)>(commandOf: map<Shortcut, C>, shortcutsOf: map<C, seq<Shortcut>>) {
    && (forall s, c :: s in ListIn(shortcutsOf, c) <==> s in commandOf && commandOf[s] == c)
    && (forall c :: NoRepeats(ListIn(shortcutsOf, c)))
  }

  /** Every list loses a shortcut, and no other. */
  ghost predicate Loses<C(!new)>(before: map<C, seq<Shortcut>>, after: map<C, seq<Shortcut>>, s: Shortcut) {
    forall c :: ListIn(after, c) == Without(ListIn(before, c), s)
  }

  /** Taking a shortcut from its command's list takes it from every list. */
  lemma TakenFromOne<C(!new)>(commandOf: map<Shortcut, C>, before: map<C, seq<Shortcut>>, after: map<C, seq<Shortcut>>, s: Shortcut)
    requires Inverse(commandOf, before)
    requires forall c :: ListIn(after, c) == if s in commandOf && commandOf[s] == c then Without(ListIn(before, c), s)
                                             else ListIn(before, c)
    ensures Loses(before, after, s)
  {
    forall c ensures ListIn(after, c) == Without(ListIn(before, c), s) {
      if s !in ListIn(before, c) {
        WithoutAbsent(ListIn(before, c), s);
      }
    }
  }

  lemma LosingKeepsInverse<C(!new)>(commandOf: map<Shortcut, C>, before: map<C, seq<Shortcut>>, after: map<C, seq<Shortcut>>,
                                    s: Shortcut)
    requires Inverse(commandOf, before) && Loses(before, after, s)
    ensures Inverse(commandOf - {s}, after)
  {
    forall x, c ensures x in ListIn(after, c) <==> x in commandOf - {s} && (commandOf - {s})[x] == c {
      WithoutHas(ListIn(before, c), s, x);
    }
    forall c ensures NoRepeats(ListIn(after, c)) {
      WithoutKeepsOrder(ListIn(before, c), s);
    }
  }

  lemma GainingKeepsInverse<C(!new)>(commandOf: map<Shortcut, C>, before: map<C, seq<Shortcut>>, s: Shortcut, c: C)
    requires Inverse(commandOf, before) && s !in commandOf
    ensures Inverse(commandOf[s := c], before[c := ListIn(before, c) + [s]])
    ensures s !in ListIn(before, c)
  {
    var after := before[c := ListIn(before, c) + [s]];
    assert s !in ListIn(before, c);
    forall d ensures NoRepeats(ListIn(after, d)) {
      if d != c {
        assert ListIn(after, d) == ListIn(before, d);
      }
    }
    forall x, d ensures x in ListIn(after, d) <==> x in commandOf[s := c] && commandOf[s := c][x] == d {
      if d != c {
        assert ListIn(after, d) == ListIn(before, d);
      }
    }
  }

  class Keymap<C(==, !new)> {
    var commandOf: map<Shortcut, C>
    var shortcutsOf: map<C, seq<Shortcut>>

    constructor ()
      ensures commandOf == map[] && shortcutsOf == map[] && Valid()
    {
      commandOf, shortcutsOf := map[], map[];
    }

    function ShortcutsFor(c: C): seq<Shortcut>
      reads this
    {
      ListIn(shortcutsOf, c)
    }

    ghost predicate Valid()
      reads this
    {
      Inverse(commandOf, shortcutsOf)
    }

    /** Takes a shortcut out of a command's list, if the command has one. */
    method Retain(c: C, s: Shortcut)
      modifies this`shortcutsOf
      ensures ListIn(shortcutsOf, c) == Without(ListIn(old(shortcutsOf), c), s)
      ensures forall d | d != c :: ListIn(shortcutsOf, d) == ListIn(old(shortcutsOf), d)
    {
      if c in shortcutsOf {
        shortcutsOf := shortcutsOf[c := Without(shortcutsOf[c], s)];
      }
    }

    /** Binds a shortcut, replacing any binding it had: it goes to the end of the command's list, and out of every
        other. */
    method Bind(s: Shortcut, c: C)
      requires Valid()
      modifies this
      ensures Valid() && commandOf == old(commandOf)[s := c]
      ensures ShortcutsFor(c) == Without(old(ShortcutsFor(c)), s) + [s]
      ensures forall d | d != c :: ShortcutsFor(d) == Without(old(ShortcutsFor(d)), s)
    {
      hide Inverse, Without;
      ghost var before := commandOf;
      if s in commandOf {
        var earlier := commandOf[s];
        commandOf := commandOf[s := c];
        Retain(earlier, s);
      } else {
        commandOf := commandOf[s := c];
      }
      ghost var kept := shortcutsOf;
      TakenFromOne(before, old(shortcutsOf), kept, s);
      LosingKeepsInverse(before, old(shortcutsOf), kept, s);
      GainingKeepsInverse(before - {s}, kept, s, c);
      assert (before - {s})[s := c] == commandOf;
      var list := ListIn(shortcutsOf, c);
      if s !in list {
        shortcutsOf := shortcutsOf[c := list + [s]];
      }
    }

    /** Binds a shortcut unless another command has it, and then changes nothing. */
    method TryBind(s: Shortcut, c: C) returns (r: Result<(), Conflict<C>>)
      requires Valid()
      modifies this
      ensures Valid()
      ensures r.Err? <==> s in old(commandOf) && old(commandOf)[s] != c
      ensures r.Err? ==> r.error == ConflictingBinding(s, old(commandOf)[s], c)
                         && commandOf == old(commandOf) && shortcutsOf == old(shortcutsOf)
      ensures r.Ok? ==> commandOf == old(commandOf)[s := c] && ShortcutsFor(c) == Without(old(ShortcutsFor(c)), s) + [s]
    {
      if s in commandOf && commandOf[s] != c {
        return Err(ConflictingBinding(s, commandOf[s], c));
      }
      Bind(s, c);
      r := Ok(());
    }

    /** Unbinds a shortcut, if it is bound. */
    method Unbind(s: Shortcut) returns (r: Option<C>)
      requires Valid()
      modifies this
      ensures Valid() && commandOf == old(commandOf) - {s}
      ensures r == if s in old(commandOf) then Some(old(commandOf)[s]) else None
      ensures forall d :: ShortcutsFor(d) == Without(old(ShortcutsFor(d)), s)
    {
      hide Inverse, Without;
      ghost var before := commandOf;
      r := None;
      if s in commandOf {
        r := Some(commandOf[s]);
        commandOf := commandOf - {s};
        Retain(r.value, s);
      }
      TakenFromOne(before, old(shortcutsOf), shortcutsOf, s);
      LosingKeepsInverse(before, old(shortcutsOf), shortcutsOf, s);
      assert before - {s} == commandOf;
    }
  }

  /** Whatever is asked in whatever order, the keymap is the plain table, and its two tables are inverses. */
  method Perform<C(==, !new)>(ops: seq<Operation<C>>) returns (keymap: Keymap<C>)
    ensures keymap.Valid() && keymap.commandOf == AllApplied(ops)
  {
    keymap := new Keymap();
    for i := 0 to |ops|
      invariant fresh(keymap) && keymap.Valid() && keymap.commandOf == AllApplied(ops[..i])
    {
      assert ops[..i + 1][..i] == ops[..i];
      match ops[i] {
        case Bind(s, c) => keymap.Bind(s, c);
        case TryBind(s, c) => var r := keymap.TryBind(s, c);
        case Unbind(s) => var r := keymap.Unbind(s);
      }
    }
    assert ops[..|ops|] == ops;
  }

  /** A binding stands until the shortcut is bound or unbound again; trying to bind it elsewhere does not undo it. */
  lemma {:induction false} LastBindingWins<C>(ops: seq<Operation<C>>, i: nat, s: Shortcut, c: C)
    requires i < |ops| && ops[i] == Bind(s, c)
    requires forall j | i < j < |ops| :: ops[j].shortcut != s || ops[j].TryBind?
    ensures s in AllApplied(ops) && AllApplied(ops)[s] == c
    decreases |ops|
  {
    var n := |ops| - 1;
    if i < n {
      LastBindingWins(ops[..n], i, s, c);
    }
  }
}
